/** One market as a value: both sides in priority order, and what placing and cancelling do to it. */
module BookSpec {
  import opened Domain
  import opened Matching

  datatype BookView = BookView(bids: seq<Order>, asks: seq<Order>, last: Option<nat>) {
    function Resting(side: Side): seq<Order> {
      if side.Bid? then bids else asks
    }

    function With(side: Side, s: seq<Order>): BookView {
      if side.Bid? then this.(bids := s) else this.(asks := s)
    }
  }

  function NewOrder(id: nat, account: AccountId, req: OrderRequest): Order {
    Order(id, req.orderType, req.side, req.price, req.size, req.size, account)
  }

  const EmptyBook := BookView([], [], None)

  /** Everything one placement produces: the new book, its events, its changed levels. */
  datatype Placement = Placement(
    book: BookView, trades: seq<Trade>, updates: seq<OrderUpdate>, remaining: nat,
    dirty: set<(Side, nat)>)

  /** New orders queue behind every order of the same or a better price. */
  function Enqueue(s: seq<Order>, o: Order): seq<Order> {
    if s == [] || Better(o.side, o.price, s[0].price) then [o] + s
    else [s[0]] + Enqueue(s[1..], o)
  }

  predicate Rests(taker: Order, remaining: nat) {
    remaining > 0 && taker.orderType.Limit?
  }

  function TakerUpdate(taker: Order, remaining: nat): seq<OrderUpdate> {
    var filled := taker.size - remaining;
    if remaining == 0 then [OrderUpdate(taker.id, taker.account, filled, remaining, Filled)]
    else if taker.orderType.Market? then [OrderUpdate(taker.id, taker.account, filled, remaining, Cancelled)]
    else if filled > 0 then [OrderUpdate(taker.id, taker.account, filled, remaining, PartiallyFilled)]
    else []
  }

  function LastPrice(before: Option<nat>, trades: seq<Trade>): Option<nat> {
    if trades == [] then before else Some(trades[|trades| - 1].price)
  }

  function TradedLevels(trades: seq<Trade>): set<(Side, nat)> {
    set t | t in trades :: (t.takerSide.Opposite(), t.price)
  }

  function RestedLevels(taker: Order, remaining: nat): set<(Side, nat)> {
    if Rests(taker, remaining) then {(taker.side, taker.price)} else {}
  }

  function OwnAfter(own: seq<Order>, taker: Order, remaining: nat): seq<Order> {
    if Rests(taker, remaining) then Enqueue(own, taker.(remaining := remaining)) else own
  }

  /** Match against the opposite side, then rest what is left of a limit order. */
  function AddOrder(b: BookView, pair: Pair, taker: Order): Placement {
    var opp := taker.side.Opposite();
    var o := Match(pair, taker, b.Resting(opp));
    Placement(
      b.With(opp, o.rest).With(taker.side, OwnAfter(b.Resting(taker.side), taker, o.remaining))
       .(last := LastPrice(b.last, o.trades)),
      o.trades,
      o.updates + TakerUpdate(taker, o.remaining),
      o.remaining,
      TradedLevels(o.trades) + RestedLevels(taker, o.remaining))
  }

  // ----- cancelling -----

  function Find(s: seq<Order>, id: nat): Option<Order> {
    if s == [] then None else if s[0].id == id then Some(s[0]) else Find(s[1..], id)
  }

  function Without(s: seq<Order>, id: nat): seq<Order> {
    if s == [] then [] else if s[0].id == id then s[1..] else [s[0]] + Without(s[1..], id)
  }

  function Lookup(b: BookView, id: nat): Option<Order> {
    if Find(b.bids, id).Some? then Find(b.bids, id) else Find(b.asks, id)
  }

  function Drop(b: BookView, o: Order): BookView {
    b.With(o.side, Without(b.Resting(o.side), o.id))
  }

  // ----- level aggregates -----

  function LevelQty(b: BookView, side: Side, price: nat): nat {
    OrderTotal(Level(price), b.Resting(side))
  }

  function Deltas(b: BookView, dirty: set<(Side, nat)>): map<(Side, nat), nat> {
    map k | k in dirty :: LevelQty(b, k.0, k.1)
  }

  // ----- the invariant of a resting side and of a book -----

  predicate Ahead(x: Order, y: Order) {
    Better(x.side, x.price, y.price) || (x.price == y.price && x.id < y.id)
  }

  ghost predicate SideInv(s: seq<Order>, side: Side) {
    && (forall i :: 0 <= i < |s| ==> s[i].side == side && s[i].orderType.Limit? && 0 < s[i].remaining <= s[i].size)
    && (forall i, j {:trigger Ahead(s[i], s[j])} :: 0 <= i < j < |s| ==> Ahead(s[i], s[j]))
  }

  predicate Differ(x: Order, y: Order) {
    x.id != y.id
  }

  ghost predicate DistinctIds(s: seq<Order>) {
    forall i, j {:trigger Differ(s[i], s[j])} :: 0 <= i < j < |s| ==> Differ(s[i], s[j])
  }

  ghost function Ids(s: seq<Order>): set<nat> {
    set i | 0 <= i < |s| :: s[i].id
  }

  ghost function BookIds(b: BookView): set<nat> {
    Ids(b.bids) + Ids(b.asks)
  }

  /** `x` on `side` does not cross `y` on the other side. */
  predicate Clear(side: Side, x: Order, y: Order) {
    Better(side.Opposite(), x.price, y.price)
  }

  ghost predicate Separate(own: seq<Order>, opp: seq<Order>, side: Side) {
    forall i, j {:trigger Clear(side, own[i], opp[j])} ::
      0 <= i < |own| && 0 <= j < |opp| ==> Clear(side, own[i], opp[j])
  }

  /** Both sides, seen from `side`: priority order, live orders, one id per order, no cross. */
  ghost predicate SidesInv(own: seq<Order>, opp: seq<Order>, side: Side) {
    && SideInv(own, side)
    && SideInv(opp, side.Opposite())
    && DistinctIds(own)
    && DistinctIds(opp)
    && Ids(own) !! Ids(opp)
    && Separate(own, opp, side)
  }

  ghost predicate BookInv(b: BookView) {
    SidesInv(b.bids, b.asks, Bid)
  }

  /** The best bid is below the best ask: no two resting orders could trade. */
  lemma Uncrossed(b: BookView, bid: Order, ask: Order)
    requires BookInv(b) && bid in b.bids && ask in b.asks
    ensures bid.price < ask.price
  {
    var i :| 0 <= i < |b.bids| && b.bids[i] == bid;
    var j :| 0 <= j < |b.asks| && b.asks[j] == ask;
    assert Clear(Bid, b.bids[i], b.asks[j]);
  }

  lemma SidesSwap(own: seq<Order>, opp: seq<Order>, side: Side)
    requires SidesInv(own, opp, side)
    ensures SidesInv(opp, own, side.Opposite())
  {
    forall i, j | 0 <= i < |opp| && 0 <= j < |own| ensures Clear(side.Opposite(), opp[i], own[j]) {
      assert Clear(side, own[j], opp[i]);
    }
  }

  /** The book invariant as the taker of either side sees it. */
  lemma BookInvFrom(b: BookView, side: Side)
    ensures BookInv(b) <==> SidesInv(b.Resting(side), b.Resting(side.Opposite()), side)
  {
    if side.Ask? {
      if BookInv(b) {
        SidesSwap(b.bids, b.asks, Bid);
      }
      if SidesInv(b.asks, b.bids, Ask) {
        SidesSwap(b.asks, b.bids, Ask);
      }
    }
  }

  // ----- enqueueing keeps priority order -----

  lemma {:induction false} EnqueueMembers(s: seq<Order>, o: Order)
    ensures |Enqueue(s, o)| == |s| + 1
    ensures forall x :: x in Enqueue(s, o) <==> x == o || x in s
    ensures Ids(Enqueue(s, o)) == Ids(s) + {o.id}
    ensures forall m :: OrderTotal(m, Enqueue(s, o)) == OrderTotal(m, s) + OrderWeight(m, o)
  {
    var r := Enqueue(s, o);
    if s == [] || Better(o.side, o.price, s[0].price) {
      assert r[1..] == s;
    } else {
      EnqueueMembers(s[1..], o);
      assert r[1..] == Enqueue(s[1..], o);
    }
    IdsOfMembers(r);
    IdsOfMembers(s);
  }

  lemma IdsOfMembers(s: seq<Order>)
    ensures forall id :: id in Ids(s) <==> exists x :: x in s && x.id == id
  {
    forall x | x in s ensures x.id in Ids(s) {
      var i :| 0 <= i < |s| && s[i] == x;
    }
  }

  lemma SidePrepend(x: Order, s: seq<Order>)
    requires SideInv(s, x.side) && DistinctIds(s)
    requires x.orderType.Limit? && 0 < x.remaining <= x.size
    requires forall y :: y in s ==> Ahead(x, y) && Differ(x, y)
    ensures SideInv([x] + s, x.side) && DistinctIds([x] + s)
  {
    var r := [x] + s;
    forall i, j | 0 <= i < j < |r| ensures Ahead(r[i], r[j]) && Differ(r[i], r[j]) {
      if i > 0 {
        assert Ahead(s[i - 1], s[j - 1]) && Differ(s[i - 1], s[j - 1]);
      } else {
        assert r[j] == s[j - 1] && s[j - 1] in s;
      }
    }
  }

  lemma SideTail(s: seq<Order>, side: Side)
    requires s != [] && SideInv(s, side) && DistinctIds(s)
    ensures SideInv(s[1..], side) && DistinctIds(s[1..])
    ensures forall y :: y in s[1..] ==> Ahead(s[0], y) && Differ(s[0], y)
  {
    var r := s[1..];
    forall i, j | 0 <= i < j < |r| ensures Ahead(r[i], r[j]) && Differ(r[i], r[j]) {
      assert Ahead(s[i + 1], s[j + 1]) && Differ(s[i + 1], s[j + 1]);
    }
    forall y | y in r ensures Ahead(s[0], y) && Differ(s[0], y) {
      var j :| 0 <= j < |r| && r[j] == y;
      assert Ahead(s[0], s[j + 1]) && Differ(s[0], s[j + 1]);
    }
  }

  lemma {:induction false} EnqueueKeepsSide(s: seq<Order>, o: Order)
    requires SideInv(s, o.side) && DistinctIds(s)
    requires o.orderType.Limit? && 0 < o.remaining <= o.size
    requires forall y :: y in s ==> y.id < o.id
    ensures SideInv(Enqueue(s, o), o.side) && DistinctIds(Enqueue(s, o))
  {
    if s == [] {
      SidePrepend(o, s);
    } else {
      SideTail(s, o.side);
      assert s == [s[0]] + s[1..];
      if Better(o.side, o.price, s[0].price) {
        SidePrepend(o, s);
      } else {
        EnqueueKeepsSide(s[1..], o);
        EnqueueMembers(s[1..], o);
        SidePrepend(s[0], Enqueue(s[1..], o));
      }
    }
  }

  // ----- matching keeps the side it eats from -----

  /** The same order, possibly with more of it filled. */
  predicate SameOrder(before: Order, after: Order) {
    after == before.(remaining := after.remaining) && after.remaining <= before.remaining
  }

  /** `rest` is `opp` without its first `k` orders, the new front possibly part-filled. */
  ghost predicate TailOf(rest: seq<Order>, opp: seq<Order>, k: nat) {
    && |rest| + k == |opp|
    && (forall i :: 0 <= i < |rest| ==> SameOrder(opp[i + k], rest[i]) && 0 < rest[i].remaining)
  }

  lemma {:induction false} RestIsTail(pair: Pair, taker: Order, opp: seq<Order>) returns (k: nat)
    requires Alive(opp)
    ensures TailOf(Match(pair, taker, opp).rest, opp, k)
    decreases taker.remaining, |opp|
  {
    k := 0;
    if !Stops(taker, opp) {
      var t := TradeOf(pair, taker, opp[0]);
      var maker := Reduce(opp[0], t.qty);
      if maker.remaining == 0 {
        var h := RestIsTail(pair, Reduce(taker, t.qty), opp[1..]);
        k := h + 1;
        TailOfTail(Match(pair, Reduce(taker, t.qty), opp[1..]).rest, opp, h);
      } else {
        assert Match(pair, Reduce(taker, t.qty), AfterFill(maker, opp[1..])).rest == [maker] + opp[1..];
      }
    }
  }

  lemma TailOfTail(rest: seq<Order>, opp: seq<Order>, h: nat)
    requires opp != [] && TailOf(rest, opp[1..], h)
    ensures TailOf(rest, opp, h + 1)
  {
    forall i | 0 <= i < |rest| ensures SameOrder(opp[i + (h + 1)], rest[i]) && 0 < rest[i].remaining {
      assert opp[1..][i + h] == opp[i + (h + 1)];
    }
  }

  lemma TailKeepsSide(rest: seq<Order>, opp: seq<Order>, k: nat, side: Side)
    requires SideInv(opp, side) && DistinctIds(opp) && TailOf(rest, opp, k)
    ensures SideInv(rest, side) && DistinctIds(rest)
  {
    forall i, j | 0 <= i < j < |rest| ensures Ahead(rest[i], rest[j]) && Differ(rest[i], rest[j]) {
      assert Ahead(opp[i + k], opp[j + k]) && Differ(opp[i + k], opp[j + k]);
      assert SameOrder(opp[i + k], rest[i]) && SameOrder(opp[j + k], rest[j]);
    }
  }

  lemma TailIds(rest: seq<Order>, opp: seq<Order>, k: nat)
    requires TailOf(rest, opp, k)
    ensures Ids(rest) <= Ids(opp)
  {
    forall i | 0 <= i < |rest| ensures rest[i].id in Ids(opp) {
      assert SameOrder(opp[i + k], rest[i]);
    }
  }

  // ----- placing an order keeps the whole book -----

  lemma AddOrderKeepsInv(b: BookView, pair: Pair, taker: Order)
    requires BookInv(b)
    requires taker.remaining == taker.size
    requires forall id :: id in BookIds(b) ==> id < taker.id
    ensures BookInv(AddOrder(b, pair, taker).book)
    ensures BookIds(AddOrder(b, pair, taker).book) <= BookIds(b) + {taker.id}
  {
    BookInvFrom(b, taker.side);
    var own, opp := b.Resting(taker.side), b.Resting(taker.side.Opposite());
    var p := AddOrder(b, pair, taker);
    assert BookIds(b) == Ids(own) + Ids(opp);
    assert Ids(own) <= BookIds(b) && Ids(opp) <= BookIds(b);
    PlacedSidesInv(own, opp, pair, taker);
    BookInvFrom(p.book, taker.side);
    assert BookIds(p.book) == Ids(p.book.Resting(taker.side)) + Ids(p.book.Resting(taker.side.Opposite()));
  }

  lemma PlacedSidesInv(own: seq<Order>, opp: seq<Order>, pair: Pair, taker: Order)
    requires SidesInv(own, opp, taker.side)
    requires taker.remaining == taker.size
    requires (forall id :: id in Ids(own) ==> id < taker.id) && (forall id :: id in Ids(opp) ==> id < taker.id)
    ensures var o := Match(pair, taker, opp);
            && SidesInv(OwnAfter(own, taker, o.remaining), o.rest, taker.side)
            && Ids(o.rest) <= Ids(opp)
            && Ids(OwnAfter(own, taker, o.remaining)) <= Ids(own) + {taker.id}
  {
    var o := Match(pair, taker, opp);
    var k := RestIsTail(pair, taker, opp);
    MatchStops(pair, taker, opp);
    TailIds(o.rest, opp, k);
    OwnAfterInv(own, taker, o.remaining);
    SidesAfter(own, opp, taker, o.rest, k, o.remaining);
  }

  lemma OwnAfterInv(own: seq<Order>, taker: Order, remaining: nat)
    requires SideInv(own, taker.side) && DistinctIds(own)
    requires remaining <= taker.size
    requires forall id :: id in Ids(own) ==> id < taker.id
    ensures var own' := OwnAfter(own, taker, remaining);
            && SideInv(own', taker.side) && DistinctIds(own')
            && Ids(own') <= Ids(own) + {taker.id}
            && (forall x :: x in own' ==> x in own || (Rests(taker, remaining) && x.price == taker.price))
  {
    if Rests(taker, remaining) {
      var order := taker.(remaining := remaining);
      IdsOfMembers(own);
      forall y | y in own ensures y.id < order.id {
        assert y.id in Ids(own);
      }
      EnqueueKeepsSide(own, order);
      EnqueueMembers(own, order);
    }
  }

  lemma SidesAfter(own: seq<Order>, opp: seq<Order>, taker: Order, rest: seq<Order>, k: nat, remaining: nat)
    requires SidesInv(own, opp, taker.side) && TailOf(rest, opp, k)
    requires (forall id :: id in Ids(own) ==> id < taker.id) && (forall id :: id in Ids(opp) ==> id < taker.id)
    requires Stops(taker.(remaining := remaining), rest) && remaining <= taker.size
    ensures SidesInv(OwnAfter(own, taker, remaining), rest, taker.side)
  {
    TailKeepsSide(rest, opp, k, taker.side.Opposite());
    TailIds(rest, opp, k);
    OwnAfterInv(own, taker, remaining);
    RestingSeparates(taker, rest, opp, k, own, OwnAfter(own, taker, remaining));
  }

  /** The best opposite price is beyond the taker's limit, so its side stays clear of the other. */
  lemma RestingSeparates(taker: Order, rest: seq<Order>, opp: seq<Order>, k: nat, own: seq<Order>, own': seq<Order>)
    requires SideInv(rest, taker.side.Opposite()) && TailOf(rest, opp, k)
    requires Separate(own, opp, taker.side)
    requires forall x :: x in own' ==> x in own || (x.price == taker.price && taker.orderType.Limit? && (rest == [] || !Crosses(taker, rest[0].price)))
    ensures Separate(own', rest, taker.side)
  {
    forall i, j | 0 <= i < |own'| && 0 <= j < |rest| ensures Clear(taker.side, own'[i], rest[j]) {
      assert SameOrder(opp[j + k], rest[j]);
      if own'[i] in own {
        var h :| 0 <= h < |own| && own[h] == own'[i];
        assert Clear(taker.side, own[h], opp[j + k]);
      } else if j > 0 {
        assert Ahead(rest[0], rest[j]);
      }
    }
  }

  ghost predicate FilledBefore(trades: seq<Trade>, i: nat, x: Order)
    requires i <= |trades|
  {
    exists j :: 0 <= j < i && trades[j].makerId == x.id && trades[j].qty == x.remaining
  }

  /** Cheapest ask or dearest bid first, then lowest id. */
  predicate ServedBefore(takerSide: Side, x: Order, y: Order) {
    (if takerSide.Bid? then x.price < y.price else x.price > y.price) || (x.price == y.price && x.id < y.id)
  }

  /**
    Price-time priority, without naming the walk: each trade is at its maker's own price and within
    the taker's limit, and every order to be served before that maker was filled by an earlier trade.
   */
  lemma PriceTimePriority(b: BookView, pair: Pair, taker: Order, i: nat) returns (maker: Order)
    requires BookInv(b)
    requires i < |AddOrder(b, pair, taker).trades|
    ensures maker in b.Resting(taker.side.Opposite())
    ensures var p := AddOrder(b, pair, taker);
            i < |p.updates| && TradedWith(pair, taker, maker, p.trades[i], p.updates[i])
    ensures forall x :: x in b.Resting(taker.side.Opposite()) && ServedBefore(taker.side, x, maker) ==>
              FilledBefore(AddOrder(b, pair, taker).trades, i, x)
  {
    BookInvFrom(b, taker.side);
    maker := WalkPriority(pair, taker, b.Resting(taker.side.Opposite()), i);
  }

  lemma WalkPriority(pair: Pair, taker: Order, opp: seq<Order>, i: nat) returns (maker: Order)
    requires SideInv(opp, taker.side.Opposite())
    requires i < |Match(pair, taker, opp).trades|
    ensures maker in opp
    ensures var o := Match(pair, taker, opp);
            i < |o.updates| && TradedWith(pair, taker, maker, o.trades[i], o.updates[i])
    ensures forall x :: x in opp && ServedBefore(taker.side, x, maker) ==>
              FilledBefore(Match(pair, taker, opp).trades, i, x)
  {
    MatchWalks(pair, taker, opp);
    AheadFilled(opp, Match(pair, taker, opp).trades, i, taker.side.Opposite());
    maker := opp[i];
    forall x | x in opp && ServedBefore(taker.side, x, maker) ensures Ahead(x, maker) {
      var j :| 0 <= j < |opp| && opp[j] == x;
      assert x.side == taker.side.Opposite();
    }
  }

  lemma NotBehind(s: seq<Order>, side: Side, i: nat)
    requires SideInv(s, side) && i < |s|
    ensures forall j :: i < j < |s| ==> !Ahead(s[j], s[i])
  {
    forall j | i < j < |s| ensures !Ahead(s[j], s[i]) {
      assert Ahead(s[i], s[j]);
    }
  }

  lemma AheadFilled(opp: seq<Order>, trades: seq<Trade>, i: nat, side: Side)
    requires SideInv(opp, side) && i < |trades| <= |opp|
    requires forall j :: 0 <= j < i ==> trades[j].makerId == opp[j].id && trades[j].qty == opp[j].remaining
    ensures forall x :: x in opp && Ahead(x, opp[i]) ==> FilledBefore(trades, i, x)
  {
    forall x | x in opp && Ahead(x, opp[i]) ensures FilledBefore(trades, i, x) {
      var j :| 0 <= j < |opp| && opp[j] == x;
      assert !(i < j) by {
        NotBehind(opp, side, i);
      }
      assert trades[j].makerId == x.id && trades[j].qty == x.remaining;
    }
  }

  /**
    Matching stops only when the taker is filled or everything left on the other side is beyond its
    limit; a market order has no limit, so it stops only when it is filled or that side is empty.
   */
  lemma StopsOnlyWhenDone(b: BookView, pair: Pair, taker: Order, x: Order)
    requires BookInv(b)
    requires x in AddOrder(b, pair, taker).book.Resting(taker.side.Opposite())
    ensures AddOrder(b, pair, taker).remaining > 0 ==>
              taker.orderType.Limit? && if taker.side.Bid? then x.price > taker.price else x.price < taker.price
  {
    BookInvFrom(b, taker.side);
    WalkStops(pair, taker, b.Resting(taker.side.Opposite()), x);
  }

  lemma WalkStops(pair: Pair, taker: Order, opp: seq<Order>, x: Order)
    requires SideInv(opp, taker.side.Opposite()) && DistinctIds(opp)
    requires x in Match(pair, taker, opp).rest
    ensures Match(pair, taker, opp).remaining == 0 || !WithinLimit(taker, x.price)
  {
    MatchStops(pair, taker, opp);
    var k := RestIsTail(pair, taker, opp);
    var rest := Match(pair, taker, opp).rest;
    TailKeepsSide(rest, opp, k, taker.side.Opposite());
    BeyondBest(taker, rest, x);
  }

  /** What the best order does not cross, no order behind it crosses. */
  lemma BeyondBest(taker: Order, rest: seq<Order>, x: Order)
    requires SideInv(rest, taker.side.Opposite()) && x in rest
    ensures WithinLimit(taker, x.price) ==> WithinLimit(taker, rest[0].price)
  {
    var j :| 0 <= j < |rest| && rest[j] == x;
    if j > 0 {
      assert Ahead(rest[0], rest[j]);
    }
  }

  // ----- cancelling keeps the book -----

  lemma {:induction false} FindFinds(s: seq<Order>, id: nat)
    ensures Find(s, id).Some? <==> id in Ids(s)
    ensures Find(s, id).Some? ==> Find(s, id).value in s && Find(s, id).value.id == id
  {
    if s != [] && s[0].id != id {
      FindFinds(s[1..], id);
      assert Ids(s) == Ids(s[1..]) + {s[0].id} by {
        assert forall i :: 0 < i < |s| ==> s[i] == s[1..][i - 1];
      }
    }
  }

  lemma {:induction false} FindUnique(s: seq<Order>, o: Order)
    requires DistinctIds(s) && o in s
    ensures Find(s, o.id) == Some(o)
  {
    if s[0] != o {
      var i :| 0 <= i < |s| && s[i] == o;
      assert Differ(s[0], s[i]);
      DistinctTail(s);
      assert s[1..][i - 1] == o;
      FindUnique(s[1..], o);
    }
  }

  lemma DistinctTail(s: seq<Order>)
    requires s != [] && DistinctIds(s)
    ensures DistinctIds(s[1..]) && s[0].id !in Ids(s[1..])
  {
    forall i, j | 0 <= i < j < |s[1..]| ensures Differ(s[1..][i], s[1..][j]) {
      assert Differ(s[i + 1], s[j + 1]);
    }
    forall i | 0 <= i < |s[1..]| ensures s[0].id != s[1..][i].id {
      assert Differ(s[0], s[i + 1]);
    }
  }

  lemma {:induction false} FirstWithId(s: seq<Order>, id: nat) returns (k: nat)
    requires id in Ids(s)
    ensures k < |s| && s[k].id == id && (forall i :: 0 <= i < k ==> s[i].id != id)
  {
    k := 0;
    while s[k].id != id
      invariant k < |s| && (forall i :: 0 <= i < k ==> s[i].id != id)
      decreases |s| - k
    {
      k := k + 1;
    }
  }

  lemma {:induction false} WithoutTakes(s: seq<Order>, id: nat, k: nat)
    requires k < |s| && s[k].id == id && (forall i :: 0 <= i < k ==> s[i].id != id)
    ensures Find(s, id) == Some(s[k])
    ensures Without(s, id) == s[..k] + s[k + 1..]
  {
    if k > 0 {
      WithoutTakes(s[1..], id, k - 1);
      assert s[..k] + s[k + 1..] == [s[0]] + (s[1..][..k - 1] + s[1..][k..]);
    }
  }

  lemma WithoutTakesOne(s: seq<Order>, id: nat) returns (k: nat)
    requires id in Ids(s)
    ensures k < |s| && Find(s, id) == Some(s[k]) && s[k].id == id
    ensures Without(s, id) == s[..k] + s[k + 1..]
  {
    k := FirstWithId(s, id);
    WithoutTakes(s, id, k);
  }

  lemma WithoutMembers(s: seq<Order>, o: Order)
    requires DistinctIds(s) && o in s
    ensures Ids(Without(s, o.id)) == Ids(s) - {o.id}
    ensures forall x :: x in Without(s, o.id) ==> x in s
    ensures forall m :: OrderTotal(m, s) == OrderTotal(m, Without(s, o.id)) + OrderWeight(m, o)
  {
    var id := o.id;
    FindUnique(s, o);
    FindFinds(s, id);
    var k := WithoutTakesOne(s, id);
    var r := Without(s, id);
    forall i | 0 <= i < |r| ensures r[i].id in Ids(s) && r[i].id != id {
      var j := if i < k then i else i + 1;
      assert r[i] == s[j];
      assert if i < k then Differ(s[i], s[k]) else Differ(s[k], s[j]);
    }
    forall j | 0 <= j < |s| && s[j].id != id ensures s[j].id in Ids(r) {
      assert s[j] == r[if j < k then j else j - 1];
    }
    forall m ensures OrderTotal(m, s) == OrderTotal(m, r) + OrderWeight(m, s[k]) {
      assert s == s[..k] + ([s[k]] + s[k + 1..]);
      OrderTotalConcat(m, s[..k], [s[k]] + s[k + 1..]);
      OrderTotalConcat(m, s[..k], s[k + 1..]);
      assert ([s[k]] + s[k + 1..])[1..] == s[k + 1..];
    }
  }

  lemma WithoutKeepsSide(s: seq<Order>, id: nat, side: Side)
    requires SideInv(s, side) && DistinctIds(s) && id in Ids(s)
    ensures SideInv(Without(s, id), side) && DistinctIds(Without(s, id))
  {
    var k := WithoutTakesOne(s, id);
    var r := Without(s, id);
    forall i, j | 0 <= i < j < |r| ensures Ahead(r[i], r[j]) && Differ(r[i], r[j]) {
      var i', j' := if i < k then i else i + 1, if j < k then j else j + 1;
      assert r[i] == s[i'] && r[j] == s[j'];
      assert Ahead(s[i'], s[j']) && Differ(s[i'], s[j']);
    }
  }

  lemma DropKeepsInv(b: BookView, o: Order)
    requires BookInv(b) && o in b.Resting(o.side)
    ensures BookInv(Drop(b, o))
    ensures BookIds(Drop(b, o)) == BookIds(b) - {o.id}
    ensures forall m :: OrderTotal(m, b.Resting(o.side)) ==
                        OrderTotal(m, Drop(b, o).Resting(o.side)) + OrderWeight(m, o)
  {
    BookInvFrom(b, o.side);
    var own, opp := b.Resting(o.side), b.Resting(o.side.Opposite());
    var own' := Without(own, o.id);
    IdsOfMembers(own);
    WithoutMembers(own, o);
    WithoutKeepsSide(own, o.id, o.side);
    SubsetSeparates(own, own', opp, o.side);
    BookInvFrom(Drop(b, o), o.side);
  }

  lemma SubsetSeparates(own: seq<Order>, own': seq<Order>, opp: seq<Order>, side: Side)
    requires Separate(own, opp, side)
    requires forall x :: x in own' ==> x in own
    ensures Separate(own', opp, side)
  {
    forall i, j | 0 <= i < |own'| && 0 <= j < |opp| ensures Clear(side, own'[i], opp[j]) {
      assert own'[i] in own;
      var h :| 0 <= h < |own| && own[h] == own'[i];
      assert Clear(side, own[h], opp[j]);
    }
  }

  /** `Lookup` finds exactly the resting orders, on the side they rest on. */
  lemma LookupFinds(b: BookView, id: nat)
    requires BookInv(b)
    ensures Lookup(b, id).Some? <==> id in BookIds(b)
    ensures Lookup(b, id).Some? ==>
              var o := Lookup(b, id).value; o.id == id && o in b.Resting(o.side)
  {
    FindFinds(b.bids, id);
    FindFinds(b.asks, id);
  }

  // ----- changed levels are all reported -----

  lemma {:induction false} NoTradeAtLevel(trades: seq<Trade>, price: nat)
    requires forall t :: t in trades ==> t.price != price
    ensures TradeTotal(Level(price), trades) == 0
  {
    if trades != [] {
      NoTradeAtLevel(trades[1..], price);
    }
  }

  lemma {:induction false} MatchTradesBelongToTaker(pair: Pair, taker: Order, opp: seq<Order>)
    ensures forall t :: t in Match(pair, taker, opp).trades ==>
              t.pair == pair && t.takerSide == taker.side && t.takerAccount == taker.account && t.takerId == taker.id
    decreases taker.remaining, |opp|
  {
    if !Stops(taker, opp) {
      var t := TradeOf(pair, taker, opp[0]);
      MatchTradesBelongToTaker(pair, Reduce(taker, t.qty), AfterFill(Reduce(opp[0], t.qty), opp[1..]));
    }
  }

  /** A level that is not reported dirty by a placement has the quantity it had before. */
  lemma PlacementReportsEveryLevel(b: BookView, pair: Pair, taker: Order, side: Side, price: nat)
    requires BookInv(b)
    requires (side, price) !in AddOrder(b, pair, taker).dirty
    ensures LevelQty(AddOrder(b, pair, taker).book, side, price) == LevelQty(b, side, price)
  {
    var opp := b.Resting(taker.side.Opposite());
    var o := Match(pair, taker, opp);
    if side == taker.side {
      OwnLevel(b.Resting(side), taker, o.remaining, price);
    } else {
      OppositeLevel(pair, taker, opp, price);
    }
  }

  lemma {:induction false} TradedSomething(m: Measure, trades: seq<Trade>, t: Trade)
    requires t in trades
    ensures TradeTotal(m, trades) >= TradeWeight(m, t)
  {
    if trades[0] != t {
      TradedSomething(m, trades[1..], t);
    }
  }

  lemma EveryTradeTakes(pair: Pair, taker: Order, opp: seq<Order>, t: Trade)
    requires Alive(opp) && t in Match(pair, taker, opp).trades
    ensures t.qty > 0
  {
    MatchWalks(pair, taker, opp);
    var o := Match(pair, taker, opp);
    var i :| 0 <= i < |o.trades| && o.trades[i] == t;
    assert TradedWith(pair, taker, opp[i], o.trades[i], o.updates[i]);
  }

  lemma TradedLevelShrinks(pair: Pair, taker: Order, opp: seq<Order>, price: nat)
    requires Alive(opp) && OnSide(opp, taker.side.Opposite())
    requires (taker.side.Opposite(), price) in TradedLevels(Match(pair, taker, opp).trades)
    ensures OrderTotal(Level(price), Match(pair, taker, opp).rest) < OrderTotal(Level(price), opp)
  {
    var trades := Match(pair, taker, opp).trades;
    var t :| t in trades && (t.takerSide.Opposite(), t.price) == (taker.side.Opposite(), price);
    EveryTradeTakes(pair, taker, opp, t);
    MatchConserves(Level(price), pair, taker, opp);
    TradedSomething(Level(price), trades, t);
  }

  lemma RestedLevelGrows(own: seq<Order>, taker: Order, remaining: nat, price: nat)
    requires (taker.side, price) in RestedLevels(taker, remaining)
    ensures OrderTotal(Level(price), OwnAfter(own, taker, remaining)) > OrderTotal(Level(price), own)
  {
    EnqueueMembers(own, taker.(remaining := remaining));
  }

  lemma OnlyOppositeTrades(pair: Pair, taker: Order, opp: seq<Order>, price: nat)
    ensures (taker.side, price) !in TradedLevels(Match(pair, taker, opp).trades)
  {
    MatchTradesBelongToTaker(pair, taker, opp);
  }

  /** A reported level did change: every trade takes something, and what rests adds something. */
  lemma ReportedLevelChanged(b: BookView, pair: Pair, taker: Order, side: Side, price: nat)
    requires BookInv(b)
    requires (side, price) in AddOrder(b, pair, taker).dirty
    ensures LevelQty(AddOrder(b, pair, taker).book, side, price) != LevelQty(b, side, price)
  {
    BookInvFrom(b, taker.side);
    var opp := b.Resting(taker.side.Opposite());
    var o := Match(pair, taker, opp);
    if side == taker.side {
      OnlyOppositeTrades(pair, taker, opp, price);
      RestedLevelGrows(b.Resting(side), taker, o.remaining, price);
    } else {
      TradedLevelShrinks(pair, taker, opp, price);
    }
  }

  /** The levels a placement reports are exactly those whose total it changed. */
  lemma ReportedIffChanged(b: BookView, pair: Pair, taker: Order, side: Side, price: nat)
    requires BookInv(b)
    ensures var p := AddOrder(b, pair, taker);
            (side, price) in p.dirty <==> LevelQty(p.book, side, price) != LevelQty(b, side, price)
  {
    if (side, price) in AddOrder(b, pair, taker).dirty {
      ReportedLevelChanged(b, pair, taker, side, price);
    } else {
      PlacementReportsEveryLevel(b, pair, taker, side, price);
    }
  }

  lemma OwnLevel(own: seq<Order>, taker: Order, remaining: nat, price: nat)
    requires (taker.side, price) !in RestedLevels(taker, remaining)
    ensures OrderTotal(Level(price), OwnAfter(own, taker, remaining)) == OrderTotal(Level(price), own)
  {
    EnqueueMembers(own, taker.(remaining := remaining));
  }

  lemma OppositeLevel(pair: Pair, taker: Order, opp: seq<Order>, price: nat)
    requires OnSide(opp, taker.side.Opposite())
    requires (taker.side.Opposite(), price) !in TradedLevels(Match(pair, taker, opp).trades)
    ensures OrderTotal(Level(price), Match(pair, taker, opp).rest) == OrderTotal(Level(price), opp)
  {
    var trades := Match(pair, taker, opp).trades;
    MatchConserves(Level(price), pair, taker, opp);
    MatchTradesBelongToTaker(pair, taker, opp);
    forall t | t in trades ensures t.price != price {
      assert (t.takerSide.Opposite(), t.price) in TradedLevels(trades);
    }
    NoTradeAtLevel(trades, price);
  }

  lemma CancelReportsItsLevel(b: BookView, o: Order, side: Side, price: nat)
    requires BookInv(b) && o in b.Resting(o.side)
    ensures LevelQty(Drop(b, o), side, price) ==
            LevelQty(b, side, price) - (if (side, price) == (o.side, o.price) then o.remaining else 0)
  {
    DropKeepsInv(b, o);
  }

  /** A level holds a positive quantity exactly when some order rests there. */
  lemma {:induction false} LevelNonEmpty(s: seq<Order>, price: nat)
    requires Alive(s)
    ensures OrderTotal(Level(price), s) > 0 <==> exists o :: o in s && o.price == price
  {
    if s != [] {
      LevelNonEmpty(s[1..], price);
      assert s == [s[0]] + s[1..];
    }
  }
}
