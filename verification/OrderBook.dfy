/**
  The order book as the engine runs it: sorted level maps of FIFO queues, an id index, a set
  of touched levels, nested matching loops. Every method is proved equal to `BookSpec`.
 */
module OrderBooks {
  import opened Domain
  import opened Matching
  import opened BookSpec
  import opened Levels
  import opened Listing

  datatype MatchResponse = MatchResponse(
    orderId: nat, trades: seq<Trade>, updates: seq<OrderUpdate>, takerRemaining: nat,
    bookDeltas: seq<((Side, nat), nat)>)

  // ----- what the matching loops keep -----

  /** The trades made so far, followed by matching what is left, is the whole match. */
  ghost predicate Progress(
    pair: Pair, taker: Order, opp0: seq<Order>,
    order: Order, opp: seq<Order>, trades: seq<Trade>, updates: seq<OrderUpdate>)
  {
    var o := Match(pair, order, opp);
    && order == taker.(remaining := order.remaining)
    && order.remaining <= taker.remaining
    && Match(pair, taker, opp0) == Outcome(trades + o.trades, updates + o.updates, o.rest, o.remaining)
  }

  lemma ProgressStart(pair: Pair, taker: Order, opp: seq<Order>)
    ensures Progress(pair, taker, opp, taker, opp, [], [])
  {
    var o := Match(pair, taker, opp);
    assert [] + o.trades == o.trades && [] + o.updates == o.updates;
  }

  lemma ProgressStep(
    pair: Pair, taker: Order, opp0: seq<Order>,
    order: Order, opp: seq<Order>, trades: seq<Trade>, updates: seq<OrderUpdate>)
    requires Progress(pair, taker, opp0, order, opp, trades, updates)
    requires !Stops(order, opp)
    ensures var t := TradeOf(pair, order, opp[0]);
            var maker := Reduce(opp[0], t.qty);
            Progress(pair, taker, opp0, Reduce(order, t.qty), AfterFill(maker, opp[1..]),
                     trades + [t], updates + [MakerUpdate(maker)])
  {
    var t := TradeOf(pair, order, opp[0]);
    var maker := Reduce(opp[0], t.qty);
    var o := Match(pair, Reduce(order, t.qty), AfterFill(maker, opp[1..]));
    assert trades + ([t] + o.trades) == (trades + [t]) + o.trades;
    assert updates + ([MakerUpdate(maker)] + o.updates) == (updates + [MakerUpdate(maker)]) + o.updates;
  }

  lemma ProgressDone(
    pair: Pair, taker: Order, opp0: seq<Order>,
    order: Order, opp: seq<Order>, trades: seq<Trade>, updates: seq<OrderUpdate>)
    requires Progress(pair, taker, opp0, order, opp, trades, updates)
    requires Stops(order, opp)
    ensures Match(pair, taker, opp0) == Outcome(trades, updates, opp, order.remaining)
  {
    assert trades + [] == trades && updates + [] == updates;
  }

  lemma FrontAfterFill(queue: seq<Order>, rest: seq<Order>, maker: Order)
    requires queue != []
    ensures AfterFill(maker, (queue + rest)[1..]) ==
            (if maker.remaining == 0 then queue[1..] + rest else queue[0 := maker] + rest)
  {
    assert (queue + rest)[1..] == queue[1..] + rest;
    assert queue[0 := maker] == [maker] + queue[1..];
  }

  /** The index entry of `id` is the location of the one order with that id, on one side only. */
  ghost predicate IndexedAt(index: map<nat, Location>, own: seq<Order>, opp: seq<Order>, id: nat) {
    && (id !in Ids(own) || id !in Ids(opp))
    && (id in index <==> id in IndexOf(own) + IndexOf(opp))
    && (id in index ==> index[id] == (IndexOf(own) + IndexOf(opp))[id])
  }

  /** Ids stay unique and `order_index` holds exactly the resting orders. */
  ghost predicate Indexed(index: map<nat, Location>, own: seq<Order>, opp: seq<Order>) {
    && DistinctIds(own) && DistinctIds(opp)
    && (forall id: nat {:trigger IndexedAt(index, own, opp, id)} :: IndexedAt(index, own, opp, id))
  }

  /** The same, said of the index as a whole. */
  ghost predicate IndexIs(index: map<nat, Location>, own: seq<Order>, opp: seq<Order>) {
    Ids(own) !! Ids(opp) && index == IndexOf(own) + IndexOf(opp)
  }

  lemma IndexedWhole(index: map<nat, Location>, own: seq<Order>, opp: seq<Order>)
    requires Indexed(index, own, opp)
    ensures IndexIs(index, own, opp)
  {
    var whole := IndexOf(own) + IndexOf(opp);
    forall id: nat ensures (id !in Ids(own) || id !in Ids(opp)) && (id in index <==> id in whole) {
      assert IndexedAt(index, own, opp, id);
    }
    forall id | id in index ensures index[id] == whole[id] {
      assert IndexedAt(index, own, opp, id);
    }
  }

  lemma IndexedFromWhole(index: map<nat, Location>, own: seq<Order>, opp: seq<Order>)
    requires DistinctIds(own) && DistinctIds(opp) && IndexIs(index, own, opp)
    ensures Indexed(index, own, opp)
  {
  }

  function IndexAfter(index: map<nat, Location>, maker: Order): map<nat, Location> {
    if maker.remaining == 0 then index - {maker.id} else index
  }

  lemma IndexedStep(index: map<nat, Location>, own: seq<Order>, opp: seq<Order>, maker: Order)
    requires Indexed(index, own, opp) && opp != [] && maker == opp[0].(remaining := maker.remaining)
    ensures Indexed(IndexAfter(index, maker), own, AfterFill(maker, opp[1..]))
  {
    IndexedWhole(index, own, opp);
    DistinctTail(opp);
    assert opp[0].id in Ids(opp);
    IndexKeys(own);
    IndexKeys(opp);
    IndexPop(opp);
    assert Ids(opp[1..]) <= Ids(opp) by {
      assert forall i :: 0 <= i < |opp[1..]| ==> opp[1..][i] == opp[i + 1];
    }
    if maker.remaining > 0 {
      FrontKeepsIndex(opp, maker);
    }
    IndexedFromWhole(IndexAfter(index, maker), own, AfterFill(maker, opp[1..]));
  }

  lemma FrontKeepsIndex(opp: seq<Order>, maker: Order)
    requires opp != [] && maker == opp[0].(remaining := maker.remaining) && DistinctIds(opp)
    ensures var opp' := [maker] + opp[1..];
            IndexOf(opp') == IndexOf(opp) && Ids(opp') == Ids(opp) && DistinctIds(opp')
  {
    var opp' := [maker] + opp[1..];
    assert opp'[1..] == opp[1..];
    assert forall i :: 0 <= i < |opp| ==> opp'[i].id == opp[i].id;
    forall i, j | 0 <= i < j < |opp'| ensures Differ(opp'[i], opp'[j]) {
      assert Differ(opp[i], opp[j]);
    }
  }

  lemma IndexedSwap(index: map<nat, Location>, own: seq<Order>, opp: seq<Order>)
    requires Indexed(index, own, opp)
    ensures Indexed(index, opp, own)
  {
    IndexedWhole(index, own, opp);
    IndexKeys(own);
    IndexKeys(opp);
    assert IndexOf(own) + IndexOf(opp) == IndexOf(opp) + IndexOf(own);
    IndexedFromWhole(index, opp, own);
  }

  lemma IndexedRest(index: map<nat, Location>, own: seq<Order>, opp: seq<Order>, o: Order)
    requires Indexed(index, own, opp) && o.id !in index
    ensures Indexed(index[o.id := LocationOf(o)], Enqueue(own, o), opp)
  {
    IndexedWhole(index, own, opp);
    IndexKeys(own);
    IndexKeys(opp);
    IndexEnqueue(own, o);
    EnqueueMembers(own, o);
    EnqueueDistinct(own, o);
    assert IndexOf(own)[o.id := LocationOf(o)] + IndexOf(opp) == (IndexOf(own) + IndexOf(opp))[o.id := LocationOf(o)];
    IndexedFromWhole(index[o.id := LocationOf(o)], Enqueue(own, o), opp);
  }

  lemma {:induction false} EnqueueDistinct(s: seq<Order>, o: Order)
    requires DistinctIds(s) && o.id !in Ids(s)
    ensures DistinctIds(Enqueue(s, o))
  {
    var r := Enqueue(s, o);
    if s == [] || Better(o.side, o.price, s[0].price) {
      PrependDistinct(o, s);
    } else {
      DistinctTail(s);
      assert forall i :: 0 <= i < |s[1..]| ==> s[1..][i] == s[i + 1];
      EnqueueDistinct(s[1..], o);
      EnqueueMembers(s[1..], o);
      assert s[0].id in Ids(s);
      PrependDistinct(s[0], Enqueue(s[1..], o));
    }
  }

  lemma PutOk(levels: LevelMap, side: Side, price: nat, q: seq<Order>)
    requires LevelsOk(levels, side) && QueueOk(q, price, side)
    ensures LevelsOk(Put(levels, price, q), side)
  {
  }

  lemma FlattenBest(levels: LevelMap, side: Side)
    requires levels != map[]
    ensures var p := Best(levels.Keys, side);
            Flatten(levels, side) == levels[p] + Flatten(levels - {p}, side)
  {
  }

  /** A placement put together from its two sides. */
  lemma PlacementFromSides(b: BookView, pair: Pair, taker: Order, own: seq<Order>, opp: seq<Order>)
    requires b.Resting(taker.side) == own && b.Resting(taker.side.Opposite()) == opp
    ensures var o := Match(pair, taker, opp);
            var own' := OwnAfter(own, taker, o.remaining);
            var last := LastPrice(b.last, o.trades);
            BookSpec.AddOrder(b, pair, taker) ==
            Placement(if taker.side.Bid? then BookView(own', o.rest, last) else BookView(o.rest, own', last),
                      o.trades, o.updates + TakerUpdate(taker, o.remaining), o.remaining,
                      TradedLevels(o.trades) + RestedLevels(taker, o.remaining))
  {
  }

  lemma {:induction false} BuyCostOfLevel(q: seq<Order>, rest: seq<Order>, price: nat, n: nat)
    requires QueueOk(q, price, Ask)
    ensures var take := Min(n, OrderTotal(Volume, q));
            BuyCost(q + rest, n) == price * take + BuyCost(rest, n - take)
  {
    if q == [] {
      assert q + rest == rest;
    } else if n == 0 {
      assert price * 0 == 0;
    } else {
      var first := Min(n, q[0].remaining);
      var more := Min(n - first, OrderTotal(Volume, q[1..]));
      assert (q + rest)[1..] == q[1..] + rest;
      BuyCostOfLevel(q[1..], rest, price, n - first);
      assert Min(n, OrderTotal(Volume, q)) == first + more;
      Distribute(price, first, more);
    }
  }

  lemma Distribute(price: nat, x: nat, y: nat)
    ensures price * (x + y) == price * x + price * y
  {
  }

  // ----- cancelling by id -----

  lemma LookupIndex(index: map<nat, Location>, b: BookView, id: nat)
    requires Indexed(index, b.bids, b.asks)
    ensures id in index <==> Lookup(b, id).Some?
    ensures id in index ==> index[id] == LocationOf(Lookup(b, id).value)
  {
    IndexedWhole(index, b.bids, b.asks);
    IndexFinds(b.bids, id);
    IndexFinds(b.asks, id);
    IndexKeys(b.bids);
    IndexKeys(b.asks);
  }

  lemma LookupRests(b: BookView, id: nat)
    requires Lookup(b, id).Some? && OnSide(b.bids, Bid) && OnSide(b.asks, Ask)
    ensures var o := Lookup(b, id).value; o.id == id && o in b.Resting(o.side)
  {
    FindFinds(b.bids, id);
    FindFinds(b.asks, id);
  }

  lemma DropIndexed(index: map<nat, Location>, b: BookView, o: Order)
    requires Indexed(index, b.bids, b.asks) && o in b.Resting(o.side)
    ensures Indexed(index - {o.id}, Drop(b, o).bids, Drop(b, o).asks)
  {
    if o.side.Bid? {
      IndexedWithout(index, b.bids, b.asks, o);
    } else {
      IndexedSwap(index, b.bids, b.asks);
      IndexedWithout(index, b.asks, b.bids, o);
      IndexedSwap(index - {o.id}, Without(b.asks, o.id), b.bids);
    }
  }

  lemma IndexedWithout(index: map<nat, Location>, own: seq<Order>, opp: seq<Order>, o: Order)
    requires Indexed(index, own, opp) && o in own
    ensures Indexed(index - {o.id}, Without(own, o.id), opp)
  {
    IndexedWhole(index, own, opp);
    IndexKeys(own);
    IndexKeys(opp);
    IdsOfMembers(own);
    WithoutMembers(own, o);
    WithoutDistinct(own, o);
    IndexWithout(own, o.id);
    assert (IndexOf(own) + IndexOf(opp)) - {o.id} == (IndexOf(own) - {o.id}) + IndexOf(opp);
    IndexedFromWhole(index - {o.id}, Without(own, o.id), opp);
  }

  lemma WithoutDistinct(s: seq<Order>, o: Order)
    requires DistinctIds(s) && o in s
    ensures DistinctIds(Without(s, o.id))
  {
    IdsOfMembers(s);
    var k := WithoutTakesOne(s, o.id);
    var r := Without(s, o.id);
    forall i, j | 0 <= i < j < |r| ensures Differ(r[i], r[j]) {
      assert Differ(s[if i < k then i else i + 1], s[if j < k then j else j + 1]);
    }
  }

  lemma FlattenOnSide(levels: LevelMap, side: Side)
    requires LevelsOk(levels, side)
    ensures OnSide(Flatten(levels, side), side)
  {
    var s := Flatten(levels, side);
    forall i | 0 <= i < |s| ensures s[i].side == side {
      FlattenMembers(levels, side, s[i]);
    }
  }

  /** The queue of one price is a slice of its side, so ids in it are unique too. */
  lemma {:induction false} QueueDistinct(levels: LevelMap, side: Side, price: nat)
    requires DistinctIds(Flatten(levels, side)) && price in levels
    ensures DistinctIds(levels[price])
    decreases |levels|
  {
    var p := Best(levels.Keys, side);
    FlattenBest(levels, side);
    DistinctParts(levels[p], Flatten(levels - {p}, side));
    if price != p {
      Shrinks(levels, p);
      QueueDistinct(levels - {p}, side, price);
    }
  }

  /** Taking a resting order out of its queue takes it out of the flat side. */
  lemma CancelInLevels(levels: LevelMap, side: Side, o: Order)
    requires LevelsOk(levels, side) && DistinctIds(Flatten(levels, side)) && o in Flatten(levels, side)
    ensures o.price in levels && o.id in Ids(levels[o.price]) && Find(levels[o.price], o.id) == Some(o)
    ensures var levels' := Put(levels, o.price, Without(levels[o.price], o.id));
            LevelsOk(levels', side) && Flatten(levels', side) == Without(Flatten(levels, side), o.id)
  {
    FlattenMembers(levels, side, o);
    FlattenWithout(levels, side, o);
    QueueDistinct(levels, side, o.price);
    var q := levels[o.price];
    FindUnique(q, o);
    FindFinds(q, o.id);
    WithoutMembers(q, o);
    forall i | 0 <= i < |Without(q, o.id)|
      ensures Without(q, o.id)[i].price == o.price && Without(q, o.id)[i].side == side
    {
      assert Without(q, o.id)[i] in q;
    }
    PutOk(levels, side, o.price, Without(q, o.id));
  }

  method PositionOf(queue: seq<Order>, id: nat) returns (k: nat)
    requires id in Ids(queue)
    ensures k < |queue| && queue[k].id == id
    ensures Find(queue, id) == Some(queue[k])
    ensures Without(queue, id) == queue[..k] + queue[k + 1..]
  {
    k := 0;
    while queue[k].id != id
      invariant k < |queue| && (forall i :: 0 <= i < k ==> queue[i].id != id)
      decreases |queue| - k
    {
      k := k + 1;
    }
    WithoutTakes(queue, id, k);
  }

  /** The best ask level's share of a market buy, and what it costs. */
  /** Every queue's total is a u64, so summing it up is. */
  ghost predicate QueuesFit(levels: LevelMap) {
    forall p :: p in levels ==> OrderTotal(Volume, levels[p]) <= U64_MAX
  }

  lemma QueuesFitFrom(levels: LevelMap, side: Side)
    requires LevelsOk(levels, side)
    requires forall price :: OrderTotal(Level(price), Flatten(levels, side)) <= U64_MAX
    ensures QueuesFit(levels)
  {
    forall p | p in levels ensures OrderTotal(Volume, levels[p]) <= U64_MAX {
      FlattenLevel(levels, side, p);
      assert OrderTotal(Level(p), Flatten(levels, side)) <= U64_MAX;
    }
  }

  lemma RestOk(asks: LevelMap, price: nat)
    requires LevelsOk(asks, Ask) && QueuesFit(asks)
    ensures LevelsOk(asks - {price}, Ask) && QueuesFit(asks - {price})
  {
  }

  /** The best level: how much of it to take, at what cost, and the levels behind it. */
  method TakeFromLevel(asks: LevelMap, remaining: u64) returns (take: u64, levelCost: nat, rest: LevelMap)
    requires LevelsOk(asks, Ask) && asks != map[] && QueuesFit(asks)
    ensures take <= remaining && |rest| < |asks| && LevelsOk(rest, Ask) && QueuesFit(rest)
    ensures BuyCost(Flatten(asks, Ask), remaining) == levelCost + BuyCost(Flatten(rest, Ask), remaining - take)
  {
    var price: nat := Best(asks.Keys, Ask);
    var level := asks[price];
    var levelQty: u64 := OrderTotal(Volume, level);
    take := Min(remaining, levelQty);
    levelCost := price * take;
    rest := asks - {price};
    FlattenBest(asks, Ask);
    Shrinks(asks, price);
    RestOk(asks, price);
    BuyCostOfLevel(level, Flatten(rest, Ask), price, remaining);
  }

  /** `cost` so far plus what the levels ahead still cost is `total`. */
  ghost predicate Owed(asks: LevelMap, remaining: nat, cost: nat, total: nat) {
    cost + BuyCost(Flatten(asks, Ask), remaining) == total
  }

  lemma NothingOwed(asks: LevelMap, remaining: nat, cost: nat, total: nat)
    requires Owed(asks, remaining, cost, total) && (asks == map[] || remaining == 0)
    ensures cost == total
  {
  }

  /** Add the best level's share with checked arithmetic; `None` once the total cannot be a u64. */
  method AddLevel(asks: LevelMap, remaining: u64, cost: u64, ghost total: nat)
    returns (next: Option<u64>, remaining': u64, rest: LevelMap)
    requires LevelsOk(asks, Ask) && asks != map[] && QueuesFit(asks) && Owed(asks, remaining, cost, total)
    ensures |rest| < |asks| && LevelsOk(rest, Ask) && QueuesFit(rest)
    ensures if next.None? then total > U64_MAX else Owed(rest, remaining', next.value, total)
  {
    var take, levelCost;
    take, levelCost, rest := TakeFromLevel(asks, remaining);
    remaining' := remaining - take;
    if levelCost > U64_MAX || cost + levelCost > U64_MAX {
      next := None;
    } else {
      next := Some(cost + levelCost);
    }
  }

  method CostOf(asks: LevelMap, size: u64) returns (r: Result<nat>)
    requires LevelsOk(asks, Ask) && QueuesFit(asks)
    ensures var cost := BuyCost(Flatten(asks, Ask), size);
            r == if cost <= U64_MAX then Ok(cost) else Err(InvalidAmount)
  {
    var remaining: u64, cost: u64 := size, 0;
    var todo := asks;
    ghost var total := BuyCost(Flatten(todo, Ask), size);
    while todo != map[] && remaining > 0
      invariant LevelsOk(todo, Ask) && QueuesFit(todo) && Owed(todo, remaining, cost, total)
      decreases |todo|
    {
      var next, left, rest := AddLevel(todo, remaining, cost, total);
      if next.None? {
        return Err(InvalidAmount);
      }
      cost, remaining, todo := next.value, left, rest;
    }
    NothingOwed(todo, remaining, cost, total);
    r := Ok(cost);
  }

  lemma PushedOk(levels: LevelMap, o: Order)
    requires LevelsOk(levels, o.side)
    ensures LevelsOk(Pushed(levels, o), o.side)
  {
  }

  lemma PrependDistinct(x: Order, s: seq<Order>)
    requires DistinctIds(s) && x.id !in Ids(s)
    ensures DistinctIds([x] + s)
  {
    var r := [x] + s;
    forall i, j | 0 <= i < j < |r| ensures Differ(r[i], r[j]) {
      if i == 0 {
        assert r[j].id == s[j - 1].id && s[j - 1].id in Ids(s);
      } else {
        assert Differ(s[i - 1], s[j - 1]);
      }
    }
  }

  lemma TradedLevelsPush(trades: seq<Trade>, t: Trade)
    ensures TradedLevels(trades + [t]) == TradedLevels(trades) + {(t.takerSide.Opposite(), t.price)}
  {
    var all := trades + [t];
    assert forall x :: x in all <==> x in trades || x == t;
  }

  lemma DeltasPush(b: BookView, done: set<(Side, nat)>, k: (Side, nat), deltas: seq<((Side, nat), nat)>)
    requires k !in done && Lists(deltas, Deltas(b, done))
    ensures Lists(deltas + [(k, LevelQty(b, k.0, k.1))], Deltas(b, done + {k}))
  {
    ListsPush(deltas, Deltas(b, done), k, LevelQty(b, k.0, k.1));
    assert Deltas(b, done + {k}) == Deltas(b, done)[k := LevelQty(b, k.0, k.1)];
  }

  /** Every level in `dirty`, once, with the size now resting there. */
  method LevelSums(bids: LevelMap, asks: LevelMap, dirty: set<(Side, nat)>, ghost view: BookView)
    returns (deltas: seq<((Side, nat), nat)>)
    requires LevelsOk(bids, Bid) && LevelsOk(asks, Ask)
    requires view.bids == Flatten(bids, Bid) && view.asks == Flatten(asks, Ask)
    ensures Lists(deltas, Deltas(view, dirty))
  {
    deltas := [];
    var todo := dirty;
    ghost var done: set<(Side, nat)> := {};
    while todo != {}
      invariant done + todo == dirty && done !! todo
      invariant Lists(deltas, Deltas(view, done))
      decreases todo
    {
      var k :| k in todo;
      todo := todo - {k};
      var levels := if k.0.Bid? then bids else asks;
      FlattenLevel(levels, k.0, k.1);
      DeltasPush(view, done, k, deltas);
      done := done + {k};
      deltas := deltas + [(k, OrderTotal(Volume, QueueAt(levels, k.1)))];
    }
    assert done == dirty;
  }

  class OrderBook {
    var bids: LevelMap
    var asks: LevelMap
    var orderIndex: map<nat, Location>
    var dirtyLevels: set<(Side, nat)>
    var lastTradePrice: Option<nat>

    function LevelsOf(side: Side): LevelMap
      reads `bids, `asks
    {
      if side.Bid? then bids else asks
    }

    ghost function Side(side: Side): seq<Order>
      reads `bids, `asks
    {
      Flatten(LevelsOf(side), side)
    }

    ghost function View(): BookView
      reads `bids, `asks, `lastTradePrice
    {
      BookView(Side(Bid), Side(Ask), lastTradePrice)
    }

    ghost predicate Valid()
      reads this
    {
      && LevelsOk(bids, Bid)
      && LevelsOk(asks, Ask)
      && Indexed(orderIndex, Side(Bid), Side(Ask))
      && dirtyLevels == {}
    }

    constructor ()
      ensures Valid() && View() == EmptyBook
    {
      bids, asks := map[], map[];
      orderIndex, dirtyLevels, lastTradePrice := map[], {}, None;
    }

    method TakeDirtyLevels() returns (deltas: seq<((Side, nat), nat)>)
      requires LevelsOk(bids, Bid) && LevelsOk(asks, Ask)
      modifies this`dirtyLevels
      ensures dirtyLevels == {}
      ensures Lists(deltas, Deltas(View(), old(dirtyLevels)))
    {
      deltas := LevelSums(bids, asks, dirtyLevels, View());
      dirtyLevels := {};
    }

    method SetLevels(side: Side, levels: LevelMap)
      modifies `bids, `asks
      ensures LevelsOf(side) == levels
      ensures LevelsOf(side.Opposite()) == old(LevelsOf(side.Opposite()))
    {
      if side.Bid? {
        bids := levels;
      } else {
        asks := levels;
      }
    }

    /** One price level: trade with the front of its queue until either side is used up. */
    method MatchLevel(
      pair: Pair, order0: Order, queue0: seq<Order>, trades0: seq<Trade>, updates0: seq<OrderUpdate>,
      ghost taker: Order, ghost opp0: seq<Order>, ghost own: seq<Order>, ghost rest: seq<Order>,
      ghost last0: Option<nat>)
      returns (order: Order, queue: seq<Order>, trades: seq<Trade>, updates: seq<OrderUpdate>)
      requires queue0 != [] && order0.remaining > 0 && Crosses(order0, queue0[0].price)
      requires QueueOk(queue0, queue0[0].price, order0.side.Opposite())
      requires Progress(pair, taker, opp0, order0, queue0 + rest, trades0, updates0)
      requires Indexed(orderIndex, own, queue0 + rest)
      requires dirtyLevels == TradedLevels(trades0) && lastTradePrice == LastPrice(last0, trades0)
      modifies `orderIndex, `dirtyLevels, `lastTradePrice
      ensures Progress(pair, taker, opp0, order, queue + rest, trades, updates)
      ensures Indexed(orderIndex, own, queue + rest)
      ensures dirtyLevels == TradedLevels(trades) && lastTradePrice == LastPrice(last0, trades)
      ensures QueueOk(queue, queue0[0].price, order0.side.Opposite())
      ensures order == order0.(remaining := order.remaining) && order.remaining <= order0.remaining
      ensures queue == [] || order.remaining == 0
      ensures orderIndex.Keys <= old(orderIndex.Keys)
    {
      order, queue, trades, updates := order0, queue0, trades0, updates0;
      ghost var opp := queue + rest;
      while queue != [] && order.remaining > 0
        invariant opp == queue + rest
        invariant QueueOk(queue, queue0[0].price, order0.side.Opposite())
        invariant orderIndex.Keys <= old(orderIndex.Keys)
        invariant order == order0.(remaining := order.remaining) && order.remaining <= order0.remaining
        invariant Progress(pair, taker, opp0, order, opp, trades, updates)
        invariant Indexed(orderIndex, own, opp)
        invariant dirtyLevels == TradedLevels(trades) && lastTradePrice == LastPrice(last0, trades)
        decreases order.remaining, |queue|
      {
        var front := queue[0];
        assert opp[0] == front && Crosses(order, front.price);
        ProgressStep(pair, taker, opp0, order, opp, trades, updates);
        var trade := TradeOf(pair, order, front);
        var maker := Reduce(front, trade.qty);
        IndexedStep(orderIndex, own, opp, maker);
        TradedLevelsPush(trades, trade);
        FrontAfterFill(queue, rest, maker);
        order := Reduce(order, trade.qty);
        trades := trades + [trade];
        lastTradePrice := Some(trade.price);
        dirtyLevels := dirtyLevels + {(maker.side, maker.price)};
        updates := updates + [MakerUpdate(maker)];
        if maker.remaining == 0 {
          orderIndex := orderIndex - {maker.id};
          queue := queue[1..];
        } else {
          queue := queue[0 := maker];
        }
        opp := queue + rest;
      }
    }

    /** What is left of a limit order goes to the back of its price's queue and into the index. */
    method Rest(order: Order)
      requires LevelsOk(LevelsOf(order.side), order.side)
      requires Indexed(orderIndex, Side(order.side), Side(order.side.Opposite())) && order.id !in orderIndex
      modifies `bids, `asks, `orderIndex, `dirtyLevels
      ensures LevelsOk(LevelsOf(order.side), order.side)
      ensures Side(order.side) == Enqueue(old(Side(order.side)), order)
      ensures LevelsOf(order.side.Opposite()) == old(LevelsOf(order.side.Opposite()))
      ensures Indexed(orderIndex, Side(order.side), Side(order.side.Opposite()))
      ensures dirtyLevels == old(dirtyLevels) + {(order.side, order.price)}
    {
      var levels := LevelsOf(order.side);
      ghost var own, opp := Flatten(levels, order.side), Side(order.side.Opposite());
      FlattenEnqueue(levels, order);
      IndexedRest(orderIndex, own, opp, order);
      PushedOk(levels, order);
      SetLevels(order.side, Pushed(levels, order));
      dirtyLevels := dirtyLevels + {(order.side, order.price)};
      orderIndex := orderIndex[order.id := LocationOf(order)];
    }

    /** Match the best level and write its queue back, taking an emptied price out of the map. */
    method MatchBest(
      pair: Pair, order0: Order, levels0: LevelMap, trades0: seq<Trade>, updates0: seq<OrderUpdate>,
      ghost taker: Order, ghost opp0: seq<Order>, ghost own: seq<Order>, ghost last0: Option<nat>)
      returns (order: Order, levels: LevelMap, trades: seq<Trade>, updates: seq<OrderUpdate>)
      requires levels0 != map[] && order0.remaining > 0
      requires LevelsOk(levels0, order0.side.Opposite()) && Crosses(order0, Best(levels0.Keys, order0.side.Opposite()))
      requires Progress(pair, taker, opp0, order0, Flatten(levels0, order0.side.Opposite()), trades0, updates0)
      requires Indexed(orderIndex, own, Flatten(levels0, order0.side.Opposite()))
      requires dirtyLevels == TradedLevels(trades0) && lastTradePrice == LastPrice(last0, trades0)
      modifies `orderIndex, `dirtyLevels, `lastTradePrice
      ensures LevelsOk(levels, order0.side.Opposite())
      ensures Progress(pair, taker, opp0, order, Flatten(levels, order0.side.Opposite()), trades, updates)
      ensures Indexed(orderIndex, own, Flatten(levels, order0.side.Opposite()))
      ensures orderIndex.Keys <= old(orderIndex.Keys)
      ensures dirtyLevels == TradedLevels(trades) && lastTradePrice == LastPrice(last0, trades)
      ensures order == order0.(remaining := order.remaining) && order.remaining <= order0.remaining
      ensures |levels| < |levels0| || order.remaining == 0
    {
      var opposite := order0.side.Opposite();
      var best := Best(levels0.Keys, opposite);
      var queue := levels0[best];
      FlattenBest(levels0, opposite);
      order, queue, trades, updates := MatchLevel(pair, order0, queue, trades0, updates0,
        taker, opp0, own, Flatten(levels0 - {best}, opposite), last0);
      FlattenPutBest(levels0, opposite, queue);
      Shrinks(levels0, best);
      PutOk(levels0, opposite, best, queue);
      levels := Put(levels0, best, queue);
    }

    /** The outer loop: best opposite level first, while it crosses and the taker is unfilled. */
    method MatchOpposite(pair: Pair, taker: Order)
      returns (order: Order, trades: seq<Trade>, updates: seq<OrderUpdate>)
      requires LevelsOk(LevelsOf(taker.side.Opposite()), taker.side.Opposite())
      requires Indexed(orderIndex, Side(taker.side), Side(taker.side.Opposite())) && taker.id !in orderIndex
      requires dirtyLevels == {}
      modifies this
      ensures LevelsOk(LevelsOf(taker.side.Opposite()), taker.side.Opposite())
      ensures LevelsOf(taker.side) == old(LevelsOf(taker.side))
      ensures Indexed(orderIndex, Side(taker.side), Side(taker.side.Opposite())) && taker.id !in orderIndex
      ensures var o := Match(pair, taker, old(Side(taker.side.Opposite())));
              && o == Outcome(trades, updates, Side(taker.side.Opposite()), order.remaining)
              && order == taker.(remaining := o.remaining)
      ensures dirtyLevels == TradedLevels(trades) && lastTradePrice == LastPrice(old(lastTradePrice), trades)
    {
      order, trades, updates := taker, [], [];
      var opposite := taker.side.Opposite();
      var levels := LevelsOf(opposite);
      ghost var opp0, own := Flatten(levels, opposite), Side(taker.side);
      ProgressStart(pair, taker, opp0);
      while order.remaining > 0
        invariant LevelsOf(opposite) == levels && LevelsOf(taker.side) == old(LevelsOf(taker.side))
        invariant order == taker.(remaining := order.remaining)
        invariant LevelsOk(levels, opposite)
        invariant Progress(pair, taker, opp0, order, Flatten(levels, opposite), trades, updates)
        invariant Indexed(orderIndex, own, Flatten(levels, opposite)) && taker.id !in orderIndex
        invariant dirtyLevels == TradedLevels(trades) && lastTradePrice == LastPrice(old(lastTradePrice), trades)
        decreases order.remaining, |levels|
      {
        if levels == map[] {
          break;
        }
        var best := Best(levels.Keys, opposite);
        if !Crosses(order, best) {
          break;
        }
        order, levels, trades, updates :=
          MatchBest(pair, order, levels, trades, updates, taker, opp0, own, old(lastTradePrice));
        SetLevels(opposite, levels);
      }
      ProgressDone(pair, taker, opp0, order, Flatten(levels, opposite), trades, updates);
    }

    /** Match, then rest what is left of a limit order. */
    method Execute(pair: Pair, taker: Order)
      returns (order: Order, trades: seq<Trade>, updates: seq<OrderUpdate>)
      requires Valid() && taker.id !in orderIndex
      modifies this
      ensures LevelsOk(bids, Bid) && LevelsOk(asks, Ask) && Indexed(orderIndex, Side(Bid), Side(Ask))
      ensures var o := Match(pair, taker, old(Side(taker.side.Opposite())));
              && Side(taker.side) == OwnAfter(old(Side(taker.side)), taker, o.remaining)
              && Side(taker.side.Opposite()) == o.rest
              && lastTradePrice == LastPrice(old(lastTradePrice), o.trades)
              && trades == o.trades && updates == o.updates
              && order == taker.(remaining := o.remaining)
              && dirtyLevels == TradedLevels(o.trades) +
                                RestedLevels(taker, o.remaining)
    {
      ghost var own, opp := Side(taker.side), Side(taker.side.Opposite());
      if taker.side.Ask? {
        IndexedSwap(orderIndex, opp, own);
      }
      order, trades, updates := MatchOpposite(pair, taker);
      if order.remaining > 0 && order.orderType.Limit? {
        Rest(order);
      }
      ghost var own', opp' := Side(taker.side), Side(taker.side.Opposite());
      if taker.side.Ask? {
        IndexedSwap(orderIndex, own', opp');
      }
    }

    /** The same on the book as a whole. */
    method PlaceInBook(pair: Pair, taker: Order)
      returns (trades: seq<Trade>, updates: seq<OrderUpdate>, remaining: nat)
      requires Valid() && taker.id !in orderIndex
      modifies this
      ensures LevelsOk(bids, Bid) && LevelsOk(asks, Ask) && Indexed(orderIndex, Side(Bid), Side(Ask))
      ensures var p := BookSpec.AddOrder(old(View()), pair, taker);
              View() == p.book && trades == p.trades && updates == p.updates && remaining == p.remaining
              && dirtyLevels == p.dirty
    {
      var order;
      ghost var own, opp := Side(taker.side), Side(taker.side.Opposite());
      PlacementFromSides(View(), pair, taker, own, opp);
      order, trades, updates := Execute(pair, taker);
      updates, remaining := updates + TakerUpdate(taker, order.remaining), order.remaining;
    }

    method AddOrder(id: nat, account: AccountId, req: OrderRequest) returns (resp: MatchResponse)
      requires Valid() && id !in orderIndex
      modifies this
      ensures Valid()
      ensures var p := BookSpec.AddOrder(old(View()), req.pair, NewOrder(id, account, req));
              && View() == p.book
              && resp.orderId == id
              && resp.trades == p.trades
              && resp.updates == p.updates
              && resp.takerRemaining == p.remaining
              && Lists(resp.bookDeltas, Deltas(p.book, p.dirty))
    {
      var trades, updates, remaining := PlaceInBook(req.pair, NewOrder(id, account, req));
      var deltas := TakeDirtyLevels();
      resp := MatchResponse(id, trades, updates, remaining, deltas);
    }

    /** Cost of filling up to `size` from the asks: exact when it fits, rejected when it does not. */
    /** What buying up to `size` would cost; the total of each ask level must itself be a u64. */
    method MarketBuyCost(size: u64) returns (r: Result<nat>)
      requires LevelsOk(asks, Ask)
      requires forall price :: OrderTotal(Level(price), Side(Ask)) <= U64_MAX
      ensures var cost := BuyCost(Side(Ask), size);
              r == if cost <= U64_MAX then Ok(cost) else Err(InvalidAmount)
    {
      QueuesFitFrom(asks, Ask);
      r := CostOf(asks, size);
    }

    /** Would this order reach a resting order of the same account? */
    method WouldSelfTrade(account: AccountId, req: OrderRequest, ghost id: nat) returns (r: bool)
      requires LevelsOk(LevelsOf(req.side.Opposite()), req.side.Opposite())
      ensures r == MeetsOwn(NewOrder(id, account, req), Side(req.side.Opposite()))
    {
      var opposite := req.side.Opposite();
      var remaining: nat := req.size;
      var todo := LevelsOf(opposite);
      ghost var taker := NewOrder(id, account, req);
      ghost var answer := MeetsOwn(taker, Flatten(todo, opposite));
      while todo != map[]
        invariant LevelsOk(todo, opposite)
        invariant MeetsOwn(taker.(remaining := remaining), Flatten(todo, opposite)) == answer
        decreases |todo|
      {
        var price := Best(todo.Keys, opposite);
        FlattenBest(todo, opposite);
        Shrinks(todo, price);
        if !(req.orderType.Market? || (if req.side.Bid? then price <= req.price else price >= req.price)) {
          return false;
        }
        var level := todo[price];
        ghost var rest := Flatten(todo - {price}, opposite);
        var i := 0;
        while i < |level|
          invariant i <= |level|
          invariant MeetsOwn(taker.(remaining := remaining), level[i..] + rest) == answer
        {
          ghost var opp := level[i..] + rest;
          assert opp[0] == level[i] && opp[1..] == level[i + 1..] + rest;
          if level[i].account == account {
            return true;
          }
          remaining := if remaining <= level[i].remaining then 0 else remaining - level[i].remaining;
          if remaining == 0 {
            return false;
          }
          i := i + 1;
        }
        assert level[i..] + rest == rest;
        todo := todo - {price};
      }
      r := false;
    }

    method CancelOrder(account: AccountId, id: nat)
      returns (r: Option<(Order, seq<((Side, nat), nat)>)>)
      requires Valid()
      modifies this
      ensures Valid()
      ensures r.Some? <==> Lookup(old(View()), id).Some? && Lookup(old(View()), id).value.account == account
      ensures r.None? ==> View() == old(View())
      ensures r.Some? ==>
                var o := Lookup(old(View()), id).value;
                && r.value.0 == o
                && View() == Drop(old(View()), o)
                && Lists(r.value.1, Deltas(View(), {(o.side, o.price)}))
    {
      ghost var before := View();
      LookupIndex(orderIndex, before, id);
      if id !in orderIndex {
        return None;
      }
      var at := orderIndex[id];
      if account != at.owner {
        return None;
      }
      ghost var o := Lookup(before, id).value;
      FlattenOnSide(bids, Bid);
      FlattenOnSide(asks, Ask);
      LookupRests(before, id);
      DropIndexed(orderIndex, before, o);
      var levels := LevelsOf(at.side);
      CancelInLevels(levels, at.side, o);
      var queue := levels[at.price];
      var index := PositionOf(queue, id);
      var removed := queue[index];
      queue := queue[..index] + queue[index + 1..];
      SetLevels(at.side, Put(levels, at.price, queue));
      orderIndex := orderIndex - {id};
      dirtyLevels := dirtyLevels + {(at.side, at.price)};
      assert View() == Drop(before, o);
      var deltas := TakeDirtyLevels();
      r := Some((removed, deltas));
    }
  }
}
