/**
  The life of an order as its events tell it: the row an orders table keeps for it and the sum of
  its fills, tied to the book over every run.
 */
module Lifecycle {
  import opened Domain
  import opened Matching
  import opened BookSpec
  import opened DedupSpec
  import opened Events
  import opened EngineSpec
  import opened Reserves
  import opened PlaceProof
  import opened EngineInv

  datatype OrderRow = OrderRow(
    account: AccountId, pair: Pair, side: Side, orderType: OrderType, price: nat, size: nat,
    filled: int, status: OrderStatus)

  /** What one event does to the row of order `id`: accept once, then overwrite. */
  function RowStep(row: Option<OrderRow>, e: Event, id: nat): Option<OrderRow> {
    match e
    case OrderAccepted(x, a, pair, side, orderType, price, size) =>
      if x == id && row.None? then Some(OrderRow(a, pair, side, orderType, price, size, 0, Open)) else row
    case OrderCancelled(x) =>
      if x == id && row.Some? then Some(row.value.(status := Cancelled)) else row
    case OrderUpdated(_, u) =>
      if u.orderId == id && row.Some? then Some(row.value.(filled := u.filled, status := u.status)) else row
    case _ => row
  }

  function RowAfter(row: Option<OrderRow>, events: seq<Event>, id: nat): Option<OrderRow>
    decreases |events|
  {
    if events == [] then row else RowAfter(RowStep(row, events[0], id), events[1..], id)
  }

  /** Quantity of one trade that belongs to `id`, as maker or as taker. */
  function FillOf(t: Trade, id: nat): nat {
    (if t.makerId == id then t.qty else 0) + (if t.takerId == id then t.qty else 0)
  }

  function FillsIn(events: seq<Event>, id: nat): nat {
    if events == [] then 0
    else (if events[0].TradeEvent? then FillOf(events[0].trade, id) else 0) + FillsIn(events[1..], id)
  }

  lemma {:induction false} RowConcat(row: Option<OrderRow>, x: seq<Event>, y: seq<Event>, id: nat)
    ensures RowAfter(row, x + y, id) == RowAfter(RowAfter(row, x, id), y, id)
    decreases |x|
  {
    if x == [] {
      assert x + y == y;
    } else {
      assert (x + y)[1..] == x[1..] + y;
      RowConcat(RowStep(row, x[0], id), x[1..], y, id);
    }
  }

  lemma {:induction false} FillsConcat(x: seq<Event>, y: seq<Event>, id: nat)
    ensures FillsIn(x + y, id) == FillsIn(x, id) + FillsIn(y, id)
  {
    if x == [] {
      assert x + y == y;
    } else {
      assert (x + y)[1..] == x[1..] + y;
      FillsConcat(x[1..], y, id);
    }
  }

  // ----- events of one placement, seen by one order -----

  function UpdatesOf(updates: seq<OrderUpdate>, id: nat): seq<OrderUpdate> {
    if updates == [] then []
    else (if updates[0].orderId == id then [updates[0]] else []) + UpdatesOf(updates[1..], id)
  }

  lemma {:induction false} UpdatesOfConcat(x: seq<OrderUpdate>, y: seq<OrderUpdate>, id: nat)
    ensures UpdatesOf(x + y, id) == UpdatesOf(x, id) + UpdatesOf(y, id)
  {
    if x == [] {
      assert x + y == y;
    } else {
      assert (x + y)[1..] == x[1..] + y;
      UpdatesOfConcat(x[1..], y, id);
      var first := if x[0].orderId == id then [x[0]] else [];
      assert first + (UpdatesOf(x[1..], id) + UpdatesOf(y, id)) == (first + UpdatesOf(x[1..], id)) + UpdatesOf(y, id);
    }
  }

  function Overwrite(row: Option<OrderRow>, updates: seq<OrderUpdate>): Option<OrderRow> {
    if row.None? || updates == [] then row
    else
      var u := updates[|updates| - 1];
      Some(row.value.(filled := u.filled, status := u.status))
  }

  lemma {:induction false} RowOverUpdates(row: Option<OrderRow>, pair: Pair, updates: seq<OrderUpdate>, id: nat)
    ensures RowAfter(row, UpdateEvents(pair, updates), id) == Overwrite(row, UpdatesOf(updates, id))
    ensures FillsIn(UpdateEvents(pair, updates), id) == 0
    decreases |updates|
  {
    if updates != [] {
      var events, row' := UpdateEvents(pair, updates), RowStep(row, OrderUpdated(pair, updates[0]), id);
      assert events[0] == OrderUpdated(pair, updates[0]) && events[1..] == UpdateEvents(pair, updates[1..]);
      RowOverUpdates(row', pair, updates[1..], id);
      OverwriteStep(row, pair, updates, id);
    }
  }

  lemma OverwriteStep(row: Option<OrderRow>, pair: Pair, updates: seq<OrderUpdate>, id: nat)
    requires updates != []
    ensures Overwrite(RowStep(row, OrderUpdated(pair, updates[0]), id), UpdatesOf(updates[1..], id)) ==
            Overwrite(row, UpdatesOf(updates, id))
  {
    OverwriteAll(row, if updates[0].orderId == id then [updates[0]] else [], UpdatesOf(updates[1..], id));
  }

  lemma OverwriteAll(row: Option<OrderRow>, x: seq<OrderUpdate>, y: seq<OrderUpdate>)
    requires |x| <= 1
    ensures Overwrite(row, x + y) == Overwrite(Overwrite(row, x), y)
  {
    if y == [] {
      assert x + y == x;
    } else {
      assert (x + y)[|x + y| - 1] == y[|y| - 1];
    }
  }

  lemma {:induction false} RowOverTrades(row: Option<OrderRow>, trades: seq<Trade>, id: nat, taker: nat)
    requires forall t :: t in trades ==> t.takerId == taker
    ensures RowAfter(row, TradeEvents(trades), id) == row
    ensures FillsIn(TradeEvents(trades), id) ==
            TradeTotal(Fills(id), trades) + (if id == taker then TradeTotal(Volume, trades) else 0)
  {
    if trades != [] {
      var events := TradeEvents(trades);
      assert events[1..] == TradeEvents(trades[1..]);
      RowOverTrades(row, trades[1..], id, taker);
    }
  }

  // ----- what a match does to one maker -----

  /** After the match, `left` of order `o` remains: its trades, its update and its place in the book agree. */
  ghost predicate Fate(o: Order, left: nat, out: Outcome) {
    && left <= o.remaining
    && TradeTotal(Fills(o.id), out.trades) == o.remaining - left
    && (if left > 0 then o.(remaining := left) in out.rest else o.id !in Ids(out.rest))
    && UpdatesOf(out.updates, o.id) ==
       (if left == o.remaining then []
        else [OrderUpdate(o.id, o.account, o.size - left, left, if left == 0 then Filled else PartiallyFilled)])
  }

  lemma {:induction false} NotThereNotTouched(pair: Pair, taker: Order, opp: seq<Order>, id: nat)
    requires id !in Ids(opp)
    ensures var out := Match(pair, taker, opp);
            TradeTotal(Fills(id), out.trades) == 0 && UpdatesOf(out.updates, id) == [] && id !in Ids(out.rest)
    decreases taker.remaining, |opp|
  {
    if !Stops(taker, opp) {
      var t := TradeOf(pair, taker, opp[0]);
      var maker := Reduce(opp[0], t.qty);
      var opp' := AfterFill(maker, opp[1..]);
      assert opp[0].id in Ids(opp);
      forall i | 0 <= i < |opp'| ensures opp'[i].id != id {
        assert opp'[i].id == opp[if maker.remaining == 0 then i + 1 else i].id;
        assert opp[if maker.remaining == 0 then i + 1 else i].id in Ids(opp);
      }
      NotThereNotTouched(pair, Reduce(taker, t.qty), opp', id);
      FirstStep(pair, taker, opp);
    }
  }

  lemma FirstStep(pair: Pair, taker: Order, opp: seq<Order>)
    requires !Stops(taker, opp)
    ensures var t := TradeOf(pair, taker, opp[0]);
            var maker := Reduce(opp[0], t.qty);
            var out, out' := Match(pair, taker, opp), Match(pair, Reduce(taker, t.qty), AfterFill(maker, opp[1..]));
            && out.trades[1..] == out'.trades && out.trades[0] == t && out.trades != []
            && out.updates[1..] == out'.updates && out.updates[0] == MakerUpdate(maker) && out.updates != []
            && out.rest == out'.rest
  {
  }

  lemma {:induction false} MakerFate(pair: Pair, taker: Order, opp: seq<Order>, o: Order) returns (left: nat)
    requires DistinctIds(opp) && Alive(opp) && o in opp
    ensures Fate(o, left, Match(pair, taker, opp))
    decreases taker.remaining, |opp|
  {
    left := o.remaining;
    if Stops(taker, opp) {
      assert Match(pair, taker, opp).rest == opp;
    } else if taker.remaining < opp[0].remaining {
      left := if o == opp[0] then opp[0].remaining - taker.remaining else o.remaining;
      StoppedFate(pair, taker, opp, o, left);
    } else {
      DistinctTail(opp);
      var taker' := Reduce(taker, opp[0].remaining);
      if o == opp[0] {
        left := 0;
        NotThereNotTouched(pair, taker', opp[1..], o.id);
      } else {
        assert o in opp[1..];
        IdsOfMembers(opp[1..]);
        left := MakerFate(pair, taker', opp[1..], o);
      }
      FilledFirst(pair, taker, opp, o, left);
    }
  }

  /** The front maker is filled: its one trade is this one, and every other maker's story is the rest's. */
  lemma FilledFirst(pair: Pair, taker: Order, opp: seq<Order>, o: Order, left: nat)
    requires !Stops(taker, opp) && opp[0].remaining <= taker.remaining && 0 < opp[0].remaining
    requires var out := Match(pair, Reduce(taker, opp[0].remaining), opp[1..]);
             if o == opp[0] then
               left == 0 && TradeTotal(Fills(o.id), out.trades) == 0 && UpdatesOf(out.updates, o.id) == []
               && o.id !in Ids(out.rest)
             else o.id != opp[0].id && Fate(o, left, out)
    ensures Fate(o, left, Match(pair, taker, opp))
  {
    FirstStep(pair, taker, opp);
    assert AfterFill(Reduce(opp[0], opp[0].remaining), opp[1..]) == opp[1..];
    if o == opp[0] {
      assert Reduce(o, o.remaining) == o.(remaining := 0);
    }
  }

  /** The last maker is only partly filled: one trade, everything else stays. */
  lemma StoppedFate(pair: Pair, taker: Order, opp: seq<Order>, o: Order, left: nat)
    requires DistinctIds(opp) && Alive(opp) && o in opp && !Stops(taker, opp)
    requires taker.remaining < opp[0].remaining
    requires left == (if o == opp[0] then opp[0].remaining - taker.remaining else o.remaining)
    ensures Fate(o, left, Match(pair, taker, opp))
  {
    var t := TradeOf(pair, taker, opp[0]);
    var maker := Reduce(opp[0], t.qty);
    var out := Match(pair, taker, opp);
    FirstStep(pair, taker, opp);
    assert out.trades == [t] && out.updates == [MakerUpdate(maker)];
    assert out.rest == [maker] + opp[1..];
    TradeTotalOne(Fills(o.id), t);
    if o == opp[0] {
      assert out.rest[0] == o.(remaining := left);
    } else {
      var i :| 0 <= i < |opp| && opp[i] == o;
      assert Differ(opp[0], opp[i]);
      assert out.rest[i] == o;
      assert o.(remaining := left) == o;
    }
  }

  // ----- the row and the book agree -----

  /** The row of a resting order: open until its first fill, partially filled after. */
  predicate RowMatches(row: OrderRow, p: Pair, o: Order) {
    && row.account == o.account && row.pair == p && row.side == o.side && row.orderType == o.orderType
    && row.price == o.price && row.size == o.size
    && row.filled == o.size - o.remaining
    && row.status == (if row.filled == 0 then Open else PartiallyFilled)
  }

  predicate Terminal(row: OrderRow) {
    if row.filled == row.size then row.status.Filled? else row.status.Cancelled?
  }

  ghost predicate RestsAnywhere(books: map<Pair, BookView>, id: nat) {
    exists p :: p in books && id in BookIds(books[p])
  }

  /** The status, read off the quantity and off whether the order rests. */
  ghost predicate StatusFits(row: OrderRow, rests: bool) {
    && (row.status.Filled? <==> row.filled == row.size)
    && (row.status.Cancelled? <==> !rests && row.filled < row.size)
    && (row.status.Open? <==> rests && row.filled == 0)
    && (row.status.PartiallyFilled? <==> rests && 0 < row.filled)
  }

  /**
    What the events so far say about `id` is what the books say: nothing before it is issued; then
    the fills add up to the row's cumulative quantity; a resting order's row mirrors it; one that
    no longer rests is terminal.
   */
  ghost predicate Tracked(books: map<Pair, BookView>, nextId: nat, id: nat, row: Option<OrderRow>, fills: nat) {
    if id >= nextId then row.None? && fills == 0
    else
      && row.Some?
      && row.value.filled == fills <= row.value.size
      && (forall p, o :: Resting(books, p, o) && o.id == id ==> RowMatches(row.value, p, o))
      && (!RestsAnywhere(books, id) ==> Terminal(row.value))
  }

  lemma RestingHasId(books: map<Pair, BookView>, p: Pair, o: Order)
    requires Resting(books, p, o)
    ensures o.id in BookIds(books[p]) && RestsAnywhere(books, o.id)
  {
    IdsOfMembers(books[p].Resting(o.side));
  }

  // ----- a placement -----

  lemma PlaceRow(row: Option<OrderRow>, id: nat, a: AccountId, req: OrderRequest, p: Placement, x: nat)
    requires forall t :: t in p.trades ==> t.takerId == id
    ensures var accepted := RowStep(row, OrderAccepted(id, a, req.pair, req.side, req.orderType, req.price, req.size), x);
            RowAfter(row, PlaceEvents(id, a, req, p), x) == Overwrite(accepted, UpdatesOf(p.updates, x))
    ensures FillsIn(PlaceEvents(id, a, req, p), x) ==
            TradeTotal(Fills(x), p.trades) + (if x == id then TradeTotal(Volume, p.trades) else 0)
  {
    var accept := [OrderAccepted(id, a, req.pair, req.side, req.orderType, req.price, req.size)];
    var trades, updates := TradeEvents(p.trades), UpdateEvents(req.pair, p.updates);
    var accepted := RowStep(row, accept[0], x);
    RowConcat(row, accept + trades, updates, x);
    RowConcat(row, accept, trades, x);
    FillsConcat(accept + trades, updates, x);
    FillsConcat(accept, trades, x);
    assert accept[1..] == [];
    assert RowAfter(row, accept, x) == accepted;
    RowOverTrades(accepted, p.trades, x, id);
    RowOverUpdates(accepted, req.pair, p.updates, x);
  }

  lemma TakersAreNew(b: BookView, pair: Pair, taker: Order)
    ensures forall t :: t in AddOrder(b, pair, taker).trades ==> t.takerId == taker.id
  {
    MatchTradesBelongToTaker(pair, taker, b.Resting(taker.side.Opposite()));
  }

  lemma UpdatesSplit(b: BookView, pair: Pair, taker: Order, x: nat)
    ensures UpdatesOf(AddOrder(b, pair, taker).updates, x) ==
            UpdatesOf(Match(pair, taker, b.Resting(taker.side.Opposite())).updates, x)
            + (if x == taker.id then TakerUpdate(taker, AddOrder(b, pair, taker).remaining) else [])
  {
    var o := Match(pair, taker, b.Resting(taker.side.Opposite()));
    var last := TakerUpdate(taker, o.remaining);
    UpdatesOfConcat(o.updates, last, x);
    if last != [] {
      assert last[1..] == [];
      assert UpdatesOf(last, x) == if last[0].orderId == x then last else [];
    }
  }

  /** The taker itself: rests as reported, or its row is terminal. */
  lemma TakerTracked(b: BookView, a: AccountId, req: OrderRequest, id: nat)
    requires BookInv(b) && forall x :: x in BookIds(b) ==> x < id
    ensures var taker := NewOrder(id, a, req);
            var p := AddOrder(b, req.pair, taker);
            var row := RowAfter(None, PlaceEvents(id, a, req, p), id);
            && row.Some? && row.value.filled == FillsIn(PlaceEvents(id, a, req, p), id) <= row.value.size
            && row.value.size == req.size
            && (if Rests(taker, p.remaining) then RowMatches(row.value, req.pair, taker.(remaining := p.remaining))
                else Terminal(row.value))
  {
    var taker := NewOrder(id, a, req);
    var opp := b.Resting(req.side.Opposite());
    var p := AddOrder(b, req.pair, taker);
    TakersAreNew(b, req.pair, taker);
    PlaceRow(None, id, a, req, p, id);
    assert id !in Ids(opp) by {
      assert Ids(opp) <= BookIds(b);
    }
    NotThereNotTouched(req.pair, taker, opp, id);
    UpdatesSplit(b, req.pair, taker, id);
    TakerConserves(req.pair, taker, opp);
  }

  /** One id, one order, one market. */
  lemma RestingUnique(books: map<Pair, BookView>, nextId: nat, p: Pair, o: Order, p': Pair, o': Order)
    requires BooksInv(books, nextId) && Resting(books, p, o) && Resting(books, p', o') && o.id == o'.id
    ensures p == p' && o == o'
  {
    RestingHasId(books, p, o);
    RestingHasId(books, p', o');
    var b := books[p];
    IdsOfMembers(b.bids);
    IdsOfMembers(b.asks);
    FindUnique(b.Resting(o.side), o);
    if o'.side == o.side {
      FindUnique(b.Resting(o.side), o');
    }
  }

  lemma RestsAnywhereOrder(books: map<Pair, BookView>, id: nat) returns (p: Pair, o: Order)
    requires RestsAnywhere(books, id) && forall q :: q in books ==> BookInv(books[q])
    ensures Resting(books, p, o) && o.id == id
  {
    p :| p in books && id in BookIds(books[p]);
    LookupFinds(books[p], id);
    o := Lookup(books[p], id).value;
  }

  /** An order untouched by the command, resting exactly where and as it did, stays tracked. */
  lemma UntouchedTracked(
    books: map<Pair, BookView>, books': map<Pair, BookView>, nextId: nat, nextId': nat, id: nat,
    row: Option<OrderRow>, fills: nat)
    requires Tracked(books, nextId, id, row, fills) && nextId <= nextId' && (id < nextId || id >= nextId')
    requires forall p, o: Order :: o.id == id && Resting(books', p, o) ==> Resting(books, p, o)
    requires RestsAnywhere(books, id) ==> RestsAnywhere(books', id)
    ensures Tracked(books', nextId', id, row, fills)
  {
  }

  lemma RestingAfterPlace(s: State, a: AccountId, req: OrderRequest, p: Pair, o: Order)
    requires Inv(s) && Resting(BooksAfter(s, a, req), p, o)
    ensures var b, taker := BookAt(s.books, req.pair), NewOrder(s.nextOrderId, a, req);
            var out := Match(req.pair, taker, b.Resting(req.side.Opposite()));
            || (p != req.pair && Resting(s.books, p, o))
            || (p == req.pair && o.side == req.side && o in OwnAfter(b.Resting(req.side), taker, out.remaining))
            || (p == req.pair && o.side == req.side.Opposite() && o in out.rest)
  {
  }

  lemma OwnAfterMembers(own: seq<Order>, taker: Order, remaining: nat)
    ensures forall o :: o in OwnAfter(own, taker, remaining) <==>
              o in own || (Rests(taker, remaining) && o == taker.(remaining := remaining))
  {
    EnqueueMembers(own, taker.(remaining := remaining));
  }

  lemma RestIdsWithin(pair: Pair, taker: Order, opp: seq<Order>)
    requires Alive(opp)
    ensures Ids(Match(pair, taker, opp).rest) <= Ids(opp)
  {
    var k := RestIsTail(pair, taker, opp);
    TailIds(Match(pair, taker, opp).rest, opp, k);
  }

  lemma OppAlive(s: State, req: OrderRequest)
    requires Inv(s)
    ensures var opp := BookAt(s.books, req.pair).Resting(req.side.Opposite());
            Alive(opp) && DistinctIds(opp) && OnSide(opp, req.side.Opposite())
            && (forall id :: id in Ids(opp) ==> id < s.nextOrderId)
  {
    BookAtInv(s, req.pair);
    var b := BookAt(s.books, req.pair);
    BookInvFrom(b, req.side);
    assert Ids(b.Resting(req.side.Opposite())) <= BookIds(b);
  }

  /** An order not on the side being matched: no fill, no update, same place. */
  lemma BystanderTracked(s: State, a: AccountId, req: OrderRequest, x: nat, row: Option<OrderRow>, fills: nat)
    requires Inv(s) && Tracked(s.books, s.nextOrderId, x, row, fills)
    requires x != s.nextOrderId && x !in Ids(BookAt(s.books, req.pair).Resting(req.side.Opposite()))
    ensures var events := PlaceEvents(s.nextOrderId, a, req, PlacementOf(s, a, req));
            Tracked(BooksAfter(s, a, req), s.nextOrderId + 1, x, RowAfter(row, events, x), fills + FillsIn(events, x))
  {
    var b, taker := BookAt(s.books, req.pair), NewOrder(s.nextOrderId, a, req);
    var own, opp := b.Resting(req.side), b.Resting(req.side.Opposite());
    var out := Match(req.pair, taker, opp);
    TakersAreNew(b, req.pair, taker);
    PlaceRow(row, s.nextOrderId, a, req, PlacementOf(s, a, req), x);
    NotThereNotTouched(req.pair, taker, opp, x);
    UpdatesSplit(b, req.pair, taker, x);
    OwnAfterMembers(own, taker, out.remaining);
    var books' := BooksAfter(s, a, req);
    forall p, o: Order | o.id == x && Resting(books', p, o) ensures Resting(s.books, p, o) {
      RestingAfterPlace(s, a, req, p, o);
      IdsOfMembers(out.rest);
    }
    if RestsAnywhere(s.books, x) {
      BystanderStays(s, a, req, x);
    }
    UntouchedTracked(s.books, books', s.nextOrderId, s.nextOrderId + 1, x, row, fills);
  }

  lemma BystanderStays(s: State, a: AccountId, req: OrderRequest, x: nat)
    requires Inv(s) && RestsAnywhere(s.books, x)
    requires x !in Ids(BookAt(s.books, req.pair).Resting(req.side.Opposite()))
    ensures RestsAnywhere(BooksAfter(s, a, req), x)
  {
    var p, o := RestsAnywhereOrder(s.books, x);
    var books' := BooksAfter(s, a, req);
    if p == req.pair {
      var b, taker := BookAt(s.books, req.pair), NewOrder(s.nextOrderId, a, req);
      IdsOfMembers(b.Resting(o.side));
      OwnAfterMembers(b.Resting(req.side), taker, PlacementOf(s, a, req).remaining);
    }
    assert Resting(books', p, o);
    RestingHasId(books', p, o);
  }

  lemma MakerResting(s: State, req: OrderRequest, m: Order)
    requires Inv(s) && m in BookAt(s.books, req.pair).Resting(req.side.Opposite())
    ensures Resting(s.books, req.pair, m) && m.id < s.nextOrderId && 0 < m.remaining <= m.size
  {
    OppAlive(s, req);
    var opp := BookAt(s.books, req.pair).Resting(req.side.Opposite());
    IdsOfMembers(opp);
    BookAtInv(s, req.pair);
    BookInvFrom(BookAt(s.books, req.pair), req.side);
    var i :| 0 <= i < |opp| && opp[i] == m;
    assert m.side == req.side.Opposite();
    assert m.id in Ids(opp);
    assert req.pair in s.books;
  }

  /** How a maker's row changes when `left` of it remains. */
  function MakerRow(row: Option<OrderRow>, m: Order, left: nat): Option<OrderRow> {
    Overwrite(row, if left == m.remaining then []
                   else [OrderUpdate(m.id, m.account, m.size - left, left, if left == 0 then Filled else PartiallyFilled)])
  }

  lemma MakerRowTracked(
    books: map<Pair, BookView>, books': map<Pair, BookView>, nextId: nat, p: Pair, m: Order, left: nat,
    row: Option<OrderRow>, fills: nat)
    requires Tracked(books, nextId, m.id, row, fills) && m.id < nextId && Resting(books, p, m)
    requires left <= m.remaining && 0 < m.remaining <= m.size
    requires RestsAnywhere(books', m.id) <==> left > 0
    requires forall q, o :: Resting(books', q, o) && o.id == m.id ==> q == p && o == m.(remaining := left)
    ensures Tracked(books', nextId + 1, m.id, MakerRow(row, m, left), fills + (m.remaining - left))
  {
    assert RowMatches(row.value, p, m);
    var row' := MakerRow(row, m, left).value;
    forall q, o | Resting(books', q, o) && o.id == m.id ensures RowMatches(row', q, o) {
      assert RowMatches(row', p, m.(remaining := left));
    }
  }

  /** A maker on the side being matched. */
  lemma MakerTracked(s: State, a: AccountId, req: OrderRequest, m: Order, row: Option<OrderRow>, fills: nat)
    requires Inv(s) && req.pair.IsValid() && m in BookAt(s.books, req.pair).Resting(req.side.Opposite())
    requires Tracked(s.books, s.nextOrderId, m.id, row, fills)
    ensures var events := PlaceEvents(s.nextOrderId, a, req, PlacementOf(s, a, req));
            Tracked(BooksAfter(s, a, req), s.nextOrderId + 1, m.id,
                    RowAfter(row, events, m.id), fills + FillsIn(events, m.id))
  {
    MakerResting(s, req, m);
    OppAlive(s, req);
    var b, taker := BookAt(s.books, req.pair), NewOrder(s.nextOrderId, a, req);
    var left := MakerFate(req.pair, taker, b.Resting(req.side.Opposite()), m);
    MakerRestsAs(s, a, req, m, left);
    MakerRowTracked(s.books, BooksAfter(s, a, req), s.nextOrderId, req.pair, m, left, row, fills);
    MakerEvents(s, a, req, m, left, row);
  }

  lemma MakerEvents(s: State, a: AccountId, req: OrderRequest, m: Order, left: nat, row: Option<OrderRow>)
    requires m.id < s.nextOrderId
    requires Fate(m, left, Match(req.pair, NewOrder(s.nextOrderId, a, req),
                                 BookAt(s.books, req.pair).Resting(req.side.Opposite())))
    ensures var events := PlaceEvents(s.nextOrderId, a, req, PlacementOf(s, a, req));
            RowAfter(row, events, m.id) == MakerRow(row, m, left) && FillsIn(events, m.id) == m.remaining - left
  {
    var b, taker := BookAt(s.books, req.pair), NewOrder(s.nextOrderId, a, req);
    TakersAreNew(b, req.pair, taker);
    PlaceRow(row, s.nextOrderId, a, req, PlacementOf(s, a, req), m.id);
    UpdatesSplit(b, req.pair, taker, m.id);
  }

  /** Where a maker is after the match: with `left` remaining, or nowhere. */
  lemma MakerRestsAs(s: State, a: AccountId, req: OrderRequest, m: Order, left: nat)
    requires Inv(s) && req.pair.IsValid() && m in BookAt(s.books, req.pair).Resting(req.side.Opposite())
    requires Fate(m, left, Match(req.pair, NewOrder(s.nextOrderId, a, req),
                                 BookAt(s.books, req.pair).Resting(req.side.Opposite())))
    ensures var books' := BooksAfter(s, a, req);
            && (left > 0 ==> RestsAnywhere(books', m.id))
            && (forall p, o :: Resting(books', p, o) && o.id == m.id ==>
                  left > 0 && p == req.pair && o == m.(remaining := left))
            && (RestsAnywhere(books', m.id) ==> left > 0)
  {
    var books' := BooksAfter(s, a, req);
    PlaceKeepsBooks(s, a, req);
    OppAlive(s, req);
    var m' := m.(remaining := left);
    if left > 0 {
      assert Resting(books', req.pair, m');
      RestingHasId(books', req.pair, m');
    }
    forall p, o | Resting(books', p, o) && o.id == m.id
      ensures left > 0 && p == req.pair && o == m'
    {
      if left > 0 {
        RestingUnique(books', s.nextOrderId + 1, p, o, req.pair, m');
      } else {
        GoneMaker(s, a, req, m, p, o);
      }
    }
    if RestsAnywhere(books', m.id) {
      var p, o := RestsAnywhereOrder(books', m.id);
    }
  }

  lemma GoneMaker(s: State, a: AccountId, req: OrderRequest, m: Order, p: Pair, o: Order)
    requires Inv(s) && m in BookAt(s.books, req.pair).Resting(req.side.Opposite())
    requires m.id !in Ids(Match(req.pair, NewOrder(s.nextOrderId, a, req),
                                BookAt(s.books, req.pair).Resting(req.side.Opposite())).rest)
    requires Resting(BooksAfter(s, a, req), p, o)
    ensures o.id != m.id
  {
    var b, taker := BookAt(s.books, req.pair), NewOrder(s.nextOrderId, a, req);
    var out := Match(req.pair, taker, b.Resting(req.side.Opposite()));
    RestingAfterPlace(s, a, req, p, o);
    OwnAfterMembers(b.Resting(req.side), taker, out.remaining);
    IdsOfMembers(out.rest);
    MakerResting(s, req, m);
    if o.id == m.id && o !in out.rest {
      RestingUnique(s.books, s.nextOrderId, p, o, req.pair, m);
      BookAtInv(s, req.pair);
    }
  }

  lemma NewOrderIn(s: State, a: AccountId, req: OrderRequest)
    requires Rests(NewOrder(s.nextOrderId, a, req), PlacementOf(s, a, req).remaining)
    ensures Resting(BooksAfter(s, a, req), req.pair,
                    NewOrder(s.nextOrderId, a, req).(remaining := PlacementOf(s, a, req).remaining))
  {
    var b, taker, p := BookAt(s.books, req.pair), NewOrder(s.nextOrderId, a, req), PlacementOf(s, a, req);
    OwnAfterMembers(b.Resting(req.side), taker, p.remaining);
    assert p.book.Resting(req.side) == OwnAfter(b.Resting(req.side), taker, p.remaining);
  }

  lemma NewOrderRests(s: State, a: AccountId, req: OrderRequest, row: Option<OrderRow>, fills: nat)
    requires Inv(s) && req.pair.IsValid()
    requires var taker, p := NewOrder(s.nextOrderId, a, req), PlacementOf(s, a, req);
             && Rests(taker, p.remaining) && row.Some? && row.value.filled == fills <= row.value.size
             && RowMatches(row.value, req.pair, taker.(remaining := p.remaining))
    ensures Tracked(BooksAfter(s, a, req), s.nextOrderId + 1, s.nextOrderId, row, fills)
  {
    var id, books' := s.nextOrderId, BooksAfter(s, a, req);
    PlaceKeepsBooks(s, a, req);
    NewOrderIn(s, a, req);
    var order := NewOrder(id, a, req).(remaining := PlacementOf(s, a, req).remaining);
    RestingHasId(books', req.pair, order);
    forall q, o | Resting(books', q, o) && o.id == id ensures q == req.pair && o == order {
      RestingUnique(books', id + 1, q, o, req.pair, order);
    }
  }

  lemma NewOrderGone(s: State, a: AccountId, req: OrderRequest, row: Option<OrderRow>, fills: nat)
    requires Inv(s) && req.pair.IsValid()
    requires !Rests(NewOrder(s.nextOrderId, a, req), PlacementOf(s, a, req).remaining)
    requires row.Some? && row.value.filled == fills <= row.value.size && Terminal(row.value)
    ensures Tracked(BooksAfter(s, a, req), s.nextOrderId + 1, s.nextOrderId, row, fills)
  {
    var books' := BooksAfter(s, a, req);
    PlaceKeepsBooks(s, a, req);
    forall q, o | Resting(books', q, o) ensures o.id != s.nextOrderId {
      NeverRested(s, a, req, q, o);
    }
    if RestsAnywhere(books', s.nextOrderId) {
      var q, o := RestsAnywhereOrder(books', s.nextOrderId);
    }
  }

  /** The order just placed. */
  lemma NewOrderTracked(s: State, a: AccountId, req: OrderRequest)
    requires Inv(s) && req.pair.IsValid()
    ensures var id := s.nextOrderId;
            var events := PlaceEvents(id, a, req, PlacementOf(s, a, req));
            Tracked(BooksAfter(s, a, req), id + 1, id, RowAfter(None, events, id), FillsIn(events, id))
  {
    var id, p := s.nextOrderId, PlacementOf(s, a, req);
    BookAtInv(s, req.pair);
    TakerTracked(BookAt(s.books, req.pair), a, req, id);
    var events := PlaceEvents(id, a, req, p);
    if Rests(NewOrder(id, a, req), p.remaining) {
      NewOrderRests(s, a, req, RowAfter(None, events, id), FillsIn(events, id));
    } else {
      NewOrderGone(s, a, req, RowAfter(None, events, id), FillsIn(events, id));
    }
  }

  lemma NeverRested(s: State, a: AccountId, req: OrderRequest, q: Pair, o: Order)
    requires Inv(s) && Resting(BooksAfter(s, a, req), q, o)
    requires !Rests(NewOrder(s.nextOrderId, a, req), PlacementOf(s, a, req).remaining)
    ensures o.id != s.nextOrderId
  {
    var b, taker := BookAt(s.books, req.pair), NewOrder(s.nextOrderId, a, req);
    var opp := b.Resting(req.side.Opposite());
    RestingAfterPlace(s, a, req, q, o);
    OppAlive(s, req);
    RestIdsWithin(req.pair, taker, opp);
    IdsOfMembers(Match(req.pair, taker, opp).rest);
    if o in Match(req.pair, taker, opp).rest {
      assert o.id in Ids(opp);
    } else {
      assert Resting(s.books, q, o);
      RestingHasId(s.books, q, o);
    }
  }

  /** A placement keeps every order, old, new or yet to come, tracked. */
  lemma PlaceTracks(s: State, a: AccountId, req: OrderRequest, x: nat, row: Option<OrderRow>, fills: nat)
    requires Inv(s) && req.pair.IsValid() && Tracked(s.books, s.nextOrderId, x, row, fills)
    ensures var events := PlaceEvents(s.nextOrderId, a, req, PlacementOf(s, a, req));
            Tracked(BooksAfter(s, a, req), s.nextOrderId + 1, x, RowAfter(row, events, x), fills + FillsIn(events, x))
  {
    var opp := BookAt(s.books, req.pair).Resting(req.side.Opposite());
    if x == s.nextOrderId {
      NewOrderTracked(s, a, req);
    } else if x in Ids(opp) {
      FindFinds(opp, x);
      MakerTracked(s, a, req, Find(opp, x).value, row, fills);
    } else {
      BystanderTracked(s, a, req, x, row, fills);
    }
  }

  // ----- a cancel -----

  lemma RestingAlive(s: State, p: Pair, o: Order)
    requires Inv(s) && Resting(s.books, p, o)
    ensures 0 < o.remaining <= o.size
  {
    BookInvFrom(s.books[p], o.side);
    var resting := s.books[p].Resting(o.side);
    var i :| 0 <= i < |resting| && resting[i] == o;
  }

  lemma RestingAfterDrop(books: map<Pair, BookView>, nextId: nat, p: Pair, o: Order, q: Pair, x: Order)
    requires BooksInv(books, nextId) && Resting(books, p, o)
    requires Resting(books[p := Drop(books[p], o)], q, x)
    ensures Resting(books, q, x)
  {
    if q == p && x.side == o.side {
      BookInvFrom(books[p], o.side);
      WithoutMembers(books[p].Resting(o.side), o);
    }
  }

  lemma IdsOfDropped(books: map<Pair, BookView>, nextId: nat, p: Pair, o: Order, q: Pair)
    requires BooksInv(books, nextId) && Resting(books, p, o) && q in books
    ensures BookIds(books[p := Drop(books[p], o)][q]) == BookIds(books[q]) - {o.id}
  {
    RestingHasId(books, p, o);
    if q == p {
      DropKeepsInv(books[p], o);
    } else {
      assert BookIds(books[p]) !! BookIds(books[q]);
    }
  }

  /** Exactly the cancelled id disappears. */
  lemma IdsAfterDrop(books: map<Pair, BookView>, nextId: nat, p: Pair, o: Order, id: nat)
    requires BooksInv(books, nextId) && Resting(books, p, o)
    ensures RestsAnywhere(books[p := Drop(books[p], o)], id) <==> RestsAnywhere(books, id) && id != o.id
  {
    var books' := books[p := Drop(books[p], o)];
    if RestsAnywhere(books', id) {
      var q :| q in books' && id in BookIds(books'[q]);
      IdsOfDropped(books, nextId, p, o, q);
      assert q in books && id in BookIds(books[q]);
    }
    if RestsAnywhere(books, id) && id != o.id {
      var q :| q in books && id in BookIds(books[q]);
      IdsOfDropped(books, nextId, p, o, q);
      assert q in books' && id in BookIds(books'[q]);
    }
  }

  lemma CancelRow(row: Option<OrderRow>, p: Pair, o: Order, x: nat)
    ensures FillsIn(CancelEvents(p, o), x) == 0
    ensures RowAfter(row, CancelEvents(p, o), x) ==
            if x == o.id && row.Some? then Some(row.value.(filled := o.size - o.remaining, status := Cancelled)) else row
  {
    var cancelled, updated := OrderCancelled(o.id), OrderUpdated(p, CancelUpdate(o));
    OfTwo(row, cancelled, updated, x);
  }

  /** The folds over a pair of events, unfolded. */
  lemma OfTwo(row: Option<OrderRow>, d: Event, e: Event, x: nat)
    requires !d.TradeEvent? && !e.TradeEvent? && !d.OrderUpdated?
    ensures RowAfter(row, [d, e], x) == RowStep(RowStep(row, d, x), e, x)
    ensures FillsIn([d, e], x) == 0 && UpdateCount([d, e], x) <= 1
  {
    assert [d, e][1..] == [e];
    assert [e][1..] == [];
    assert RowAfter(RowStep(row, d, x), [e], x) == RowAfter(RowStep(RowStep(row, d, x), e, x), [], x);
    assert FillsIn([e], x) == FillsIn([], x) && UpdateCount([e], x) <= 1;
  }

  /** A cancel makes the row terminal at the quantity it had, and touches no other order. */
  lemma CancelTracks(s: State, p: Pair, o: Order, x: nat, row: Option<OrderRow>, fills: nat)
    requires Inv(s) && Resting(s.books, p, o) && Tracked(s.books, s.nextOrderId, x, row, fills)
    ensures Tracked(s.books[p := Drop(s.books[p], o)], s.nextOrderId, x,
                    RowAfter(row, CancelEvents(p, o), x), fills + FillsIn(CancelEvents(p, o), x))
  {
    var books' := s.books[p := Drop(s.books[p], o)];
    CancelRow(row, p, o, x);
    IdsAfterDrop(s.books, s.nextOrderId, p, o, x);
    RestingHasId(s.books, p, o);
    if x == o.id {
      RestingAlive(s, p, o);
      assert RowMatches(row.value, p, o);
      forall q, y | Resting(books', q, y) ensures y.id != x {
        RestingHasId(books', q, y);
      }
    } else {
      forall q, y: Order | y.id == x && Resting(books', q, y) ensures Resting(s.books, q, y) {
        RestingAfterDrop(s.books, s.nextOrderId, p, o, q, y);
      }
      UntouchedTracked(s.books, books', s.nextOrderId, s.nextOrderId, x, row, fills);
    }
  }

  // ----- any command -----

  lemma CancelledRested(s: State, a: AccountId, id: nat)
    requires Inv(s) && CancelOrder(s, a, id).1.Some?
    ensures var c := CancelOrder(s, a, id).1.value;
            Resting(s.books, c.0, c.1) && c.1.id == id
            && CancelOrder(s, a, id).0.books == s.books[c.0 := Drop(s.books[c.0], c.1)]
  {
    LookupFinds(s.books[Locate(s.books, id).value], id);
  }

  /** Ordered events of one step; none when it published nothing. */
  function CoreOf(step: Step): seq<Event> {
    if step.batch.Some? then step.batch.value.core else []
  }

  ghost predicate EffectTracks(e: Effect, x: nat, row: Option<OrderRow>, fills: nat) {
    Tracked(e.state.books, e.state.nextOrderId, x, RowAfter(row, e.core, x), fills + FillsIn(e.core, x))
  }

  lemma PlaceEffectTracks(s: State, lim: Limits, a: AccountId, req: OrderRequest, x: nat, row: Option<OrderRow>, fills: nat)
    requires Inv(s) && Tracked(s.books, s.nextOrderId, x, row, fills)
    ensures EffectTracks(PlaceEffect(s, lim, a, req), x, row, fills)
  {
    PlaceIsAtomic(s, lim, a, req);
    if PlaceOrder(s, lim, a, req).1.Ok? {
      PlaceTracks(s, a, req, x, row, fills);
    }
  }

  lemma CancelEffectTracks(s: State, a: AccountId, id: nat, x: nat, row: Option<OrderRow>, fills: nat)
    requires Inv(s) && Tracked(s.books, s.nextOrderId, x, row, fills)
    ensures EffectTracks(CancelEffect(s, a, id), x, row, fills)
  {
    var r := CancelOrder(s, a, id);
    if r.1.Some? {
      CancelledRested(s, a, id);
      CancelTracks(s, r.1.value.0, r.1.value.1, x, row, fills);
    }
  }

  lemma RunTracks(s: State, lim: Limits, a: AccountId, command: Command, x: nat, row: Option<OrderRow>, fills: nat)
    requires Inv(s) && Tracked(s.books, s.nextOrderId, x, row, fills)
    ensures EffectTracks(Run(s, lim, a, command), x, row, fills)
  {
    match command
    case Place(req) => PlaceEffectTracks(s, lim, a, req, x, row, fills);
    case Cancel(id) => CancelEffectTracks(s, a, id, x, row, fills);
    case _ => OthersLeaveBooks(s, lim, a, command);
  }

  /** Every step keeps every order tracked. */
  lemma ApplyTracks(s: State, lim: Limits, env: Envelope, x: nat, row: Option<OrderRow>, fills: nat)
    requires Inv(s) && Tracked(s.books, s.nextOrderId, x, row, fills)
    ensures var step := Apply(s, lim, env);
            Tracked(step.state.books, step.state.nextOrderId, x,
                    RowAfter(row, CoreOf(step), x), fills + FillsIn(CoreOf(step), x))
  {
    var attempt := Try(s.window, env.account, env.key);
    if attempt.1 {
      TryKeepsWindow(s.window, env.account, env.key);
      CountersKeepInv(s, attempt.0, s.nextSeq);
      RunTracks(s.(window := attempt.0), lim, env.account, env.command, x, row, fills);
    }
  }

  // ----- finished orders are never heard of again -----

  predicate Mentions(e: Event, id: nat) {
    match e
    case TradeEvent(t) => t.makerId == id || t.takerId == id
    case OrderAccepted(x, _, _, _, _, _, _) => x == id
    case OrderCancelled(x) => x == id
    case OrderUpdated(_, u) => u.orderId == id
    case _ => false
  }

  ghost predicate Silent(events: seq<Event>, id: nat) {
    forall i :: 0 <= i < |events| ==> !Mentions(events[i], id)
  }

  lemma PlaceSilent(s: State, a: AccountId, req: OrderRequest, x: nat)
    requires Inv(s) && x < s.nextOrderId && !RestsAnywhere(s.books, x)
    ensures Silent(PlaceEvents(s.nextOrderId, a, req, PlacementOf(s, a, req)), x)
    ensures !RestsAnywhere(BooksAfter(s, a, req), x)
  {
    var b, taker := BookAt(s.books, req.pair), NewOrder(s.nextOrderId, a, req);
    var opp, p := b.Resting(req.side.Opposite()), PlacementOf(s, a, req);
    OppAlive(s, req);
    BookAtInv(s, req.pair);
    AddOrderKeepsInv(b, req.pair, taker);
    assert x !in BookIds(b);
    assert Ids(opp) <= BookIds(b);
    MatchSilent(req.pair, taker, opp, x);
    EventsSilent(s.nextOrderId, a, req, p, x);
  }

  lemma MatchSilent(pair: Pair, taker: Order, opp: seq<Order>, x: nat)
    requires Alive(opp) && x !in Ids(opp) && x != taker.id
    ensures var o := Match(pair, taker, opp);
            && (forall t :: t in o.trades ==> t.makerId != x && t.takerId != x)
            && (forall u :: u in o.updates + TakerUpdate(taker, o.remaining) ==> u.orderId != x)
  {
    MatchWalks(pair, taker, opp);
    var o := Match(pair, taker, opp);
    forall i | 0 <= i < |o.trades| ensures o.trades[i].makerId != x && o.trades[i].takerId != x && o.updates[i].orderId != x {
      assert TradedWith(pair, taker, opp[i], o.trades[i], o.updates[i]);
      assert opp[i].id in Ids(opp);
    }
  }

  lemma EventsSilent(id: nat, a: AccountId, req: OrderRequest, p: Placement, x: nat)
    requires x != id
    requires forall t :: t in p.trades ==> t.makerId != x && t.takerId != x
    requires forall u :: u in p.updates ==> u.orderId != x
    ensures Silent(PlaceEvents(id, a, req, p), x)
  {
    var trades, updates := TradeEvents(p.trades), UpdateEvents(req.pair, p.updates);
    forall i | 0 <= i < |trades| ensures !Mentions(trades[i], x) {
      assert p.trades[i] in p.trades;
    }
    forall i | 0 <= i < |updates| ensures !Mentions(updates[i], x) {
      assert p.updates[i] in p.updates;
    }
  }

  lemma OthersCancelIsSilent(p: Pair, o: Order, x: nat)
    requires o.id != x
    ensures Silent(CancelEvents(p, o), x)
  {
  }

  lemma CancelSilent(s: State, a: AccountId, id: nat, x: nat)
    requires Inv(s) && x < s.nextOrderId && !RestsAnywhere(s.books, x)
    ensures Silent(CancelEffect(s, a, id).core, x) && !RestsAnywhere(CancelEffect(s, a, id).state.books, x)
  {
    var r := CancelOrder(s, a, id);
    if r.1.Some? {
      CancelledRested(s, a, id);
      RestingHasId(s.books, r.1.value.0, r.1.value.1);
      OthersCancelIsSilent(r.1.value.0, r.1.value.1, x);
      IdsAfterDrop(s.books, s.nextOrderId, r.1.value.0, r.1.value.1, x);
    }
  }

  lemma PlaceEffectSilent(s: State, lim: Limits, a: AccountId, req: OrderRequest, x: nat)
    requires Inv(s) && x < s.nextOrderId && !RestsAnywhere(s.books, x)
    ensures var e := PlaceEffect(s, lim, a, req);
            Silent(e.core, x) && x < e.state.nextOrderId && !RestsAnywhere(e.state.books, x)
  {
    PlaceIsAtomic(s, lim, a, req);
    if PlaceOrder(s, lim, a, req).1.Ok? {
      PlaceSilent(s, a, req, x);
    }
  }

  lemma RunSilent(s: State, lim: Limits, a: AccountId, command: Command, x: nat)
    requires Inv(s) && x < s.nextOrderId && !RestsAnywhere(s.books, x)
    ensures var e := Run(s, lim, a, command);
            Silent(e.core, x) && x < e.state.nextOrderId && !RestsAnywhere(e.state.books, x)
  {
    match command
    case Place(req) => PlaceEffectSilent(s, lim, a, req, x);
    case Cancel(id) => CancelSilent(s, a, id, x);
    case _ =>
  }

  /** An issued order that no longer rests is mentioned by no later event and never rests again. */
  lemma ApplySilent(s: State, lim: Limits, env: Envelope, x: nat)
    requires Inv(s) && x < s.nextOrderId && !RestsAnywhere(s.books, x)
    ensures var step := Apply(s, lim, env);
            Silent(CoreOf(step), x) && x < step.state.nextOrderId && !RestsAnywhere(step.state.books, x)
  {
    var attempt := Try(s.window, env.account, env.key);
    if attempt.1 {
      TryKeepsWindow(s.window, env.account, env.key);
      CountersKeepInv(s, attempt.0, s.nextSeq);
      RunSilent(s.(window := attempt.0), lim, env.account, env.command, x);
    }
  }

  lemma {:induction false} SilentRow(row: Option<OrderRow>, events: seq<Event>, id: nat)
    requires Silent(events, id)
    ensures RowAfter(row, events, id) == row && FillsIn(events, id) == 0
    decreases |events|
  {
    if events != [] {
      assert !Mentions(events[0], id);
      forall i | 0 <= i < |events[1..]| ensures !Mentions(events[1..][i], id) {
        assert events[1..][i] == events[i + 1];
      }
      SilentRow(row, events[1..], id);
    }
  }

  // ----- one update per order and command -----

  function UpdateCount(events: seq<Event>, id: nat): nat {
    if events == [] then 0
    else (if events[0].OrderUpdated? && events[0].update.orderId == id then 1 else 0) + UpdateCount(events[1..], id)
  }

  lemma {:induction false} UpdateCountConcat(x: seq<Event>, y: seq<Event>, id: nat)
    ensures UpdateCount(x + y, id) == UpdateCount(x, id) + UpdateCount(y, id)
  {
    if x == [] {
      assert x + y == y;
    } else {
      assert (x + y)[1..] == x[1..] + y;
      UpdateCountConcat(x[1..], y, id);
    }
  }

  lemma {:induction false} UpdateCountOfUpdates(pair: Pair, updates: seq<OrderUpdate>, id: nat)
    ensures UpdateCount(UpdateEvents(pair, updates), id) == |UpdatesOf(updates, id)|
  {
    if updates != [] {
      assert UpdateEvents(pair, updates)[1..] == UpdateEvents(pair, updates[1..]);
      UpdateCountOfUpdates(pair, updates[1..], id);
    }
  }

  lemma {:induction false} TradesUpdateNothing(trades: seq<Trade>, id: nat)
    ensures UpdateCount(TradeEvents(trades), id) == 0
  {
    if trades != [] {
      assert TradeEvents(trades)[1..] == TradeEvents(trades[1..]);
      TradesUpdateNothing(trades[1..], id);
    }
  }

  lemma PlacementUpdates(s: State, a: AccountId, req: OrderRequest, x: nat)
    requires Inv(s)
    ensures |UpdatesOf(PlacementOf(s, a, req).updates, x)| <= 1
  {
    var b, taker := BookAt(s.books, req.pair), NewOrder(s.nextOrderId, a, req);
    var opp := b.Resting(req.side.Opposite());
    OppAlive(s, req);
    UpdatesSplit(b, req.pair, taker, x);
    if x in Ids(opp) {
      FindFinds(opp, x);
      var left := MakerFate(req.pair, taker, opp, Find(opp, x).value);
    } else {
      NotThereNotTouched(req.pair, taker, opp, x);
    }
  }

  lemma PlaceUpdatesOnce(s: State, a: AccountId, req: OrderRequest, x: nat)
    requires Inv(s)
    ensures UpdateCount(PlaceEvents(s.nextOrderId, a, req, PlacementOf(s, a, req)), x) <= 1
  {
    var p := PlacementOf(s, a, req);
    var accept := [OrderAccepted(s.nextOrderId, a, req.pair, req.side, req.orderType, req.price, req.size)];
    UpdateCountConcat(accept + TradeEvents(p.trades), UpdateEvents(req.pair, p.updates), x);
    UpdateCountConcat(accept, TradeEvents(p.trades), x);
    assert accept[1..] == [];
    TradesUpdateNothing(p.trades, x);
    UpdateCountOfUpdates(req.pair, p.updates, x);
    PlacementUpdates(s, a, req, x);
  }

  lemma PlaceEffectUpdatesOnce(s: State, lim: Limits, a: AccountId, req: OrderRequest, x: nat)
    requires Inv(s)
    ensures UpdateCount(PlaceEffect(s, lim, a, req).core, x) <= 1
  {
    PlaceIsAtomic(s, lim, a, req);
    if PlaceOrder(s, lim, a, req).1.Ok? {
      PlaceUpdatesOnce(s, a, req, x);
    }
  }

  lemma CancelUpdatesOnce(s: State, a: AccountId, id: nat, x: nat)
    ensures UpdateCount(CancelEffect(s, a, id).core, x) <= 1
  {
    var r := CancelOrder(s, a, id);
    if r.1.Some? {
      OfTwo(None, OrderCancelled(r.1.value.1.id), OrderUpdated(r.1.value.0, CancelUpdate(r.1.value.1)), x);
    }
  }

  lemma RunUpdatesOnce(s: State, lim: Limits, a: AccountId, command: Command, x: nat)
    requires Inv(s)
    ensures UpdateCount(Run(s, lim, a, command).core, x) <= 1
  {
    match command
    case Place(req) => PlaceEffectUpdatesOnce(s, lim, a, req, x);
    case Cancel(id) => CancelUpdatesOnce(s, a, id, x);
    case _ =>
  }

  /** No command reports the same order twice, however many trades it took part in. */
  lemma ApplyUpdatesOnce(s: State, lim: Limits, env: Envelope, x: nat)
    requires Inv(s)
    ensures UpdateCount(CoreOf(Apply(s, lim, env)), x) <= 1
  {
    var attempt := Try(s.window, env.account, env.key);
    if attempt.1 {
      TryKeepsWindow(s.window, env.account, env.key);
      CountersKeepInv(s, attempt.0, s.nextSeq);
      RunUpdatesOnce(s.(window := attempt.0), lim, env.account, env.command, x);
    }
  }
}
