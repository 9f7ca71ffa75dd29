/**
  The tables against the engine: after any run the balances, orders and trades tables say what the
  engine's state says, and delivering part of the stream again changes no row.
 */
module Agreement {
  import opened Domain
  import opened Matching
  import opened BookSpec
  import opened DedupSpec
  import opened Events
  import opened EngineSpec
  import opened Reserves
  import opened PlaceProof
  import opened EngineInv
  import opened Lifecycle
  import opened Runs
  import opened Streams
  import opened Candles
  import opened Tables

  // ----- deliveries of a stream -----

  /** A batch's events with their ids, at the times `clock` says they arrive. */
  function Stamp(e: EventBatch, clock: EventId -> nat): seq<Delivery> {
    seq(|e.events|, i requires 0 <= i < |e.events| => Delivery((e.seqNo, i), e.events[i], clock((e.seqNo, i))))
  }

  function Stamped(es: seq<EventBatch>, clock: EventId -> nat): seq<Delivery> {
    if es == [] then [] else Stamped(es[..|es| - 1], clock) + Stamp(es[|es| - 1], clock)
  }

  lemma EventsOfConcat(x: seq<Delivery>, y: seq<Delivery>)
    ensures EventsOf(x + y) == EventsOf(x) + EventsOf(y)
  {
  }

  lemma {:induction false} EventsOfStamped(es: seq<EventBatch>, clock: EventId -> nat)
    ensures EventsOf(Stamped(es, clock)) == AllEvents(es)
  {
    if es != [] {
      var init, last := es[..|es| - 1], es[|es| - 1];
      EventsOfStamped(init, clock);
      EventsOfConcat(Stamped(init, clock), Stamp(last, clock));
      assert EventsOf(Stamp(last, clock)) == last.events;
    }
  }

  lemma {:induction false} StampedConcat(x: seq<EventBatch>, y: seq<EventBatch>, clock: EventId -> nat)
    ensures Stamped(x + y, clock) == Stamped(x, clock) + Stamped(y, clock)
  {
    if y == [] {
      assert x + y == x;
    } else {
      var y', last := y[..|y| - 1], y[|y| - 1];
      StampedConcat(x, y', clock);
      assert (x + y)[..|x + y| - 1] == x + y';
      assert Stamped(x, clock) + Stamped(y', clock) + Stamp(last, clock)
             == Stamped(x, clock) + (Stamped(y', clock) + Stamp(last, clock));
    }
  }

  // ----- orders: accepted before anything else happens to them -----

  predicate Changes(e: Event, id: nat) {
    (e.OrderCancelled? && e.cancelledId == id) || (e.OrderUpdated? && e.update.orderId == id)
  }

  predicate Accepts(e: Event, id: nat) {
    e.OrderAccepted? && e.acceptedId == id
  }

  /** No accept of `id` after a change to it; an accept that never arrived is no exception. */
  ghost predicate AcceptsFirst(events: seq<Event>, id: nat) {
    forall i, j :: 0 <= i < j < |events| && Changes(events[i], id) ==> !Accepts(events[j], id)
  }

  ghost predicate AcceptedIn(events: seq<Event>, id: nat) {
    exists i :: 0 <= i < |events| && Accepts(events[i], id)
  }

  lemma {:induction false} NeverAccepted(events: seq<Event>, id: nat)
    requires !AcceptedIn(events, id)
    ensures RowAfter(None, events, id) == None
    decreases |events|
  {
    if events != [] {
      assert !Accepts(events[0], id);
      forall i | 0 <= i < |events[1..]| ensures !Accepts(events[1..][i], id) {
        assert events[1..][i] == events[i + 1];
      }
      NeverAccepted(events[1..], id);
    }
  }

  lemma AcceptsFirstTail(events: seq<Event>, id: nat)
    requires events != [] && AcceptsFirst(events, id)
    ensures AcceptsFirst(events[1..], id)
    ensures Changes(events[0], id) ==> !AcceptedIn(events[1..], id)
  {
    var tail := events[1..];
    forall i | 0 <= i < |tail| ensures tail[i] == events[i + 1] {
    }
  }

  lemma AcceptsFirstConcat(x: seq<Event>, y: seq<Event>, id: nat)
    requires AcceptsFirst(x, id) && AcceptsFirst(y, id) && (AcceptedIn(y, id) ==> Silent(x, id))
    ensures AcceptsFirst(x + y, id)
  {
    var z := x + y;
    forall i, j | 0 <= i < j < |z| && Changes(z[i], id) ensures !Accepts(z[j], id) {
      if j >= |x| && i < |x| {
        assert z[j] == y[j - |x|] && z[i] == x[i];
        assert Mentions(x[i], id);
      } else if i >= |x| {
        assert z[i] == y[i - |x|] && z[j] == y[j - |x|];
      }
    }
  }

  lemma AcceptsFirstPart(x: seq<Event>, y: seq<Event>, z: seq<Event>, id: nat)
    requires AcceptsFirst(x + y + z, id)
    ensures AcceptsFirst(y, id)
  {
    var all := x + y + z;
    forall i, j | 0 <= i < j < |y| && Changes(y[i], id) ensures !Accepts(y[j], id) {
      assert all[|x| + i] == y[i] && all[|x| + j] == y[j];
    }
  }

  predicate SameDetails(a: OrderRow, b: OrderRow) {
    a.(filled := b.filled, status := b.status) == b
  }

  /** Updates overwrite: two rows of one order end up equal, field by field, or untouched. */
  lemma {:induction false} OverwritesForget(a: OrderRow, b: OrderRow, events: seq<Event>, id: nat)
    requires SameDetails(a, b)
    ensures var a', b' := RowAfter(Some(a), events, id), RowAfter(Some(b), events, id);
            && a'.Some? && b'.Some? && SameDetails(a'.value, b'.value) && SameDetails(a, a'.value)
            && (a'.value.filled == b'.value.filled || (a'.value.filled == a.filled && b'.value.filled == b.filled))
            && (a'.value.status == b'.value.status || (a'.value.status == a.status && b'.value.status == b.status))
    decreases |events|
  {
    if events != [] {
      var c, d := RowStep(Some(a), events[0], id).value, RowStep(Some(b), events[0], id).value;
      OverwritesForget(c, d, events[1..], id);
    }
  }

  lemma ExistingReplay(row: OrderRow, events: seq<Event>, id: nat)
    ensures RowAfter(Some(row), events, id).Some?
    ensures RowAfter(RowAfter(Some(row), events, id), events, id) == RowAfter(Some(row), events, id)
  {
    OverwritesForget(row, row, events, id);
    OverwritesForget(row, RowAfter(Some(row), events, id).value, events, id);
  }

  /** Order events applied twice leave the row they leave once. */
  lemma {:induction false} RowReplay(row: Option<OrderRow>, events: seq<Event>, id: nat)
    requires AcceptsFirst(events, id)
    ensures RowAfter(RowAfter(row, events, id), events, id) == RowAfter(row, events, id)
    decreases |events|
  {
    if row.Some? {
      ExistingReplay(row.value, events, id);
    } else if events != [] {
      AcceptsFirstTail(events, id);
      var first := RowStep(None, events[0], id);
      if first.Some? {
        ExistingReplay(first.value, events[1..], id);
      } else if Changes(events[0], id) {
        NeverAccepted(events[1..], id);
      } else {
        RowReplay(None, events[1..], id);
      }
    }
  }

  // ----- every run accepts an order before it says anything else about it -----

  lemma PlaceAccepts(s: State, a: AccountId, req: OrderRequest, x: nat)
    requires Inv(s)
    ensures var events := PlaceEvents(s.nextOrderId, a, req, PlacementOf(s, a, req));
            && AcceptsFirst(events, x)
            && (AcceptedIn(events, x) ==> x == s.nextOrderId)
            && (x > s.nextOrderId ==> Silent(events, x))
  {
    var id, p := s.nextOrderId, PlacementOf(s, a, req);
    OnlyFirstAccepts(id, a, req, p, x);
    if x > id {
      OppAlive(s, req);
      var opp := BookAt(s.books, req.pair).Resting(req.side.Opposite());
      assert x !in Ids(opp);
      MatchSilent(req.pair, NewOrder(id, a, req), opp, x);
      EventsSilent(id, a, req, p, x);
    }
  }

  lemma OnlyFirstAccepts(id: nat, a: AccountId, req: OrderRequest, p: Placement, x: nat)
    ensures var events := PlaceEvents(id, a, req, p);
            AcceptsFirst(events, x) && (AcceptedIn(events, x) ==> x == id)
  {
    var events := PlaceEvents(id, a, req, p);
    forall j | 0 < j < |events| ensures !events[j].OrderAccepted? {
      NoAcceptAfterFirst(id, a, req, p, j);
    }
  }

  lemma NoAcceptAfterFirst(id: nat, a: AccountId, req: OrderRequest, p: Placement, j: nat)
    requires 0 < j < |PlaceEvents(id, a, req, p)|
    ensures !PlaceEvents(id, a, req, p)[j].OrderAccepted?
  {
    var trades, updates := TradeEvents(p.trades), UpdateEvents(req.pair, p.updates);
    if j <= |trades| {
      assert PlaceEvents(id, a, req, p)[j] == trades[j - 1];
    } else {
      assert PlaceEvents(id, a, req, p)[j] == updates[j - 1 - |trades|];
    }
  }

  /** What a step's events say about orders not yet issued, and which order they accept. */
  ghost predicate NewOnly(s: State, s': State, core: seq<Event>, x: nat) {
    && s.nextOrderId <= s'.nextOrderId
    && AcceptsFirst(core, x)
    && (AcceptedIn(core, x) ==> x == s.nextOrderId)
    && (x >= s'.nextOrderId ==> Silent(core, x))
  }

  lemma PlaceNewOnly(s: State, lim: Limits, a: AccountId, req: OrderRequest, x: nat)
    requires Inv(s)
    ensures var e := PlaceEffect(s, lim, a, req); NewOnly(s, e.state, e.core, x)
  {
    PlaceIsAtomic(s, lim, a, req);
    if PlaceOrder(s, lim, a, req).1.Ok? {
      PlaceAccepts(s, a, req, x);
    }
  }

  lemma CancelAcceptsNothing(p: Pair, o: Order, x: nat)
    ensures AcceptsFirst(CancelEvents(p, o), x) && !AcceptedIn(CancelEvents(p, o), x)
  {
  }

  lemma CancelNewOnly(s: State, a: AccountId, id: nat, x: nat)
    requires Inv(s)
    ensures var e := CancelEffect(s, a, id); NewOnly(s, e.state, e.core, x)
  {
    var r := CancelOrder(s, a, id);
    if r.1.Some? {
      CancelledRested(s, a, id);
      RestingHasId(s.books, r.1.value.0, r.1.value.1);
      CancelAcceptsNothing(r.1.value.0, r.1.value.1, x);
      if x >= s.nextOrderId {
        OthersCancelIsSilent(r.1.value.0, r.1.value.1, x);
      }
    }
  }

  lemma RunNewOnly(s: State, lim: Limits, a: AccountId, command: Command, x: nat)
    requires Inv(s)
    ensures var e := Run(s, lim, a, command); NewOnly(s, e.state, e.core, x)
  {
    match command
    case Place(req) => PlaceNewOnly(s, lim, a, req, x);
    case Cancel(id) => CancelNewOnly(s, a, id, x);
    case _ =>
  }

  lemma ApplyNewOnly(s: State, lim: Limits, env: Envelope, x: nat)
    requires Inv(s)
    ensures var step := Apply(s, lim, env); NewOnly(s, step.state, CoreOf(step), x)
  {
    var attempt := Try(s.window, env.account, env.key);
    if attempt.1 {
      TryKeepsWindow(s.window, env.account, env.key);
      CountersKeepInv(s, attempt.0, s.nextSeq);
      RunNewOnly(s.(window := attempt.0), lim, env.account, env.command, x);
    }
  }

  /** A batch that accepts `id` comes before every other batch that mentions it. */
  ghost predicate InOrder(batches: seq<Batch>, id: nat) {
    && (forall i :: 0 <= i < |batches| ==> AcceptsFirst(batches[i].core, id))
    && (forall i, j :: 0 <= i < j < |batches| && AcceptedIn(batches[j].core, id) ==> Silent(batches[i].core, id))
  }

  lemma {:induction false} RunInOrder(lim: Limits, log: Log, id: nat)
    ensures InOrder(Batches(lim, log), id)
    ensures id >= StateAfter(lim, log).nextOrderId ==>
              forall i :: 0 <= i < |Batches(lim, log)| ==> Silent(Batches(lim, log)[i].core, id)
  {
    if log != [] {
      var init := log[..|log| - 1];
      RunInOrder(lim, init, id);
      RunInv(lim, init);
      ApplyNewOnly(StateAfter(lim, init), lim, log[|log| - 1], id);
      OneMoreInOrder(Batches(lim, init), LastStep(lim, log), StateAfter(lim, init), id);
    }
  }

  lemma OneMoreInOrder(batches: seq<Batch>, step: Step, s: State, id: nat)
    requires InOrder(batches, id) && NewOnly(s, step.state, CoreOf(step), id)
    requires id >= s.nextOrderId ==> forall i :: 0 <= i < |batches| ==> Silent(batches[i].core, id)
    ensures InOrder(batches + Emitted(step), id)
    ensures id >= step.state.nextOrderId ==>
              forall i :: 0 <= i < |batches + Emitted(step)| ==> Silent((batches + Emitted(step))[i].core, id)
  {
  }

  /** Any batches of the run, in order, some possibly left out, are in order too. */
  lemma SomeInOrder(all: seq<Batch>, some: seq<Batch>, id: nat)
    requires InOrder(all, id) && Increasing(BatchNumbers(some))
    requires forall i :: 0 <= i < |some| ==> some[i].seqNo < |all| && some[i] == all[some[i].seqNo]
    ensures InOrder(some, id)
  {
    forall i, j | 0 <= i < j < |some| && AcceptedIn(some[j].core, id) ensures Silent(some[i].core, id) {
      assert BatchNumbers(some)[i] < BatchNumbers(some)[j];
    }
  }

  lemma BatchAccepts(e: EventBatch, b: Batch, id: nat)
    requires Publishes(e, b) && AcceptsFirst(b.core, id)
    ensures AcceptsFirst(e.events, id)
    ensures AcceptedIn(e.events, id) ==> AcceptedIn(b.core, id)
    ensures Silent(b.core, id) ==> Silent(e.events, id)
  {
    var deltas, balances :| PublishedAs(e, b, deltas, balances);
    var rest := DeltaEvents(deltas) + BalanceEvents(balances);
    assert e.events == b.core + rest;
    forall i | 0 <= i < |rest| ensures !rest[i].OrderAccepted? && !Mentions(rest[i], id) {
    }
    AcceptsFirstConcat(b.core, rest, id);
    forall i | 0 <= i < |e.events| && Accepts(e.events[i], id) ensures AcceptedIn(b.core, id) {
      assert i < |b.core| && Accepts(b.core[i], id);
    }
  }

  lemma {:induction false} AllSilent(es: seq<EventBatch>, id: nat)
    requires forall i :: 0 <= i < |es| ==> Silent(es[i].events, id)
    ensures Silent(AllEvents(es), id)
  {
    if es != [] {
      AllSilent(es[..|es| - 1], id);
    }
  }

  /** However much of a run's stream was published, an accept never follows a change. */
  lemma {:induction false} StreamAcceptsFirst(es: seq<EventBatch>, batches: seq<Batch>, id: nat)
    requires |es| == |batches| && (forall i :: 0 <= i < |es| ==> Publishes(es[i], batches[i])) && InOrder(batches, id)
    ensures AcceptsFirst(AllEvents(es), id)
  {
    if es != [] {
      var n := |es| - 1;
      StreamAcceptsFirst(es[..n], batches[..n], id);
      BatchAccepts(es[n], batches[n], id);
      if AcceptedIn(es[n].events, id) {
        forall i | 0 <= i < n ensures Silent(es[..n][i].events, id) {
          assert Silent(batches[i].core, id);
          BatchAccepts(es[i], batches[i], id);
        }
        AllSilent(es[..n], id);
      }
      AcceptsFirstConcat(AllEvents(es[..n]), es[n].events, id);
    }
  }

  lemma RunAcceptsFirst(es: seq<EventBatch>, lim: Limits, log: Log, id: nat)
    requires Published(es, lim, log)
    ensures AcceptsFirst(AllEvents(es), id)
  {
    RunInOrder(lim, log, id);
    StreamAcceptsFirst(es, Batches(lim, log), id);
  }

  // ----- the orders table -----

  lemma BatchRows(row: Option<OrderRow>, e: EventBatch, b: Batch, id: nat)
    requires Publishes(e, b)
    ensures RowAfter(row, e.events, id) == RowAfter(row, b.core, id)
  {
    var deltas, balances :| PublishedAs(e, b, deltas, balances);
    var x, y := DeltaEvents(deltas), BalanceEvents(balances);
    RowConcat(row, b.core + x, y, id);
    RowConcat(row, b.core, x, id);
    var after := RowAfter(row, b.core, id);
    assert Silent(x, id) && Silent(y, id);
    SilentRow(after, x, id);
    SilentRow(after, y, id);
  }

  /** The orders table after any run is the run's own story of each order. */
  lemma {:induction false} OrdersAgree(es: seq<EventBatch>, lim: Limits, log: Log, id: nat)
    requires Published(es, lim, log)
    ensures RowAfter(None, AllEvents(es), id) == RowOf(lim, log, id)
    decreases |log|
  {
    if log != [] {
      var init := log[..|log| - 1];
      var before := PublishedPrefix(es, lim, log);
      OrdersAgree(before, lim, init, id);
      var step := LastStep(lim, log);
      RowConcat(None, History(lim, init), CoreOf(step), id);
      if step.batch.Some? {
        var last := es[|es| - 1];
        RowConcat(None, AllEvents(before), last.events, id);
        BatchRows(RowOf(lim, init, id), last, step.batch.value, id);
      }
    }
  }

  /**
    Table agreement: after any run, each balance row is the ledger's (no row means zero) and each
    order row carries the sum of its fills and the status that this and the book give it.
   */
  lemma TablesAgree(es: seq<EventBatch>, clock: EventId -> nat, lim: Limits, log: Log, rows: Rows)
    requires Published(es, lim, log) && Delivered(NoRows, rows, Stamped(es, clock))
    ensures forall k :: Agrees(BalanceAt(rows.balances, k), StateAfter(lim, log), BalanceCell(k))
    ensures forall id: nat :: id in rows.orders <==> id < StateAfter(lim, log).nextOrderId
    ensures forall id :: id in rows.orders ==>
              var row := rows.orders[id];
              && row.filled == FillsIn(History(lim, log), id) <= row.size
              && StatusFits(row, RestsAnywhere(StateAfter(lim, log).books, id))
  {
    EventsOfStamped(es, clock);
    forall k ensures Agrees(BalanceAt(rows.balances, k), StateAfter(lim, log), BalanceCell(k)) {
      ReaderAgrees(es, lim, log, BalanceCell(k));
    }
    forall id: nat
      ensures At(rows.orders, id) == RowOf(lim, log, id)
      ensures id in rows.orders <==> id < StateAfter(lim, log).nextOrderId
      ensures id in rows.orders ==>
                var row := rows.orders[id];
                && row.filled == FillsIn(History(lim, log), id) <= row.size
                && StatusFits(row, RestsAnywhere(StateAfter(lim, log).books, id))
    {
      OrderRowAgrees(es, lim, log, id);
    }
  }

  lemma OrderRowAgrees(es: seq<EventBatch>, lim: Limits, log: Log, id: nat)
    requires Published(es, lim, log)
    ensures var row := RowAfter(None, AllEvents(es), id);
            && row == RowOf(lim, log, id)
            && (row.Some? <==> id < StateAfter(lim, log).nextOrderId)
            && (row.Some? ==>
                  && row.value.filled == FillsIn(History(lim, log), id) <= row.value.size
                  && StatusFits(row.value, RestsAnywhere(StateAfter(lim, log).books, id)))
  {
    OrdersAgree(es, lim, log, id);
    RunTracksOrders(lim, log, id);
    if id < StateAfter(lim, log).nextOrderId {
      OrderStory(lim, log, id);
    }
  }

  // ----- inserting trades once -----

  lemma {:induction false} TradeIdsConcat(x: seq<Delivery>, y: seq<Delivery>)
    ensures TradeIds(x + y) == TradeIds(x) + TradeIds(y)
  {
    if y == [] {
      assert x + y == x;
    } else {
      var y', last := y[..|y| - 1], y[|y| - 1];
      TradeIdsConcat(x, y');
      TradeIdsPush(x + y', last);
      TradeIdsPush(y', last);
      assert x + y == x + y' + [last] && y == y' + [last];
    }
  }

  lemma {:induction false} InsertedConcat(seen: set<EventId>, x: seq<Delivery>, y: seq<Delivery>)
    ensures Inserted(seen, x + y) == Inserted(seen, x) + Inserted(seen + TradeIds(x), y)
  {
    if y == [] {
      assert x + y == x;
    } else {
      var y', last := y[..|y| - 1], y[|y| - 1];
      InsertedConcat(seen, x, y');
      TradeIdsConcat(x, y');
      assert (x + y)[..|x + y| - 1] == x + y';
      assert seen + TradeIds(x + y') == seen + TradeIds(x) + TradeIds(y');
    }
  }

  lemma {:induction false} SeenInsertsNothing(seen: set<EventId>, ds: seq<Delivery>)
    requires TradeIds(ds) <= seen
    ensures Inserted(seen, ds) == []
  {
    if ds != [] {
      var init, last := ds[..|ds| - 1], ds[|ds| - 1];
      TradeIdsPush(init, last);
      assert ds == init + [last];
      InsertedOne({}, last);
      SeenInsertsNothing(seen, init);
    }
  }

  lemma {:induction false} FirstPrintConcat(row: Option<Print>, x: seq<Delivery>, y: seq<Delivery>, id: EventId)
    ensures FirstPrint(row, x + y, id) == FirstPrint(FirstPrint(row, x, id), y, id)
  {
    if y == [] {
      assert x + y == x;
    } else {
      assert (x + y)[..|x + y| - 1] == x + y[..|y| - 1];
      FirstPrintConcat(row, x, y[..|y| - 1], id);
    }
  }

  lemma {:induction false} FirstPrintIs(row: Option<Print>, ds: seq<Delivery>, id: EventId)
    ensures row.Some? ==> FirstPrint(row, ds, id) == row
    ensures FirstPrint(row, ds, id).Some? <==> row.Some? || id in TradeIds(ds)
  {
    if ds != [] {
      var init, last := ds[..|ds| - 1], ds[|ds| - 1];
      FirstPrintIs(row, init, id);
      TradeIdsPush(init, last);
      assert ds == init + [last];
      InsertedOne({}, last);
    }
  }

  lemma StampIds(e: EventBatch, clock: EventId -> nat, clock': EventId -> nat)
    ensures TradeIds(Stamp(e, clock)) <= TradeIds(Stamp(e, clock'))
  {
    forall id | id in TradeIds(Stamp(e, clock)) ensures id in TradeIds(Stamp(e, clock')) {
      var i :| 0 <= i < |e.events| && Stamp(e, clock)[i].event.TradeEvent? && Stamp(e, clock)[i].id == id;
      assert Stamp(e, clock')[i].id == id;
    }
  }

  lemma {:induction false} StampedIds(es: seq<EventBatch>, clock: EventId -> nat, clock': EventId -> nat)
    ensures TradeIds(Stamped(es, clock)) <= TradeIds(Stamped(es, clock'))
  {
    if es != [] {
      var init, last := es[..|es| - 1], es[|es| - 1];
      StampedIds(init, clock, clock');
      StampIds(last, clock, clock');
      TradeIdsConcat(Stamped(init, clock), Stamp(last, clock));
      TradeIdsConcat(Stamped(init, clock'), Stamp(last, clock'));
    }
  }

  // ----- delivering an overlap again -----

  ghost predicate SameRows(a: Rows, b: Rows) {
    && (forall id :: At(a.trades, id) == At(b.trades, id))
    && (forall k: CandleKey :: k.width in INTERVAL_WIDTHS ==> At(a.candles, k) == At(b.candles, k))
    && (forall k :: BalanceAt(a.balances, k) == BalanceAt(b.balances, k))
    && (forall id :: At(a.orders, id) == At(b.orders, id))
  }

  /** Trades delivered again are recognised: nothing is inserted twice and no stamp changes. */
  lemma RedeliveredTrades(x: seq<Delivery>, y: seq<Delivery>, z: seq<Delivery>)
    requires TradeIds(y) <= TradeIds(x)
    ensures Inserted({}, x + (y + z)) == Inserted({}, x + z)
    ensures forall id :: FirstPrint(None, x + (y + z), id) == FirstPrint(None, x + z, id)
  {
    var ids := {} + TradeIds(x);
    InsertedConcat({}, x, y + z);
    InsertedConcat(ids, y, z);
    InsertedConcat({}, x, z);
    SeenInsertsNothing(ids, y);
    assert ids + TradeIds(y) == ids;
    assert [] + Inserted(ids, z) == Inserted(ids, z);
    forall id ensures FirstPrint(None, x + (y + z), id) == FirstPrint(None, x + z, id) {
      var row := FirstPrint(None, x, id);
      FirstPrintConcat(None, x, y + z, id);
      FirstPrintConcat(row, y, z, id);
      FirstPrintConcat(None, x, z, id);
      FirstPrintIs(None, x, id);
      FirstPrintIs(row, y, id);
    }
  }

  lemma RedeliveredRows(x: seq<Event>, y: seq<Event>, z: seq<Event>, id: nat)
    requires AcceptsFirst(y, id)
    ensures RowAfter(None, (x + y) + (y + z), id) == RowAfter(None, (x + y) + z, id)
  {
    var row := RowAfter(None, x, id);
    RowConcat(None, x, y, id);
    RowConcat(None, x + y, y + z, id);
    RowConcat(RowAfter(None, x + y, id), y, z, id);
    RowConcat(None, x + y, z, id);
    RowReplay(row, y, id);
  }

  /** What the tables hold after these deliveries, from empty. */
  ghost predicate Holds(rows: Rows, ds: seq<Delivery>, events: seq<Event>) {
    && (forall id :: At(rows.trades, id) == FirstPrint(None, ds, id))
    && (forall k: CandleKey :: k.width in INTERVAL_WIDTHS ==> At(rows.candles, k) == Rolled(None, Inserted({}, ds), k))
    && (forall k :: BalanceAt(rows.balances, k) == LastWrite(Absent, events, BalanceCell(k)))
    && (forall id :: At(rows.orders, id) == RowAfter(None, events, id))
  }

  lemma HoldsFromEmpty(rows: Rows, ds: seq<Delivery>, events: seq<Event>)
    requires Delivered(NoRows, rows, ds) && EventsOf(ds) == events
    ensures Holds(rows, ds, events)
  {
    assert NoRows.trades.Keys == {};
    forall k: CandleKey | k.width in INTERVAL_WIDTHS ensures At(rows.candles, k) == Rolled(None, Inserted({}, ds), k) {
      assert At(NoRows.candles, k) == None;
    }
  }

  lemma OverlapEvents(
    x: seq<EventBatch>, y: seq<EventBatch>, z: seq<EventBatch>, clock: EventId -> nat, clock': EventId -> nat)
    ensures EventsOf(Stamped(x + y, clock) + (Stamped(y, clock') + Stamped(z, clock'))) ==
            (AllEvents(x) + AllEvents(y)) + (AllEvents(y) + AllEvents(z))
    ensures EventsOf(Stamped(x + y, clock) + Stamped(z, clock')) == (AllEvents(x) + AllEvents(y)) + AllEvents(z)
  {
    var first, second, rest := Stamped(x + y, clock), Stamped(y, clock'), Stamped(z, clock');
    EventsOfConcat(first, second + rest);
    EventsOfConcat(second, rest);
    EventsOfConcat(first, rest);
    EventsOfStamped(x + y, clock);
    EventsOfStamped(y, clock');
    EventsOfStamped(z, clock');
    AllEventsConcat(x, y);
  }

  lemma OverlapIds(x: seq<EventBatch>, y: seq<EventBatch>, clock: EventId -> nat, clock': EventId -> nat)
    ensures TradeIds(Stamped(y, clock')) <= TradeIds(Stamped(x + y, clock))
  {
    StampedConcat(x, y, clock);
    StampedIds(y, clock', clock);
    TradeIdsConcat(Stamped(x, clock), Stamped(y, clock));
  }

  /**
    Overlap replay: after the first k batches, delivering batches i.. again (i <= k), at whatever
    times, leaves every row of every table as if only batches k.. had been delivered.
   */
  lemma OverlapLeavesTables(
    es: seq<EventBatch>, i: nat, k: nat, clock: EventId -> nat, clock': EventId -> nat, again: Rows, once: Rows)
    requires i <= k <= |es| && forall id :: AcceptsFirst(AllEvents(es), id)
    requires Delivered(NoRows, again, Stamped(es[..k], clock) + Stamped(es[i..], clock'))
    requires Delivered(NoRows, once, Stamped(es[..k], clock) + Stamped(es[k..], clock'))
    ensures SameRows(again, once)
  {
    Thirds(es, i, k);
    StampedConcat(es[i..k], es[k..], clock');
    OverlapOf(es[..i], es[i..k], es[k..], clock, clock', again, once);
  }

  /** The same for the stream of any run without crashes. */
  lemma OverlapOfRun(
    es: seq<EventBatch>, lim: Limits, log: Log, i: nat, k: nat, clock: EventId -> nat, clock': EventId -> nat,
    again: Rows, once: Rows)
    requires i <= k <= |es| && Published(es, lim, log)
    requires Delivered(NoRows, again, Stamped(es[..k], clock) + Stamped(es[i..], clock'))
    requires Delivered(NoRows, once, Stamped(es[..k], clock) + Stamped(es[k..], clock'))
    ensures SameRows(again, once)
  {
    forall id ensures AcceptsFirst(AllEvents(es), id) {
      RunAcceptsFirst(es, lim, log, id);
    }
    OverlapLeavesTables(es, i, k, clock, clock', again, once);
  }

  lemma Thirds(es: seq<EventBatch>, i: nat, k: nat)
    requires i <= k <= |es|
    ensures es[..k] == es[..i] + es[i..k] && es[i..] == es[i..k] + es[k..] && es == es[..i] + es[i..k] + es[k..]
  {
  }

  lemma OverlapOf(
    x: seq<EventBatch>, y: seq<EventBatch>, z: seq<EventBatch>, clock: EventId -> nat, clock': EventId -> nat,
    again: Rows, once: Rows)
    requires forall id :: AcceptsFirst(AllEvents(x + y + z), id)
    requires Delivered(NoRows, again, Stamped(x + y, clock) + (Stamped(y, clock') + Stamped(z, clock')))
    requires Delivered(NoRows, once, Stamped(x + y, clock) + Stamped(z, clock'))
    ensures SameRows(again, once)
  {
    var first, second, rest := Stamped(x + y, clock), Stamped(y, clock'), Stamped(z, clock');
    var a, b, c := AllEvents(x), AllEvents(y), AllEvents(z);
    OverlapEvents(x, y, z, clock, clock');
    OverlapIds(x, y, clock, clock');
    RedeliveredTrades(first, second, rest);
    HoldsFromEmpty(again, first + (second + rest), (a + b) + (b + c));
    HoldsFromEmpty(once, first + rest, (a + b) + c);
    AllEventsConcat(x, y);
    AllEventsConcat(x + y, z);
    SameCells(a, b, c, first + (second + rest), first + rest, again, once);
  }

  lemma SameCells(
    a: seq<Event>, b: seq<Event>, c: seq<Event>, ds: seq<Delivery>, ds': seq<Delivery>, again: Rows, once: Rows)
    requires forall id :: AcceptsFirst(a + b + c, id)
    requires Holds(again, ds, (a + b) + (b + c)) && Holds(once, ds', (a + b) + c)
    requires Inserted({}, ds) == Inserted({}, ds') && forall id :: FirstPrint(None, ds, id) == FirstPrint(None, ds', id)
    ensures SameRows(again, once)
  {
    forall k ensures BalanceAt(again.balances, k) == BalanceAt(once.balances, k) {
      LastWriteTwice(Absent, a, b, c, BalanceCell(k));
    }
    forall id ensures At(again.orders, id) == At(once.orders, id) {
      AcceptsFirstPart(a, b, c, id);
      RedeliveredRows(a, b, c, id);
    }
  }

  lemma LastWriteTwice(v: Value, x: seq<Event>, y: seq<Event>, z: seq<Event>, c: Cell)
    ensures LastWrite(v, (x + y) + (y + z), c) == LastWrite(v, (x + y) + z, c)
  {
    LastWriteConcat(v, x + y, y + z, c);
    LastWriteConcat(v, x + y, z, c);
    LastWriteConcat(LastWrite(v, x + y, c), y, z, c);
    LastWriteConcat(v, x, y, c);
    LastWriteForgets(LastWrite(v, x, c), LastWrite(v, x + y, c), y, c);
  }

  // ----- the trades table holds every trade of the run once -----

  function TradesOf(prints: seq<Print>): seq<Trade> {
    seq(|prints|, i requires 0 <= i < |prints| => prints[i].trade)
  }

  function TradesIn(events: seq<Event>): seq<Trade> {
    if events == [] then []
    else
      var init, last := TradesIn(events[..|events| - 1]), events[|events| - 1];
      if last.TradeEvent? then init + [last.trade] else init
  }

  lemma {:induction false} TradesInConcat(x: seq<Event>, y: seq<Event>)
    ensures TradesIn(x + y) == TradesIn(x) + TradesIn(y)
  {
    if y == [] {
      assert x + y == x;
    } else {
      var y', last := y[..|y| - 1], y[|y| - 1];
      TradesInConcat(x, y');
      assert (x + y)[..|x + y| - 1] == x + y';
      if last.TradeEvent? {
        assert TradesIn(x) + TradesIn(y') + [last.trade] == TradesIn(x) + (TradesIn(y') + [last.trade]);
      }
    }
  }

  lemma {:induction false} NoTradesIn(events: seq<Event>)
    requires forall i :: 0 <= i < |events| ==> !events[i].TradeEvent?
    ensures TradesIn(events) == []
  {
    if events != [] {
      NoTradesIn(events[..|events| - 1]);
    }
  }

  lemma {:induction false} StampInserts(seen: set<EventId>, e: EventBatch, clock: EventId -> nat, n: nat)
    requires n <= |e.events| && forall id :: id in seen ==> id.0 != e.seqNo
    ensures TradesOf(Inserted(seen, Stamp(e, clock)[..n])) == TradesIn(e.events[..n])
  {
    if n > 0 {
      var ds, d := Stamp(e, clock)[..n], Stamp(e, clock)[n - 1];
      StampInserts(seen, e, clock, n - 1);
      assert ds[..n - 1] == Stamp(e, clock)[..n - 1] && e.events[..n][..n - 1] == e.events[..n - 1];
      assert d.id !in TradeIds(ds[..n - 1]);
      var before := Inserted(seen, ds[..n - 1]);
      if d.event.TradeEvent? {
        assert Inserted(seen, ds) == before + [PrintOf(d)];
        assert TradesOf(before + [PrintOf(d)]) == TradesOf(before) + [d.event.trade];
      } else {
        assert Inserted(seen, ds) == before;
      }
    }
  }

  lemma {:induction false} EarlierIds(es: seq<EventBatch>, clock: EventId -> nat, n: nat)
    requires forall i :: 0 <= i < |es| ==> es[i].seqNo < n
    ensures forall id :: id in TradeIds(Stamped(es, clock)) ==> id.0 < n
  {
    if es != [] {
      var init, last := es[..|es| - 1], es[|es| - 1];
      EarlierIds(init, clock, n);
      TradeIdsConcat(Stamped(init, clock), Stamp(last, clock));
    }
  }

  /** With sequence numbers that never repeat, every trade of the stream is inserted, once and in order. */
  lemma {:induction false} EveryTradeOnce(es: seq<EventBatch>, clock: EventId -> nat)
    requires Increasing(EntryNumbers(es))
    ensures TradesOf(Inserted({}, Stamped(es, clock))) == TradesIn(AllEvents(es))
  {
    if es != [] {
      var init, last := es[..|es| - 1], es[|es| - 1];
      IncreasingInit(es);
      EveryTradeOnce(init, clock);
      EarlierIds(init, clock, last.seqNo);
      var before, ds := Stamped(init, clock), Stamp(last, clock);
      var seen := {} + TradeIds(before);
      InsertedConcat({}, before, ds);
      StampInsertsAll(seen, last, clock);
      TradesInConcat(AllEvents(init), last.events);
      TradesOfConcat(Inserted({}, before), Inserted(seen, ds));
    }
  }

  lemma TradesOfConcat(x: seq<Print>, y: seq<Print>)
    ensures TradesOf(x + y) == TradesOf(x) + TradesOf(y)
  {
  }

  lemma StampInsertsAll(seen: set<EventId>, e: EventBatch, clock: EventId -> nat)
    requires forall id :: id in seen ==> id.0 != e.seqNo
    ensures TradesOf(Inserted(seen, Stamp(e, clock))) == TradesIn(e.events)
  {
    StampInserts(seen, e, clock, |e.events|);
    assert Stamp(e, clock)[..|e.events|] == Stamp(e, clock) && e.events[..|e.events|] == e.events;
  }

  lemma BatchTrades(e: EventBatch, b: Batch)
    requires Publishes(e, b)
    ensures TradesIn(e.events) == TradesIn(b.core)
  {
    var deltas, balances :| PublishedAs(e, b, deltas, balances);
    TradesInConcat(b.core + DeltaEvents(deltas), BalanceEvents(balances));
    TradesInConcat(b.core, DeltaEvents(deltas));
    NoTradesIn(DeltaEvents(deltas));
    NoTradesIn(BalanceEvents(balances));
  }

  lemma {:induction false} StreamTrades(es: seq<EventBatch>, lim: Limits, log: Log)
    requires Published(es, lim, log)
    ensures TradesIn(AllEvents(es)) == TradesIn(History(lim, log))
    decreases |log|
  {
    if log != [] {
      var init := log[..|log| - 1];
      var before := PublishedPrefix(es, lim, log);
      StreamTrades(before, lim, init);
      var step := LastStep(lim, log);
      TradesInConcat(History(lim, init), CoreOf(step));
      if step.batch.Some? {
        TradesInConcat(AllEvents(before), es[|es| - 1].events);
        BatchTrades(es[|es| - 1], step.batch.value);
      }
    }
  }

  /** The trades inserted over a whole run are the run's trades, each once, in match order. */
  lemma TradesTableIsHistory(es: seq<EventBatch>, clock: EventId -> nat, lim: Limits, log: Log)
    requires Published(es, lim, log)
    ensures TradesOf(Inserted({}, Stamped(es, clock))) == TradesIn(History(lim, log))
  {
    BatchesAreNumbered(lim, log);
    forall i | 0 <= i < |es| ensures EntryNumbers(es)[i] == i {
      assert Publishes(es[i], Batches(lim, log)[i]);
    }
    EveryTradeOnce(es, clock);
    StreamTrades(es, lim, log);
  }
}
