/**
  What every published event says about the orders it names, in terms of the orders' own rows: sides,
  owners, prices within limits, quantities that add up.
 */
module RowLaws {
  import opened Domain
  import opened Matching
  import opened BookSpec
  import opened DedupSpec
  import opened Events
  import opened EngineSpec
  import opened Reserves
  import opened PlaceProof
  import opened EngineInv
  import opened Lifecycle
  import opened Runs
  import opened Agreement

  /** A trade is at its maker's price, within its taker's limit, between opposite sides of one market. */
  ghost predicate TradeFits(t: Trade, maker: OrderRow, taker: OrderRow) {
    && t.qty > 0
    && t.pair == maker.pair && t.pair == taker.pair
    && t.takerSide == taker.side && maker.side == taker.side.Opposite()
    && t.makerAccount == maker.account && t.takerAccount == taker.account
    && maker.orderType.Limit? && t.price == maker.price
    && (taker.orderType.Limit? ==> if taker.side.Bid? then t.price <= taker.price else t.price >= taker.price)
  }

  /** An update names its order's owner and market; filled and remaining make up the size; filled means nothing remains. */
  ghost predicate UpdateFits(market: Pair, u: OrderUpdate, row: OrderRow) {
    && u.account == row.account && market == row.pair
    && 0 <= u.filled && u.filled + u.remaining == row.size
    && (u.status.Filled? <==> u.remaining == 0)
    && (u.status.PartiallyFilled? ==> 0 < u.filled)
    && !u.status.Open?
  }

  ghost predicate HasDetails(row: OrderRow, a: AccountId, req: OrderRequest) {
    && row.account == a && row.pair == req.pair && row.side == req.side
    && row.orderType == req.orderType && row.price == req.price && row.size == req.size
  }

  lemma KeepsDetails(row: OrderRow, events: seq<Event>, id: nat)
    ensures RowAfter(Some(row), events, id).Some? && SameDetails(row, RowAfter(Some(row), events, id).value)
  {
    OverwritesForget(row, row, events, id);
  }

  // ----- one placement -----

  lemma TakerRow(id: nat, a: AccountId, req: OrderRequest, p: Placement)
    ensures var row := RowAfter(None, PlaceEvents(id, a, req, p), id); row.Some? && HasDetails(row.value, a, req)
  {
    var events := PlaceEvents(id, a, req, p);
    assert events[0] == OrderAccepted(id, a, req.pair, req.side, req.orderType, req.price, req.size);
    KeepsDetails(RowStep(None, events[0], id).value, events[1..], id);
  }

  /** The resting order behind trade number `i`, and the row it has. */
  lemma MakerOf(s: State, a: AccountId, req: OrderRequest, i: nat, row: Option<OrderRow>, fills: nat) returns (m: Order)
    requires Inv(s) && req.pair.IsValid() && i < |PlacementOf(s, a, req).trades|
    requires Tracked(s.books, s.nextOrderId, PlacementOf(s, a, req).trades[i].makerId, row, fills)
    ensures var p := PlacementOf(s, a, req);
            i < |p.updates| && TradedWith(req.pair, NewOrder(s.nextOrderId, a, req), m, p.trades[i], p.updates[i])
    ensures m.side == req.side.Opposite() && m.orderType.Limit? && m.remaining <= m.size && m.id < s.nextOrderId
    ensures row.Some? && RowMatches(row.value, req.pair, m)
  {
    var b, taker := BookAt(s.books, req.pair), NewOrder(s.nextOrderId, a, req);
    var opp := b.Resting(req.side.Opposite());
    OppAlive(s, req);
    MatchWalks(req.pair, taker, opp);
    m := opp[i];
    assert m in opp;
    MakerResting(s, req, m);
    LimitsRest(s, req, i);
  }

  lemma LimitsRest(s: State, req: OrderRequest, i: nat)
    requires Inv(s) && i < |BookAt(s.books, req.pair).Resting(req.side.Opposite())|
    ensures var m := BookAt(s.books, req.pair).Resting(req.side.Opposite())[i];
            m.orderType.Limit? && m.side == req.side.Opposite()
  {
    BookAtInv(s, req.pair);
    BookInvFrom(BookAt(s.books, req.pair), req.side);
  }

  lemma PlaceTradeFits(s: State, a: AccountId, req: OrderRequest, i: nat, maker: Option<OrderRow>, fills: nat)
    requires Inv(s) && req.pair.IsValid() && i < |PlacementOf(s, a, req).trades|
    requires Tracked(s.books, s.nextOrderId, PlacementOf(s, a, req).trades[i].makerId, maker, fills)
    ensures var t, events := PlacementOf(s, a, req).trades[i], PlaceEvents(s.nextOrderId, a, req, PlacementOf(s, a, req));
            var m, k := RowAfter(maker, events, t.makerId), RowAfter(None, events, s.nextOrderId);
            t.takerId == s.nextOrderId && m.Some? && k.Some? && TradeFits(t, m.value, k.value)
  {
    var p := PlacementOf(s, a, req);
    var m := MakerOf(s, a, req, i, maker, fills);
    TakerRow(s.nextOrderId, a, req, p);
    KeepsDetails(maker.value, PlaceEvents(s.nextOrderId, a, req, p), m.id);
  }

  lemma MakerUpdateFits(s: State, a: AccountId, req: OrderRequest, i: nat, maker: Option<OrderRow>, fills: nat)
    requires Inv(s) && req.pair.IsValid() && i < |PlacementOf(s, a, req).trades|
    requires Tracked(s.books, s.nextOrderId, PlacementOf(s, a, req).trades[i].makerId, maker, fills)
    ensures var p := PlacementOf(s, a, req);
            && i < |p.updates| && p.updates[i].orderId == p.trades[i].makerId
            && var row := RowAfter(maker, PlaceEvents(s.nextOrderId, a, req, p), p.updates[i].orderId);
               row.Some? && UpdateFits(req.pair, p.updates[i], row.value)
  {
    var m := MakerOf(s, a, req, i, maker, fills);
    KeepsDetails(maker.value, PlaceEvents(s.nextOrderId, a, req, PlacementOf(s, a, req)), m.id);
  }

  lemma TakerUpdateFits(s: State, a: AccountId, req: OrderRequest, j: nat)
    requires |PlacementOf(s, a, req).trades| <= j < |PlacementOf(s, a, req).updates|
    requires Alive(BookAt(s.books, req.pair).Resting(req.side.Opposite()))
    ensures var p := PlacementOf(s, a, req);
            && p.updates[j].orderId == s.nextOrderId
            && var row := RowAfter(None, PlaceEvents(s.nextOrderId, a, req, p), s.nextOrderId);
               row.Some? && UpdateFits(req.pair, p.updates[j], row.value)
  {
    var p, taker := PlacementOf(s, a, req), NewOrder(s.nextOrderId, a, req);
    var opp := BookAt(s.books, req.pair).Resting(req.side.Opposite());
    MatchWalks(req.pair, taker, opp);
    MatchStops(req.pair, taker, opp);
    assert p.updates[j] in TakerUpdate(taker, p.remaining);
    TakerRow(s.nextOrderId, a, req, p);
  }

  // ----- one step -----

  ghost predicate NamesTrade(core: seq<Event>, t: Trade) {
    TradeEvent(t) in core
  }

  ghost predicate NamesUpdate(core: seq<Event>, market: Pair, u: OrderUpdate) {
    OrderUpdated(market, u) in core
  }

  lemma TradeIn(id: nat, a: AccountId, req: OrderRequest, p: Placement, t: Trade) returns (i: nat)
    requires NamesTrade(PlaceEvents(id, a, req, p), t)
    ensures i < |p.trades| && p.trades[i] == t
  {
    var trades := TradeEvents(p.trades);
    assert TradeEvent(t) in trades;
    i :| 0 <= i < |trades| && trades[i] == TradeEvent(t);
  }

  lemma UpdateIn(id: nat, a: AccountId, req: OrderRequest, p: Placement, market: Pair, u: OrderUpdate) returns (j: nat)
    requires NamesUpdate(PlaceEvents(id, a, req, p), market, u)
    ensures j < |p.updates| && p.updates[j] == u && market == req.pair
  {
    var updates := UpdateEvents(req.pair, p.updates);
    assert OrderUpdated(market, u) in updates;
    j :| 0 <= j < |updates| && updates[j] == OrderUpdated(market, u);
  }

  lemma PlaceStepTrade(s: State, lim: Limits, a: AccountId, req: OrderRequest, t: Trade, maker: Option<OrderRow>, fills: nat)
    requires Inv(s) && NamesTrade(PlaceEffect(s, lim, a, req).core, t)
    requires Tracked(s.books, s.nextOrderId, t.makerId, maker, fills)
    ensures var core := PlaceEffect(s, lim, a, req).core;
            var m, k := RowAfter(maker, core, t.makerId), RowAfter(None, core, s.nextOrderId);
            t.takerId == s.nextOrderId && m.Some? && k.Some? && TradeFits(t, m.value, k.value)
  {
    PlaceIsAtomic(s, lim, a, req);
    var i := TradeIn(s.nextOrderId, a, req, PlacementOf(s, a, req), t);
    PlaceTradeFits(s, a, req, i, maker, fills);
  }

  lemma CancelHasNoTrade(s: State, a: AccountId, id: nat, t: Trade)
    ensures !NamesTrade(CancelEffect(s, a, id).core, t)
  {
  }

  lemma RunStepTrade(s: State, lim: Limits, a: AccountId, command: Command, t: Trade, maker: Option<OrderRow>, fills: nat)
    requires Inv(s) && NamesTrade(Run(s, lim, a, command).core, t)
    requires Tracked(s.books, s.nextOrderId, t.makerId, maker, fills)
    ensures var core := Run(s, lim, a, command).core;
            var m, k := RowAfter(maker, core, t.makerId), RowAfter(None, core, s.nextOrderId);
            t.takerId == s.nextOrderId && m.Some? && k.Some? && TradeFits(t, m.value, k.value)
  {
    match command
    case Place(req) => PlaceStepTrade(s, lim, a, req, t, maker, fills);
    case Cancel(id) => CancelHasNoTrade(s, a, id, t);
    case _ => OthersLeaveBooks(s, lim, a, command);
  }

  lemma StepTrade(s: State, lim: Limits, env: Envelope, t: Trade, maker: Option<OrderRow>, fills: nat)
    requires Inv(s) && NamesTrade(CoreOf(Apply(s, lim, env)), t)
    requires Tracked(s.books, s.nextOrderId, t.makerId, maker, fills)
    ensures var core := CoreOf(Apply(s, lim, env));
            var m, k := RowAfter(maker, core, t.makerId), RowAfter(None, core, s.nextOrderId);
            t.takerId == s.nextOrderId && m.Some? && k.Some? && TradeFits(t, m.value, k.value)
  {
    var attempt := Try(s.window, env.account, env.key);
    TryKeepsWindow(s.window, env.account, env.key);
    CountersKeepInv(s, attempt.0, s.nextSeq);
    RunStepTrade(s.(window := attempt.0), lim, env.account, env.command, t, maker, fills);
  }

  lemma PlaceStepUpdate(
    s: State, lim: Limits, a: AccountId, req: OrderRequest, market: Pair, u: OrderUpdate, row: Option<OrderRow>, fills: nat)
    requires Inv(s) && NamesUpdate(PlaceEffect(s, lim, a, req).core, market, u)
    requires Tracked(s.books, s.nextOrderId, u.orderId, row, fills)
    ensures var after := RowAfter(row, PlaceEffect(s, lim, a, req).core, u.orderId);
            after.Some? && UpdateFits(market, u, after.value)
  {
    PlaceIsAtomic(s, lim, a, req);
    var p := PlacementOf(s, a, req);
    var j := UpdateIn(s.nextOrderId, a, req, p, market, u);
    if j < |p.trades| {
      OppAlive(s, req);
      MatchWalks(req.pair, NewOrder(s.nextOrderId, a, req), BookAt(s.books, req.pair).Resting(req.side.Opposite()));
      MakerUpdateFits(s, a, req, j, row, fills);
    } else {
      OppAlive(s, req);
      TakerUpdateFits(s, a, req, j);
    }
  }

  lemma CancelStepUpdate(
    s: State, a: AccountId, id: nat, market: Pair, u: OrderUpdate, row: Option<OrderRow>, fills: nat)
    requires Inv(s) && NamesUpdate(CancelEffect(s, a, id).core, market, u)
    requires Tracked(s.books, s.nextOrderId, u.orderId, row, fills)
    ensures var after := RowAfter(row, CancelEffect(s, a, id).core, u.orderId);
            after.Some? && UpdateFits(market, u, after.value)
  {
    var c := CancelOrder(s, a, id).1.value;
    CancelledRested(s, a, id);
    assert u == CancelUpdate(c.1) && market == c.0;
    RestingHasId(s.books, c.0, c.1);
    RestingAlive(s, c.0, c.1);
    assert RowMatches(row.value, c.0, c.1);
    KeepsDetails(row.value, CancelEvents(c.0, c.1), u.orderId);
  }

  lemma RunStepUpdate(
    s: State, lim: Limits, a: AccountId, command: Command, market: Pair, u: OrderUpdate, row: Option<OrderRow>, fills: nat)
    requires Inv(s) && NamesUpdate(Run(s, lim, a, command).core, market, u)
    requires Tracked(s.books, s.nextOrderId, u.orderId, row, fills)
    ensures var after := RowAfter(row, Run(s, lim, a, command).core, u.orderId);
            after.Some? && UpdateFits(market, u, after.value)
  {
    match command
    case Place(req) => PlaceStepUpdate(s, lim, a, req, market, u, row, fills);
    case Cancel(id) => CancelStepUpdate(s, a, id, market, u, row, fills);
    case _ => OthersLeaveBooks(s, lim, a, command);
  }

  lemma StepUpdate(s: State, lim: Limits, env: Envelope, market: Pair, u: OrderUpdate, row: Option<OrderRow>, fills: nat)
    requires Inv(s) && NamesUpdate(CoreOf(Apply(s, lim, env)), market, u)
    requires Tracked(s.books, s.nextOrderId, u.orderId, row, fills)
    ensures var after := RowAfter(row, CoreOf(Apply(s, lim, env)), u.orderId);
            after.Some? && UpdateFits(market, u, after.value)
  {
    var attempt := Try(s.window, env.account, env.key);
    TryKeepsWindow(s.window, env.account, env.key);
    CountersKeepInv(s, attempt.0, s.nextSeq);
    RunStepUpdate(s.(window := attempt.0), lim, env.account, env.command, market, u, row, fills);
  }

  // ----- whole runs -----

  /** A row's details never change again. */
  lemma DetailsPersist(lim: Limits, log: Log, id: nat)
    requires log != [] && RowOf(lim, log[..|log| - 1], id).Some?
    ensures RowOf(lim, log, id).Some? && SameDetails(RowOf(lim, log[..|log| - 1], id).value, RowOf(lim, log, id).value)
  {
    var init := log[..|log| - 1];
    RowConcat(None, History(lim, init), CoreOf(LastStep(lim, log)), id);
    KeepsDetails(RowOf(lim, init, id).value, CoreOf(LastStep(lim, log)), id);
  }

  ghost predicate TradePublished(lim: Limits, log: Log, t: Trade) {
    var m, k := RowOf(lim, log, t.makerId), RowOf(lim, log, t.takerId);
    m.Some? && k.Some? && TradeFits(t, m.value, k.value)
  }

  ghost predicate UpdatePublished(lim: Limits, log: Log, market: Pair, u: OrderUpdate) {
    var row := RowOf(lim, log, u.orderId);
    row.Some? && UpdateFits(market, u, row.value)
  }

  lemma NewTrade(lim: Limits, log: Log, t: Trade)
    requires log != [] && NamesTrade(CoreOf(LastStep(lim, log)), t)
    ensures TradePublished(lim, log, t)
  {
    var init, core := log[..|log| - 1], CoreOf(LastStep(lim, log));
    var s := StateAfter(lim, init);
    RunInv(lim, init);
    RunTracksOrders(lim, init, t.makerId);
    RunTracksOrders(lim, init, s.nextOrderId);
    StepTrade(s, lim, log[|log| - 1], t, RowOf(lim, init, t.makerId), FillsIn(History(lim, init), t.makerId));
    RowConcat(None, History(lim, init), core, t.makerId);
    RowConcat(None, History(lim, init), core, s.nextOrderId);
  }

  lemma NewUpdate(lim: Limits, log: Log, market: Pair, u: OrderUpdate)
    requires log != [] && NamesUpdate(CoreOf(LastStep(lim, log)), market, u)
    ensures UpdatePublished(lim, log, market, u)
  {
    var init, core := log[..|log| - 1], CoreOf(LastStep(lim, log));
    RunInv(lim, init);
    RunTracksOrders(lim, init, u.orderId);
    StepUpdate(StateAfter(lim, init), lim, log[|log| - 1], market, u,
               RowOf(lim, init, u.orderId), FillsIn(History(lim, init), u.orderId));
    RowConcat(None, History(lim, init), core, u.orderId);
  }

  /**
    Every trade of every run is at its maker's price and within its taker's limit, between the owners
    and the opposite sides of the two orders it names, in their market.
   */
  lemma {:induction false} TradesFitOrders(lim: Limits, log: Log, t: Trade)
    requires NamesTrade(History(lim, log), t)
    ensures TradePublished(lim, log, t)
  {
    var init := log[..|log| - 1];
    if NamesTrade(History(lim, init), t) {
      TradesFitOrders(lim, init, t);
      DetailsPersist(lim, log, t.makerId);
      DetailsPersist(lim, log, t.takerId);
    } else {
      NewTrade(lim, log, t);
    }
  }

  /** Every update of every run names its order's owner and market, and its quantities make up the order's size. */
  lemma {:induction false} UpdatesFitOrders(lim: Limits, log: Log, market: Pair, u: OrderUpdate)
    requires NamesUpdate(History(lim, log), market, u)
    ensures UpdatePublished(lim, log, market, u)
  {
    var init := log[..|log| - 1];
    if NamesUpdate(History(lim, init), market, u) {
      UpdatesFitOrders(lim, init, market, u);
      DetailsPersist(lim, log, u.orderId);
    } else {
      NewUpdate(lim, log, market, u);
    }
  }
}
