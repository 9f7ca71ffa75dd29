/** Whole runs: the engine folded over a command log, and what holds after every log. */
module Runs {
  import opened Domain
  import opened Matching
  import opened BookSpec
  import opened LedgerSpec
  import opened DedupSpec
  import opened Events
  import opened EngineSpec
  import opened Reserves
  import opened PlaceProof
  import opened EngineInv
  import opened Lifecycle

  type Log = seq<Envelope>

  ghost function StateAfter(lim: Limits, log: Log): State {
    if log == [] then Init
    else Apply(StateAfter(lim, log[..|log| - 1]), lim, log[|log| - 1]).state
  }

  /** What the last command of a non-empty log did. */
  ghost function LastStep(lim: Limits, log: Log): Step
    requires log != []
  {
    Apply(StateAfter(lim, log[..|log| - 1]), lim, log[|log| - 1])
  }

  function Emitted(step: Step): seq<Batch> {
    if step.batch.Some? then [step.batch.value] else []
  }

  /** Every batch of a run, in order. */
  ghost function Batches(lim: Limits, log: Log): seq<Batch> {
    if log == [] then []
    else Batches(lim, log[..|log| - 1]) + Emitted(LastStep(lim, log))
  }

  lemma RunPush(lim: Limits, log: Log, env: Envelope)
    ensures StateAfter(lim, log + [env]) == Apply(StateAfter(lim, log), lim, env).state
    ensures Batches(lim, log + [env]) == Batches(lim, log) + Emitted(Apply(StateAfter(lim, log), lim, env))
  {
    assert (log + [env])[..|log|] == log;
  }

  lemma {:induction false} BatchesGrow(lim: Limits, log: Log, n: nat)
    requires n <= |log|
    ensures Batches(lim, log[..n]) <= Batches(lim, log)
  {
    if n == |log| {
      assert log[..n] == log;
    } else {
      var init := log[..|log| - 1];
      assert init[..n] == log[..n];
      BatchesGrow(lim, init, n);
    }
  }

  /** The ordered events of a run: accepts, trades, updates and cancels. */
  ghost function History(lim: Limits, log: Log): seq<Event> {
    if log == [] then []
    else History(lim, log[..|log| - 1]) + CoreOf(LastStep(lim, log))
  }

  // ----- invariant, reserves -----

  /** Every reachable state satisfies the engine invariant. */
  lemma {:induction false} RunInv(lim: Limits, log: Log)
    ensures Inv(StateAfter(lim, log))
  {
    if log == [] {
      InitInv();
    } else {
      RunInv(lim, log[..|log| - 1]);
      ApplyKeepsInv(StateAfter(lim, log[..|log| - 1]), lim, log[|log| - 1]);
    }
  }

  /** Each reserve is exactly the sum of its account's resting commitments, and no balance is negative. */
  lemma ReservesAreExact(lim: Limits, log: Log, a: AccountId, c: Currency)
    ensures var s := StateAfter(lim, log);
            && Get(s.funds.bal, (a, c)).reserved == Committed(s.books, (a, c)) >= 0
            && Get(s.funds.bal, (a, c)).available >= 0
  {
    RunInv(lim, log);
    var s := StateAfter(lim, log);
    assert Get(s.funds.bal, (a, c)).reserved == Committed(s.books, (a, c));
    CommittedCovers(s.books, Pair(SOL, USD), (a, c));
  }

  /** After any log every bid is below every ask of its market. */
  lemma BooksAreUncrossed(lim: Limits, log: Log, p: Pair, bid: Order, ask: Order)
    requires bid in BookAt(StateAfter(lim, log).books, p).bids && ask in BookAt(StateAfter(lim, log).books, p).asks
    ensures bid.price < ask.price
  {
    RunInv(lim, log);
    BookAtInv(StateAfter(lim, log), p);
    Uncrossed(BookAt(StateAfter(lim, log).books, p), bid, ask);
  }

  /** After any log each side is sorted by price, each level by arrival, and every order has something left of its size. */
  lemma SidesAreSorted(lim: Limits, log: Log, p: Pair, side: Side, i: nat, j: nat)
    requires i <= j < |BookAt(StateAfter(lim, log).books, p).Resting(side)|
    ensures var x, y := BookAt(StateAfter(lim, log).books, p).Resting(side)[i], BookAt(StateAfter(lim, log).books, p).Resting(side)[j];
            && x.side == side && 0 < x.remaining <= x.size
            && (i < j ==> if x.price == y.price then x.id < y.id
                          else if side.Bid? then x.price > y.price else x.price < y.price)
  {
    var b := BookAt(StateAfter(lim, log).books, p);
    RunInv(lim, log);
    BookAtInv(StateAfter(lim, log), p);
    BookInvFrom(b, side);
    assert i < j ==> Ahead(b.Resting(side)[i], b.Resting(side)[j]);
  }

  /** After any log, a refused placement has changed nothing. */
  lemma RefusalChangesNothing(lim: Limits, log: Log, a: AccountId, req: OrderRequest)
    ensures var s := StateAfter(lim, log);
            var r := PlaceOrder(s, lim, a, req);
            r.1.Err? ==> Unchanged(s, r.0)
  {
    RunInv(lim, log);
    PlaceIsAtomic(StateAfter(lim, log), lim, a, req);
  }

  /** After any log, an order can be cancelled exactly by its owner and exactly while it rests. */
  lemma CancelWorksIffResting(lim: Limits, log: Log, a: AccountId, id: nat)
    ensures var s := StateAfter(lim, log);
            CancelOrder(s, a, id).1.Some? <==> exists p, o :: Resting(s.books, p, o) && o.id == id && o.account == a
  {
    RunInv(lim, log);
    CancelIffOwned(StateAfter(lim, log), a, id);
  }

  // ----- conservation -----

  /** Accepted deposits minus accepted withdrawals of one currency. */
  ghost function NetFlow(lim: Limits, log: Log, c: Currency): int {
    if log == [] then 0
    else NetFlow(lim, log[..|log| - 1], c) + Flow(log[|log| - 1].command, LastStep(lim, log).response, c)
  }

  /** Money is neither made nor lost: what all accounts hold is what came in minus what went out. */
  lemma {:induction false} RunConserves(lim: Limits, log: Log, c: Currency)
    ensures Supply(StateAfter(lim, log).funds.bal, c) == NetFlow(lim, log, c)
  {
    if log == [] {
      assert Holdings(Init.funds.bal, c) == map[];
    } else {
      RunConserves(lim, log[..|log| - 1], c);
      ApplyConserves(StateAfter(lim, log[..|log| - 1]), lim, log[|log| - 1], c);
    }
  }

  // ----- sequence numbers -----

  lemma ApplySeq(s: State, lim: Limits, env: Envelope)
    requires Inv(s)
    ensures var step := Apply(s, lim, env);
            && step.state.nextSeq == s.nextSeq + |Emitted(step)|
            && (step.batch.Some? ==> step.batch.value.seqNo == s.nextSeq)
  {
    var attempt := Try(s.window, env.account, env.key);
    if attempt.1 {
      RunKeepsSeq(s.(window := attempt.0), lim, env.account, env.command);
    }
  }

  lemma RunKeepsSeq(s: State, lim: Limits, a: AccountId, command: Command)
    ensures Run(s, lim, a, command).state.nextSeq == s.nextSeq
  {
  }

  /** Batch number i of a run carries sequence number i. */
  lemma {:induction false} BatchesAreNumbered(lim: Limits, log: Log)
    ensures StateAfter(lim, log).nextSeq == |Batches(lim, log)|
    ensures forall i :: 0 <= i < |Batches(lim, log)| ==> Batches(lim, log)[i].seqNo == i
  {
    if log != [] {
      BatchesAreNumbered(lim, log[..|log| - 1]);
      RunInv(lim, log[..|log| - 1]);
      ApplySeq(StateAfter(lim, log[..|log| - 1]), lim, log[|log| - 1]);
    }
  }

  // ----- idempotency keys -----

  function Attempts(log: Log): seq<Attempt> {
    seq(|log|, i requires 0 <= i < |log| => (log[i].account, log[i].key))
  }

  lemma ApplyWindow(s: State, lim: Limits, env: Envelope)
    ensures Apply(s, lim, env).state.window == Try(s.window, env.account, env.key).0
    ensures Apply(s, lim, env).response.Duplicate? <==> !Try(s.window, env.account, env.key).1
  {
    var attempt := Try(s.window, env.account, env.key);
    if attempt.1 {
      RunKeepsWindow(s.(window := attempt.0), lim, env.account, env.command);
    }
  }

  lemma RunKeepsWindow(s: State, lim: Limits, a: AccountId, command: Command)
    ensures Run(s, lim, a, command).state.window == s.window
    ensures !Run(s, lim, a, command).response.Duplicate?
  {
  }

  lemma {:induction false} WindowOverRun(lim: Limits, log: Log)
    ensures StateAfter(lim, log).window == WindowAfter(Attempts(log))
  {
    if log != [] {
      var init := log[..|log| - 1];
      WindowOverRun(lim, init);
      assert Attempts(log)[..|log| - 1] == Attempts(init);
      ApplyWindow(StateAfter(lim, init), lim, log[|log| - 1]);
    }
  }

  /**
    After any log a command is answered as a duplicate iff its key is among the account's last
    1000 accepted ones, and then it changes no state and publishes nothing.
   */
  lemma DuplicateIffRecent(lim: Limits, log: Log, env: Envelope)
    ensures var s := StateAfter(lim, log);
            var step := Apply(s, lim, env);
            && (step.response.Duplicate? <==> AmongLastThousand(Accepted(Attempts(log), env.account), env.key))
            && (step.response.Duplicate? ==> step.state == s && step.batch.None?)
  {
    WindowOverRun(lim, log);
    ApplyWindow(StateAfter(lim, log), lim, env);
    AcceptedIffNotRecent(Attempts(log), env.account, env.key);
  }

  // ----- order lifecycle -----

  ghost function RowOf(lim: Limits, log: Log, id: nat): Option<OrderRow> {
    RowAfter(None, History(lim, log), id)
  }

  lemma {:induction false} RunTracksOrders(lim: Limits, log: Log, id: nat)
    ensures var s := StateAfter(lim, log);
            Tracked(s.books, s.nextOrderId, id, RowOf(lim, log, id), FillsIn(History(lim, log), id))
  {
    if log != [] {
      var init, last := log[..|log| - 1], log[|log| - 1];
      var s := StateAfter(lim, init);
      RunTracksOrders(lim, init, id);
      RunInv(lim, init);
      ApplyTracks(s, lim, last, id, RowOf(lim, init, id), FillsIn(History(lim, init), id));
      RowConcat(None, History(lim, init), CoreOf(LastStep(lim, log)), id);
      FillsConcat(History(lim, init), CoreOf(LastStep(lim, log)), id);
    }
  }

  /**
    The whole story of an order, after any log: its reported quantity is the sum of its trades and
    never more than its size; it is filled iff that is all of it, otherwise cancelled iff it no longer
    rests, otherwise open or partially filled.
   */
  lemma OrderStory(lim: Limits, log: Log, id: nat)
    requires id < StateAfter(lim, log).nextOrderId
    ensures var row := RowOf(lim, log, id);
            && row.Some?
            && row.value.filled == FillsIn(History(lim, log), id) <= row.value.size
            && StatusFits(row.value, RestsAnywhere(StateAfter(lim, log).books, id))
  {
    var s := StateAfter(lim, log);
    RunTracksOrders(lim, log, id);
    RunInv(lim, log);
    if RestsAnywhere(s.books, id) {
      var p, o := RestsAnywhereOrder(s.books, id);
      RestingAlive(s, p, o);
      assert RowMatches(RowOf(lim, log, id).value, p, o);
    }
  }

  lemma {:induction false} SilentAfterwards(lim: Limits, log: Log, more: Log, id: nat)
    requires id < StateAfter(lim, log).nextOrderId && !RestsAnywhere(StateAfter(lim, log).books, id)
    ensures id < StateAfter(lim, log + more).nextOrderId && !RestsAnywhere(StateAfter(lim, log + more).books, id)
    ensures |History(lim, log)| <= |History(lim, log + more)|
    ensures History(lim, log + more)[..|History(lim, log)|] == History(lim, log)
    ensures Silent(History(lim, log + more)[|History(lim, log)|..], id)
    decreases |more|
  {
    if more == [] {
      assert log + more == log;
    } else {
      var more', last := more[..|more| - 1], more[|more| - 1];
      SilentAfterwards(lim, log, more', id);
      assert (log + more)[..|log + more| - 1] == log + more';
      RunInv(lim, log + more');
      ApplySilent(StateAfter(lim, log + more'), lim, last, id);
      SilentConcat(History(lim, log), History(lim, log + more'), CoreOf(LastStep(lim, log + more)), id);
    }
  }

  lemma SilentConcat(x: seq<Event>, y: seq<Event>, z: seq<Event>, id: nat)
    requires |x| <= |y| && y[..|x|] == x && Silent(y[|x|..], id) && Silent(z, id)
    ensures (y + z)[..|x|] == x && Silent((y + z)[|x|..], id)
  {
    assert (y + z)[|x|..] == y[|x|..] + z;
  }

  /** Once filled or cancelled, an order appears in no later trade or update, whatever is logged next. */
  lemma TerminalIsFinal(lim: Limits, log: Log, more: Log, id: nat)
    requires RowOf(lim, log, id).Some?
    requires RowOf(lim, log, id).value.status.Filled? || RowOf(lim, log, id).value.status.Cancelled?
    ensures |History(lim, log)| <= |History(lim, log + more)|
    ensures Silent(History(lim, log + more)[|History(lim, log)|..], id)
    ensures RowOf(lim, log + more, id) == RowOf(lim, log, id)
  {
    RunTracksOrders(lim, log, id);
    OrderStory(lim, log, id);
    SilentAfterwards(lim, log, more, id);
    SilentExtension(History(lim, log), History(lim, log + more), id);
  }

  lemma SilentExtension(before: seq<Event>, after: seq<Event>, id: nat)
    requires |before| <= |after| && after[..|before|] == before && Silent(after[|before|..], id)
    ensures RowAfter(None, after, id) == RowAfter(None, before, id)
  {
    var rest := after[|before|..];
    assert after == before + rest;
    RowConcat(None, before, rest, id);
    SilentRow(RowAfter(None, before, id), rest, id);
  }

  /** No command of any run reports the same order twice. */
  lemma UpdatedAtMostOnce(lim: Limits, log: Log, env: Envelope, id: nat)
    ensures UpdateCount(CoreOf(Apply(StateAfter(lim, log), lim, env)), id) <= 1
  {
    RunInv(lim, log);
    ApplyUpdatesOnce(StateAfter(lim, log), lim, env, id);
  }

  // ----- self-trades -----

  predicate SelfTraded(e: Event) {
    e.TradeEvent? && e.trade.makerAccount == e.trade.takerAccount
  }

  lemma GuardStopsSelfTrade(s: State, lim: Limits, a: AccountId, req: OrderRequest)
    requires lim.preventSelfTrade && Guard(s, lim, a, req).None?
    ensures !HasSelfTrade(PlacementOf(s, a, req).trades)
  {
    var taker := NewOrder(s.nextOrderId, a, req);
    var opp := BookAt(s.books, req.pair).Resting(req.side.Opposite());
    if taker.remaining > 0 {
      MeetsOwnIsExact(req.pair, taker, opp);
    } else {
      MeetsOwnOfEmptyTaker(req.pair, taker, opp);
    }
  }

  lemma TradesNotSelf(trades: seq<Trade>)
    requires !HasSelfTrade(trades)
    ensures forall e :: e in TradeEvents(trades) ==> !SelfTraded(e)
  {
    forall e | e in TradeEvents(trades) ensures !SelfTraded(e) {
      var i :| 0 <= i < |trades| && TradeEvents(trades)[i] == e;
      assert trades[i].makerAccount != trades[i].takerAccount;
    }
  }

  lemma EventsNotSelf(id: nat, a: AccountId, req: OrderRequest, p: Placement)
    requires !HasSelfTrade(p.trades)
    ensures forall e :: e in PlaceEvents(id, a, req, p) ==> !SelfTraded(e)
  {
    TradesNotSelf(p.trades);
    forall e | e in UpdateEvents(req.pair, p.updates) ensures !SelfTraded(e) {
    }
  }

  lemma PlaceSelfTrades(s: State, lim: Limits, a: AccountId, req: OrderRequest)
    requires Inv(s) && lim.preventSelfTrade
    ensures forall e :: e in PlaceEffect(s, lim, a, req).core ==> !SelfTraded(e)
  {
    PlaceIsAtomic(s, lim, a, req);
    if PlaceOrder(s, lim, a, req).1.Ok? {
      GuardStopsSelfTrade(s, lim, a, req);
      EventsNotSelf(s.nextOrderId, a, req, PlacementOf(s, a, req));
    }
  }

  /** With the guard on, no run contains a self-trade. */
  lemma {:induction false} NoSelfTrades(lim: Limits, log: Log)
    requires lim.preventSelfTrade
    ensures forall e :: e in History(lim, log) ==> !SelfTraded(e)
  {
    if log != [] {
      var init, env := log[..|log| - 1], log[|log| - 1];
      NoSelfTrades(lim, init);
      RunInv(lim, init);
      ApplySelfTrades(StateAfter(lim, init), lim, env);
    }
  }

  lemma ApplySelfTrades(s: State, lim: Limits, env: Envelope)
    requires Inv(s) && lim.preventSelfTrade
    ensures forall e :: e in CoreOf(Apply(s, lim, env)) ==> !SelfTraded(e)
  {
    var attempt := Try(s.window, env.account, env.key);
    if attempt.1 && env.command.Place? {
      TryKeepsWindow(s.window, env.account, env.key);
      CountersKeepInv(s, attempt.0, s.nextSeq);
      PlaceSelfTrades(s.(window := attempt.0), lim, env.account, env.command.order);
    }
  }

  // ----- the price band's anchor -----

  /** Price of the last trade of market `p` among these events, if any. */
  function LastTraded(before: Option<nat>, events: seq<Event>, p: Pair): Option<nat> {
    if events == [] then before
    else
      var last := events[|events| - 1];
      if last.TradeEvent? && last.trade.pair == p then Some(last.trade.price)
      else LastTraded(before, events[..|events| - 1], p)
  }

  lemma {:induction false} LastTradedConcat(before: Option<nat>, x: seq<Event>, y: seq<Event>, p: Pair)
    ensures LastTraded(before, x + y, p) == LastTraded(LastTraded(before, x, p), y, p)
  {
    if y == [] {
      assert x + y == x;
    } else {
      assert (x + y)[..|x + y| - 1] == x + y[..|y| - 1];
      LastTradedConcat(before, x, y[..|y| - 1], p);
    }
  }

  lemma {:induction false} NotTraded(before: Option<nat>, events: seq<Event>, p: Pair)
    requires forall i :: 0 <= i < |events| ==> !(events[i].TradeEvent? && events[i].trade.pair == p)
    ensures LastTraded(before, events, p) == before
  {
    if events != [] {
      NotTraded(before, events[..|events| - 1], p);
    }
  }

  lemma TradedIn(before: Option<nat>, trades: seq<Trade>, pair: Pair, p: Pair)
    requires forall i :: 0 <= i < |trades| ==> trades[i].pair == pair
    ensures LastTraded(before, TradeEvents(trades), p) == if p == pair then LastPrice(before, trades) else before
  {
    if p != pair {
      NotTraded(before, TradeEvents(trades), p);
    }
  }

  lemma PlaceLastTraded(s: State, a: AccountId, req: OrderRequest, p: Pair)
    ensures LastTraded(BookAt(s.books, p).last, PlaceEvents(s.nextOrderId, a, req, PlacementOf(s, a, req)), p) ==
            BookAt(BooksAfter(s, a, req), p).last
  {
    var placement, before := PlacementOf(s, a, req), BookAt(s.books, p).last;
    var accept := [OrderAccepted(s.nextOrderId, a, req.pair, req.side, req.orderType, req.price, req.size)];
    var trades, updates := TradeEvents(placement.trades), UpdateEvents(req.pair, placement.updates);
    LastTradedConcat(before, accept + trades, updates, p);
    LastTradedConcat(before, accept, trades, p);
    NotTraded(before, accept, p);
    MatchTradesBelongToTaker(req.pair, NewOrder(s.nextOrderId, a, req),
                             BookAt(s.books, req.pair).Resting(req.side.Opposite()));
    TradedIn(before, placement.trades, req.pair, p);
    NotTraded(LastTraded(before, trades, p), updates, p);
  }

  lemma PlaceEffectLastTraded(s: State, lim: Limits, a: AccountId, req: OrderRequest, p: Pair)
    requires Inv(s)
    ensures var e := PlaceEffect(s, lim, a, req);
            LastTraded(BookAt(s.books, p).last, e.core, p) == BookAt(e.state.books, p).last
  {
    PlaceIsAtomic(s, lim, a, req);
    if PlaceOrder(s, lim, a, req).1.Ok? {
      PlaceLastTraded(s, a, req, p);
    }
  }

  lemma DropKeepsLast(books: map<Pair, BookView>, q: Pair, o: Order, p: Pair)
    requires q in books
    ensures LastTraded(BookAt(books, p).last, CancelEvents(q, o), p) == BookAt(books[q := Drop(books[q], o)], p).last
  {
    NotTraded(BookAt(books, p).last, CancelEvents(q, o), p);
  }

  lemma CancelLastTraded(s: State, a: AccountId, id: nat, p: Pair)
    requires Inv(s)
    ensures var e := CancelEffect(s, a, id);
            LastTraded(BookAt(s.books, p).last, e.core, p) == BookAt(e.state.books, p).last
  {
    var r := CancelOrder(s, a, id);
    if r.1.Some? {
      CancelledRested(s, a, id);
      DropKeepsLast(s.books, r.1.value.0, r.1.value.1, p);
    }
  }

  lemma RunLastTraded(s: State, lim: Limits, a: AccountId, command: Command, p: Pair)
    requires Inv(s)
    ensures var e := Run(s, lim, a, command);
            LastTraded(BookAt(s.books, p).last, e.core, p) == BookAt(e.state.books, p).last
  {
    match command
    case Place(req) => PlaceEffectLastTraded(s, lim, a, req, p);
    case Cancel(id) => CancelLastTraded(s, a, id, p);
    case _ => OthersLeaveBooks(s, lim, a, command);
  }

  lemma ApplyLastTraded(s: State, lim: Limits, env: Envelope, p: Pair)
    requires Inv(s)
    ensures var step := Apply(s, lim, env);
            LastTraded(BookAt(s.books, p).last, CoreOf(step), p) == BookAt(step.state.books, p).last
  {
    var attempt := Try(s.window, env.account, env.key);
    if attempt.1 {
      TryKeepsWindow(s.window, env.account, env.key);
      CountersKeepInv(s, attempt.0, s.nextSeq);
      RunLastTraded(s.(window := attempt.0), lim, env.account, env.command, p);
    }
  }

  /** The price a market's band is anchored to is that of its last published trade, none before the first. */
  lemma {:induction false} BandAnchorIsLastTrade(lim: Limits, log: Log, p: Pair)
    ensures BookAt(StateAfter(lim, log).books, p).last == LastTraded(None, History(lim, log), p)
  {
    if log != [] {
      var init := log[..|log| - 1];
      BandAnchorIsLastTrade(lim, init, p);
      RunInv(lim, init);
      ApplyLastTraded(StateAfter(lim, init), lim, log[|log| - 1], p);
      LastTradedConcat(None, History(lim, init), CoreOf(LastStep(lim, log)), p);
    }
  }
}
