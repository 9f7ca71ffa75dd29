/** What a batch contains: no event, level or balance too many, and in which order. */
module BatchLaws {
  import opened Domain
  import opened Matching
  import opened BookSpec
  import opened LedgerSpec
  import opened Events
  import opened EngineSpec
  import opened Reserves
  import opened PlaceProof
  import opened EngineInv
  import opened Lifecycle
  import opened Runs
  import opened Streams
  import opened Replies

  // ----- levels -----

  /** The deltas are exactly the levels whose total changed, each with its new total. */
  ghost predicate ExactDeltas(before: map<Pair, BookView>, after: map<Pair, BookView>, deltas: map<LevelKey, nat>) {
    forall k: LevelKey ::
      && (k in deltas <==> LevelOf(before, k) != LevelOf(after, k))
      && (k in deltas ==> deltas[k] == LevelOf(after, k))
  }

  lemma PlaceExactDeltas(s: State, a: AccountId, req: OrderRequest)
    requires Inv(s)
    ensures var p := PlacementOf(s, a, req);
            ExactDeltas(s.books, BooksAfter(s, a, req), LevelDeltas(req.pair, p.book, p.dirty))
  {
    var p, b := PlacementOf(s, a, req), BookAt(s.books, req.pair);
    BookAtInv(s, req.pair);
    var deltas := LevelDeltas(req.pair, p.book, p.dirty);
    forall k: LevelKey
      ensures k in deltas <==> LevelOf(s.books, k) != LevelOf(BooksAfter(s, a, req), k)
      ensures k in deltas ==> deltas[k] == LevelOf(BooksAfter(s, a, req), k)
    {
      InDeltas(req.pair, p.book, p.dirty, k);
      if k.pair == req.pair {
        ReportedIffChanged(b, req.pair, NewOrder(s.nextOrderId, a, req), k.side, k.price);
      }
    }
  }

  lemma InDeltas(pair: Pair, b: BookView, dirty: set<(Side, nat)>, k: LevelKey)
    ensures k in LevelDeltas(pair, b, dirty) <==> k.pair == pair && (k.side, k.price) in dirty
    ensures k in LevelDeltas(pair, b, dirty) ==> LevelDeltas(pair, b, dirty)[k] == LevelQty(b, k.side, k.price)
  {
    if k.pair == pair {
      InLevelKeys(pair, dirty, k);
    }
  }

  lemma CancelExactDeltas(s: State, p: Pair, o: Order)
    requires Inv(s) && Resting(s.books, p, o)
    ensures var books' := s.books[p := Drop(s.books[p], o)];
            ExactDeltas(s.books, books', LevelDeltas(p, books'[p], {(o.side, o.price)}))
  {
    var books' := s.books[p := Drop(s.books[p], o)];
    var deltas := LevelDeltas(p, books'[p], {(o.side, o.price)});
    RestingAlive(s, p, o);
    forall k: LevelKey
      ensures k in deltas <==> LevelOf(s.books, k) != LevelOf(books', k)
      ensures k in deltas ==> deltas[k] == LevelOf(books', k)
    {
      InDeltas(p, books'[p], {(o.side, o.price)}, k);
      if k.pair == p {
        CancelReportsItsLevel(s.books[p], o, k.side, k.price);
      }
    }
  }

  lemma NoDeltas(books: map<Pair, BookView>)
    ensures ExactDeltas(books, books, map[])
  {
  }

  lemma PlaceEffectDeltas(s: State, lim: Limits, a: AccountId, req: OrderRequest)
    requires Inv(s)
    ensures var e := PlaceEffect(s, lim, a, req); ExactDeltas(s.books, e.state.books, e.deltas)
  {
    PlaceIsAtomic(s, lim, a, req);
    if PlaceOrder(s, lim, a, req).1.Ok? {
      PlaceExactDeltas(s, a, req);
    } else {
      NoDeltas(s.books);
    }
  }

  lemma CancelEffectDeltas(s: State, a: AccountId, id: nat)
    requires Inv(s)
    ensures var e := CancelEffect(s, a, id); ExactDeltas(s.books, e.state.books, e.deltas)
  {
    var r := CancelOrder(s, a, id);
    if r.1.Some? {
      CancelledRested(s, a, id);
      CancelExactDeltas(s, r.1.value.0, r.1.value.1);
    } else {
      NoDeltas(s.books);
    }
  }

  lemma RunExactDeltas(s: State, lim: Limits, a: AccountId, command: Command)
    requires Inv(s)
    ensures var e := Run(s, lim, a, command); ExactDeltas(s.books, e.state.books, e.deltas)
  {
    match command
    case Place(req) => PlaceEffectDeltas(s, lim, a, req);
    case Cancel(id) => CancelEffectDeltas(s, a, id);
    case _ =>
      OthersLeaveBooks(s, lim, a, command);
      NoDeltas(s.books);
  }

  /** A batch reports exactly the levels whose total its command changed; no batch means none changed. */
  lemma DeltasAreChanges(lim: Limits, log: Log, env: Envelope)
    ensures var s, step := StateAfter(lim, log), Apply(StateAfter(lim, log), lim, env);
            ExactDeltas(s.books, step.state.books, if step.batch.Some? then step.batch.value.deltas else map[])
  {
    var s := StateAfter(lim, log);
    RunInv(lim, log);
    if Fresh(s, env) {
      FreshApply(s, lim, env);
      RunExactDeltas(Entered(s, env), lim, env.account, env.command);
    } else {
      NoDeltas(s.books);
    }
  }

  // ----- balances -----

  /** `k` is the quote or the base balance of a party to one of these trades. */
  ghost predicate Party(trades: seq<Trade>, pair: Pair, k: Key) {
    exists i :: 0 <= i < |trades| && TouchedBy(trades[i], pair, k)
  }

  predicate TouchedBy(t: Trade, pair: Pair, k: Key) {
    (k.0 == t.takerAccount || k.0 == t.makerAccount) && (k.1 == pair.base || k.1 == pair.quote)
  }

  lemma SettleDirty(f: Funds, pair: Pair, t: Trade, k: Key)
    ensures k in Settle(f, pair, t).dirty <==> k in f.dirty || TouchedBy(t, pair, k)
  {
  }

  lemma {:induction false} SettleAllDirty(f: Funds, pair: Pair, trades: seq<Trade>, k: Key)
    ensures k in SettleAll(f, pair, trades).dirty <==> k in f.dirty || Party(trades, pair, k)
  {
    if trades != [] {
      var init, t := trades[..|trades| - 1], trades[|trades| - 1];
      SettleAllDirty(f, pair, init, k);
      SettleDirty(SettleAll(f, pair, init), pair, t, k);
      PartyLast(trades, pair, k);
    }
  }

  lemma PartyLast(trades: seq<Trade>, pair: Pair, k: Key)
    requires trades != []
    ensures Party(trades, pair, k) <==>
            Party(trades[..|trades| - 1], pair, k) || TouchedBy(trades[|trades| - 1], pair, k)
  {
    assert trades == trades[..|trades| - 1] + [trades[|trades| - 1]];
    PartyPush(trades[..|trades| - 1], trades[|trades| - 1], pair, k);
  }

  lemma PartyPush(init: seq<Trade>, t: Trade, pair: Pair, k: Key)
    ensures Party(init + [t], pair, k) <==> Party(init, pair, k) || TouchedBy(t, pair, k)
  {
    var trades := init + [t];
    if Party(init, pair, k) {
      var i :| 0 <= i < |init| && TouchedBy(init[i], pair, k);
      assert TouchedBy(trades[i], pair, k);
    }
    if TouchedBy(t, pair, k) {
      assert TouchedBy(trades[|init|], pair, k);
    }
  }

  lemma RefundDirty(f: Funds, a: AccountId, req: OrderRequest, trades: seq<Trade>, remaining: nat, k: Key)
    requires PayKey(a, req) in f.dirty
    ensures k in RefundSurplus(ReleaseLeftover(f, a, req, remaining), a, req, trades).0.dirty <==> k in f.dirty
  {
  }

  /** An accepted order's batch is about its payer's balance and about both balances of every party to a trade. */
  lemma PlaceBalances(s: State, lim: Limits, a: AccountId, req: OrderRequest, k: Key)
    requires Inv(s) && PlaceOrder(s, lim, a, req).1.Ok?
    ensures k in PlaceOrder(s, lim, a, req).0.funds.dirty <==>
            k == (a, if req.side.Bid? then req.pair.quote else req.pair.base)
            || Party(PlaceOrder(s, lim, a, req).1.value.trades, req.pair, k)
  {
    PlaceIsAtomic(s, lim, a, req);
    var p := PlacementOf(s, a, req);
    var amount := ReserveAmount(req, QuoteAmount(BookAt(s.books, req.pair), req).value);
    ReserveIff(s.funds, PayKey(a, req), amount);
    var f := Reserve(s.funds, PayKey(a, req), amount).0;
    assert f.dirty == {PayKey(a, req)};
    var settled := SettleAll(f, req.pair, p.trades);
    SettleAllDirty(f, req.pair, p.trades, k);
    SettleAllDirty(f, req.pair, p.trades, PayKey(a, req));
    RefundDirty(settled, a, req, p.trades, p.remaining, k);
  }

  /** Nothing but a balance that the command could have moved is reported. */
  lemma BalancesReported(s: State, lim: Limits, env: Envelope, k: Key)
    requires Inv(s) && Fresh(s, env) && env.command.Place? && Apply(s, lim, env).batch.Some?
    ensures var batch, req := Apply(s, lim, env).batch.value, env.command.order;
            && (k in batch.balances <==>
                  k == (env.account, if req.side.Bid? then req.pair.quote else req.pair.base)
                  || Party(PlacementOf(s, env.account, req).trades, req.pair, k))
            && (k in batch.balances ==> batch.balances[k] == Get(Apply(s, lim, env).state.funds.bal, k))
  {
    var s1, a, req := Entered(s, env), env.account, env.command.order;
    FreshApply(s, lim, env);
    PlacePublishes(s1, lim, a, req);
    PlaceIsAtomic(s1, lim, a, req);
    PlaceBalances(s1, lim, a, req, k);
    assert PlacementOf(s1, a, req) == PlacementOf(s, a, req);
  }

  // ----- order -----

  /** Accept, then the trades, then one update per trade for its maker, then at most one for the taker. */
  ghost predicate InSequence(core: seq<Event>, id: nat, n: nat) {
    && 2 * n + 1 <= |core| <= 2 * n + 2
    && core[0].OrderAccepted? && core[0].acceptedId == id
    && (forall i :: 0 <= i < n ==> PairedAt(core, id, n, i))
    && (|core| == 2 * n + 2 ==> core[2 * n + 1].OrderUpdated? && core[2 * n + 1].update.orderId == id)
  }

  /** Trade number `i` is the order's own, and update number `i` that of its maker. */
  predicate PairedAt(core: seq<Event>, id: nat, n: nat, i: nat) {
    && 1 + n + i < |core|
    && core[1 + i].TradeEvent? && core[1 + i].trade.takerId == id
    && core[1 + n + i].OrderUpdated? && core[1 + n + i].update.orderId == core[1 + i].trade.makerId
  }

  lemma TradePosition(id: nat, a: AccountId, req: OrderRequest, p: Placement, i: nat)
    requires i < |p.trades|
    ensures 1 + i < |PlaceEvents(id, a, req, p)| && PlaceEvents(id, a, req, p)[1 + i] == TradeEvent(p.trades[i])
  {
  }

  lemma UpdatePosition(id: nat, a: AccountId, req: OrderRequest, p: Placement, i: nat)
    requires i < |p.updates|
    ensures var at := 1 + |p.trades| + i;
            at < |PlaceEvents(id, a, req, p)| && PlaceEvents(id, a, req, p)[at] == OrderUpdated(req.pair, p.updates[i])
  {
  }

  /** The first updates are those of the trades' makers; one more is the taker's. */
  ghost predicate Paired(p: Placement, id: nat) {
    && |p.trades| <= |p.updates| <= |p.trades| + 1
    && (forall i {:trigger p.trades[i]} :: 0 <= i < |p.trades| ==>
          p.trades[i].takerId == id && p.updates[i].orderId == p.trades[i].makerId)
    && (|p.updates| == |p.trades| + 1 ==> p.updates[|p.trades|].orderId == id)
  }

  lemma PlacementPaired(s: State, a: AccountId, req: OrderRequest)
    requires Inv(s)
    ensures Paired(PlacementOf(s, a, req), s.nextOrderId)
  {
    var p, taker := PlacementOf(s, a, req), NewOrder(s.nextOrderId, a, req);
    var opp := BookAt(s.books, req.pair).Resting(req.side.Opposite());
    OppAlive(s, req);
    MatchWalks(req.pair, taker, opp);
    var o := Match(req.pair, taker, opp);
    forall i | 0 <= i < |p.trades| ensures p.trades[i].takerId == taker.id && p.updates[i].orderId == p.trades[i].makerId {
      assert TradedWith(req.pair, taker, opp[i], o.trades[i], o.updates[i]);
    }
  }

  lemma PairAt(id: nat, a: AccountId, req: OrderRequest, p: Placement, i: nat)
    requires Paired(p, id) && i < |p.trades|
    ensures |PlaceEvents(id, a, req, p)| == 1 + |p.trades| + |p.updates|
    ensures PairedAt(PlaceEvents(id, a, req, p), id, |p.trades|, i)
  {
    TradePosition(id, a, req, p, i);
    UpdatePosition(id, a, req, p, i);
    assert p.trades[i].takerId == id && p.updates[i].orderId == p.trades[i].makerId;
  }

  lemma PairedInSequence(id: nat, a: AccountId, req: OrderRequest, p: Placement)
    requires Paired(p, id)
    ensures InSequence(PlaceEvents(id, a, req, p), id, |p.trades|)
  {
    var n := |p.trades|;
    forall i | 0 <= i < n ensures PairedAt(PlaceEvents(id, a, req, p), id, n, i) {
      PairAt(id, a, req, p, i);
    }
    if |p.updates| == n + 1 {
      UpdatePosition(id, a, req, p, n);
    }
  }

  lemma PlaceInSequence(s: State, a: AccountId, req: OrderRequest)
    requires Inv(s)
    ensures var p := PlacementOf(s, a, req);
            InSequence(PlaceEvents(s.nextOrderId, a, req, p), s.nextOrderId, |p.trades|)
  {
    PlacementPaired(s, a, req);
    PairedInSequence(s.nextOrderId, a, req, PlacementOf(s, a, req));
  }

  /** The events of every accepted order come in this sequence. */
  lemma AcceptedInSequence(s: State, lim: Limits, env: Envelope)
    requires Inv(s) && Fresh(s, env) && env.command.Place? && Apply(s, lim, env).batch.Some?
    ensures InSequence(Apply(s, lim, env).batch.value.core, s.nextOrderId, |PlacementOf(s, env.account, env.command.order).trades|)
  {
    var s1, a, req := Entered(s, env), env.account, env.command.order;
    FreshApply(s, lim, env);
    PlacePublishes(s1, lim, a, req);
    PlaceIsAtomic(s1, lim, a, req);
    PlaceInSequence(s1, a, req);
    assert PlacementOf(s1, a, req) == PlacementOf(s, a, req);
  }

  /** A cancel's batch announces it, updates the order, and is about its level and its owner's balance alone. */
  lemma CancelPublishes(s: State, lim: Limits, env: Envelope, p: Pair, o: Order)
    requires Inv(s) && Fresh(s, env) && env.command == Cancel(o.id)
    requires Resting(s.books, p, o) && o.account == env.account
    ensures var batch := Apply(s, lim, env).batch;
            && batch.Some? && |batch.value.core| == 2
            && batch.value.core[0] == OrderCancelled(o.id) && batch.value.core[1].OrderUpdated?
            && batch.value.core[1].update.orderId == o.id && batch.value.core[1].update.status.Cancelled?
            && batch.value.balances.Keys == {(o.account, if o.side.Bid? then p.quote else p.base)}
            && batch.value.deltas.Keys == {LevelKey(p, o.side, o.price)}
  {
    FreshApply(s, lim, env);
    CancelEffectIs(Entered(s, env), env.account, p, o);
    SealKeeps(Run(Entered(s, env), lim, env.account, env.command));
  }

  lemma SealKeeps(e: Effect)
    requires e.core != []
    ensures var batch := Seal(e).batch;
            && batch.Some? && batch.value.core == e.core && batch.value.deltas == e.deltas
            && batch.value.balances.Keys == e.state.funds.dirty
  {
  }

  lemma CancelEffectIs(s: State, a: AccountId, p: Pair, o: Order)
    requires Inv(s) && Resting(s.books, p, o) && o.account == a
    ensures var e := CancelEffect(s, a, o.id);
            && |e.core| == 2 && e.core[0] == OrderCancelled(o.id)
            && e.core[1].OrderUpdated? && e.core[1].update.orderId == o.id && e.core[1].update.status.Cancelled?
            && e.deltas.Keys == {LevelKey(p, o.side, o.price)}
            && e.state.funds.dirty == {(a, if o.side.Bid? then p.quote else p.base)}
  {
    CancelIffOwned(s, a, o.id);
    CancelledRested(s, a, o.id);
    CancelDirty(s, p, o);
    OneDelta(p, Drop(s.books[p], o), o.side, o.price);
  }

  lemma OneDelta(p: Pair, b: BookView, side: Side, price: nat)
    ensures LevelDeltas(p, b, {(side, price)}).Keys == {LevelKey(p, side, price)}
  {
    forall k ensures k in LevelDeltas(p, b, {(side, price)}) <==> k == LevelKey(p, side, price) {
      InDeltas(p, b, {(side, price)}, k);
    }
  }

  lemma CancelDirty(s: State, p: Pair, o: Order)
    requires Inv(s) && Resting(s.books, p, o)
    ensures Release(s.funds, (o.account, PayCurrency(p, o.side)), HeldBy(o)).0.dirty == {(o.account, PayCurrency(p, o.side))}
  {
    CancelExact(s, p, o);
  }
}
