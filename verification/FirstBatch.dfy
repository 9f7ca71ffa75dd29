/**
  The first batch of a run, which a client of a fresh projection drops: until something is published
  every balance is zero and every book is empty, so that batch sets a level only through a bid at
  price zero.
 */
module FirstBatch {
  import opened Domain
  import opened Matching
  import opened BookSpec
  import opened LedgerSpec
  import opened DedupSpec
  import opened Events
  import opened EngineSpec
  import opened Reserves
  import opened PlaceProof
  import opened EngineInv
  import opened Overflow
  import opened Runs
  import opened Streams
  import opened Projection

  /** No money and no resting order anywhere. */
  ghost predicate Blank(s: State) {
    && (forall k: Key :: Get(s.funds.bal, k).available == 0)
    && (forall p: Pair, side: Side :: BookAt(s.books, p).Resting(side) == [])
  }

  lemma FrontCounts(s: seq<Order>)
    requires Alive(s)
    ensures s != [] ==> OrderTotal(Level(s[0].price), s) > 0
  {
  }

  /** A run that published nothing left nothing behind. */
  lemma NothingPublished(lim: Limits, log: Log)
    requires Batches(lim, log) == []
    ensures Blank(StateAfter(lim, log))
  {
    var s := StateAfter(lim, log);
    RunInv(lim, log);
    forall k: Key ensures Get(s.funds.bal, k).available == 0 {
      ReaderAgrees([], lim, log, BalanceCell(k));
    }
    forall p: Pair, side: Side ensures BookAt(s.books, p).Resting(side) == [] {
      var resting := BookAt(s.books, p).Resting(side);
      BookAtInv(s, p);
      BookInvFrom(BookAt(s.books, p), side);
      FrontCounts(resting);
      if resting != [] {
        ReaderAgrees([], lim, log, LevelCell(LevelKey(p, side, resting[0].price)));
      }
    }
  }

  predicate RestsAtZero(command: Command) {
    command.Place? && ZeroBid(command.order) && command.order.size > 0
  }

  ghost predicate SetsSome(deltas: map<LevelKey, nat>) {
    exists k :: k in deltas && deltas[k] > 0
  }

  /** On a blank state only a bid at price zero can be paid for and rest. */
  lemma BlankPlace(s: State, a: AccountId, req: OrderRequest, f: Funds)
    requires Inv(s) && Blank(s) && Admitted(s, a, req, f)
    ensures PlacementOf(s, a, req).trades == [] && PlacementOf(s, a, req).remaining == req.size
    ensures Rests(NewOrder(s.nextOrderId, a, req), req.size) <==> ZeroBid(req) && req.size > 0
  {
    assert BookAt(s.books, req.pair).Resting(req.side.Opposite()) == [];
    assert Get(s.funds.bal, PayKey(a, req)).available == 0;
    if req.size > 0 && req.price > 0 {
      assert req.price * req.size > 0;
    }
  }

  lemma BlankDeltas(s: State, a: AccountId, req: OrderRequest, f: Funds)
    requires Inv(s) && Blank(s) && Admitted(s, a, req, f)
    ensures var p := PlacementOf(s, a, req);
            SetsSome(LevelDeltas(req.pair, p.book, p.dirty)) <==> ZeroBid(req) && req.size > 0
  {
    var p, taker := PlacementOf(s, a, req), NewOrder(s.nextOrderId, a, req);
    BlankPlace(s, a, req, f);
    var deltas := LevelDeltas(req.pair, p.book, p.dirty);
    if Rests(taker, req.size) {
      var own := BookAt(s.books, req.pair).Resting(req.side);
      assert own == [];
      assert p.book.Resting(req.side) == [taker] && [taker][1..] == [];
      var k := LevelKey(req.pair, req.side, req.price);
      InLevelKeys(req.pair, p.dirty, k);
      assert OrderTotal(Level(req.price), [taker]) == OrderWeight(Level(req.price), taker) == req.size;
      assert k in deltas && deltas[k] == LevelQty(p.book, req.side, req.price);
    } else {
      assert p.dirty == {};
      assert LevelKeys(req.pair, p.dirty) == {};
    }
  }

  lemma PlaceSetsIff(s: State, lim: Limits, a: AccountId, req: OrderRequest)
    requires Inv(s) && Blank(s)
    ensures var e := PlaceEffect(s, lim, a, req);
            Seal(e).batch.Some? ==> (SetsSome(e.deltas) <==> ZeroBid(req) && req.size > 0)
  {
    PlaceIsAtomic(s, lim, a, req);
    if PlaceOrder(s, lim, a, req).1.Ok? {
      BlankDeltas(s, a, req, Reserve(s.funds, PayKey(a, req),
                                     ReserveAmount(req, QuoteAmount(BookAt(s.books, req.pair), req).value)).0);
    }
  }

  lemma NothingRests(s: State, p: Pair, o: Order)
    requires Blank(s)
    ensures !Resting(s.books, p, o)
  {
    assert BookAt(s.books, p).Resting(o.side) == [];
  }

  lemma NothingToCancel(s: State, a: AccountId, id: nat)
    requires Inv(s) && Blank(s)
    ensures CancelEffect(s, a, id).deltas == map[]
  {
    CancelIffOwned(s, a, id);
    forall p, o ensures !Resting(s.books, p, o) {
      NothingRests(s, p, o);
    }
  }

  lemma RunSetsIff(s: State, lim: Limits, a: AccountId, command: Command)
    requires Inv(s) && Blank(s)
    ensures var e := Run(s, lim, a, command);
            Seal(e).batch.Some? ==> (SetsSome(e.deltas) <==> RestsAtZero(command))
  {
    match command
    case Place(req) => PlaceSetsIff(s, lim, a, req);
    case Cancel(id) => NothingToCancel(s, a, id);
    case _ =>
  }

  /** The first batch sets a level iff it is that of an order that rests at bid price zero. */
  lemma FirstBatchSetsIff(lim: Limits, log: Log, env: Envelope)
    requires Batches(lim, log) == [] && Apply(StateAfter(lim, log), lim, env).batch.Some?
    ensures SetsSome(Apply(StateAfter(lim, log), lim, env).batch.value.deltas) <==> RestsAtZero(env.command)
  {
    RunInv(lim, log);
    NothingPublished(lim, log);
    BlankApply(StateAfter(lim, log), lim, env);
  }

  lemma BlankApply(s: State, lim: Limits, env: Envelope)
    requires Inv(s) && Blank(s) && Apply(s, lim, env).batch.Some?
    ensures SetsSome(Apply(s, lim, env).batch.value.deltas) <==> RestsAtZero(env.command)
  {
    var attempt := Try(s.window, env.account, env.key);
    TryKeepsWindow(s.window, env.account, env.key);
    CountersKeepInv(s, attempt.0, s.nextSeq);
    RunSetsIff(s.(window := attempt.0), lim, env.account, env.command);
  }

  // ----- the client of a fresh projection -----

  /** Whether command number `i` publishes. */
  ghost predicate PublishesAt(lim: Limits, log: Log, i: nat)
    requires i < |log|
  {
    Apply(StateAfter(lim, log[..i]), lim, log[i]).batch.Some?
  }

  /** Command number `i` is the first of the log to publish. */
  ghost predicate FirstToPublish(lim: Limits, log: Log, i: nat) {
    i < |log| && Batches(lim, log[..i]) == [] && PublishesAt(lim, log, i)
  }

  lemma LastPublishes(lim: Limits, log: Log)
    requires log != [] && Batches(lim, log) != [] && Batches(lim, log[..|log| - 1]) == []
    ensures FirstToPublish(lim, log, |log| - 1)
  {
  }

  lemma NonEmptyLog(lim: Limits, log: Log)
    requires Batches(lim, log) != []
    ensures log != []
  {
  }

  lemma SamePublisher(lim: Limits, log: Log, n: nat, i: nat)
    requires i < n <= |log| && FirstToPublish(lim, log[..n], i)
    ensures FirstToPublish(lim, log, i)
  {
    assert log[..n][..i] == log[..i] && log[..n][i] == log[i];
  }

  lemma {:induction false} SomeoneIsFirst(lim: Limits, log: Log) returns (i: nat)
    requires Batches(lim, log) != []
    ensures FirstToPublish(lim, log, i)
  {
    NonEmptyLog(lim, log);
    var init := log[..|log| - 1];
    if Batches(lim, init) == [] {
      i := |log| - 1;
      LastPublishes(lim, log);
    } else {
      i := SomeoneIsFirst(lim, init);
      SamePublisher(lim, log, |log| - 1, i);
    }
  }

  lemma FirstOf(lim: Limits, before: Log, env: Envelope, step: Step)
    requires Batches(lim, before) == [] && step == Apply(StateAfter(lim, before), lim, env) && step.batch.Some?
    ensures Batches(lim, before + [env]) == [step.batch.value]
  {
    RunPush(lim, before, env);
  }

  lemma StartsWith(lim: Limits, log: Log, n: nat, b: Batch)
    requires n <= |log| && Batches(lim, log[..n]) == [b]
    ensures Batches(lim, log) != [] && Batches(lim, log)[0] == b
  {
    BatchesGrow(lim, log, n);
  }

  lemma FirstBatchIs(lim: Limits, log: Log, i: nat)
    requires FirstToPublish(lim, log, i)
    ensures Batches(lim, log) != []
    ensures Batches(lim, log)[0] == Apply(StateAfter(lim, log[..i]), lim, log[i]).batch.value
  {
    FirstAfter(lim, log, i, log[..i], log[i], Apply(StateAfter(lim, log[..i]), lim, log[i]));
  }

  lemma FirstAfter(lim: Limits, log: Log, i: nat, before: Log, env: Envelope, step: Step)
    requires i < |log| && before == log[..i] && env == log[i] && Batches(lim, before) == []
    requires step == Apply(StateAfter(lim, before), lim, env) && step.batch.Some?
    ensures Batches(lim, log) != [] && Batches(lim, log)[0] == step.batch.value
  {
    PrefixPush(log, i);
    FirstOf(lim, before, env, step);
    StartsWith(lim, log, i + 1, step.batch.value);
  }

  lemma PrefixPush(log: Log, i: nat)
    requires i < |log|
    ensures log[..i + 1] == log[..i] + [log[i]]
  {
  }

  lemma PublishedNumbers(es: seq<EventBatch>, lim: Limits, log: Log)
    requires Published(es, lim, log)
    ensures Increasing(EntryNumbers(es)) && (es != [] ==> es[0].seqNo == 0)
  {
    BatchesAreNumbered(lim, log);
    forall i | 0 <= i < |es| ensures EntryNumbers(es)[i] == i {
      assert Publishes(es[i], Batches(lim, log)[i]);
    }
    assert es != [] ==> EntryNumbers(es)[0] == 0;
  }

  lemma BatchSetsLevels(e: EventBatch, b: Batch)
    requires Publishes(e, b) && AllOrdered(b.core)
    ensures (exists k :: SetsLevel(e, k)) <==> SetsSome(b.deltas)
  {
    forall k ensures SetsLevel(e, k) <==> k in b.deltas && b.deltas[k] > 0 {
      BatchWrites(Absent, e, b, LevelCell(k));
    }
  }

  /**
    A client that read a snapshot of nothing is right about every level at every length of the
    stream if and only if the first command to publish was not an order resting at bid price zero.
   */
  lemma FreshSnapshotOverRuns(es: seq<EventBatch>, lim: Limits, log: Log, i: nat)
    requires Published(es, lim, log) && FirstToPublish(lim, log, i)
    ensures (forall k, n :: 1 <= n <= |es| ==> RightAt(es, n, k)) <==> !RestsAtZero(log[i].command)
  {
    FirstBatchIs(lim, log, i);
    FirstBatchSetsIff(lim, log[..i], log[i]);
    ApplyOrdered(StateAfter(lim, log[..i]), lim, log[i]);
    PublishedNumbers(es, lim, log);
    FreshAgainst(es, Batches(lim, log)[0], RestsAtZero(log[i].command));
  }

  lemma FreshAgainst(es: seq<EventBatch>, first: Batch, sets: bool)
    requires es != [] && Increasing(EntryNumbers(es)) && es[0].seqNo == 0
    requires Publishes(es[0], first) && AllOrdered(first.core) && (SetsSome(first.deltas) <==> sets)
    ensures (forall k, n :: 1 <= n <= |es| ==> RightAt(es, n, k)) <==> !sets
  {
    FreshSnapshotIff(es);
    BatchSetsLevels(es[0], first);
  }
}
