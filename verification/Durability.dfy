/** The engine in its process: what a crash can and cannot do to books, balances and events. */
module Durability {
  import opened Domain
  import opened LedgerSpec
  import opened DedupSpec
  import opened Entries
  import opened Events
  import opened EngineSpec
  import opened Reserves
  import opened Overflow
  import opened Engines
  import opened EngineInv
  import opened Runs
  import opened Streams
  import opened Tables
  import opened Agreement
  import opened Recovery
  import opened EventLog

  ghost function EngineMachine(lim: Limits): Machine {
    Machine(Init,
            (s: State, env: Envelope) => Apply(s, lim, env).state,
            (s: State, env: Envelope) => Apply(s, lim, env).batch)
  }

  /** The machine's fold is the engine's run. */
  lemma {:induction false} MachineRuns(lim: Limits, log: Runs.Log)
    ensures After(EngineMachine(lim), log) == StateAfter(lim, log)
    ensures Outputs(EngineMachine(lim), log) == Batches(lim, log)
  {
    if log != [] {
      MachineRuns(lim, log[..|log| - 1]);
    }
  }

  lemma MachineNumbered(lim: Limits)
    ensures Numbered(EngineMachine(lim))
  {
    forall log, i | 0 <= i < |Outputs(EngineMachine(lim), log)|
      ensures Outputs(EngineMachine(lim), log)[i].seqNo == i
    {
      MachineRuns(lim, log);
      BatchesAreNumbered(lim, log);
    }
  }

  /** What a snapshot file holds: the dirty set is not serialized. */
  function Persisted(s: EngineSpec.State): EngineSpec.State {
    s.(funds := s.funds.(dirty := {}))
  }

  /** Between commands nothing is dirty, so writing and reading back a snapshot loses nothing. */
  lemma SnapshotLosesNothing(lim: Limits, log: Runs.Log)
    ensures Persisted(StateAfter(lim, log)) == StateAfter(lim, log)
  {
    RunInv(lim, log);
  }

  /** After any crash, recovery rebuilds the fold of every decodable command ever logged. */
  lemma EngineRecovers(lim: Limits, b: seq<System>, i: nat)
    requires Behaviour(EngineMachine(lim), b) && i + 1 < |b| && Recover(EngineMachine(lim), b[i], b[i + 1])
    ensures b[i + 1].process.engine == StateAfter(lim, Decoded(b[i].log))
  {
    RecoveryIsExact(EngineMachine(lim), b, i);
    MachineRuns(lim, Decoded(b[i].log));
  }

  /** Numbers on the stream strictly increase and every batch is the crash-free one, in every behaviour. */
  lemma EngineEventsAreSafe(lim: Limits, b: seq<System>, i: nat)
    requires Behaviour(EngineMachine(lim), b) && i < |b|
    ensures Increasing(BatchNumbers(b[i].events))
    ensures FromDue(b[i].events, Batches(lim, Decoded(b[i].log)))
  {
    MachineNumbered(lim);
    EventsAreSafe(EngineMachine(lim), b, i);
    MachineRuns(lim, Decoded(b[i].log));
    var log := b[i].log;
    assert log[..|log|] == log;
  }

  /**
    If no batch was ever silenced the stream is the crash-free one, and every reader of it shows
    the levels and balances of the running engine, whatever crashes there were.
   */
  lemma ReadersAgreeAfterCrashes(lim: Limits, b: seq<System>, j: nat, es: seq<EventBatch>, c: Cell)
    requires Behaviour(EngineMachine(lim), b) && j < |b| && NeverSilenced(EngineMachine(lim), b, j)
    requires b[j].process.Running? && b[j].process.phase.Idle?
    requires |es| == |b[j].events| && forall i :: 0 <= i < |es| ==> Publishes(es[i], b[j].events[i])
    ensures Agrees(LastWrite(Absent, AllEvents(es), c), b[j].process.engine, c)
  {
    var m, x := EngineMachine(lim), b[j];
    MachineNumbered(lim);
    NoGapIff(m, b, j);
    AlwaysStreamOk(m, b, j);
    CompleteIsWhole(m, x);
    MachineRuns(lim, Commands(x.log, x.process.next));
    ReaderAgrees(es, lim, Commands(x.log, x.process.next), c);
  }

  /** The stream has every batch due iff no step left the engine down with one unpublished. */
  lemma EngineNoGapIff(lim: Limits, b: seq<System>, j: nat)
    requires Behaviour(EngineMachine(lim), b) && j < |b|
    ensures Complete(EngineMachine(lim), b[j]) <==> NeverSilenced(EngineMachine(lim), b, j)
  {
    MachineNumbered(lim);
    NoGapIff(EngineMachine(lim), b, j);
  }

  /** Redelivery is harmless on every stream an engine can leave behind, whatever batches it lost. */
  lemma OverlapAfterCrashes(
    lim: Limits, b: seq<System>, j: nat, es: seq<EventBatch>, i: nat, k: nat, clock: EventId -> nat, clock': EventId -> nat,
    again: Rows, once: Rows)
    requires Behaviour(EngineMachine(lim), b) && j < |b| && i <= k <= |es| == |b[j].events|
    requires forall n :: 0 <= n < |es| ==> Publishes(es[n], b[j].events[n])
    requires Delivered(NoRows, again, Stamped(es[..k], clock) + Stamped(es[i..], clock'))
    requires Delivered(NoRows, once, Stamped(es[..k], clock) + Stamped(es[k..], clock'))
    ensures SameRows(again, once)
  {
    var log := Decoded(b[j].log);
    EngineEventsAreSafe(lim, b, j);
    forall id ensures AcceptsFirst(AllEvents(es), id) {
      RunInOrder(lim, log, id);
      SomeInOrder(Batches(lim, log), b[j].events, id);
      StreamAcceptsFirst(es, b[j].events, id);
    }
    OverlapLeavesTables(es, i, k, clock, clock', again, once);
  }

  const FirstDeposit := EngineSpec.Envelope(0, 0, Command.Deposit(USD, 0))
  const SecondDeposit := EngineSpec.Envelope(0, 1, Command.Deposit(USD, 0))

  lemma DepositIsPublished(s: EngineSpec.State, lim: Limits, env: EngineSpec.Envelope)
    requires Inv(s) && env.command == Command.Deposit(USD, 0) && env.key !in Recent(s.window, env.account)
    requires Get(s.funds.bal, (env.account, USD)).available == 0 && Get(s.funds.bal, (env.account, USD)).reserved == 0
    ensures var step := Apply(s, lim, env);
            step.batch.Some? && Get(step.state.funds.bal, (env.account, USD)).available == 0
            && Get(step.state.funds.bal, (env.account, USD)).reserved == 0
  {
    assert (env.account, USD) in LedgerSpec.Deposit(s.funds, (env.account, USD), 0).dirty;
  }

  /**
    Two deposits and a crash between applying the first and emitting its batch: after the restart
    the stream carries number 1 and never number 0.
   */
  lemma EngineCanSkipANumber(lim: Limits) returns (b: seq<System>, i: nat)
    ensures StartsAtOne(EngineMachine(lim), b)
    ensures i + 1 < |b| && Crash(b[i], b[i + 1]) && b[i].process.Running? && b[i].process.phase.Applied?
    ensures b[i].process.phase.batch.Some? && b[i].process.phase.batch.value.seqNo == 0
  {
    MachineNumbered(lim);
    InitInv();
    DepositIsPublished(Init, lim, FirstDeposit);
    var s := Apply(Init, lim, FirstDeposit).state;
    ApplyKeepsInv(Init, lim, FirstDeposit);
    ApplyWindow(Init, lim, FirstDeposit);
    assert Recent(Init.window, 0) + [0] == [0];
    assert Recent(s.window, 0) == [0];
    DepositIsPublished(s, lim, SecondDeposit);
    ApplySeq(Init, lim, FirstDeposit);
    b, i := CrashBeforeEmit(EngineMachine(lim), FirstDeposit, SecondDeposit);
  }

  // ----- the replay loop on the live engine -----

  lemma FitsByCurrency(bal: Balances, usd: int, sol: int)
    requires Supply(bal, USD) == usd && Supply(bal, SOL) == sol
    ensures SupplyFits(bal) <==> usd <= U64_MAX && sol <= U64_MAX
  {
    assert SupplyFits(bal) ==> Supply(bal, USD) <= U64_MAX && Supply(bal, SOL) <= U64_MAX;
    forall c: Currency ensures Supply(bal, c) == if c.USD? then usd else sol {
    }
  }

  /** The bound every unchecked addition relies on, in terms of what was logged: net deposits fit in u64. */
  lemma SupplyFitsIff(lim: Limits, log: Runs.Log)
    ensures SupplyFits(StateAfter(lim, log).funds.bal) <==>
            NetFlow(lim, log, USD) <= U64_MAX && NetFlow(lim, log, SOL) <= U64_MAX
  {
    RunConserves(lim, log, USD);
    RunConserves(lim, log, SOL);
    FitsByCurrency(StateAfter(lim, log).funds.bal, NetFlow(lim, log, USD), NetFlow(lim, log, SOL));
  }

  /** `m` steps as the engine does. */
  ghost predicate Drives(m: Machine, lim: Limits) {
    forall s, env {:trigger Apply(s, lim, env)} :: m.step(s, env) == Apply(s, lim, env).state
  }

  lemma EngineDrives(lim: Limits)
    ensures Drives(EngineMachine(lim), lim)
  {
  }

  /** Net deposits fit in u64 after every prefix of these entries. */
  ghost predicate SupplyAlwaysFits(s: EngineSpec.State, m: Machine, entries: seq<Entry>) {
    forall n :: 0 <= n <= |entries| ==> SupplyFits(Resume(s, m, Decoded(entries[..n])).funds.bal)
  }

  lemma ResumeStep(s: EngineSpec.State, m: Machine, log: Runs.Log, env: EngineSpec.Envelope)
    ensures Resume(s, m, log + [env]) == m.step(Resume(s, m, log), env)
  {
    assert (log + [env])[..|log|] == log;
  }

  /** One command applied during replay; its reply and its batch go nowhere. */
  method ReplayOne(
    engine: Engine, env: EngineSpec.Envelope, ghost m: Machine, ghost start: EngineSpec.State, ghost done: Runs.Log)
    requires engine.Valid() && Inv(engine.State()) && SupplyFits(engine.State().funds.bal)
    requires Drives(m, engine.limits) && engine.State() == Resume(start, m, done)
    modifies engine, engine.ledger, engine.dedup, engine.books.Values
    ensures engine.Valid() && Inv(engine.State()) && fresh(engine.books.Values - old(engine.books.Values))
    ensures engine.State() == Resume(start, m, done + [env])
  {
    ResumeStep(start, m, done, env);
    var _, _ := engine.Apply(env);
  }

  /** Apply the decodable entries in order. */
  method Replay(engine: Engine, entries: seq<Entry>, ghost m: Machine)
    requires engine.Valid() && Inv(engine.State()) && Drives(m, engine.limits)
    requires SupplyAlwaysFits(engine.State(), m, entries)
    modifies engine, engine.ledger, engine.dedup, engine.books.Values
    ensures engine.Valid() && Inv(engine.State())
    ensures engine.State() == Resume(old(engine.State()), m, Decoded(entries))
  {
    ghost var start := engine.State();
    for i := 0 to |entries|
      invariant engine.Valid() && Inv(engine.State())
      invariant fresh(engine.books.Values - old(engine.books.Values))
      invariant engine.State() == Resume(start, m, Decoded(entries[..i]))
    {
      SupplyAt(start, m, entries, i);
      DecodedPush(entries, i);
      if entries[i].Some? {
        ReplayOne(engine, entries[i].value, m, start, Decoded(entries[..i]));
      }
    }
    assert entries[..|entries|] == entries;
  }

  lemma SupplyAt(s: EngineSpec.State, m: Machine, entries: seq<Entry>, i: nat)
    requires i <= |entries| && SupplyAlwaysFits(s, m, entries)
    ensures SupplyFits(Resume(s, m, Decoded(entries[..i])).funds.bal)
  {
  }

  lemma ResumedAt(lim: Limits, log: seq<Entry>, upTo: nat, n: nat)
    requires upTo <= n <= |log|
    ensures Resume(StateAfter(lim, Decoded(log[..upTo])), EngineMachine(lim), Decoded(log[upTo..n])) ==
            StateAfter(lim, Decoded(log[..n]))
  {
    var m := EngineMachine(lim);
    CommandsSplit(log, upTo, n);
    ResumeContinues(m, Commands(log, upTo), Decoded(log[upTo..n]));
    MachineRuns(lim, Commands(log, upTo));
    MachineRuns(lim, Commands(log, n));
  }

  lemma SupplyFromHere(m: Machine, log: seq<Entry>, upTo: nat)
    requires upTo <= |log| && forall n :: upTo <= n <= |log| ==> SupplyFits(After(m, Commands(log, n)).funds.bal)
    ensures SupplyAlwaysFits(After(m, Commands(log, upTo)), m, log[upTo..])
  {
    var rest := log[upTo..];
    forall n | 0 <= n <= |rest|
      ensures SupplyFits(Resume(After(m, Commands(log, upTo)), m, Decoded(rest[..n])).funds.bal)
    {
      assert rest[..n] == log[upTo..upTo + n];
      CommandsSplit(log, upTo, upTo + n);
      ResumeContinues(m, Commands(log, upTo), Decoded(rest[..n]));
      assert SupplyFits(After(m, Commands(log, upTo + n)).funds.bal);
    }
  }

  lemma MachineSupplyAt(lim: Limits, log: seq<Entry>, n: nat)
    requires n <= |log| && SupplyFits(StateAfter(lim, Decoded(log[..n])).funds.bal)
    ensures SupplyFits(After(EngineMachine(lim), Commands(log, n)).funds.bal)
  {
    MachineRuns(lim, Commands(log, n));
  }

  lemma EngineSupply(lim: Limits, log: seq<Entry>, upTo: nat)
    requires upTo <= |log| && forall n :: upTo <= n <= |log| ==> SupplyFits(StateAfter(lim, Decoded(log[..n])).funds.bal)
    ensures SupplyAlwaysFits(StateAfter(lim, Decoded(log[..upTo])), EngineMachine(lim), log[upTo..])
  {
    forall n | upTo <= n <= |log| ensures SupplyFits(After(EngineMachine(lim), Commands(log, n)).funds.bal) {
      MachineSupplyAt(lim, log, n);
    }
    MachineRuns(lim, Commands(log, upTo));
    SupplyFromHere(EngineMachine(lim), log, upTo);
  }

  /**
    Recovery on the live engine. It holds what a snapshot of the first `upTo` entries held, or is
    new and `upTo` is zero; afterwards it is the fold of every decodable command in the log.
   */
  method RecoverEngine(engine: Engine, upTo: nat, log: seq<Entry>)
    requires engine.Valid() && upTo <= |log| && engine.State() == StateAfter(engine.limits, Decoded(log[..upTo]))
    requires forall n :: upTo <= n <= |log| ==> SupplyFits(StateAfter(engine.limits, Decoded(log[..n])).funds.bal)
    modifies engine, engine.ledger, engine.dedup, engine.books.Values
    ensures engine.Valid() && engine.State() == StateAfter(engine.limits, Decoded(log))
  {
    ghost var lim := engine.limits;
    RunInv(lim, Decoded(log[..upTo]));
    EngineSupply(lim, log, upTo);
    EngineDrives(lim);
    ResumedAt(lim, log, upTo, |log|);
    assert log[upTo..|log|] == log[upTo..] && log[..|log|] == log;
    Replay(engine, log[upTo..], EngineMachine(lim));
  }
}
