/**
  The engine process around its command log: read, apply, emit, acknowledge, snapshot, trim, crash
  and recover, in every interleaving with clients appending to the log. Everything here holds for
  any deterministic step function; `Durability.dfy` puts the engine in its place.
 */
module Recovery {
  import opened Domain
  import opened Entries
  import opened Events
  import EngineSpec

  type State = EngineSpec.State
  type Envelope = EngineSpec.Envelope
  type Log = seq<Envelope>

  /** A deterministic machine: its initial state, and what a command does and publishes. */
  datatype Machine = Machine(init: State, step: (State, Envelope) -> State, out: (State, Envelope) -> Option<Batch>)

  function After(m: Machine, log: Log): State {
    if log == [] then m.init else m.step(After(m, log[..|log| - 1]), log[|log| - 1])
  }

  /** The same fold, continued from any state. */
  function Resume(s: State, m: Machine, log: Log): State {
    if log == [] then s else m.step(Resume(s, m, log[..|log| - 1]), log[|log| - 1])
  }

  function Listed(batch: Option<Batch>): seq<Batch> {
    if batch.Some? then [batch.value] else []
  }

  /** The batches of a run without crashes. */
  function Outputs(m: Machine, log: Log): seq<Batch> {
    if log == [] then []
    else
      var init := log[..|log| - 1];
      Outputs(m, init) + Listed(m.out(After(m, init), log[|log| - 1]))
  }

  /** Batch number i carries sequence number i. */
  ghost predicate Numbered(m: Machine) {
    forall log, i :: 0 <= i < |Outputs(m, log)| ==> Outputs(m, log)[i].seqNo == i
  }

  lemma Push(m: Machine, log: Log, env: Envelope)
    ensures After(m, log + [env]) == m.step(After(m, log), env)
    ensures Outputs(m, log + [env]) == Outputs(m, log) + Listed(m.out(After(m, log), env))
  {
    assert (log + [env])[..|log|] == log;
  }

  lemma {:induction false} ResumeContinues(m: Machine, x: Log, y: Log)
    ensures After(m, x + y) == Resume(After(m, x), m, y)
  {
    if y == [] {
      assert x + y == x;
    } else {
      assert (x + y)[..|x + y| - 1] == x + y[..|y| - 1];
      ResumeContinues(m, x, y[..|y| - 1]);
    }
  }

  lemma {:induction false} OutputsGrow(m: Machine, x: Log, y: Log)
    ensures Outputs(m, x) <= Outputs(m, x + y)
  {
    if y == [] {
      assert x + y == x;
    } else {
      assert (x + y)[..|x + y| - 1] == x + y[..|y| - 1];
      OutputsGrow(m, x, y[..|y| - 1]);
    }
  }

  // ----- the system -----

  /** A log entry; `None` stands for one that does not parse. */
  type Entry = Option<Envelope>

  /** State on disk and how many log entries are folded into it. */
  datatype Snapshot = Snapshot(upTo: nat, state: State)

  /** Where the process is with entry number `next`. */
  datatype Phase = Idle | Applied(batch: Option<Batch>) | Emitted | Acked | Saved

  /**
    `Starting` is the moment between replaying the log and moving the group cursor; `position` is
    one past the last entry that was replayed, if any.
   */
  datatype Process =
    | Down
    | Starting(engine: State, upTo: nat, position: Option<nat>)
    | Running(engine: State, next: nat, phase: Phase)

  /** Entries before `kept` may have been trimmed; entries before `cursor` were delivered. */
  datatype System = System(
    log: seq<Entry>, kept: nat, cursor: nat, disk: Option<Snapshot>, process: Process, events: seq<Batch>)

  const Boot := System([], 0, 0, None, Down, [])

  function SavedUpTo(disk: Option<Snapshot>): nat {
    if disk.Some? then disk.value.upTo else 0
  }

  function SavedState(m: Machine, disk: Option<Snapshot>): State {
    if disk.Some? then disk.value.state else m.init
  }

  // ----- the steps -----

  ghost predicate Append(x: System, y: System) {
    exists entry :: y == x.(log := x.log + [entry])
  }

  /** Deliver up to ten new entries to the group. */
  ghost predicate Read(x: System, y: System) {
    && x.process.Running? && x.process.phase.Idle? && x.process.next == x.cursor
    && x.cursor <= y.cursor <= x.cursor + 10 && y.cursor <= |x.log|
    && y == x.(cursor := y.cursor)
  }

  predicate HasWork(x: System) {
    x.process.Running? && x.process.phase.Idle? && x.process.next < x.cursor && x.process.next < |x.log|
  }

  /** An entry that does not parse is acknowledged and passed over. */
  ghost predicate Skip(x: System, y: System) {
    && HasWork(x) && x.log[x.process.next].None?
    && y == x.(process := x.process.(next := x.process.next + 1))
  }

  ghost predicate ApplyEntry(m: Machine, x: System, y: System) {
    && HasWork(x) && x.log[x.process.next].Some?
    && var s, env := x.process.engine, x.log[x.process.next].value;
       y == x.(process := x.process.(engine := m.step(s, env), phase := Applied(m.out(s, env))))
  }

  ghost predicate Emit(x: System, y: System) {
    && x.process.Running? && x.process.phase.Applied?
    && y == x.(events := x.events + Listed(x.process.phase.batch), process := x.process.(phase := Emitted))
  }

  ghost predicate Ack(x: System, y: System) {
    && x.process.Running? && x.process.phase.Emitted?
    && y == x.(process := x.process.(phase := Acked))
  }

  ghost predicate Save(x: System, y: System) {
    && x.process.Running? && x.process.phase.Acked?
    && y == x.(disk := Some(Snapshot(x.process.next + 1, x.process.engine)),
               process := x.process.(phase := Saved))
  }

  /** Drop entries older than the snapshot's anchor; the trim may stop early. */
  ghost predicate Trim(x: System, y: System) {
    && x.process.Running? && x.process.phase.Saved?
    && x.kept <= y.kept <= Max(x.kept, x.process.next)
    && y == x.(kept := y.kept)
  }

  ghost predicate Finish(x: System, y: System) {
    && x.process.Running? && (x.process.phase.Acked? || x.process.phase.Saved?)
    && y == x.(process := x.process.(next := x.process.next + 1, phase := Idle))
  }

  ghost predicate Crash(x: System, y: System) {
    y == x.(process := Down)
  }

  /** Load the snapshot, then apply every entry after it that is still in the stream. */
  ghost predicate Recover(m: Machine, x: System, y: System) {
    && x.process.Down?
    && var from := Max(SavedUpTo(x.disk), x.kept);
       && from <= |x.log|
       && var found := LastDecoded(x.log[from..]);
          y == x.(process := Starting(Resume(SavedState(m, x.disk), m, Decoded(x.log[from..])), |x.log|,
                                      if found.Some? then Some(from + found.value) else None))
  }

  /** Where the group cursor stands once recovery has aligned it. */
  function AlignedCursor(x: System): nat
    requires x.process.Starting?
  {
    if x.process.position.Some? then x.process.position.value else x.cursor
  }

  ghost predicate Align(x: System, y: System) {
    && x.process.Starting?
    && y == x.(cursor := AlignedCursor(x), process := Running(x.process.engine, AlignedCursor(x), Idle))
  }

  ghost predicate Next(m: Machine, x: System, y: System) {
    || Append(x, y)
    || Read(x, y)
    || Skip(x, y)
    || ApplyEntry(m, x, y)
    || Emit(x, y)
    || Ack(x, y)
    || Save(x, y)
    || Trim(x, y)
    || Finish(x, y)
    || Crash(x, y)
    || Recover(m, x, y)
    || Align(x, y)
  }

  /** Any number of steps from a first boot. */
  ghost predicate Behaviour(m: Machine, b: seq<System>) {
    && b != [] && b[0] == Boot
    && (forall i :: 0 <= i < |b| - 1 ==> Next(m, b[i], b[i + 1]))
  }

  // ----- the log as the engine sees it -----

  /** The commands among the first `n` entries ever logged. */
  function Commands(log: seq<Entry>, n: nat): Log
    requires n <= |log|
  {
    Decoded(log[..n])
  }

  lemma CommandsSplit(log: seq<Entry>, m: nat, n: nat)
    requires m <= n <= |log|
    ensures Commands(log, n) == Commands(log, m) + Decoded(log[m..n])
  {
    assert log[..n] == log[..m] + log[m..n];
    DecodedConcat(log[..m], log[m..n]);
  }

  lemma CommandsNext(log: seq<Entry>, n: nat)
    requires n < |log|
    ensures Commands(log, n + 1) == if log[n].Some? then Commands(log, n) + [log[n].value] else Commands(log, n)
  {
    DecodedPush(log, n);
  }

  lemma CommandsAppend(log: seq<Entry>, entry: Entry, n: nat)
    requires n <= |log|
    ensures Commands(log + [entry], n) == Commands(log, n)
  {
    assert (log + [entry])[..n] == log[..n];
  }

  // ----- state safety -----

  /** Entries the engine's state accounts for. */
  function Folded(p: Process): nat
    requires p.Running?
  {
    if p.phase.Idle? then p.next else p.next + 1
  }

  /** The process's state is the fold of the log up to where it is, each command once and in order. */
  ghost predicate EngineOk(m: Machine, x: System) {
    match x.process
    case Down => true
    case Starting(engine, upTo, position) =>
      var at := AlignedCursor(x);
      && SavedUpTo(x.disk) <= at <= upTo <= |x.log|
      && Commands(x.log, at) == Commands(x.log, upTo)
      && engine == After(m, Commands(x.log, upTo))
    case Running(engine, next, phase) =>
      && SavedUpTo(x.disk) <= Folded(x.process) <= x.cursor <= |x.log|
      && engine == After(m, Commands(x.log, Folded(x.process)))
  }

  ghost predicate DiskOk(m: Machine, x: System) {
    && x.kept <= SavedUpTo(x.disk) <= x.cursor <= |x.log|
    && SavedState(m, x.disk) == After(m, Commands(x.log, SavedUpTo(x.disk)))
    && (x.process.Running? && x.process.phase.Saved? ==> SavedUpTo(x.disk) == x.process.next + 1)
  }

  ghost predicate Safe(m: Machine, x: System) {
    DiskOk(m, x) && EngineOk(m, x)
  }

  lemma AppendSafe(m: Machine, x: System, y: System)
    requires Safe(m, x) && Append(x, y)
    ensures Safe(m, y)
  {
    var entry :| y == x.(log := x.log + [entry]);
    CommandsAppend(x.log, entry, SavedUpTo(x.disk));
    match x.process
    case Down =>
    case Starting(_, upTo, _) =>
      CommandsAppend(x.log, entry, AlignedCursor(x));
      CommandsAppend(x.log, entry, upTo);
    case Running(_, _, _) => CommandsAppend(x.log, entry, Folded(x.process));
  }

  lemma ApplySafe(m: Machine, x: System, y: System)
    requires Safe(m, x) && (Skip(x, y) || ApplyEntry(m, x, y))
    ensures Safe(m, y)
  {
    var next := x.process.next;
    CommandsNext(x.log, next);
    if x.log[next].Some? {
      Push(m, Commands(x.log, next), x.log[next].value);
    }
  }

  /** Replaying what follows a snapshot of the first `from` entries gives the fold of all of them. */
  lemma ReplayCompletes(m: Machine, log: seq<Entry>, from: nat)
    requires from <= |log|
    ensures Resume(After(m, Commands(log, from)), m, Decoded(log[from..])) ==
            After(m, Commands(log, |log|))
  {
    assert log[from..|log|] == log[from..];
    CommandsSplit(log, from, |log|);
    ResumeContinues(m, Commands(log, from), Decoded(log[from..]));
  }

  /** No command lies between the aligned cursor and the end of the replay. */
  lemma AlignedAtEnd(log: seq<Entry>, from: nat, cursor: nat)
    requires from <= cursor <= |log|
    ensures var found := LastDecoded(log[from..]);
            var at := if found.Some? then from + found.value else cursor;
            from <= at <= |log| && Commands(log, at) == Commands(log, |log|)
  {
    var rest, n := log[from..], |log|;
    NothingDecodedAfter(rest);
    var found := LastDecoded(rest);
    if found.Some? {
      assert log[from + found.value..n] == rest[found.value..];
      CommandsSplit(log, from + found.value, n);
    } else {
      var x, y := log[from..cursor], log[cursor..n];
      assert rest == x + y;
      DecodedConcat(x, y);
      CommandsSplit(log, cursor, n);
    }
  }

  lemma RecoverSafe(m: Machine, x: System, y: System)
    requires Safe(m, x) && Recover(m, x, y)
    ensures Safe(m, y)
  {
    ReplayCompletes(m, x.log, SavedUpTo(x.disk));
    AlignedAtEnd(x.log, SavedUpTo(x.disk), x.cursor);
  }

  lemma StepSafe(m: Machine, x: System, y: System)
    requires Safe(m, x) && Next(m, x, y)
    ensures Safe(m, y)
  {
    if Append(x, y) {
      AppendSafe(m, x, y);
    } else if Skip(x, y) || ApplyEntry(m, x, y) {
      ApplySafe(m, x, y);
    } else if Recover(m, x, y) {
      RecoverSafe(m, x, y);
    }
  }

  lemma {:induction false} AlwaysSafe(m: Machine, b: seq<System>, i: nat)
    requires Behaviour(m, b) && i < |b|
    ensures Safe(m, b[i])
  {
    if i > 0 {
      AlwaysSafe(m, b, i - 1);
      assert Next(m, b[i - 1], b[i - 1 + 1]);
      StepSafe(m, b[i - 1], b[i]);
    } else {
      assert Boot.log[..0] == [];
    }
  }

  /**
    Crash-safe state: whatever was trimmed and whenever the process died, recovery rebuilds the
    fold of every decodable command ever logged, each applied once and in order.
   */
  lemma RecoveryIsExact(m: Machine, b: seq<System>, i: nat)
    requires Behaviour(m, b) && i + 1 < |b| && Recover(m, b[i], b[i + 1])
    ensures b[i + 1].process.engine == After(m, Decoded(b[i].log))
  {
    AlwaysSafe(m, b, i + 1);
    var log := b[i].log;
    assert log[..|log|] == log;
  }

  /** Recovery is always possible: the entry after the snapshot is never beyond what was kept. */
  lemma NothingNeededIsTrimmed(m: Machine, b: seq<System>, i: nat)
    requires Behaviour(m, b) && i < |b|
    ensures b[i].kept <= SavedUpTo(b[i].disk) <= |b[i].log|
  {
    AlwaysSafe(m, b, i);
  }
}
