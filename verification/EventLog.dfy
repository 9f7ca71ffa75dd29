/**
  What crashes do to the event stream: sequence numbers never repeat or go back and every batch is
  the one a crash-free run would publish; a batch is lost exactly when the process goes down, or is
  down, while a logged command's batch is not yet in the stream.
 */
module EventLog {
  import opened Domain
  import opened Entries
  import opened Events
  import opened Recovery

  /** Entries whose batches are in the stream or never will be. */
  function Done(x: System): nat {
    match x.process
    case Down => |x.log|
    case Starting(_, upTo, _) => upTo
    case Running(_, next, phase) => if phase.Idle? || phase.Applied? then next else next + 1
  }

  /** The batches of a run without crashes over the entries that are done. */
  function Due(m: Machine, x: System): seq<Batch>
    requires Done(x) <= |x.log|
  {
    Outputs(m, Commands(x.log, Done(x)))
  }

  function AllDue(m: Machine, x: System): seq<Batch> {
    Outputs(m, Commands(x.log, |x.log|))
  }

  /** Every batch in the stream is the crash-free batch of its number. */
  ghost predicate FromDue(events: seq<Batch>, due: seq<Batch>) {
    forall i :: 0 <= i < |events| ==> events[i].seqNo < |due| && events[i] == due[events[i].seqNo]
  }

  /** A batch applied but not yet emitted is the next one due. */
  ghost predicate PendingOk(m: Machine, x: System)
    requires Done(x) <= |x.log|
  {
    x.process.Running? && x.process.phase.Applied? ==>
      && x.process.next < |x.log|
      && Outputs(m, Commands(x.log, x.process.next + 1)) == Due(m, x) + Listed(x.process.phase.batch)
  }

  ghost predicate StreamOk(m: Machine, x: System) {
    && Done(x) <= |x.log|
    && Increasing(BatchNumbers(x.events))
    && FromDue(x.events, Due(m, x))
    && PendingOk(m, x)
  }

  lemma DueGrows(m: Machine, log: seq<Entry>, i: nat, j: nat)
    requires i <= j <= |log|
    ensures Outputs(m, Commands(log, i)) <= Outputs(m, Commands(log, j))
  {
    CommandsSplit(log, i, j);
    OutputsGrow(m, Commands(log, i), Decoded(log[i..j]));
  }

  lemma FromDueGrows(events: seq<Batch>, due: seq<Batch>, more: seq<Batch>)
    requires FromDue(events, due) && due <= more
    ensures FromDue(events, more)
  {
  }

  lemma AppendDue(m: Machine, x: System, y: System)
    requires Append(x, y) && Done(x) <= |x.log|
    ensures Done(x) <= Done(y) <= |y.log| && Outputs(m, Commands(y.log, Done(x))) == Due(m, x)
    ensures !x.process.Down? ==> Done(y) == Done(x)
    ensures y.events == x.events && y.process == x.process
  {
    var entry :| y == x.(log := x.log + [entry]);
    CommandsAppend(x.log, entry, Done(x));
  }

  /** Any other step leaves the log alone and moves on, or aligns where nothing is left to do. */
  lemma DoneMovesOn(m: Machine, x: System, y: System)
    requires Safe(m, x) && Safe(m, y) && Next(m, x, y) && Done(x) <= |x.log| && !Append(x, y)
    ensures y.log == x.log && Done(y) <= |y.log|
    ensures Done(x) <= Done(y) || (Align(x, y) && Commands(y.log, Done(y)) == Commands(x.log, Done(x)))
  {
  }

  /** No step takes back what is due. */
  lemma DueMonotone(m: Machine, x: System, y: System)
    requires Safe(m, x) && Safe(m, y) && Next(m, x, y) && Done(x) <= |x.log|
    ensures Done(y) <= |y.log| && Due(m, x) <= Due(m, y)
  {
    if Append(x, y) {
      AppendDue(m, x, y);
      DueGrows(m, y.log, Done(x), Done(y));
    } else {
      DoneMovesOn(m, x, y);
      if Done(x) <= Done(y) {
        DueGrows(m, x.log, Done(x), Done(y));
      }
    }
  }

  lemma NumberedAt(m: Machine, log: Log, i: nat)
    requires Numbered(m) && i < |Outputs(m, log)|
    ensures Outputs(m, log)[i].seqNo == i
  {
  }

  lemma NumbersPush(events: seq<Batch>, batch: Batch)
    ensures BatchNumbers(events + [batch]) == BatchNumbers(events) + [batch.seqNo]
  {
  }

  lemma PushEvent(events: seq<Batch>, due: seq<Batch>, batch: Batch)
    requires Increasing(BatchNumbers(events)) && FromDue(events, due) && batch.seqNo == |due|
    ensures Increasing(BatchNumbers(events + [batch])) && FromDue(events + [batch], due + [batch])
  {
    NumbersPush(events, batch);
  }

  lemma EmitStream(m: Machine, x: System, y: System)
    requires Numbered(m) && StreamOk(m, x) && Emit(x, y)
    ensures StreamOk(m, y) && Due(m, y) == Due(m, x) + Listed(x.process.phase.batch)
  {
    var due, batch := Due(m, x), x.process.phase.batch;
    if batch.Some? {
      NumberedAt(m, Commands(x.log, x.process.next + 1), |due|);
      PushEvent(x.events, due, batch.value);
    } else {
      assert due + [] == due && x.events + [] == x.events;
    }
  }

  lemma ApplyStream(m: Machine, x: System, y: System)
    requires Safe(m, x) && StreamOk(m, x) && ApplyEntry(m, x, y)
    ensures StreamOk(m, y)
  {
    var next := x.process.next;
    CommandsNext(x.log, next);
    Push(m, Commands(x.log, next), x.log[next].value);
  }

  lemma StepStream(m: Machine, x: System, y: System)
    requires Numbered(m) && Safe(m, x) && Safe(m, y) && StreamOk(m, x) && Next(m, x, y)
    ensures StreamOk(m, y)
  {
    if Emit(x, y) {
      EmitStream(m, x, y);
    } else if ApplyEntry(m, x, y) {
      ApplyStream(m, x, y);
    } else {
      DueMonotone(m, x, y);
      FromDueGrows(x.events, Due(m, x), Due(m, y));
      if Append(x, y) && x.process.Running? && x.process.phase.Applied? {
        var entry :| y == x.(log := x.log + [entry]);
        CommandsAppend(x.log, entry, x.process.next);
        CommandsAppend(x.log, entry, x.process.next + 1);
      }
    }
  }

  lemma {:induction false} AlwaysStreamOk(m: Machine, b: seq<System>, i: nat)
    requires Numbered(m) && Behaviour(m, b) && i < |b|
    ensures Safe(m, b[i]) && StreamOk(m, b[i])
  {
    AlwaysSafe(m, b, i);
    if i > 0 {
      AlwaysStreamOk(m, b, i - 1);
      assert Next(m, b[i - 1], b[i - 1 + 1]);
      StepStream(m, b[i - 1], b[i]);
    }
  }

  /**
    Event-log safety across crashes: numbers strictly increase, and each batch is the one that the
    crash-free fold of the log assigns to its number.
   */
  lemma EventsAreSafe(m: Machine, b: seq<System>, i: nat)
    requires Numbered(m) && Behaviour(m, b) && i < |b|
    ensures Increasing(BatchNumbers(b[i].events))
    ensures FromDue(b[i].events, AllDue(m, b[i]))
  {
    AlwaysStreamOk(m, b, i);
    DueGrows(m, b[i].log, Done(b[i]), |b[i].log|);
    FromDueGrows(b[i].events, Due(m, b[i]), AllDue(m, b[i]));
  }

  // ----- lost batches -----

  predicate InStream(events: seq<Batch>, n: nat) {
    n in BatchNumbers(events)
  }

  /** Batch `n` is due and will never be in the stream. */
  ghost predicate Lost(m: Machine, x: System, n: nat)
    requires Done(x) <= |x.log|
  {
    n < |Due(m, x)| && !InStream(x.events, n)
  }

  ghost predicate Complete(m: Machine, x: System) {
    Done(x) <= |x.log| && forall n :: 0 <= n < |Due(m, x)| ==> InStream(x.events, n)
  }

  lemma EmitLoses(m: Machine, x: System, y: System, n: nat)
    requires Numbered(m) && StreamOk(m, x) && Emit(x, y) && Lost(m, x, n)
    ensures !InStream(y.events, n)
  {
    var batch := x.process.phase.batch;
    if batch.Some? {
      NumberedAt(m, Commands(x.log, x.process.next + 1), |Due(m, x)|);
      NumbersPush(x.events, batch.value);
    } else {
      assert x.events + [] == x.events;
    }
  }

  /** A lost batch stays lost, whatever happens next. */
  lemma LostForever(m: Machine, x: System, y: System, n: nat)
    requires Numbered(m) && Safe(m, x) && Safe(m, y) && StreamOk(m, x) && Next(m, x, y) && Lost(m, x, n)
    ensures Done(y) <= |y.log| && Lost(m, y, n)
  {
    DueMonotone(m, x, y);
    if Emit(x, y) {
      EmitLoses(m, x, y, n);
    } else {
      assert y.events == x.events;
    }
  }

  /** While the process is up, only an emit makes a batch due. */
  lemma OnlyEmitIsDue(m: Machine, x: System, y: System)
    requires Safe(m, x) && Next(m, x, y) && Done(x) <= |x.log| && !Emit(x, y) && !y.process.Down?
    ensures Done(y) <= |y.log| && Due(m, y) == Due(m, x) && y.events == x.events
  {
    if Append(x, y) {
      AppendDue(m, x, y);
    } else if Skip(x, y) {
      SkipDue(m, x, y);
    }
  }

  lemma SkipDue(m: Machine, x: System, y: System)
    requires Skip(x, y)
    ensures Done(y) <= |y.log| && Due(m, y) == Due(m, x) && y.events == x.events
  {
    CommandsNext(x.log, x.process.next);
  }

  /** While the process is up no batch gets lost. */
  lemma UpLosesNothing(m: Machine, x: System, y: System)
    requires Numbered(m) && Safe(m, x) && StreamOk(m, x) && Next(m, x, y)
    requires Complete(m, x) && !y.process.Down?
    ensures Complete(m, y)
  {
    if Emit(x, y) {
      EmitStream(m, x, y);
      var due, batch := Due(m, x), x.process.phase.batch;
      if batch.Some? {
        NumberedAt(m, Commands(x.log, x.process.next + 1), |due|);
      }
      EmitCompletes(x.events, due, batch);
    } else {
      OnlyEmitIsDue(m, x, y);
    }
  }

  lemma EmitCompletes(events: seq<Batch>, due: seq<Batch>, batch: Option<Batch>)
    requires forall n :: 0 <= n < |due| ==> InStream(events, n)
    requires batch.Some? ==> batch.value.seqNo == |due|
    ensures forall n :: 0 <= n < |due + Listed(batch)| ==> InStream(events + Listed(batch), n)
  {
    if batch.Some? {
      NumbersPush(events, batch.value);
      forall n | 0 <= n < |due| + 1 ensures InStream(events + [batch.value], n) {
        assert n < |due| ==> InStream(events, n);
      }
    } else {
      assert events + [] == events;
    }
  }

  // ----- the step that loses a batch -----

  /** Entry `n` is a command that publishes a batch where it stands in the log. */
  ghost predicate Publishing(m: Machine, log: seq<Entry>, n: nat) {
    n < |log| && log[n].Some? && m.out(After(m, Commands(log, n)), log[n].value).Some?
  }

  ghost predicate SomePublishing(m: Machine, log: seq<Entry>, i: nat, j: nat) {
    exists n :: i <= n < j && Publishing(m, log, n)
  }

  /**
    The step leaves the process down while the log holds a publishing command whose batch is not in
    the stream: it died before emitting it, or the command was logged while it was down.
   */
  ghost predicate Silenced(m: Machine, x: System, y: System) {
    y.process.Down? && SomePublishing(m, y.log, Done(x), |y.log|)
  }

  ghost predicate NeverSilenced(m: Machine, b: seq<System>, j: nat)
    requires j < |b|
  {
    forall i :: 0 <= i < j ==> !Silenced(m, b[i], b[i + 1])
  }

  lemma NeverSilencedStep(m: Machine, b: seq<System>, j: nat)
    requires 0 < j < |b|
    ensures NeverSilenced(m, b, j) <==> NeverSilenced(m, b, j - 1) && !Silenced(m, b[j - 1], b[j])
  {
    assert NeverSilenced(m, b, j) ==> !Silenced(m, b[j - 1], b[j - 1 + 1]);
  }

  /** One more entry adds a batch exactly when it is a publishing command. */
  lemma OneMoreDue(m: Machine, log: seq<Entry>, n: nat)
    requires n < |log|
    ensures |Outputs(m, Commands(log, n + 1))| ==
            |Outputs(m, Commands(log, n))| + (if Publishing(m, log, n) then 1 else 0)
  {
    CommandsNext(log, n);
    if log[n].Some? {
      Push(m, Commands(log, n), log[n].value);
    }
  }

  lemma SomePublishingNext(m: Machine, log: seq<Entry>, i: nat, j: nat)
    requires i <= j
    ensures SomePublishing(m, log, i, j + 1) <==> SomePublishing(m, log, i, j) || Publishing(m, log, j)
  {
  }

  lemma {:induction false} LongerIff(m: Machine, log: seq<Entry>, i: nat, j: nat)
    requires i <= j <= |log|
    ensures |Outputs(m, Commands(log, i))| <= |Outputs(m, Commands(log, j))|
    ensures |Outputs(m, Commands(log, i))| < |Outputs(m, Commands(log, j))| <==> SomePublishing(m, log, i, j)
  {
    if i < j {
      LongerIff(m, log, i, j - 1);
      OneMoreDue(m, log, j - 1);
      SomePublishingNext(m, log, i, j - 1);
    }
  }

  /** Going or staying down makes every logged command's batch due, and emits nothing. */
  lemma DownMakesAllDue(m: Machine, x: System, y: System)
    requires Safe(m, x) && Safe(m, y) && Next(m, x, y) && Done(x) <= |x.log| && y.process.Down?
    ensures y.events == x.events && Due(m, x) <= Due(m, y) && (|Due(m, x)| < |Due(m, y)| <==> Silenced(m, x, y))
  {
    DueMonotone(m, x, y);
    if Append(x, y) {
      AppendDue(m, x, y);
    }
    LongerIff(m, y.log, Done(x), |y.log|);
  }

  lemma DownLoses(m: Machine, x: System, y: System)
    requires Safe(m, x) && Safe(m, y) && StreamOk(m, x) && Next(m, x, y) && Complete(m, x) && y.process.Down?
    ensures Complete(m, y) <==> !Silenced(m, x, y)
  {
    DownMakesAllDue(m, x, y);
    if Silenced(m, x, y) {
      assert !InStream(y.events, |Due(m, x)|);
    } else {
      assert Due(m, y) == Due(m, x);
    }
  }

  lemma StepCompletes(m: Machine, x: System, y: System)
    requires Numbered(m) && Safe(m, x) && Safe(m, y) && StreamOk(m, x) && Next(m, x, y)
    ensures Complete(m, y) <==> Complete(m, x) && !Silenced(m, x, y)
  {
    if !Complete(m, x) {
      var n :| 0 <= n < |Due(m, x)| && !InStream(x.events, n);
      LostForever(m, x, y, n);
    } else if y.process.Down? {
      DownLoses(m, x, y);
    } else {
      UpLosesNothing(m, x, y);
    }
  }

  lemma BehaviourStep(m: Machine, b: seq<System>, j: nat)
    requires Numbered(m) && Behaviour(m, b) && 0 < j < |b|
    ensures Complete(m, b[j]) <==> Complete(m, b[j - 1]) && !Silenced(m, b[j - 1], b[j])
  {
    AlwaysStreamOk(m, b, j);
    AlwaysStreamOk(m, b, j - 1);
    assert Next(m, b[j - 1], b[j - 1 + 1]);
    StepCompletes(m, b[j - 1], b[j]);
  }

  lemma BootComplete(m: Machine)
    ensures Complete(m, Boot)
  {
    assert Commands(Boot.log, 0) == [];
  }

  /**
    The stream has every batch due if and only if no step ever silenced one: recovery replays
    without emitting, so what was not in the stream when the process was down never will be.
   */
  lemma {:induction false} NoGapIff(m: Machine, b: seq<System>, j: nat)
    requires Numbered(m) && Behaviour(m, b) && j < |b|
    ensures Complete(m, b[j]) <==> NeverSilenced(m, b, j)
  {
    if j == 0 {
      BootComplete(m);
    } else {
      NoGapIff(m, b, j - 1);
      BehaviourStep(m, b, j);
      NeverSilencedStep(m, b, j);
    }
  }

  /** A complete stream is exactly the crash-free one. */
  lemma CompleteIsWhole(m: Machine, x: System)
    requires StreamOk(m, x) && Complete(m, x)
    ensures x.events == Due(m, x)
  {
    var events, due := x.events, Due(m, x);
    var ns := BatchNumbers(events);
    forall k | 0 <= k < |due| ensures k in ns {
      assert InStream(events, k);
    }
    forall j | 0 <= j < |ns| ensures ns[j] < |due| {
      assert ns[j] == events[j].seqNo;
    }
    forall i | 0 <= i < |events| ensures events[i].seqNo == i {
      NumberedInOrder(ns, |due|, i);
      assert ns[i] == i;
    }
    if due != [] {
      assert InStream(events, |due| - 1);
      assert |due| - 1 < |events|;
    }
    assert events != [] ==> events[|events| - 1].seqNo < |due|;
  }

  // ----- gaps, concretely -----

  lemma Extend(m: Machine, b: seq<System>, y: System) returns (longer: seq<System>)
    requires Behaviour(m, b) && Next(m, b[|b| - 1], y)
    ensures Behaviour(m, longer) && longer[|longer| - 1] == y && b <= longer && |longer| == |b| + 1
  {
    longer := b + [y];
    forall i | 0 <= i < |longer| - 1 ensures Next(m, longer[i], longer[i + 1]) {
      assert longer[i] == b[i];
      assert i < |b| - 1 ==> Next(m, b[i], b[i + 1]);
    }
  }

  lemma AppendOne(x: System, entry: Entry) returns (y: System)
    ensures Append(x, y) && y == x.(log := x.log + [entry])
  {
    y := x.(log := x.log + [entry]);
  }

  lemma ReplayOfOne(m: Machine, c: Envelope)
    ensures Decoded([Some(c)]) == [c] && LastDecoded([Some(c)]) == Some(1)
    ensures Resume(m.init, m, [c]) == m.step(m.init, c)
  {
    var entries: seq<Entry> := [Some(c)];
    assert entries[..0] == [];
    assert Decoded(entries) == [] + [c];
    assert [c][..0] == [];
    assert Resume(m.init, m, [c][..0]) == m.init;
  }

  /** A boot on a log of one command replays it without a word. */
  lemma BootOnOne(m: Machine, c: Envelope, x: System) returns (y: System, z: System)
    requires x.log == [Some(c)] && x.kept == 0 && x.disk.None? && x.process.Down? && x.events == []
    ensures Recover(m, x, y) && Align(y, z)
    ensures z == x.(cursor := 1, process := Running(m.step(m.init, c), 1, Idle))
  {
    var rest := x.log[0..];
    assert rest == [Some(c)];
    ReplayOfOne(m, c);
    y := x.(process := Starting(m.step(m.init, c), 1, Some(1)));
    z := y.(cursor := 1, process := Running(m.step(m.init, c), 1, Idle));
  }

  /** A first boot on an empty log. */
  lemma BootOnNone(m: Machine) returns (y: System, z: System)
    ensures Recover(m, Boot, y) && Align(y, z)
    ensures z == Boot.(process := Running(m.init, 0, Idle))
  {
    assert Boot.log[0..] == [];
    y := Boot.(process := Starting(m.init, 0, None));
    z := y.(process := Running(m.init, 0, Idle));
  }

  /** The next entry is read and applied. */
  lemma TakeOne(m: Machine, x: System, d: Envelope) returns (y: System, z: System)
    requires x.process.Running? && x.process.phase.Idle? && x.process.next == x.cursor
    requires |x.log| == x.cursor + 1 && x.log[x.cursor] == Some(d)
    ensures Read(x, y) && ApplyEntry(m, y, z)
    ensures z == x.(cursor := x.cursor + 1,
                    process := Running(m.step(x.process.engine, d), x.cursor, Applied(m.out(x.process.engine, d))))
  {
    var s := x.process.engine;
    y := x.(cursor := x.cursor + 1);
    z := y.(process := Running(m.step(s, d), x.cursor, Applied(m.out(s, d))));
  }

  lemma SecondNumber(m: Machine, c: Envelope, d: Envelope)
    requires Numbered(m) && m.out(m.init, c).Some? && m.out(m.step(m.init, c), d).Some?
    ensures m.out(m.step(m.init, c), d).value.seqNo == 1
  {
    Push(m, [], c);
    Push(m, [c], d);
    assert [] + [c] == [c] && [c] + [d] == [c, d];
    NumberedAt(m, [c, d], 1);
  }

  ghost predicate StartsAtOne(m: Machine, b: seq<System>) {
    && Behaviour(m, b) && b[|b| - 1].process.Running?
    && b[|b| - 1].events != [] && b[|b| - 1].events[0].seqNo == 1
  }

  /** Down with `c` logged and nothing emitted: after a restart the first batch is that of the next command. */
  lemma RestartSkips(m: Machine, c: Envelope, d: Envelope, before: seq<System>) returns (b: seq<System>)
    requires Numbered(m) && m.out(m.init, c).Some? && m.out(m.step(m.init, c), d).Some?
    requires Behaviour(m, before)
    requires var x := before[|before| - 1];
             x.log == [Some(c)] && x.kept == 0 && x.disk.None? && x.process.Down? && x.events == []
    ensures StartsAtOne(m, b) && before <= b
  {
    SecondNumber(m, c, d);
    var starting, up := BootOnOne(m, c, before[|before| - 1]);
    b := Extend(m, before, starting);
    b := Extend(m, b, up);
    var more := AppendOne(up, Some(d));
    b := Extend(m, b, more);
    var read, applied := TakeOne(m, more, d);
    b := Extend(m, b, read);
    b := Extend(m, b, applied);
    var batch := m.out(m.step(m.init, c), d).value;
    var emitted := applied.(events := applied.events + [batch], process := applied.process.(phase := Emitted));
    assert Emit(applied, emitted);
    b := Extend(m, b, emitted);
  }

  /** A command logged while the process is down is replayed in silence: the stream starts at number 1. */
  lemma LoggedWhileDown(m: Machine, c: Envelope, d: Envelope) returns (b: seq<System>)
    requires Numbered(m) && m.out(m.init, c).Some? && m.out(m.step(m.init, c), d).Some?
    ensures StartsAtOne(m, b)
  {
    var x := AppendOne(Boot, Some(c));
    assert x.log == [Some(c)];
    b := Extend(m, [Boot], x);
    b := RestartSkips(m, c, d, b);
  }

  /** A crash between applying a command and emitting its batch, then a restart: the same gap. */
  lemma CrashBeforeEmit(m: Machine, c: Envelope, d: Envelope) returns (b: seq<System>, i: nat)
    requires Numbered(m) && m.out(m.init, c).Some? && m.out(m.step(m.init, c), d).Some?
    ensures StartsAtOne(m, b)
    ensures i + 1 < |b| && b[i].process == Running(m.step(m.init, c), 0, Applied(m.out(m.init, c))) && Crash(b[i], b[i + 1])
  {
    var starting, up := BootOnNone(m);
    b := Extend(m, [Boot], starting);
    b := Extend(m, b, up);
    var x := AppendOne(up, Some(c));
    assert x.log == [Some(c)];
    b := Extend(m, b, x);
    var read, applied := TakeOne(m, x, c);
    b := Extend(m, b, read);
    b := Extend(m, b, applied);
    i := |b| - 1;
    var upTo := b;
    b := Extend(m, b, applied.(process := Down));
    assert b[i] == upTo[i];
    var crashed := b;
    b := RestartSkips(m, c, d, b);
    assert b[i] == crashed[i] && b[i + 1] == crashed[i + 1];
  }
}
