/**
  The two readers of `events` and the trimming between them: the database writer commits and cuts,
  the API's book projection snapshots and publishes how far it got, and either may die at any step.
  The projection is followed one cell at a time, so every claim is about an arbitrary cell `c`.
 */
module Readers {
  import opened Domain
  import opened Entries
  import opened Events
  import opened Streams

  type Entry = Option<EventBatch>

  /** The projection's value and how many entries are folded into it. */
  datatype Saved = Saved(upTo: nat, value: Value)

  /** `justSaved` holds between writing a snapshot and publishing its id. */
  datatype Api = Off | Tailing(upTo: nat, value: Value, justSaved: bool)

  /** `Holding`: a reply is staged; `Committed`: its rows are durable; `Cutting`: the cut is chosen. */
  datatype Writer = Waiting | Holding(from: nat, upTo: nat) | Committed(last: nat) | Cutting(cut: nat)

  datatype System = System(
    stream: seq<Entry>, kept: nat,
    delivered: nat, written: set<nat>, committed: nat, writer: Writer,
    disk: Option<Saved>, published: Option<nat>, api: Api)

  const Boot := System([], 0, 0, {}, 0, Waiting, None, None, Off)

  function Parsed(stream: seq<Entry>, from: nat, upTo: nat): set<nat>
    requires upTo <= |stream|
  {
    set i | from <= i < upTo && stream[i].Some?
  }

  /** A cell folded over entries, skipping those that do not parse. */
  function Fold(v: Value, entries: seq<Entry>, c: Cell): Value {
    LastWrite(v, AllEvents(Decoded(entries)), c)
  }

  // ----- the engine -----

  ghost predicate Append(x: System, y: System) {
    exists entry :: y == x.(stream := x.stream + [entry])
  }

  // ----- the database writer -----

  /** The group's cursor moves on: only entries never delivered before are read. */
  ghost predicate ReadReply(x: System, y: System) {
    && x.writer.Waiting?
    && x.delivered <= y.delivered <= x.delivered + 10 && y.delivered <= |x.stream|
    && y == x.(delivered := y.delivered, writer := Holding(x.delivered, y.delivered))
  }

  ghost predicate Commit(x: System, y: System) {
    && x.writer.Holding? && x.writer.from <= x.writer.upTo <= |x.stream|
    && var found := LastDecoded(x.stream[x.writer.from..x.writer.upTo]);
       if found.None? then y == x.(writer := Waiting)
       else
         var last := x.writer.from + found.value;
         y == x.(written := x.written + Parsed(x.stream, x.writer.from, x.writer.upTo), committed := last,
                 writer := Committed(last))
  }

  /** Not yet time to trim, or no book snapshot was ever published. */
  ghost predicate NoTrim(x: System, y: System) {
    x.writer.Committed? && y == x.(writer := Waiting)
  }

  ghost predicate ReadKey(x: System, y: System) {
    && x.writer.Committed? && x.published.Some?
    && y == x.(writer := Cutting(Min(x.writer.last, x.published.value)))
  }

  /** Drop entries older than the cut's own entry; the trim may stop early. */
  ghost predicate Trim(x: System, y: System) {
    && x.writer.Cutting? && x.kept <= y.kept && (y.kept == x.kept || y.kept < x.writer.cut)
    && y == x.(kept := y.kept, writer := Waiting)
  }

  ghost predicate WriterCrash(x: System, y: System) {
    y == x.(writer := Waiting)
  }

  // ----- the API -----

  function SavedUpTo(x: System): nat {
    if x.disk.Some? then x.disk.value.upTo else 0
  }

  function SavedValue(x: System): Value {
    if x.disk.Some? then x.disk.value.value else Absent
  }

  /** Load the snapshot, apply every retained entry after it, and resume after the last one applied. */
  ghost predicate Bootstrap(c: Cell, x: System, y: System) {
    && x.api.Off?
    && var from := Max(SavedUpTo(x), x.kept);
       && from <= |x.stream|
       && var found := LastDecoded(x.stream[from..]);
          y == x.(api := Tailing(if found.Some? then from + found.value else SavedUpTo(x),
                                 Fold(SavedValue(x), x.stream[from..], c), false))
  }

  ghost predicate Tail(c: Cell, x: System, y: System) {
    && x.api.Tailing? && !x.api.justSaved
    && var from := Max(x.api.upTo, x.kept);
       && y.api.Tailing? && from <= y.api.upTo <= |x.stream|
       && y == x.(api := Tailing(y.api.upTo, Fold(x.api.value, x.stream[from..y.api.upTo], c), false))
  }

  /** Written only after at least one batch was applied, so there is an entry to name. */
  ghost predicate SaveBook(x: System, y: System) {
    && x.api.Tailing? && !x.api.justSaved && x.api.upTo > 0
    && y == x.(disk := Some(Saved(x.api.upTo, x.api.value)), api := x.api.(justSaved := true))
  }

  /** The id is published once the file has landed; publishing may fail. */
  ghost predicate Publish(x: System, y: System) {
    && x.api.Tailing? && x.api.justSaved
    && (y.published == x.published || y.published == Some(x.api.upTo))
    && y == x.(published := y.published, api := x.api.(justSaved := false))
  }

  ghost predicate ApiCrash(x: System, y: System) {
    y == x.(api := Off)
  }

  ghost predicate Next(c: Cell, x: System, y: System) {
    || Append(x, y)
    || ReadReply(x, y)
    || Commit(x, y)
    || NoTrim(x, y)
    || ReadKey(x, y)
    || Trim(x, y)
    || WriterCrash(x, y)
    || Bootstrap(c, x, y)
    || Tail(c, x, y)
    || SaveBook(x, y)
    || Publish(x, y)
    || ApiCrash(x, y)
  }

  ghost predicate Behaviour(c: Cell, b: seq<System>) {
    && b != [] && b[0] == Boot
    && (forall i :: 0 <= i < |b| - 1 ==> Next(c, b[i], b[i + 1]))
  }

  // ----- folding in pieces -----

  lemma FoldSplit(v: Value, stream: seq<Entry>, m: nat, n: nat, c: Cell)
    requires m <= n <= |stream|
    ensures Fold(v, stream[..n], c) == Fold(Fold(v, stream[..m], c), stream[m..n], c)
  {
    assert stream[..n] == stream[..m] + stream[m..n];
    DecodedConcat(stream[..m], stream[m..n]);
    AllEventsConcat(Decoded(stream[..m]), Decoded(stream[m..n]));
    LastWriteConcat(v, AllEvents(Decoded(stream[..m])), AllEvents(Decoded(stream[m..n])), c);
  }

  lemma FoldAppend(v: Value, stream: seq<Entry>, entry: Entry, n: nat, c: Cell)
    requires n <= |stream|
    ensures Fold(v, (stream + [entry])[..n], c) == Fold(v, stream[..n], c)
  {
    assert (stream + [entry])[..n] == stream[..n];
  }

  /** Bootstrapping from a good snapshot folds the whole stream, and stops where nothing more parses. */
  lemma BootstrapFolds(stream: seq<Entry>, from: nat, c: Cell)
    requires from <= |stream|
    ensures Fold(Fold(Absent, stream[..from], c), stream[from..], c) == Fold(Absent, stream, c)
    ensures var found := LastDecoded(stream[from..]);
            var at := if found.Some? then from + found.value else from;
            from <= at <= |stream| && Fold(Absent, stream[..at], c) == Fold(Absent, stream, c)
  {
    var n := |stream|;
    assert stream[from..n] == stream[from..] && stream[..n] == stream;
    FoldSplit(Absent, stream, from, n, c);
    NothingDecodedAfter(stream[from..]);
    var found := LastDecoded(stream[from..]);
    var at := if found.Some? then from + found.value else from;
    FoldSplit(Absent, stream, at, n, c);
    assert stream[at..n] == stream[from..][at - from..];
    if found.None? {
      assert stream[from..][0..] == stream[from..];
    }
    assert Decoded(stream[at..n]) == [];
  }

  // ----- what every step keeps -----

  ghost predicate WriterOk(x: System) {
    && x.kept <= x.committed <= x.delivered <= |x.stream|
    && match x.writer
       case Waiting => true
       case Holding(from, upTo) => x.committed <= from <= upTo == x.delivered
       case Committed(last) => last == x.committed
       case Cutting(cut) => cut <= x.committed && cut <= SavedUpTo(x)
  }

  ghost predicate ApiOk(c: Cell, x: System) {
    && x.kept <= SavedUpTo(x) <= |x.stream|
    && SavedValue(x) == Fold(Absent, x.stream[..SavedUpTo(x)], c)
    && (x.published.Some? ==> x.published.value <= SavedUpTo(x))
    && (x.api.Tailing? ==>
          && SavedUpTo(x) <= x.api.upTo <= |x.stream|
          && x.api.value == Fold(Absent, x.stream[..x.api.upTo], c)
          && (x.api.justSaved ==> SavedUpTo(x) == x.api.upTo))
  }

  ghost predicate Safe(c: Cell, x: System) {
    WriterOk(x) && ApiOk(c, x)
  }

  lemma AppendSafe(c: Cell, x: System, y: System)
    requires Safe(c, x) && Append(x, y)
    ensures Safe(c, y)
  {
    var entry :| y == x.(stream := x.stream + [entry]);
    FoldAppend(Absent, x.stream, entry, SavedUpTo(x), c);
    if x.api.Tailing? {
      FoldAppend(Absent, x.stream, entry, x.api.upTo, c);
    }
  }

  lemma WriterSafe(c: Cell, x: System, y: System)
    requires Safe(c, x)
    requires ReadReply(x, y) || Commit(x, y) || NoTrim(x, y) || ReadKey(x, y) || Trim(x, y) || WriterCrash(x, y)
    ensures Safe(c, y)
  {
    if Commit(x, y) {
      NothingDecodedAfter(x.stream[x.writer.from..x.writer.upTo]);
    }
  }

  lemma BootedAt(c: Cell, x: System, y: System)
    requires Safe(c, x) && Bootstrap(c, x, y)
    ensures y == x.(api := y.api) && y.api.Tailing? && !y.api.justSaved
    ensures SavedUpTo(x) <= y.api.upTo <= |x.stream| && y.api.value == Fold(Absent, x.stream[..y.api.upTo], c)
  {
    assert Max(SavedUpTo(x), x.kept) == SavedUpTo(x);
    BootstrapFolds(x.stream, SavedUpTo(x), c);
  }

  lemma BootstrapSafe(c: Cell, x: System, y: System)
    requires Safe(c, x) && Bootstrap(c, x, y)
    ensures Safe(c, y)
  {
    BootedAt(c, x, y);
  }

  lemma TailSafe(c: Cell, x: System, y: System)
    requires Safe(c, x) && Tail(c, x, y)
    ensures Safe(c, y)
  {
    FoldSplit(Absent, x.stream, x.api.upTo, y.api.upTo, c);
  }

  lemma ApiSafe(c: Cell, x: System, y: System)
    requires Safe(c, x)
    requires SaveBook(x, y) || Publish(x, y) || ApiCrash(x, y)
    ensures Safe(c, y)
  {
  }

  lemma {:induction false} AlwaysSafe(c: Cell, b: seq<System>, i: nat)
    requires Behaviour(c, b) && i < |b|
    ensures Safe(c, b[i])
  {
    if i > 0 {
      AlwaysSafe(c, b, i - 1);
      var x, y := b[i - 1], b[i];
      assert Next(c, x, b[i - 1 + 1]);
      if Append(x, y) {
        AppendSafe(c, x, y);
      } else if Bootstrap(c, x, y) {
        BootstrapSafe(c, x, y);
      } else if Tail(c, x, y) {
        TailSafe(c, x, y);
      } else if SaveBook(x, y) || Publish(x, y) || ApiCrash(x, y) {
        ApiSafe(c, x, y);
      } else {
        WriterSafe(c, x, y);
      }
    } else {
      assert Boot.stream[..0] == [];
    }
  }

  /**
    Two-reader trim safety: whatever the interleaving, no entry after the on-disk book snapshot and
    no entry after the writer's last commit has been trimmed.
   */
  lemma TrimKeepsBothReaders(c: Cell, b: seq<System>, i: nat)
    requires Behaviour(c, b) && i < |b|
    ensures b[i].kept <= SavedUpTo(b[i]) && b[i].kept <= b[i].committed
  {
    AlwaysSafe(c, b, i);
  }

  /** A restarted projection shows, in every cell, the fold of every batch ever emitted. */
  lemma RebuiltIsWhole(c: Cell, b: seq<System>, i: nat)
    requires Behaviour(c, b) && i + 1 < |b| && Bootstrap(c, b[i], b[i + 1])
    ensures b[i + 1].api.value == LastWrite(Absent, AllEvents(Decoded(b[i].stream)), c)
  {
    AlwaysSafe(c, b, i);
    BootstrapFolds(b[i].stream, SavedUpTo(b[i]), c);
  }

  // ----- entries the writer never writes -----

  /** Everything delivered before the reply in hand. */
  function Settled(x: System): nat {
    if x.writer.Holding? then x.writer.from else x.delivered
  }

  /** Entry `i` is behind the group's cursor, parses, and has no rows. */
  predicate Missed(x: System, i: nat) {
    i < Settled(x) && i < |x.stream| && x.stream[i].Some? && i !in x.written
  }

  ghost predicate NothingMissed(x: System) {
    forall i :: !Missed(x, i)
  }

  /** The writer dies with an unwritten, well-formed entry in hand. */
  ghost predicate Fatal(x: System, y: System) {
    && x.writer.Holding? && !y.writer.Holding? && y.written == x.written
    && (exists i :: x.writer.from <= i < x.writer.upTo && i < |x.stream| && x.stream[i].Some?)
  }

  ghost predicate WrittenOk(x: System) {
    forall i :: i in x.written ==> i < Settled(x)
  }

  lemma WrittenStep(c: Cell, x: System, y: System)
    requires Safe(c, x) && WrittenOk(x) && Next(c, x, y)
    ensures WrittenOk(y)
  {
  }

  lemma MissedStays(c: Cell, x: System, y: System, i: nat)
    requires Safe(c, x) && Next(c, x, y) && Missed(x, i)
    ensures Missed(y, i)
  {
  }

  lemma FatalMisses(c: Cell, x: System, y: System)
    requires Safe(c, x) && WrittenOk(x) && Next(c, x, y) && Fatal(x, y)
    ensures !NothingMissed(y)
  {
    var i: nat :| x.writer.from <= i < x.writer.upTo && i < |x.stream| && x.stream[i].Some?;
    assert Missed(y, i);
  }

  lemma CommitMisses(c: Cell, x: System, y: System, i: nat)
    requires Safe(c, x) && Commit(x, y) && !Missed(x, i)
    ensures !Missed(y, i)
  {
    var reply := x.stream[x.writer.from..x.writer.upTo];
    NothingDecodedAfter(reply);
    if x.writer.from <= i < x.writer.upTo {
      assert x.stream[i] == reply[i - x.writer.from];
    }
  }

  lemma OnlyFatalMisses(c: Cell, x: System, y: System, i: nat)
    requires Safe(c, x) && Next(c, x, y) && !Missed(x, i) && !Fatal(x, y)
    ensures !Missed(y, i)
  {
    if Commit(x, y) {
      CommitMisses(c, x, y, i);
    }
  }

  lemma MissStep(c: Cell, x: System, y: System)
    requires Safe(c, x) && WrittenOk(x) && Next(c, x, y)
    ensures NothingMissed(y) <==> NothingMissed(x) && !Fatal(x, y)
  {
    if !NothingMissed(x) {
      var i :| Missed(x, i);
      MissedStays(c, x, y, i);
    } else if Fatal(x, y) {
      FatalMisses(c, x, y);
    } else {
      forall i: nat ensures !Missed(y, i) {
        OnlyFatalMisses(c, x, y, i);
      }
    }
  }

  lemma {:induction false} AlwaysWritten(c: Cell, b: seq<System>, i: nat)
    requires Behaviour(c, b) && i < |b|
    ensures Safe(c, b[i]) && WrittenOk(b[i])
  {
    AlwaysSafe(c, b, i);
    if i > 0 {
      AlwaysWritten(c, b, i - 1);
      assert Next(c, b[i - 1], b[i - 1 + 1]);
      WrittenStep(c, b[i - 1], b[i]);
    }
  }

  /** The first `j` steps never killed the writer with something in hand. */
  ghost predicate NeverFatal(b: seq<System>, j: nat)
    requires j < |b|
  {
    forall i :: 0 <= i < j ==> !Fatal(b[i], b[i + 1])
  }

  lemma NeverFatalStep(b: seq<System>, j: nat)
    requires 0 < j < |b|
    ensures NeverFatal(b, j) <==> NeverFatal(b, j - 1) && !Fatal(b[j - 1], b[j])
  {
    assert NeverFatal(b, j) ==> !Fatal(b[j - 1], b[j - 1 + 1]);
  }

  /**
    The writer has rows for every well-formed entry behind its cursor if and only if it never died
    with one in hand: delivered entries are not read again.
   */
  lemma {:induction false} NothingMissedIff(c: Cell, b: seq<System>, j: nat)
    requires Behaviour(c, b) && j < |b|
    ensures NothingMissed(b[j]) <==> NeverFatal(b, j)
  {
    if j > 0 {
      NothingMissedIff(c, b, j - 1);
      AlwaysWritten(c, b, j - 1);
      assert Next(c, b[j - 1], b[j - 1 + 1]);
      MissStep(c, b[j - 1], b[j]);
      NeverFatalStep(b, j);
    }
  }

  // ----- the protocol does trim -----

  lemma TwoParsed(e: EventBatch, stream: seq<Entry>)
    requires stream == [Some(e), Some(e)]
    ensures LastDecoded(stream) == Some(2) && Parsed(stream, 0, 2) == {0, 1}
    ensures stream[0..] == stream && stream[0..2] == stream && stream[2..] == []
  {
  }

  /** The writer's half: read both entries, commit, look up the published id, trim the first. */
  lemma WriterTrims(e: EventBatch, x: System) returns (r: System, w: System, k: System, t: System)
    requires x.stream == [Some(e), Some(e)] && x.delivered == 0 && x.written == {} && x.writer.Waiting?
    requires x.kept == 0 && x.published == Some(2)
    ensures ReadReply(x, r) && Commit(r, w) && ReadKey(w, k) && Trim(k, t)
    ensures t == x.(delivered := 2, written := {0, 1}, committed := 2, kept := 1)
  {
    TwoParsed(e, x.stream);
    r := x.(delivered := 2, writer := Holding(0, 2));
    w := r.(written := {0, 1}, committed := 2, writer := Committed(2));
    assert r.written + Parsed(r.stream, 0, 2) == {0, 1};
    k := w.(writer := Cutting(2));
    t := k.(kept := 1, writer := Waiting);
  }

  /** The projection's half: bootstrap, save, publish. */
  lemma ApiPublishes(c: Cell, e: EventBatch, x: System) returns (u: System, d: System, p: System)
    requires x.stream == [Some(e), Some(e)] && x.api.Off? && x.disk.None? && x.kept == 0
    ensures Bootstrap(c, x, u) && SaveBook(u, d) && Publish(d, p)
    ensures var v := Fold(Absent, x.stream, c);
            p == x.(api := Tailing(2, v, false), disk := Some(Saved(2, v)), published := Some(2))
  {
    TwoParsed(e, x.stream);
    var v := Fold(Absent, x.stream, c);
    u := x.(api := Tailing(2, v, false));
    d := u.(disk := Some(Saved(2, v)), api := Tailing(2, v, true));
    p := d.(published := Some(2), api := Tailing(2, v, false));
  }

  lemma Extend(c: Cell, b: seq<System>, y: System) returns (longer: seq<System>)
    requires Behaviour(c, b) && Next(c, b[|b| - 1], y)
    ensures Behaviour(c, longer) && longer[|longer| - 1] == y
  {
    longer := b + [y];
    forall i | 0 <= i < |longer| - 1 ensures Next(c, longer[i], longer[i + 1]) {
      assert longer[i] == b[i];
      assert i < |b| - 1 ==> Next(c, b[i], b[i + 1]);
    }
  }

  /** One entry, delivered to a writer that then dies: no rows, and the cursor is past it for good. */
  lemma WriterCanMiss(c: Cell, e: EventBatch) returns (b: seq<System>)
    ensures Behaviour(c, b) && Missed(b[|b| - 1], 0) && !NothingMissed(b[|b| - 1])
  {
    var entry: Entry := Some(e);
    var appended := Boot.(stream := Boot.stream + [entry]);
    assert Append(Boot, appended);
    b := Extend(c, [Boot], appended);
    var reading := appended.(delivered := 1, writer := Holding(0, 1));
    assert ReadReply(appended, reading);
    b := Extend(c, b, reading);
    var dead := reading.(writer := Waiting);
    assert WriterCrash(reading, dead);
    b := Extend(c, b, dead);
    assert Missed(dead, 0);
  }

  lemma TwoAppends(c: Cell, e: EventBatch) returns (b: seq<System>)
    ensures Behaviour(c, b) && b[|b| - 1] == Boot.(stream := [Some(e), Some(e)])
  {
    var entry: Entry := Some(e);
    b := [Boot];
    assert Append(Boot, Boot.(stream := Boot.stream + [entry]));
    b := Extend(c, b, Boot.(stream := Boot.stream + [entry]));
    var x := b[|b| - 1];
    assert Append(x, x.(stream := x.stream + [entry]));
    b := Extend(c, b, x.(stream := x.stream + [entry]));
    assert Boot.stream + [entry] + [entry] == [Some(e), Some(e)];
  }

  /** Some behaviour trims an entry, and the projection restarted after that is whole all the same. */
  lemma TrimsHappen(c: Cell, e: EventBatch) returns (b: seq<System>)
    ensures Behaviour(c, b) && b[|b| - 1].kept == 1 && b[|b| - 1].api.Tailing?
    ensures b[|b| - 1].api.value == LastWrite(Absent, AllEvents([e, e]), c)
  {
    b := TwoAppends(c, e);
    var up, saved, published := ApiPublishes(c, e, b[|b| - 1]);
    b := Extend(c, b, up);
    b := Extend(c, b, saved);
    b := Extend(c, b, published);
    var reply, written, key, trimmed := WriterTrims(e, published);
    b := Extend(c, b, reply);
    b := Extend(c, b, written);
    b := Extend(c, b, key);
    b := Extend(c, b, trimmed);
    b := Extend(c, b, trimmed.(api := Off));
    RestartAfterTrim(c, e, trimmed.(api := Off), trimmed);
    b := Extend(c, b, trimmed);
    TwoDecoded(e);
  }

  lemma TwoDecoded(e: EventBatch)
    ensures Decoded([Some(e), Some(e)]) == [e, e]
  {
    var two: seq<Entry> := [Some(e), Some(e)];
    assert two[..1] == [Some(e)] && two[..1][..0] == [];
    assert Decoded(two[..1]) == [] + [e];
  }

  lemma RestartAfterTrim(c: Cell, e: EventBatch, x: System, y: System)
    requires x.stream == [Some(e), Some(e)] && x.kept == 1 && x.api.Off?
    requires x.disk == Some(Saved(2, Fold(Absent, x.stream, c)))
    requires y == x.(api := Tailing(2, Fold(Absent, x.stream, c), false))
    ensures Bootstrap(c, x, y)
  {
    TwoParsed(e, x.stream);
  }
}
