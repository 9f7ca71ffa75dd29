/** The API's in-memory price-level book, kept up to date from the event stream. */
module Projection {
  import opened Domain
  import opened Matching
  import opened BookSpec
  import opened Levels
  import opened Entries
  import opened Events
  import opened EngineSpec
  import opened PlaceProof
  import opened Runs
  import opened Streams

  /** Price-level aggregates of one market. */
  datatype Depth = Depth(bids: map<nat, nat>, asks: map<nat, nat>) {
    function On(side: Side): map<nat, nat> {
      if side.Bid? then bids else asks
    }

    function Set(side: Side, levels: map<nat, nat>): Depth {
      if side.Bid? then this.(bids := levels) else this.(asks := levels)
    }
  }

  type Books = map<Pair, Depth>

  /** Everything the process keeps, and all that a snapshot file holds. */
  datatype BookState = BookState(books: Books, lastSeq: nat)

  function DepthAt(books: Books, pair: Pair): Depth {
    if pair in books then books[pair] else Depth(map[], map[])
  }

  /** What the projection shows at one level. */
  function Seen(books: Books, k: LevelKey): Value {
    var levels := DepthAt(books, k.pair).On(k.side);
    if k.price in levels then Qty(levels[k.price]) else Absent
  }

  class BookStore {
    var state: BookState

    constructor ()
      ensures state == BookState(map[], 0)
    {
      state := BookState(map[], 0);
    }

    method Restore(saved: BookState)
      modifies this
      ensures state == saved
    {
      state := saved;
    }

    /** A quantity of zero removes the level; anything else replaces it. */
    method SetLevel(k: LevelKey, qty: nat)
      modifies this
      ensures state.lastSeq == old(state.lastSeq)
      ensures forall j :: Seen(state.books, j) == if j != k then Seen(old(state.books), j) else if qty == 0 then Absent else Qty(qty)
    {
      var book := DepthAt(state.books, k.pair);
      var levels := book.On(k.side);
      if qty == 0 {
        levels := levels - {k.price};
      } else {
        levels := levels[k.price := qty];
      }
      state := state.(books := state.books[k.pair := book.Set(k.side, levels)]);
    }

    /** One command's whole batch: afterwards every level shows the last write to it. */
    method ApplyBatch(batch: EventBatch)
      modifies this
      ensures state.lastSeq == batch.seqNo
      ensures forall k :: Seen(state.books, k) == LastWrite(Seen(old(state.books), k), batch.events, LevelCell(k))
    {
      ghost var before := state.books;
      for i := 0 to |batch.events|
        invariant forall k :: Seen(state.books, k) == LastWrite(Seen(before, k), batch.events[..i], LevelCell(k))
      {
        var event := batch.events[i];
        assert batch.events[..i + 1][..i] == batch.events[..i];
        if event.BookDelta? {
          SetLevel(event.level, event.qty);
        }
      }
      assert batch.events[..|batch.events|] == batch.events;
      state := state.(lastSeq := batch.seqNo);
    }

    /** Startup: apply every decodable entry after the snapshot, skipping the others. */
    method Replay(entries: seq<Option<EventBatch>>)
      modifies this
      ensures forall k ::
                Seen(state.books, k) ==
                LastWrite(Seen(old(state.books), k), AllEvents(Decoded(entries)), LevelCell(k))
      ensures state.lastSeq == SeqAfter(old(state.lastSeq), Decoded(entries))
    {
      ghost var before := state;
      for i := 0 to |entries|
        invariant forall k ::
                    Seen(state.books, k) ==
                    LastWrite(Seen(before.books, k), AllEvents(Decoded(entries[..i])), LevelCell(k))
        invariant state.lastSeq == SeqAfter(before.lastSeq, Decoded(entries[..i]))
      {
        DecodedPush(entries, i);
        ghost var shown := state.books;
        if entries[i].Some? {
          ApplyBatch(entries[i].value);
          forall k ensures Seen(state.books, k) ==
                           LastWrite(Seen(before.books, k), AllEvents(Decoded(entries[..i + 1])), LevelCell(k))
          {
            assert Seen(state.books, k) == LastWrite(Seen(shown, k), entries[i].value.events, LevelCell(k));
            OneMoreBatch(Seen(before.books, k), Decoded(entries[..i]), entries[i].value, LevelCell(k));
          }
        }
      }
      assert entries[..|entries|] == entries;
    }

    /** Startup: from the snapshot if one loads, from nothing otherwise, plus the entries after it. */
    method Bootstrap(saved: Option<BookState>, entries: seq<Option<EventBatch>>)
      requires saved.None? ==> state == BookState(map[], 0)
      modifies this
      ensures forall k ::
                Seen(state.books, k) ==
                LastWrite(if saved.Some? then Seen(saved.value.books, k) else Absent,
                          AllEvents(Decoded(entries)), LevelCell(k))
    {
      if saved.Some? {
        Restore(saved.value);
      }
      Replay(entries);
    }

    /** The best `depth` levels of each side, best first, as of `sequence`. */
    method Snapshot(pair: Pair, depth: nat) returns (sequence: nat, bids: seq<(nat, nat)>, asks: seq<(nat, nat)>)
      ensures sequence == state.lastSeq
      ensures ShowsTop(bids, state.books, pair, Bid, depth)
      ensures ShowsTop(asks, state.books, pair, Ask, depth)
    {
      var book := DepthAt(state.books, pair);
      sequence := state.lastSeq;
      bids := TakeBest(book.bids, Bid, depth);
      asks := TakeBest(book.asks, Ask, depth);
      TopIsShown(bids, state.books, pair, Bid, depth);
      TopIsShown(asks, state.books, pair, Ask, depth);
    }
  }

  /** The sequence number reported after these batches. */
  function SeqAfter(before: nat, es: seq<EventBatch>): nat {
    if es == [] then before else es[|es| - 1].seqNo
  }

  lemma OneMoreBatch(v: Value, es: seq<EventBatch>, e: EventBatch, c: Cell)
    ensures LastWrite(v, AllEvents(es + [e]), c) == LastWrite(LastWrite(v, AllEvents(es), c), e.events, c)
  {
    assert (es + [e])[..|es|] == es;
    LastWriteConcat(v, AllEvents(es), e.events, c);
  }

  // ----- what a snapshot shows -----

  /** `top` lists the `depth` best levels, or all of them, each once, best first. */
  ghost predicate TopOf(top: seq<(nat, nat)>, levels: map<nat, nat>, side: Side, depth: nat) {
    && |top| == Min(depth, |levels|)
    && (forall i :: 0 <= i < |top| ==> top[i].0 in levels && levels[top[i].0] == top[i].1)
    && (forall i, j :: 0 <= i < j < |top| ==> Better(side, top[i].0, top[j].0))
    && (forall p, i :: p in levels && 0 <= i < |top| && (forall j :: 0 <= j < |top| ==> top[j].0 != p) ==>
          Better(side, top[i].0, p))
  }

  ghost predicate ListedAt(top: seq<(nat, nat)>, p: nat) {
    exists i :: 0 <= i < |top| && top[i].0 == p
  }

  /**
    The answer of a snapshot, in terms of what the projection shows: levels it shows, dearest bid or
    cheapest ask first, at most `depth` of them, and every other level it shows comes after them all.
   */
  ghost predicate ShowsTop(top: seq<(nat, nat)>, books: Books, pair: Pair, side: Side, depth: nat) {
    && |top| <= depth
    && (forall i :: 0 <= i < |top| ==> Seen(books, LevelKey(pair, side, top[i].0)) == Qty(top[i].1))
    && (forall i, j :: 0 <= i < j < |top| ==> if side.Bid? then top[i].0 > top[j].0 else top[i].0 < top[j].0)
    && (forall p :: !Seen(books, LevelKey(pair, side, p)).Absent? && !ListedAt(top, p) ==>
          |top| == depth && forall i :: 0 <= i < |top| ==> if side.Bid? then top[i].0 > p else top[i].0 < p)
  }

  lemma TopIsShown(top: seq<(nat, nat)>, books: Books, pair: Pair, side: Side, depth: nat)
    requires TopOf(top, DepthAt(books, pair).On(side), side, depth)
    ensures ShowsTop(top, books, pair, side, depth)
  {
    var levels := DepthAt(books, pair).On(side);
    forall p | !Seen(books, LevelKey(pair, side, p)).Absent? && !ListedAt(top, p)
      ensures |top| == depth && forall i :: 0 <= i < |top| ==> if side.Bid? then top[i].0 > p else top[i].0 < p
    {
      assert p in levels;
      NotAllListed(top, levels, p);
    }
  }

  lemma ListedInPart(top: seq<(nat, nat)>, p: nat)
    requires top != []
    ensures ListedAt(top[..|top| - 1], p) ==> ListedAt(top, p)
  {
    var init := top[..|top| - 1];
    if ListedAt(init, p) {
      var i :| 0 <= i < |init| && init[i].0 == p;
      assert top[i].0 == p;
    }
  }

  /** A list of distinct keys that leaves one out is shorter than the map. */
  lemma NotAllListed(top: seq<(nat, nat)>, levels: map<nat, nat>, p: nat)
    requires p in levels && !ListedAt(top, p)
    requires forall i :: 0 <= i < |top| ==> top[i].0 in levels
    requires forall i, j :: 0 <= i < j < |top| ==> top[i].0 != top[j].0
    ensures |top| < |levels|
    decreases |top|
  {
    RemoveOne(levels, p);
    if top != [] {
      var last := top[|top| - 1].0;
      var init := top[..|top| - 1];
      RemoveOne(levels, last);
      ListedInPart(top, p);
      assert top[|top| - 1].0 != p;
      NotAllListed(init, levels - {last}, p);
    }
  }

  lemma RemoveOne(levels: map<nat, nat>, p: nat)
    requires p in levels
    ensures |levels - {p}| == |levels| - 1
  {
    assert (levels - {p}).Keys == levels.Keys - {p};
    assert |levels| == |levels.Keys| && |levels - {p}| == |(levels - {p}).Keys|;
  }

  /** `top` lists the best levels, in order, and `todo` is all the others. */
  ghost predicate Taken(top: seq<(nat, nat)>, todo: map<nat, nat>, levels: map<nat, nat>, side: Side) {
    && |top| + |todo| == |levels|
    && (forall p :: p in todo ==> p in levels && levels[p] == todo[p])
    && (forall i :: 0 <= i < |top| ==> top[i].0 in levels && levels[top[i].0] == top[i].1)
    && (forall p :: p in levels ==> p in todo || ListedAt(top, p))
    && (forall i, p :: 0 <= i < |top| && p in todo ==> Better(side, top[i].0, p))
    && (forall i, j :: 0 <= i < j < |top| ==> Better(side, top[i].0, top[j].0))
  }

  lemma TakeOneMore(top: seq<(nat, nat)>, todo: map<nat, nat>, levels: map<nat, nat>, side: Side, p: nat)
    requires Taken(top, todo, levels, side) && IsBest(todo.Keys, side, p)
    ensures Taken(top + [(p, todo[p])], todo - {p}, levels, side) && |todo - {p}| < |todo|
  {
    RemoveOne(todo, p);
    var more := top + [(p, todo[p])];
    forall q | q in levels ensures q in todo - {p} || ListedAt(more, q) {
      if q == p {
        assert more[|top|].0 == p;
      } else if ListedAt(top, q) {
        var i :| 0 <= i < |top| && top[i].0 == q;
        assert more[i].0 == q;
      }
    }
  }

  lemma TakenIsTop(top: seq<(nat, nat)>, todo: map<nat, nat>, levels: map<nat, nat>, side: Side, depth: nat)
    requires Taken(top, todo, levels, side) && |top| <= depth && (|top| == depth || todo == map[])
    ensures TopOf(top, levels, side, depth)
  {
  }

  method TakeBest(levels: map<nat, nat>, side: Side, depth: nat) returns (top: seq<(nat, nat)>)
    ensures TopOf(top, levels, side, depth)
  {
    top := [];
    var todo := levels;
    while |top| < depth && todo != map[]
      invariant |top| <= depth && Taken(top, todo, levels, side)
      decreases |todo|
    {
      var p: nat := Best(todo.Keys, side);
      TakeOneMore(top, todo, levels, side, p);
      top := top + [(p, todo[p])];
      todo := todo - {p};
    }
    TakenIsTop(top, todo, levels, side, depth);
  }

  // ----- agreement with the engine -----

  /**
    After every batch of a run, each level shows exactly the total resting there; a key is present
    iff some order rests at that price, so no change was left out of the dirty levels.
   */
  lemma ProjectionAgrees(es: seq<EventBatch>, lim: Limits, log: Log, k: LevelKey)
    requires Published(es, lim, log)
    ensures var shown := LastWrite(Absent, AllEvents(es), LevelCell(k));
            var resting := BookAt(StateAfter(lim, log).books, k.pair).Resting(k.side);
            && shown == (if OrderTotal(Level(k.price), resting) == 0 then Absent else Qty(OrderTotal(Level(k.price), resting)))
            && (shown.Qty? <==> exists o :: o in resting && o.price == k.price)
  {
    ReaderAgrees(es, lim, log, LevelCell(k));
    RunInv(lim, log);
    var s := StateAfter(lim, log);
    BookAtInv(s, k.pair);
    BookInvFrom(BookAt(s.books, k.pair), k.side);
    LevelNonEmpty(BookAt(s.books, k.pair).Resting(k.side), k.price);
  }

  // ----- a client that joins late -----

  /** Batches a client keeps: those numbered after its snapshot. */
  function Newer(es: seq<EventBatch>, sequence: nat): seq<EventBatch> {
    if es == [] then []
    else
      var init, last := Newer(es[..|es| - 1], sequence), es[|es| - 1];
      if last.seqNo > sequence then init + [last] else init
  }

  lemma {:induction false} AllNewer(es: seq<EventBatch>, k: nat, sequence: nat)
    requires k <= |es|
    requires forall i :: 0 <= i < k ==> es[i].seqNo <= sequence
    requires forall i :: k <= i < |es| ==> es[i].seqNo > sequence
    ensures Newer(es, sequence) == es[k..]
    decreases |es|
  {
    if es != [] {
      var init, last := es[..|es| - 1], es[|es| - 1];
      if k < |es| {
        AllNewer(init, k, sequence);
        assert es[k..] == init[k..] + [last];
      } else {
        AllNewer(init, k - 1, sequence);
        assert es[k..] == init[k - 1..];
      }
    }
  }

  /**
    The client's view of a level: it buffered the stream from batch `j`, read a snapshot that had
    seen the first `k` batches, and then applied what it had buffered beyond that snapshot.
   */
  function ClientView(es: seq<EventBatch>, j: nat, k: nat, c: Cell): Value
    requires j <= k <= |es|
  {
    LastWrite(LastWrite(Absent, AllEvents(es[..k]), c), AllEvents(Newer(es[j..], SeqAfter(0, es[..k]))), c)
  }

  lemma NewerThanSnapshot(es: seq<EventBatch>, j: nat, k: nat)
    requires Increasing(EntryNumbers(es)) && j <= k <= |es| && k > 0
    ensures Newer(es[j..], es[k - 1].seqNo) == es[k..]
  {
    var tail := es[j..];
    forall i | 0 <= i < |tail| ensures tail[i].seqNo > es[k - 1].seqNo <==> i >= k - j {
      assert tail[i] == es[i + j];
      assert EntryNumbers(es)[i + j] == tail[i].seqNo && EntryNumbers(es)[k - 1] == es[k - 1].seqNo;
    }
    AllNewer(tail, k - j, es[k - 1].seqNo);
  }

  /** A snapshot that has seen at least one batch brings every client to the projection's own view. */
  lemma ClientCatchesUp(es: seq<EventBatch>, j: nat, k: nat, c: Cell)
    requires Increasing(EntryNumbers(es)) && j <= k <= |es| && k > 0
    ensures ClientView(es, j, k, c) == LastWrite(Absent, AllEvents(es), c)
  {
    NewerThanSnapshot(es, j, k);
    TwoParts(es, k, c);
  }

  lemma TwoParts(es: seq<EventBatch>, k: nat, c: Cell)
    requires k <= |es|
    ensures LastWrite(Absent, AllEvents(es), c) == LastWrite(LastWrite(Absent, AllEvents(es[..k]), c), AllEvents(es[k..]), c)
  {
    assert es == es[..k] + es[k..];
    AllEventsConcat(es[..k], es[k..]);
    LastWriteConcat(Absent, AllEvents(es[..k]), AllEvents(es[k..]), c);
  }

  /** The client that read a snapshot of nothing is right about `k` after `n` batches. */
  ghost predicate RightAt(es: seq<EventBatch>, n: nat, k: LevelKey)
    requires n <= |es|
  {
    ClientView(es[..n], 0, 0, LevelCell(k)) == LastWrite(Absent, AllEvents(es[..n]), LevelCell(k))
  }

  ghost predicate SetsLevel(e: EventBatch, k: LevelKey) {
    !LastWrite(Absent, e.events, LevelCell(k)).Absent?
  }

  /**
    A projection that has seen nothing reports sequence 0, the number of the first batch, so a
    client drops that batch: its view is right at every length exactly when batch 0 sets no level.
   */
  lemma FreshSnapshotIff(es: seq<EventBatch>)
    requires Increasing(EntryNumbers(es)) && es != [] && es[0].seqNo == 0
    ensures (forall k, n :: 1 <= n <= |es| ==> RightAt(es, n, k)) <==> (forall k :: !SetsLevel(es[0], k))
  {
    forall k ensures RightAt(es, 1, k) <==> !SetsLevel(es[0], k) {
      FreshView(es, 1, LevelCell(k));
      assert AllEvents(es[1..1]) == [];
    }
    forall k, n | 1 <= n <= |es| && !SetsLevel(es[0], k) ensures RightAt(es, n, k) {
      FreshView(es, n, LevelCell(k));
    }
    if forall k, n :: 1 <= n <= |es| ==> RightAt(es, n, k) {
      forall k ensures !SetsLevel(es[0], k) {
        assert RightAt(es, 1, k);
      }
    }
  }

  lemma FreshView(es: seq<EventBatch>, n: nat, c: Cell)
    requires Increasing(EntryNumbers(es)) && 1 <= n <= |es| && es[0].seqNo == 0
    ensures ClientView(es[..n], 0, 0, c) == LastWrite(Absent, AllEvents(es[1..n]), c)
    ensures LastWrite(Absent, AllEvents(es[..n]), c) ==
            LastWrite(LastWrite(Absent, es[0].events, c), AllEvents(es[1..n]), c)
  {
    var some := es[..n];
    forall i | 0 < i < n ensures some[i].seqNo > 0 {
      assert EntryNumbers(es)[0] < EntryNumbers(es)[i];
    }
    AllNewer(some[0..], 1, 0);
    assert some[0..] == some && some[1..] == es[1..n] && some == [es[0]] + es[1..n];
    assert AllEvents(some[..0]) == [];
    AllEventsConcat([es[0]], es[1..n]);
    assert [es[0]][..0] == [] && AllEvents([es[0]]) == [] + es[0].events == es[0].events;
    LastWriteConcat(Absent, es[0].events, AllEvents(es[1..n]), c);
  }
}
