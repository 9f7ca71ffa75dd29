/**
  Readers of the event stream. Book levels and balances are published as absolute values, so a
  reader's view of one cell is the last write to it; after any run that view is the engine's own.
 */
module Streams {
  import opened Domain
  import opened Matching
  import opened BookSpec
  import opened LedgerSpec
  import opened DedupSpec
  import opened Listing
  import opened Events
  import opened EngineSpec
  import opened Reserves
  import opened PlaceProof
  import opened EngineInv
  import opened Lifecycle
  import opened Runs

  datatype Cell = LevelCell(level: LevelKey) | BalanceCell(key: Key)

  datatype Value = Absent | Qty(qty: nat) | Owned(balance: Balance)

  function NonZero(qty: nat): Value {
    if qty == 0 then Absent else Qty(qty)
  }

  /** What one event writes to a cell, if anything. An empty level is removed. */
  function Written(e: Event, c: Cell): Option<Value> {
    match c
    case LevelCell(k) => if e.BookDelta? && e.level == k then Some(NonZero(e.qty)) else None
    case BalanceCell(k) => if e.BalanceChanged? && e.key == k then Some(Owned(e.balance)) else None
  }

  function LastWrite(v: Value, events: seq<Event>, c: Cell): Value {
    if events == [] then v
    else
      var w := Written(events[|events| - 1], c);
      if w.Some? then w.value else LastWrite(v, events[..|events| - 1], c)
  }

  lemma {:induction false} LastWriteConcat(v: Value, x: seq<Event>, y: seq<Event>, c: Cell)
    ensures LastWrite(v, x + y, c) == LastWrite(LastWrite(v, x, c), y, c)
  {
    if y == [] {
      assert x + y == x;
    } else {
      assert (x + y)[..|x + y| - 1] == x + y[..|y| - 1];
      LastWriteConcat(v, x, y[..|y| - 1], c);
    }
  }

  lemma {:induction false} NeverWritten(v: Value, events: seq<Event>, c: Cell)
    requires forall i :: 0 <= i < |events| ==> Written(events[i], c).None?
    ensures LastWrite(v, events, c) == v
  {
    if events != [] {
      NeverWritten(v, events[..|events| - 1], c);
    }
  }

  lemma {:induction false} WrittenAt(v: Value, events: seq<Event>, c: Cell, i: nat)
    requires i < |events| && Written(events[i], c).Some?
    requires forall j :: i < j < |events| ==> Written(events[j], c).None?
    ensures LastWrite(v, events, c) == Written(events[i], c).value
  {
    if i < |events| - 1 {
      WrittenAt(v, events[..|events| - 1], c, i);
    }
  }

  /** Writes forget what they overwrite: applying the same events again changes nothing. */
  lemma {:induction false} LastWriteForgets(v: Value, w: Value, events: seq<Event>, c: Cell)
    ensures LastWrite(v, events, c) == LastWrite(w, events, c)
            || (LastWrite(v, events, c) == v && LastWrite(w, events, c) == w)
  {
    if events != [] {
      LastWriteForgets(v, w, events[..|events| - 1], c);
    }
  }

  // ----- one published batch -----

  /** What a batch writes to a cell, whatever order its hash sets were drained in. */
  function BatchWrite(v: Value, b: Batch, c: Cell): Value {
    match c
    case LevelCell(k) => if k in b.deltas then NonZero(b.deltas[k]) else v
    case BalanceCell(k) => if k in b.balances then Owned(b.balances[k]) else v
  }

  predicate Ordered(e: Event) {
    !e.BookDelta? && !e.BalanceChanged?
  }

  ghost predicate AllOrdered(core: seq<Event>) {
    forall i :: 0 <= i < |core| ==> Ordered(core[i])
  }

  lemma ListedDelta(v: Value, s: seq<(LevelKey, nat)>, m: map<LevelKey, nat>, k: LevelKey)
    requires Lists(s, m)
    ensures LastWrite(v, DeltaEvents(s), LevelCell(k)) == if k in m then NonZero(m[k]) else v
  {
    if k in m {
      assert Named(s, k);
      var i :| 0 <= i < |s| && s[i].0 == k;
      WrittenAt(v, DeltaEvents(s), LevelCell(k), i);
    } else {
      NeverWritten(v, DeltaEvents(s), LevelCell(k));
    }
  }

  lemma ListedBalance(v: Value, s: seq<(Key, Balance)>, m: map<Key, Balance>, k: Key)
    requires Lists(s, m)
    ensures LastWrite(v, BalanceEvents(s), BalanceCell(k)) == if k in m then Owned(m[k]) else v
  {
    if k in m {
      assert Named(s, k);
      var i :| 0 <= i < |s| && s[i].0 == k;
      WrittenAt(v, BalanceEvents(s), BalanceCell(k), i);
    } else {
      NeverWritten(v, BalanceEvents(s), BalanceCell(k));
    }
  }

  lemma CoreWritesNothing(v: Value, core: seq<Event>, c: Cell)
    requires AllOrdered(core)
    ensures LastWrite(v, core, c) == v
  {
    forall i | 0 <= i < |core| ensures Written(core[i], c).None? {
      assert Ordered(core[i]);
    }
    NeverWritten(v, core, c);
  }

  lemma ListsWrite(v: Value, b: Batch, deltas: seq<(LevelKey, nat)>, balances: seq<(Key, Balance)>, c: Cell)
    requires Lists(deltas, b.deltas) && Lists(balances, b.balances)
    ensures LastWrite(LastWrite(v, DeltaEvents(deltas), c), BalanceEvents(balances), c) == BatchWrite(v, b, c)
  {
    match c
    case LevelCell(k) =>
      ListedDelta(v, deltas, b.deltas, k);
      NeverWritten(LastWrite(v, DeltaEvents(deltas), c), BalanceEvents(balances), c);
    case BalanceCell(k) =>
      NeverWritten(v, DeltaEvents(deltas), c);
      ListedBalance(v, balances, b.balances, k);
  }

  lemma BatchWrites(v: Value, e: EventBatch, b: Batch, c: Cell)
    requires Publishes(e, b) && AllOrdered(b.core)
    ensures LastWrite(v, e.events, c) == BatchWrite(v, b, c)
  {
    var deltas, balances :| PublishedAs(e, b, deltas, balances);
    LastWriteConcat(v, b.core + DeltaEvents(deltas), BalanceEvents(balances), c);
    LastWriteConcat(v, b.core, DeltaEvents(deltas), c);
    CoreWritesNothing(v, b.core, c);
    ListsWrite(v, b, deltas, balances, c);
  }

  // ----- what every command reports -----

  lemma PlaceOrdered(id: nat, a: AccountId, req: OrderRequest, p: Placement)
    ensures AllOrdered(PlaceEvents(id, a, req, p))
  {
  }

  lemma RunOrdered(s: State, lim: Limits, a: AccountId, command: Command)
    ensures AllOrdered(Run(s, lim, a, command).core)
  {
    if command.Place? {
      var r := PlaceOrder(s, lim, a, command.order);
      if r.1.Ok? {
        PlaceOrdered(s.nextOrderId, a, command.order, r.1.value);
      }
    }
  }

  /** Total resting size at a price level. */
  function LevelOf(books: map<Pair, BookView>, k: LevelKey): nat {
    LevelQty(BookAt(books, k.pair), k.side, k.price)
  }

  /** The deltas give every level that changed its new size. */
  ghost predicate ReportsLevels(before: map<Pair, BookView>, after: map<Pair, BookView>, deltas: map<LevelKey, nat>) {
    forall k: LevelKey :: LevelOf(after, k) == if k in deltas then deltas[k] else LevelOf(before, k)
  }

  lemma PlaceReportsLevels(s: State, a: AccountId, req: OrderRequest)
    requires Inv(s)
    ensures var p := PlacementOf(s, a, req);
            ReportsLevels(s.books, BooksAfter(s, a, req), LevelDeltas(req.pair, p.book, p.dirty))
  {
    var p, b := PlacementOf(s, a, req), BookAt(s.books, req.pair);
    BookAtInv(s, req.pair);
    var deltas := LevelDeltas(req.pair, p.book, p.dirty);
    forall k: LevelKey
      ensures LevelOf(BooksAfter(s, a, req), k) == if k in deltas then deltas[k] else LevelOf(s.books, k)
    {
      if k.pair == req.pair && k !in deltas {
        InLevelKeys(req.pair, p.dirty, k);
        PlacementReportsEveryLevel(b, req.pair, NewOrder(s.nextOrderId, a, req), k.side, k.price);
      }
    }
  }

  lemma InLevelKeys(pair: Pair, dirty: set<(Side, nat)>, k: LevelKey)
    requires k.pair == pair
    ensures (k.side, k.price) in dirty ==> k in LevelKeys(pair, dirty)
  {
    if (k.side, k.price) in dirty {
      var d := (k.side, k.price);
      assert LevelKey(pair, d.0, d.1) in LevelKeys(pair, dirty);
    }
  }

  lemma CancelReportsLevels(s: State, p: Pair, o: Order)
    requires Inv(s) && Resting(s.books, p, o)
    ensures var books' := s.books[p := Drop(s.books[p], o)];
            ReportsLevels(s.books, books', LevelDeltas(p, books'[p], {(o.side, o.price)}))
  {
    var books' := s.books[p := Drop(s.books[p], o)];
    var deltas := LevelDeltas(p, books'[p], {(o.side, o.price)});
    forall k: LevelKey ensures LevelOf(books', k) == if k in deltas then deltas[k] else LevelOf(s.books, k) {
      if k.pair == p && k !in deltas {
        InLevelKeys(p, {(o.side, o.price)}, k);
        CancelReportsItsLevel(s.books[p], o, k.side, k.price);
      }
    }
  }

  lemma NothingReported(books: map<Pair, BookView>)
    ensures ReportsLevels(books, books, map[])
  {
  }

  lemma RunReportsLevels(s: State, lim: Limits, a: AccountId, command: Command)
    requires Inv(s)
    ensures var e := Run(s, lim, a, command); ReportsLevels(s.books, e.state.books, e.deltas)
  {
    match command
    case Place(req) => PlaceEffectReportsLevels(s, lim, a, req);
    case Cancel(id) => CancelEffectReportsLevels(s, a, id);
    case _ =>
      OthersLeaveBooks(s, lim, a, command);
      NothingReported(s.books);
  }

  lemma PlaceEffectReportsLevels(s: State, lim: Limits, a: AccountId, req: OrderRequest)
    requires Inv(s)
    ensures var e := PlaceEffect(s, lim, a, req); ReportsLevels(s.books, e.state.books, e.deltas)
  {
    PlaceIsAtomic(s, lim, a, req);
    if PlaceOrder(s, lim, a, req).1.Ok? {
      PlaceReportsLevels(s, a, req);
    } else {
      NothingReported(s.books);
    }
  }

  lemma CancelEffectReportsLevels(s: State, a: AccountId, id: nat)
    requires Inv(s)
    ensures var e := CancelEffect(s, a, id); ReportsLevels(s.books, e.state.books, e.deltas)
  {
    NothingReported(s.books);
    var r := CancelOrder(s, a, id);
    if r.1.Some? {
      CancelledRested(s, a, id);
      CancelReportsLevels(s, r.1.value.0, r.1.value.1);
    }
  }

  // ----- every changed balance is dirty -----

  /** A balance outside the dirty set is what it was. */
  ghost predicate DirtyCovers(before: Balances, f: Funds) {
    forall k: Key :: k !in f.dirty ==> Get(f.bal, k) == Get(before, k)
  }

  lemma TouchCovers(before: Balances, f: Funds, k: Key)
    requires DirtyCovers(before, f)
    ensures DirtyCovers(before, Touch(f, k))
  {
    TouchGets(f, k);
  }

  lemma MoveCovers(before: Balances, f: Funds, k: Key, available: int, reserved: int)
    requires DirtyCovers(before, f)
    ensures DirtyCovers(before, Move(f, k, available, reserved))
  {
  }

  lemma ReleaseCovers(before: Balances, f: Funds, k: Key, amount: nat)
    requires DirtyCovers(before, f)
    ensures DirtyCovers(before, Release(f, k, amount).0)
  {
    TouchCovers(before, f, k);
    MoveCovers(before, f, k, amount, 0 - amount);
  }

  lemma ReserveCovers(before: Balances, f: Funds, k: Key, amount: nat)
    requires DirtyCovers(before, f)
    ensures DirtyCovers(before, Reserve(f, k, amount).0)
  {
    TouchCovers(before, f, k);
    MoveCovers(before, f, k, 0 - amount, amount);
  }

  lemma LegsCover(before: Balances, f: Funds, a: AccountId, pair: Pair, quote: Balance, base: Balance)
    requires DirtyCovers(before, f)
    ensures DirtyCovers(before, Legs(f, a, pair, quote, base))
  {
    MoveCovers(before, f, (a, pair.quote), quote.available, quote.reserved);
    MoveCovers(before, Move(f, (a, pair.quote), quote.available, quote.reserved),
               (a, pair.base), base.available, base.reserved);
  }

  lemma {:induction false} SettleAllCovers(before: Balances, f: Funds, pair: Pair, trades: seq<Trade>)
    requires DirtyCovers(before, f)
    ensures DirtyCovers(before, SettleAll(f, pair, trades))
  {
    if trades != [] {
      var t := trades[|trades| - 1];
      var g := SettleAll(f, pair, trades[..|trades| - 1]);
      SettleAllCovers(before, f, pair, trades[..|trades| - 1]);
      LegsCover(before, g, t.takerAccount, pair, TakerQuote(t), TakerBase(t));
      LegsCover(before, Legs(g, t.takerAccount, pair, TakerQuote(t), TakerBase(t)),
                t.makerAccount, pair, MakerQuote(t), MakerBase(t));
    }
  }

  lemma ExecuteCovers(before: Balances, s: State, a: AccountId, req: OrderRequest, f: Funds)
    requires DirtyCovers(before, f)
    ensures DirtyCovers(before, Execute(s, a, req, f).0.funds)
  {
    var p := PlacementOf(s, a, req);
    var settled := SettleAll(f, req.pair, p.trades);
    SettleAllCovers(before, f, req.pair, p.trades);
    ReleaseCovers(before, settled, (a, req.pair.base), p.remaining);
    var left := ReleaseLeftover(settled, a, req, p.remaining);
    if Surplus(req.price, p.trades) > 0 {
      ReleaseCovers(before, left, (a, req.pair.quote), Surplus(req.price, p.trades));
    }
  }

  lemma PlaceCovers(s: State, lim: Limits, a: AccountId, req: OrderRequest)
    ensures DirtyCovers(s.funds.bal, PlaceOrder(s, lim, a, req).0.funds)
  {
    var q := QuoteAmount(BookAt(s.books, req.pair), req);
    if Guard(s, lim, a, req).None? && q.Ok? {
      ReserveCovers(s.funds.bal, s.funds, PayKey(a, req), ReserveAmount(req, q.value));
      ExecuteCovers(s.funds.bal, s, a, req, Reserve(s.funds, PayKey(a, req), ReserveAmount(req, q.value)).0);
    }
  }

  lemma RunCovers(s: State, lim: Limits, a: AccountId, command: Command)
    ensures DirtyCovers(s.funds.bal, Run(s, lim, a, command).state.funds)
  {
    match command
    case Place(req) => PlaceCovers(s, lim, a, req);
    case Cancel(id) =>
      var r := CancelOrder(s, a, id);
      if r.1.Some? {
        var p, o := r.1.value.0, r.1.value.1;
        ReleaseCovers(s.funds.bal, s.funds, (o.account, PayCurrency(p, o.side)), HeldBy(o));
      }
    case Deposit(c, amount) => MoveCovers(s.funds.bal, s.funds, (a, c), amount, 0);
    case Withdraw(c, amount) =>
      TouchCovers(s.funds.bal, s.funds, (a, c));
      MoveCovers(s.funds.bal, s.funds, (a, c), 0 - amount, 0);
    case _ =>
  }

  // ----- a reader of every batch sees the engine's own state -----

  /** The reader's value of a cell is the engine's; a balance never reported is zero. */
  ghost predicate Agrees(v: Value, s: State, c: Cell) {
    match c
    case LevelCell(k) => v == NonZero(LevelOf(s.books, k))
    case BalanceCell(k) =>
      v == Owned(Get(s.funds.bal, k))
      || (v.Absent? && Get(s.funds.bal, k).available == 0 && Get(s.funds.bal, k).reserved == 0)
  }

  lemma SealAgrees(s: State, e: Effect, v: Value, c: Cell)
    requires Agrees(v, s, c)
    requires ReportsLevels(s.books, e.state.books, e.deltas) && DirtyCovers(s.funds.bal, e.state.funds)
    ensures var step := Seal(e);
            Agrees(if step.batch.Some? then BatchWrite(v, step.batch.value, c) else v, step.state, c)
  {
    match c
    case LevelCell(k) =>
      assert LevelOf(e.state.books, k) == if k in e.deltas then e.deltas[k] else LevelOf(s.books, k);
    case BalanceCell(k) =>
      assert k !in e.state.funds.dirty ==> Get(e.state.funds.bal, k) == Get(s.funds.bal, k);
  }

  lemma ApplyAgrees(s: State, lim: Limits, env: Envelope, v: Value, c: Cell)
    requires Inv(s) && Agrees(v, s, c)
    ensures var step := Apply(s, lim, env);
            Agrees(if step.batch.Some? then BatchWrite(v, step.batch.value, c) else v, step.state, c)
  {
    var attempt := Try(s.window, env.account, env.key);
    if attempt.1 {
      TryKeepsWindow(s.window, env.account, env.key);
      CountersKeepInv(s, attempt.0, s.nextSeq);
      var s1 := s.(window := attempt.0);
      RunReportsLevels(s1, lim, env.account, env.command);
      RunCovers(s1, lim, env.account, env.command);
      SealAgrees(s1, Run(s1, lim, env.account, env.command), v, c);
    }
  }

  lemma ApplyOrdered(s: State, lim: Limits, env: Envelope)
    ensures AllOrdered(CoreOf(Apply(s, lim, env)))
  {
    var attempt := Try(s.window, env.account, env.key);
    if attempt.1 {
      RunOrdered(s.(window := attempt.0), lim, env.account, env.command);
    }
  }

  /** Events of consecutive batches, in stream order. */
  function AllEvents(es: seq<EventBatch>): seq<Event> {
    if es == [] then [] else AllEvents(es[..|es| - 1]) + es[|es| - 1].events
  }

  lemma {:induction false} AllEventsConcat(x: seq<EventBatch>, y: seq<EventBatch>)
    ensures AllEvents(x + y) == AllEvents(x) + AllEvents(y)
  {
    if y == [] {
      assert x + y == x;
    } else {
      var y', last := y[..|y| - 1], y[|y| - 1];
      AllEventsConcat(x, y');
      assert (x + y)[..|x + y| - 1] == x + y';
      assert AllEvents(x) + AllEvents(y') + last.events == AllEvents(x) + (AllEvents(y') + last.events);
    }
  }

  /** The stream holds every batch of the run. */
  ghost predicate Published(es: seq<EventBatch>, lim: Limits, log: Log) {
    && |es| == |Batches(lim, log)|
    && (forall i :: 0 <= i < |es| ==> Publishes(es[i], Batches(lim, log)[i]))
  }

  /** One command earlier: either the stream is the same, or its last batch is that command's. */
  lemma PublishedPrefix(es: seq<EventBatch>, lim: Limits, log: Log) returns (before: seq<EventBatch>)
    requires log != [] && Published(es, lim, log)
    ensures Published(before, lim, log[..|log| - 1])
    ensures match LastStep(lim, log).batch
            case None => before == es
            case Some(b) => |es| > 0 && before == es[..|es| - 1] && Publishes(es[|es| - 1], b)
  {
    var batches := Batches(lim, log[..|log| - 1]);
    before := es[..|batches|];
    forall i | 0 <= i < |before| ensures Publishes(before[i], batches[i]) {
      assert before[i] == es[i] && Batches(lim, log)[i] == batches[i];
    }
    if LastStep(lim, log).batch.Some? {
      assert Batches(lim, log)[|es| - 1] == LastStep(lim, log).batch.value;
    }
  }

  /** After any run, every cell a reader folded from the stream equals the engine's own value. */
  lemma {:induction false} ReaderAgrees(es: seq<EventBatch>, lim: Limits, log: Log, c: Cell)
    requires Published(es, lim, log)
    ensures Agrees(LastWrite(Absent, AllEvents(es), c), StateAfter(lim, log), c)
    decreases |log|
  {
    if log != [] {
      var init := log[..|log| - 1];
      var before := PublishedPrefix(es, lim, log);
      ReaderAgrees(before, lim, init, c);
      RunInv(lim, init);
      var v := LastWrite(Absent, AllEvents(before), c);
      ApplyAgrees(StateAfter(lim, init), lim, log[|log| - 1], v, c);
      var step := LastStep(lim, log);
      if step.batch.Some? {
        ApplyOrdered(StateAfter(lim, init), lim, log[|log| - 1]);
        LastWriteConcat(Absent, AllEvents(before), es[|es| - 1].events, c);
        BatchWrites(v, es[|es| - 1], step.batch.value, c);
      }
    }
  }

  // ----- replaying an overlap -----

  /** For i <= k <= n: batches i..n on top of the view after k give the view after n. */
  lemma OverlapIsHarmless(v: Value, es: seq<EventBatch>, i: nat, k: nat, c: Cell)
    requires i <= k <= |es|
    ensures LastWrite(LastWrite(v, AllEvents(es[..k]), c), AllEvents(es[i..]), c) == LastWrite(v, AllEvents(es), c)
  {
    var x, y, z := es[..i], es[i..k], es[k..];
    assert es[..k] == x + y && es[i..] == y + z && es == x + y + z;
    AllEventsConcat(x, y);
    AllEventsConcat(y, z);
    AllEventsConcat(x + y, z);
    var vx := LastWrite(v, AllEvents(x), c);
    LastWriteConcat(v, AllEvents(x), AllEvents(y), c);
    var vy := LastWrite(vx, AllEvents(y), c);
    LastWriteConcat(vy, AllEvents(y), AllEvents(z), c);
    LastWriteConcat(v, AllEvents(x) + AllEvents(y), AllEvents(z), c);
    LastWriteForgets(vx, vy, AllEvents(y), c);
  }
}
