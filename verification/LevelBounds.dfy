/** Level totals over whole runs: they fit in u64 exactly until a zero-price bid is accepted on top of too many. */
module LevelBounds {
  import opened Domain
  import opened Matching
  import opened BookSpec
  import opened DedupSpec
  import opened EngineSpec
  import opened Reserves
  import opened PlaceProof
  import opened EngineInv
  import opened Overflow
  import opened Lifecycle
  import opened Runs

  ghost predicate AllLevelsFit(books: map<Pair, BookView>) {
    forall p: Pair :: LevelsFit(BookAt(books, p))
  }

  /** The command is an accepted zero-price limit bid that takes its level past the largest u64. */
  ghost predicate Overflows(s: State, lim: Limits, env: Envelope) {
    && env.command.Place?
    && OverflowsZeroBid(BookAt(s.books, env.command.order.pair), env.command.order)
    && Apply(s, lim, env).response.PlaceReply? && Apply(s, lim, env).response.placed.Ok?
  }

  lemma PlaceFits(s: State, lim: Limits, a: AccountId, req: OrderRequest)
    requires Inv(s) && SupplyFits(s.funds.bal) && AllLevelsFit(s.books)
    ensures var r := PlaceOrder(s, lim, a, req);
            AllLevelsFit(r.0.books) <==> !(r.1.Ok? && OverflowsZeroBid(BookAt(s.books, req.pair), req))
  {
    PlaceIsAtomic(s, lim, a, req);
    if PlaceOrder(s, lim, a, req).1.Ok? {
      assert LevelsFit(BookAt(s.books, req.pair));
      LevelsFitIff(s, lim, a, req);
      PlacedBook(s, lim, a, req);
      OneBookFits(s.books, PlaceOrder(s, lim, a, req).0.books, req.pair);
    }
  }

  lemma OneBookFits(books: map<Pair, BookView>, books': map<Pair, BookView>, pair: Pair)
    requires AllLevelsFit(books) && pair in books' && books' == books[pair := books'[pair]]
    ensures AllLevelsFit(books') <==> LevelsFit(BookAt(books', pair))
  {
    forall p | p != pair ensures LevelsFit(BookAt(books', p)) {
      assert BookAt(books', p) == BookAt(books, p) && LevelsFit(BookAt(books, p));
    }
  }

  /** A cancel only takes away. */
  lemma DropFits(b: BookView, o: Order)
    requires BookInv(b) && o in b.Resting(o.side) && LevelsFit(b)
    ensures LevelsFit(Drop(b, o))
  {
    DropKeepsInv(b, o);
    forall side, price ensures LevelQty(Drop(b, o), side, price) <= U64_MAX {
      assert LevelQty(b, side, price) <= U64_MAX;
    }
  }

  lemma CancelFits(s: State, a: AccountId, id: nat)
    requires Inv(s) && AllLevelsFit(s.books)
    ensures AllLevelsFit(CancelOrder(s, a, id).0.books)
  {
    var r := CancelOrder(s, a, id);
    if r.1.Some? {
      CancelledRested(s, a, id);
      var p, o := r.1.value.0, r.1.value.1;
      assert LevelsFit(BookAt(s.books, p));
      DropFits(s.books[p], o);
      OneBookFits(s.books, r.0.books, p);
    }
  }

  lemma RunFits(s: State, lim: Limits, a: AccountId, command: Command)
    requires Inv(s) && SupplyFits(s.funds.bal) && AllLevelsFit(s.books)
    ensures var e := Run(s, lim, a, command);
            AllLevelsFit(e.state.books) <==>
            !(command.Place? && OverflowsZeroBid(BookAt(s.books, command.order.pair), command.order)
              && e.response.PlaceReply? && e.response.placed.Ok?)
  {
    match command
    case Place(req) => PlaceFits(s, lim, a, req);
    case Cancel(id) => CancelFits(s, a, id);
    case _ =>
  }

  lemma ApplyFits(s: State, lim: Limits, env: Envelope)
    requires Inv(s) && SupplyFits(s.funds.bal) && AllLevelsFit(s.books)
    ensures AllLevelsFit(Apply(s, lim, env).state.books) <==> !Overflows(s, lim, env)
  {
    var attempt := Try(s.window, env.account, env.key);
    if attempt.1 {
      TryKeepsWindow(s.window, env.account, env.key);
      CountersKeepInv(s, attempt.0, s.nextSeq);
      RunFits(s.(window := attempt.0), lim, env.account, env.command);
    }
  }

  // ----- over runs -----

  /** Net deposits fit in u64 after the log and after every shorter one. */
  ghost predicate SupplyThroughout(lim: Limits, log: Log) {
    SupplyFits(StateAfter(lim, log).funds.bal) && (log != [] ==> SupplyThroughout(lim, log[..|log| - 1]))
  }

  /** Every level total fits after the log and after every shorter one. */
  ghost predicate FitsThroughout(lim: Limits, log: Log) {
    AllLevelsFit(StateAfter(lim, log).books) && (log != [] ==> FitsThroughout(lim, log[..|log| - 1]))
  }

  /** No command of the log overflowed a level when its turn came. */
  ghost predicate NeverOverflows(lim: Limits, log: Log) {
    log != [] ==>
      && NeverOverflows(lim, log[..|log| - 1])
      && !Overflows(StateAfter(lim, log[..|log| - 1]), lim, log[|log| - 1])
  }

  lemma InitFits()
    ensures AllLevelsFit(Init.books)
  {
    forall p: Pair, side, price ensures LevelQty(BookAt(Init.books, p), side, price) == 0 {
    }
  }

  /**
    With the supply fitting throughout, every level total fits throughout if and only if no accepted
    order of the log was a zero-price bid that took its level past the largest u64.
   */
  lemma {:induction false} LevelsFitThroughoutIff(lim: Limits, log: Log)
    requires SupplyThroughout(lim, log)
    ensures FitsThroughout(lim, log) <==> NeverOverflows(lim, log)
  {
    if log == [] {
      InitFits();
    } else {
      var init := log[..|log| - 1];
      LevelsFitThroughoutIff(lim, init);
      if FitsThroughout(lim, init) {
        RunInv(lim, init);
        FitsAtEnd(lim, init);
        ApplyFits(StateAfter(lim, init), lim, log[|log| - 1]);
      }
    }
  }

  lemma FitsAtEnd(lim: Limits, log: Log)
    requires FitsThroughout(lim, log)
    ensures AllLevelsFit(StateAfter(lim, log).books)
  {
  }
}
