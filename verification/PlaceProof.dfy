/** Placing an order: no release fails, no reserve goes negative, an error changes nothing. */
module PlaceProof {
  import opened Domain
  import opened Matching
  import opened BookSpec
  import opened LedgerSpec
  import opened EngineSpec
  import opened Reserves

  /** The placement made by a request that passed every guard. */
  function PlacementOf(s: State, a: AccountId, req: OrderRequest): Placement {
    AddOrder(BookAt(s.books, req.pair), req.pair, NewOrder(s.nextOrderId, a, req))
  }

  function BooksAfter(s: State, a: AccountId, req: OrderRequest): map<Pair, BookView> {
    s.books[req.pair := PlacementOf(s, a, req).book]
  }

  /** The request got past guards, pricing and reservation, leaving `f` as the funds. */
  ghost predicate Admitted(s: State, a: AccountId, req: OrderRequest, f: Funds) {
    && req.pair.IsValid()
    && QuoteAmount(BookAt(s.books, req.pair), req).Ok?
    && var amount := ReserveAmount(req, QuoteAmount(BookAt(s.books, req.pair), req).value);
       Reserve(s.funds, PayKey(a, req), amount) == (f, Ok(()))
  }

  lemma BookAtInv(s: State, pair: Pair)
    requires Inv(s)
    ensures BookInv(BookAt(s.books, pair))
    ensures forall id :: id in BookIds(BookAt(s.books, pair)) ==> id < s.nextOrderId
  {
  }

  lemma TradesTaken(s: State, a: AccountId, req: OrderRequest)
    ensures TakenBy(PlacementOf(s, a, req).trades, req.side, a)
  {
    var b := BookAt(s.books, req.pair);
    MatchTradesBelongToTaker(req.pair, NewOrder(s.nextOrderId, a, req), b.Resting(req.side.Opposite()));
  }

  function ExcessOf(s: State, a: AccountId, req: OrderRequest): int {
    Excess(req, PlacementOf(s, a, req).trades, PlacementOf(s, a, req).remaining)
  }

  lemma ReservedAt(s: State, a: AccountId, req: OrderRequest, f: Funds, k: Key)
    requires Inv(s) && Admitted(s, a, req, f)
    ensures var amount := ReserveAmount(req, QuoteAmount(BookAt(s.books, req.pair), req).value);
            && Get(f.bal, k).reserved == Committed(s.books, k) + (if k == PayKey(a, req) then amount else 0)
            && Get(f.bal, k).available >= 0
  {
    assert Get(s.funds.bal, k).reserved == Committed(s.books, k) && Get(s.funds.bal, k).available >= 0;
  }

  lemma CommittedAfterPlace(s: State, a: AccountId, req: OrderRequest, k: Key)
    requires Inv(s)
    ensures var p := PlacementOf(s, a, req);
            Committed(BooksAfter(s, a, req), k) ==
            Committed(s.books, k)
            - (if k.1 == PayCurrency(req.pair, req.side.Opposite()) then TradeTotal(Held(k.0), p.trades) else 0)
            + (if k == PayKey(a, req) then RestHeld(NewOrder(s.nextOrderId, a, req), p.remaining) else 0)
  {
    BookAtInv(s, req.pair);
    PlacementCommit(BookAt(s.books, req.pair), req.pair, NewOrder(s.nextOrderId, a, req), k);
    CommittedUpdate(s.books, req.pair, PlacementOf(s, a, req).book, k);
  }

  /** After settling, every reserve is backed except for the taker's known excess. */
  lemma SettledReserve(s: State, a: AccountId, req: OrderRequest, f: Funds, k: Key)
    requires Inv(s) && Admitted(s, a, req, f)
    ensures var b := Get(SettleAll(f, req.pair, PlacementOf(s, a, req).trades).bal, k);
            && b.reserved == Committed(BooksAfter(s, a, req), k) + (if k == PayKey(a, req) then ExcessOf(s, a, req) else 0)
            && b.available >= 0
            && ExcessOf(s, a, req) >= 0
  {
    var p := PlacementOf(s, a, req);
    TradesTaken(s, a, req);
    SettleAllReserved(f, req.pair, req.side, a, p.trades, k);
    ReservedAt(s, a, req, f, k);
    CommittedAfterPlace(s, a, req, k);
    ReserveSplits(BookAt(s.books, req.pair), s.nextOrderId, a, req);
  }

  /** Funds whose reserves are exactly the commitments of `books`, and that owe nobody anything. */
  ghost predicate Exact(f: Funds, books: map<Pair, BookView>) {
    forall k: Key :: Get(f.bal, k).reserved == Committed(books, k) && Get(f.bal, k).available >= 0
  }

  ghost predicate ExactBut(f: Funds, books: map<Pair, BookView>, at: Key, excess: nat) {
    forall k: Key ::
      && Get(f.bal, k).reserved == Committed(books, k) + (if k == at then excess else 0)
      && Get(f.bal, k).available >= 0
  }

  /** Releasing exactly the excess cannot fail and leaves every reserve exact. */
  lemma ReleaseExcess(f: Funds, books: map<Pair, BookView>, at: Key, excess: nat)
    requires ExactBut(f, books, at, excess)
    ensures Release(f, at, excess).1 == Ok(())
    ensures Exact(Release(f, at, excess).0, books)
  {
    assert Get(f.bal, at).reserved == Committed(books, at) + excess;
    CommittedCovers(books, Pair(USD, SOL), at);
    var f' := Release(f, at, excess).0;
    forall k: Key ensures Get(f'.bal, k).reserved == Committed(books, k) && Get(f'.bal, k).available >= 0 {
      assert Get(f.bal, k).reserved == Committed(books, k) + (if k == at then excess else 0);
    }
  }

  lemma NoExcess(f: Funds, books: map<Pair, BookView>, at: Key)
    requires ExactBut(f, books, at, 0)
    ensures Exact(f, books)
  {
    forall k: Key ensures Get(f.bal, k).reserved == Committed(books, k) && Get(f.bal, k).available >= 0 {
      assert Get(f.bal, k).reserved == Committed(books, k) + (if k == at then 0 else 0);
    }
  }

  lemma SettledExact(s: State, a: AccountId, req: OrderRequest, f: Funds)
    requires Inv(s) && Admitted(s, a, req, f)
    ensures ExcessOf(s, a, req) >= 0
    ensures ExactBut(SettleAll(f, req.pair, PlacementOf(s, a, req).trades), BooksAfter(s, a, req),
                     PayKey(a, req), ExcessOf(s, a, req))
  {
    SettledReserve(s, a, req, f, PayKey(a, req));
    forall k: Key
      ensures var b := Get(SettleAll(f, req.pair, PlacementOf(s, a, req).trades).bal, k);
              && b.reserved == Committed(BooksAfter(s, a, req), k) + (if k == PayKey(a, req) then ExcessOf(s, a, req) else 0)
              && b.available >= 0
    {
      SettledReserve(s, a, req, f, k);
    }
  }

  /** Leftovers and refunds: both releases succeed, and afterwards every reserve is exact. */
  lemma RefundsAreExact(
    f: Funds, books: map<Pair, BookView>, a: AccountId, req: OrderRequest, trades: seq<Trade>, remaining: nat)
    requires Excess(req, trades, remaining) >= 0
    requires ExactBut(f, books, PayKey(a, req), Excess(req, trades, remaining))
    ensures var refund := RefundSurplus(ReleaseLeftover(f, a, req, remaining), a, req, trades);
            refund.1 == Ok(()) && Exact(refund.0, books)
  {
    if req.side.Ask? && req.orderType.Market? && remaining > 0 {
      ReleaseExcess(f, books, PayKey(a, req), remaining);
    } else if req.side.Bid? && req.orderType.Limit? && Surplus(req.price, trades) > 0 {
      ReleaseExcess(f, books, PayKey(a, req), Surplus(req.price, trades));
    } else {
      NoExcess(f, books, PayKey(a, req));
    }
  }

  /** Once admitted, a placement succeeds and leaves exact reserves: the `?` on the refund never fires. */
  lemma ExecuteSucceeds(s: State, a: AccountId, req: OrderRequest, f: Funds)
    requires Inv(s) && Admitted(s, a, req, f)
    ensures Execute(s, a, req, f).1 == Ok(PlacementOf(s, a, req))
    ensures Execute(s, a, req, f).0.books == BooksAfter(s, a, req)
    ensures Exact(Execute(s, a, req, f).0.funds, BooksAfter(s, a, req))
  {
    var p := PlacementOf(s, a, req);
    SettledExact(s, a, req, f);
    RefundsAreExact(SettleAll(f, req.pair, p.trades), BooksAfter(s, a, req), a, req, p.trades, p.remaining);
  }

  lemma PlaceKeepsBooks(s: State, a: AccountId, req: OrderRequest)
    requires Inv(s) && req.pair.IsValid()
    ensures BooksInv(BooksAfter(s, a, req), s.nextOrderId + 1)
  {
    BookAtInv(s, req.pair);
    var b := BookAt(s.books, req.pair);
    AddOrderKeepsInv(b, req.pair, NewOrder(s.nextOrderId, a, req));
    var books := BooksAfter(s, a, req);
    forall p, q | p in books && q in books && p != q ensures BookIds(books[p]) !! BookIds(books[q]) {
      if p == req.pair {
        assert BookIds(books[p]) <= BookIds(b) + {s.nextOrderId};
      } else if q == req.pair {
        assert BookIds(books[q]) <= BookIds(b) + {s.nextOrderId};
      }
    }
  }

  /** Same money, same books, same counters; failed operations may leave zero rows behind. */
  ghost predicate Unchanged(s: State, s': State) {
    && (forall k :: Get(s'.funds.bal, k) == Get(s.funds.bal, k))
    && s'.funds.dirty == s.funds.dirty
    && s'.books == s.books && s'.nextOrderId == s.nextOrderId && s'.nextSeq == s.nextSeq
    && s'.window == s.window && s'.listed == s.listed
  }

  /** Either the placement went through whole, or nothing changed. */
  lemma PlaceIsAtomic(s: State, lim: Limits, a: AccountId, req: OrderRequest)
    requires Inv(s)
    ensures var r := PlaceOrder(s, lim, a, req);
            match r.1
            case Err(_) => Unchanged(s, r.0)
            case Ok(p) =>
              && p == PlacementOf(s, a, req)
              && Guard(s, lim, a, req).None?
              && Admitted(s, a, req, Reserve(s.funds, PayKey(a, req),
                   ReserveAmount(req, QuoteAmount(BookAt(s.books, req.pair), req).value)).0)
  {
    var q := QuoteAmount(BookAt(s.books, req.pair), req);
    if Guard(s, lim, a, req).None? && q.Ok? {
      var reserve := Reserve(s.funds, PayKey(a, req), ReserveAmount(req, q.value));
      if reserve.1.Ok? {
        ExecuteSucceeds(s, a, req, reserve.0);
      } else {
        TouchGets(s.funds, PayKey(a, req));
      }
    }
  }

  lemma UnchangedKeepsInv(s: State, s': State)
    requires Inv(s) && Unchanged(s, s')
    ensures Inv(s')
  {
    forall k: Key ensures Get(s'.funds.bal, k).reserved == Committed(s'.books, k) && Get(s'.funds.bal, k).available >= 0 {
      assert Get(s.funds.bal, k).reserved == Committed(s.books, k);
    }
  }
}
