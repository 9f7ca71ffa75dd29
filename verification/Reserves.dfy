/**
  The global invariant the engine relies on and never checks: every reserve is exactly the sum
  of its account's resting commitments, and no placement, fill, refund or cancel breaks that.
 */
module Reserves {
  import opened Domain
  import opened Matching
  import opened BookSpec
  import opened Sums
  import opened LedgerSpec
  import opened DedupSpec
  import opened EngineSpec

  // ----- commitments -----

  function SideCommit(p: Pair, side: Side, s: seq<Order>, k: Key): nat {
    if k.1 == PayCurrency(p, side) then OrderTotal(Held(k.0), s) else 0
  }

  /** What account `k.0` has committed in currency `k.1` to orders resting in one market. */
  function BookCommit(p: Pair, b: BookView, k: Key): nat {
    SideCommit(p, Bid, b.bids, k) + SideCommit(p, Ask, b.asks, k)
  }

  ghost function CommitMap(books: map<Pair, BookView>, k: Key): map<Pair, int> {
    map p | p in books :: BookCommit(p, books[p], k)
  }

  /** The same over all markets. */
  ghost function Committed(books: map<Pair, BookView>, k: Key): int {
    Sum(CommitMap(books, k))
  }

  ghost predicate Backed(s: State) {
    forall k: Key ::
      && Get(s.funds.bal, k).reserved == Committed(s.books, k)
      && Get(s.funds.bal, k).available >= 0
  }

  ghost predicate BooksInv(books: map<Pair, BookView>, nextId: nat) {
    && (forall p :: p in books ==>
          p.IsValid() && BookInv(books[p]) && (forall id :: id in BookIds(books[p]) ==> id < nextId))
    && (forall p, q :: p in books && q in books && p != q ==> BookIds(books[p]) !! BookIds(books[q]))
  }

  /** What holds at every command boundary. */
  ghost predicate Inv(s: State) {
    && BooksInv(s.books, s.nextOrderId)
    && Backed(s)
    && s.funds.dirty == {}
    && WindowOk(s.window)
    && (forall p :: p in s.listed ==> p.IsValid())
  }

  lemma CommittedUpdate(books: map<Pair, BookView>, p: Pair, b: BookView, k: Key)
    ensures Committed(books[p := b], k) ==
            Committed(books, k) - BookCommit(p, BookAt(books, p), k) + BookCommit(p, b, k)
  {
    var m := CommitMap(books, k);
    assert CommitMap(books[p := b], k) == m[p := BookCommit(p, b, k)];
    SumUpdate(m, p, BookCommit(p, b, k));
    assert Entry(m, p) == BookCommit(p, BookAt(books, p), k);
  }

  lemma CommittedCovers(books: map<Pair, BookView>, p: Pair, k: Key)
    ensures 0 <= BookCommit(p, BookAt(books, p), k) <= Committed(books, k)
  {
    SumCovers(CommitMap(books, k), p);
  }

  lemma BookCommitSides(p: Pair, b: BookView, side: Side, k: Key)
    ensures BookCommit(p, b, k) ==
            SideCommit(p, side, b.Resting(side), k) + SideCommit(p, side.Opposite(), b.Resting(side.Opposite()), k)
  {
  }

  // ----- what a placement does to commitments -----

  function RestHeld(taker: Order, remaining: nat): nat {
    if Rests(taker, remaining) then OrderWeight(Held(taker.account), taker.(remaining := remaining)) else 0
  }

  lemma OppositeCommit(p: Pair, taker: Order, opp: seq<Order>, k: Key)
    requires OnSide(opp, taker.side.Opposite())
    ensures var o := Match(p, taker, opp);
            SideCommit(p, taker.side.Opposite(), o.rest, k) ==
            SideCommit(p, taker.side.Opposite(), opp, k)
            - (if k.1 == PayCurrency(p, taker.side.Opposite()) then TradeTotal(Held(k.0), o.trades) else 0)
  {
    MatchConserves(Held(k.0), p, taker, opp);
  }

  lemma OwnCommit(p: Pair, taker: Order, own: seq<Order>, remaining: nat, k: Key)
    ensures SideCommit(p, taker.side, OwnAfter(own, taker, remaining), k) ==
            SideCommit(p, taker.side, own, k)
            + (if k == (taker.account, PayCurrency(p, taker.side)) then RestHeld(taker, remaining) else 0)
  {
    if Rests(taker, remaining) {
      EnqueueMembers(own, taker.(remaining := remaining));
    }
  }

  lemma PlacementCommit(b: BookView, p: Pair, taker: Order, k: Key)
    requires BookInv(b)
    ensures var a := AddOrder(b, p, taker);
            BookCommit(p, a.book, k) ==
            BookCommit(p, b, k)
            - (if k.1 == PayCurrency(p, taker.side.Opposite()) then TradeTotal(Held(k.0), a.trades) else 0)
            + (if k == (taker.account, PayCurrency(p, taker.side)) then RestHeld(taker, a.remaining) else 0)
  {
    BookInvFrom(b, taker.side);
    var own, opp := b.Resting(taker.side), b.Resting(taker.side.Opposite());
    var a := AddOrder(b, p, taker);
    OppositeCommit(p, taker, opp, k);
    OwnCommit(p, taker, own, a.remaining, k);
    BookCommitSides(p, b, taker.side, k);
    BookCommitSides(p, a.book, taker.side, k);
  }

  // ----- the taker's own reserve comes out exact -----

  lemma {:induction false} SurplusIs(price: nat, trades: seq<Trade>)
    ensures Surplus(price, trades) == price * TradeTotal(Volume, trades) - TradeTotal(Worth, trades)
  {
    if trades != [] {
      SurplusIs(price, trades[1..]);
      var t, v := trades[0], TradeTotal(Volume, trades[1..]);
      assert (price - t.price) * t.qty == price * t.qty - t.price * t.qty;
      assert price * (t.qty + v) == price * t.qty + price * v;
    }
  }

  lemma {:induction false} SurplusNonNegative(price: nat, trades: seq<Trade>)
    requires forall t :: t in trades ==> t.price <= price
    ensures Surplus(price, trades) >= 0
  {
    if trades != [] {
      SurplusNonNegative(price, trades[1..]);
      assert (price - trades[0].price) * trades[0].qty >= 0;
    }
  }

  lemma {:induction false} TradesCross(pair: Pair, taker: Order, opp: seq<Order>)
    ensures forall t :: t in Match(pair, taker, opp).trades ==> Crosses(taker, t.price)
    decreases taker.remaining, |opp|
  {
    if !Stops(taker, opp) {
      var t := TradeOf(pair, taker, opp[0]);
      TradesCross(pair, Reduce(taker, t.qty), AfterFill(Reduce(opp[0], t.qty), opp[1..]));
    }
  }

  /** What is left of the taker's reserve once its fills and its resting part are accounted for. */
  function Excess(req: OrderRequest, trades: seq<Trade>, remaining: nat): int {
    if req.side.Bid? then (if req.orderType.Limit? then Surplus(req.price, trades) else 0)
    else (if req.orderType.Market? then remaining else 0)
  }

  lemma LimitBidSplits(taker: Order, trades: seq<Trade>, remaining: nat)
    requires taker.side.Bid? && taker.orderType.Limit?
    requires TradeTotal(Volume, trades) + remaining == taker.size
    ensures taker.price * taker.size ==
            TradeTotal(Worth, trades) + RestHeld(taker, remaining) + Surplus(taker.price, trades)
  {
    SurplusIs(taker.price, trades);
    var price, v := taker.price, TradeTotal(Volume, trades);
    assert price * (v + remaining) == price * v + price * remaining;
    assert RestHeld(taker, remaining) == price * remaining;
  }

  lemma AskSplits(taker: Order, trades: seq<Trade>, remaining: nat)
    requires taker.side.Ask?
    requires TradeTotal(Volume, trades) + remaining == taker.size
    ensures taker.size == TradeTotal(Volume, trades) + RestHeld(taker, remaining)
                          + (if taker.orderType.Market? then remaining else 0)
  {
  }

  lemma ReserveSplits(b: BookView, id: nat, a: AccountId, req: OrderRequest)
    requires QuoteAmount(b, req).Ok?
    ensures var taker := NewOrder(id, a, req);
            var o := Match(req.pair, taker, b.Resting(req.side.Opposite()));
            && ReserveAmount(req, QuoteAmount(b, req).value) ==
               TakerPays(req.side, o.trades) + RestHeld(taker, o.remaining) + Excess(req, o.trades, o.remaining)
            && Excess(req, o.trades, o.remaining) >= 0
  {
    var taker := NewOrder(id, a, req);
    var opp := b.Resting(req.side.Opposite());
    var trades, remaining := Match(req.pair, taker, opp).trades, Match(req.pair, taker, opp).remaining;
    TakerConserves(req.pair, taker, opp);
    if req.side.Ask? {
      AskSplits(taker, trades, remaining);
    } else if req.orderType.Market? {
      BuyCostIsWorthOfTrades(req.pair, taker, opp);
    } else {
      LimitBidSplits(taker, trades, remaining);
      TradesCross(req.pair, taker, opp);
      SurplusNonNegative(req.price, trades);
    }
  }
}
