/**
  Machine arithmetic: while each currency's supply fits in u64, none of the unchecked u64
  operations of a placement or a cancel over- or underflows. The one aggregate the ledger
  does not bound is the size resting at bid price zero.
 */
module Overflow {
  import opened Domain
  import opened Matching
  import opened BookSpec
  import opened Sums
  import opened LedgerSpec
  import opened EngineSpec
  import opened Reserves
  import opened PlaceProof
  import opened EngineInv

  ghost predicate Solvent(bal: Balances) {
    forall k :: k in bal ==> bal[k].available >= 0 && bal[k].reserved >= 0
  }

  /** The assumption on the outside world: net deposits of a currency fit in u64. */
  ghost predicate SupplyFits(bal: Balances) {
    forall c :: Supply(bal, c) <= U64_MAX
  }

  lemma HeldWithinSupply(bal: Balances, k: Key)
    requires Solvent(bal)
    ensures 0 <= Get(bal, k).available && 0 <= Get(bal, k).reserved
    ensures Get(bal, k).available + Get(bal, k).reserved <= Supply(bal, k.1)
  {
    SumCovers(Holdings(bal, k.1), k);
  }

  lemma SolventFits(bal: Balances)
    requires Solvent(bal) && SupplyFits(bal)
    ensures AllFit(bal)
  {
    forall k | k in bal ensures Fits(bal[k]) {
      HeldWithinSupply(bal, k);
    }
  }

  lemma ExactIsSolvent(f: Funds, books: map<Pair, BookView>)
    requires Exact(f, books)
    ensures Solvent(f.bal)
  {
    forall k | k in f.bal ensures f.bal[k].available >= 0 && f.bal[k].reserved >= 0 {
      CommittedCovers(books, Pair(USD, SOL), k);
      assert Get(f.bal, k).reserved == Committed(books, k) && Get(f.bal, k).available >= 0;
    }
  }

  lemma InvFits(s: State)
    requires Inv(s) && SupplyFits(s.funds.bal)
    ensures Solvent(s.funds.bal) && AllFit(s.funds.bal)
  {
    BackedIsExact(s);
    ExactIsSolvent(s.funds, s.books);
    SolventFits(s.funds.bal);
  }

  lemma SameSupplyFits(x: Balances, y: Balances)
    requires SupplyFits(x) && forall c :: Supply(y, c) == Supply(x, c)
    ensures SupplyFits(y)
  {
    forall c ensures Supply(y, c) <= U64_MAX {
      assert Supply(x, c) <= U64_MAX;
    }
  }

  /** Room for moving up to the reserved amount back, or up to the available amount over. */
  lemma RoomToMove(bal: Balances, k: Key, amount: nat)
    requires Solvent(bal) && SupplyFits(bal)
    ensures Get(bal, k).reserved >= amount ==> Get(bal, k).available + amount <= U64_MAX
    ensures Get(bal, k).available >= amount ==> Get(bal, k).reserved + amount <= U64_MAX
  {
    HeldWithinSupply(bal, k);
    assert Supply(bal, k.1) <= U64_MAX;
  }

  // ----- settling trade by trade -----

  lemma {:induction false} ConsumedGrows(
    pair: Pair, side: Side, taker: AccountId, trades: seq<Trade>, i: nat, k: Key)
    requires i <= |trades|
    ensures Consumed(pair, side, taker, trades[..i], k) <= Consumed(pair, side, taker, trades, k)
  {
    assert trades == trades[..i] + trades[i..];
    ConsumedConcat(pair, side, taker, trades[..i], trades[i..], k);
  }

  /** After any number of settled trades no reserve is negative: each is at least its final value. */
  lemma PrefixSolvent(s: State, a: AccountId, req: OrderRequest, f: Funds, i: nat)
    requires Inv(s) && Admitted(s, a, req, f)
    requires i <= |PlacementOf(s, a, req).trades|
    ensures Solvent(SettleAll(f, req.pair, PlacementOf(s, a, req).trades[..i]).bal)
  {
    var trades := PlacementOf(s, a, req).trades;
    var g := SettleAll(f, req.pair, trades[..i]);
    forall k | k in g.bal ensures g.bal[k].available >= 0 && g.bal[k].reserved >= 0 {
      PrefixSolventAt(s, a, req, f, i, k);
    }
  }

  lemma PrefixSolventAt(s: State, a: AccountId, req: OrderRequest, f: Funds, i: nat, k: Key)
    requires Inv(s) && Admitted(s, a, req, f)
    requires i <= |PlacementOf(s, a, req).trades|
    ensures var b := Get(SettleAll(f, req.pair, PlacementOf(s, a, req).trades[..i]).bal, k);
            b.available >= 0 && b.reserved >= 0
  {
    var trades := PlacementOf(s, a, req).trades;
    TradesTaken(s, a, req);
    SettleAllReserved(f, req.pair, req.side, a, trades, k);
    SettleAllReserved(f, req.pair, req.side, a, trades[..i], k);
    ConsumedGrows(req.pair, req.side, a, trades, i, k);
    SettledReserve(s, a, req, f, k);
    ReservedAt(s, a, req, f, k);
    CommittedCovers(BooksAfter(s, a, req), req.pair, k);
  }

  lemma PrefixFits(s: State, a: AccountId, req: OrderRequest, f: Funds, i: nat)
    requires Inv(s) && Admitted(s, a, req, f) && SupplyFits(s.funds.bal)
    requires i <= |PlacementOf(s, a, req).trades|
    ensures AllFit(SettleAll(f, req.pair, PlacementOf(s, a, req).trades[..i]).bal)
  {
    PrefixSolvent(s, a, req, f, i);
    PrefixSupplyFits(s, a, req, f, i);
    SolventFits(SettleAll(f, req.pair, PlacementOf(s, a, req).trades[..i]).bal);
  }

  lemma PrefixSupplyFits(s: State, a: AccountId, req: OrderRequest, f: Funds, i: nat)
    requires Admitted(s, a, req, f) && SupplyFits(s.funds.bal)
    requires i <= |PlacementOf(s, a, req).trades|
    ensures SupplyFits(SettleAll(f, req.pair, PlacementOf(s, a, req).trades[..i]).bal)
  {
    var trades := PlacementOf(s, a, req).trades[..i];
    var g := SettleAll(f, req.pair, trades);
    forall c ensures Supply(g.bal, c) == Supply(s.funds.bal, c) {
      SettleAllConserves(f, req.pair, trades, c);
      ReserveSupply(s.funds, PayKey(a, req),
        ReserveAmount(req, QuoteAmount(BookAt(s.books, req.pair), req).value), c);
    }
    SameSupplyFits(s.funds.bal, g.bal);
  }

  // ----- the checked multiplication in `settle` never fails -----

  lemma {:induction false} OneOfTotal(m: Measure, trades: seq<Trade>, i: nat)
    requires i < |trades|
    ensures TradeWeight(m, trades[i]) <= TradeTotal(m, trades)
  {
    if i > 0 {
      OneOfTotal(m, trades[1..], i - 1);
    }
  }

  /** A buyer's fills cost no more than the quote amount it had checked. */
  lemma BuyerCostFits(s: State, a: AccountId, req: OrderRequest)
    requires req.side.Bid? && QuoteAmount(BookAt(s.books, req.pair), req).Ok?
    ensures TradeTotal(Worth, PlacementOf(s, a, req).trades) <= U64_MAX
  {
    ReserveSplits(BookAt(s.books, req.pair), s.nextOrderId, a, req);
  }

  lemma OneCost(trades: seq<Trade>, side: Side, taker: AccountId, i: nat)
    requires TakenBy(trades, side, taker) && i < |trades|
    requires side.Bid? ==> TradeTotal(Worth, trades) <= U64_MAX
    requires side.Ask? ==> TradeTotal(Held(trades[i].makerAccount), trades) <= U64_MAX
    ensures trades[i].price * trades[i].qty <= U64_MAX
  {
    OneOfTotal(if side.Bid? then Worth else Held(trades[i].makerAccount), trades, i);
  }

  lemma CostFits(s: State, a: AccountId, req: OrderRequest, f: Funds, i: nat)
    requires Inv(s) && Admitted(s, a, req, f) && SupplyFits(s.funds.bal)
    requires i < |PlacementOf(s, a, req).trades|
    ensures var t := PlacementOf(s, a, req).trades[i]; t.price * t.qty <= U64_MAX
  {
    var trades := PlacementOf(s, a, req).trades;
    TradesTaken(s, a, req);
    if req.side.Bid? {
      BuyerCostFits(s, a, req);
    } else {
      MakerCostFits(s, a, req, trades[i].makerAccount);
    }
    OneCost(trades, req.side, a, i);
  }

  lemma MakerCostFits(s: State, a: AccountId, req: OrderRequest, maker: AccountId)
    requires Inv(s) && SupplyFits(s.funds.bal) && req.side.Ask?
    ensures TradeTotal(Held(maker), PlacementOf(s, a, req).trades) <= U64_MAX
  {
    var b := BookAt(s.books, req.pair);
    var k := (maker, req.pair.quote);
    BookAtInv(s, req.pair);
    MatchConserves(Held(maker), req.pair, NewOrder(s.nextOrderId, a, req), b.bids);
    CommittedCovers(s.books, req.pair, k);
    assert Get(s.funds.bal, k).reserved == Committed(s.books, k);
    InvFits(s);
    HeldWithinSupply(s.funds.bal, k);
    assert Supply(s.funds.bal, k.1) <= U64_MAX;
  }

  // ----- the sums in the reply -----

  lemma {:induction false} TakerReceives(f: Funds, pair: Pair, taker: AccountId, trades: seq<Trade>)
    requires pair.IsValid() && TakenBy(trades, Ask, taker)
    ensures Get(SettleAll(f, pair, trades).bal, (taker, pair.quote)).available >=
            Get(f.bal, (taker, pair.quote)).available + TradeTotal(Worth, trades)
  {
    if trades != [] {
      var init, t := trades[..|trades| - 1], trades[|trades| - 1];
      TakerReceives(f, pair, taker, init);
      assert trades == init + [t];
      TradeTotalConcat(Worth, init, [t]);
      TradeTotalOne(Worth, t);
      var g := SettleAll(f, pair, init);
      var g1 := Legs(g, t.takerAccount, pair, TakerQuote(t), TakerBase(t));
      LegsGet(g, t.takerAccount, pair, TakerQuote(t), TakerBase(t), (taker, pair.quote));
      LegsGet(g1, t.makerAccount, pair, MakerQuote(t), MakerBase(t), (taker, pair.quote));
    }
  }

  lemma SellerProceedsFit(s: State, a: AccountId, req: OrderRequest, f: Funds)
    requires Inv(s) && Admitted(s, a, req, f) && SupplyFits(s.funds.bal) && req.side.Ask?
    ensures TradeTotal(Worth, PlacementOf(s, a, req).trades) <= U64_MAX
  {
    var trades, k := PlacementOf(s, a, req).trades, (a, req.pair.quote);
    TradesTaken(s, a, req);
    assert trades[..|trades|] == trades;
    PrefixFits(s, a, req, f, |trades|);
    ReservedAt(s, a, req, f, k);
    ProceedsFit(f, req.pair, a, trades);
  }

  lemma ProceedsFit(f: Funds, pair: Pair, taker: AccountId, trades: seq<Trade>)
    requires pair.IsValid() && TakenBy(trades, Ask, taker)
    requires Get(f.bal, (taker, pair.quote)).available >= 0 && AllFit(SettleAll(f, pair, trades).bal)
    ensures TradeTotal(Worth, trades) <= U64_MAX
  {
    TakerReceives(f, pair, taker, trades);
  }

  /** `filled_qty` and `total_cost` are plain u64 sums; both fit. */
  lemma ReplyFits(s: State, a: AccountId, req: OrderRequest, f: Funds)
    requires Inv(s) && Admitted(s, a, req, f) && SupplyFits(s.funds.bal)
    ensures var trades := PlacementOf(s, a, req).trades;
            TradeTotal(Volume, trades) <= req.size && TradeTotal(Worth, trades) <= U64_MAX
  {
    var b := BookAt(s.books, req.pair);
    TakerConserves(req.pair, NewOrder(s.nextOrderId, a, req), b.Resting(req.side.Opposite()));
    if req.side.Bid? {
      BuyerCostFits(s, a, req);
    } else {
      SellerProceedsFit(s, a, req, f);
    }
  }

  /** The sums a reply carries are u64. */
  ghost predicate TotalsFit(trades: seq<Trade>) {
    TradeTotal(Volume, trades) <= U64_MAX && TradeTotal(Worth, trades) <= U64_MAX
  }

  // ----- level sums -----

  ghost function HeldMap(keys: set<Key>, s: seq<Order>): map<Key, int> {
    map k | k in keys :: OrderTotal(Held(k.0), s)
  }

  /** Does resting at this level tie up funds? */
  predicate Funded(side: Side, price: nat) {
    side.Ask? || price >= 1
  }

  lemma LevelWithinOwn(o: Order, price: nat)
    requires Funded(o.side, price)
    ensures OrderWeight(Level(price), o) <= OrderWeight(Held(o.account), o)
  {
    if o.price == price && price >= 1 {
      assert o.remaining <= price * o.remaining;
    }
  }

  lemma {:induction false} LevelWithinHeld(s: seq<Order>, side: Side, price: nat, c: Currency, keys: set<Key>)
    requires OnSide(s, side) && Funded(side, price)
    requires forall k :: k in keys ==> k.1 == c
    requires forall o :: o in s && o.price == price ==> (o.account, c) in keys
    ensures OrderTotal(Level(price), s) <= Sum(HeldMap(keys, s))
  {
    if s == [] {
      SumBounds(HeldMap(keys, s));
    } else {
      var o, rest := s[0], s[1..];
      LevelWithinHeld(rest, side, price, c, keys);
      var m, m' := HeldMap(keys, rest), HeldMap(keys, s);
      var k := (o.account, c);
      if k in keys {
        assert m' == m[k := OrderTotal(Held(k.0), s)];
        SumUpdate(m, k, OrderTotal(Held(k.0), s));
        LevelWithinOwn(o, price);
      } else {
        assert m' == m;
      }
    }
  }

  lemma {:induction false} SumMonotone<K>(x: map<K, int>, y: map<K, int>)
    requires x.Keys == y.Keys && forall k :: k in x ==> x[k] <= y[k]
    ensures Sum(x) <= Sum(y)
    decreases x.Keys
  {
    if x != map[] {
      var k := Pick(x);
      assert (x - {k}).Keys == x.Keys - {k} && (y - {k}).Keys == y.Keys - {k};
      SumTakes(y, k);
      SumMonotone(x - {k}, y - {k});
    } else {
      assert y == map[];
    }
  }

  lemma SideWithinReserve(s: State, p: Pair, side: Side, a: AccountId)
    requires Inv(s)
    ensures var k := (a, PayCurrency(p, side));
            OrderTotal(Held(a), BookAt(s.books, p).Resting(side)) <= Get(s.funds.bal, k).reserved
  {
    var k := (a, PayCurrency(p, side));
    CommittedCovers(s.books, p, k);
    BookCommitSides(p, BookAt(s.books, p), side, k);
    assert Get(s.funds.bal, k).reserved == Committed(s.books, k);
  }

  lemma {:induction false} MemberWithinTotal(m: Measure, s: seq<Order>, o: Order)
    requires o in s
    ensures OrderWeight(m, o) <= OrderTotal(m, s)
  {
    if s[0] != o {
      MemberWithinTotal(m, s[1..], o);
    }
  }

  lemma OwnerHasRow(s: State, p: Pair, side: Side, o: Order)
    requires Inv(s) && o in BookAt(s.books, p).Resting(side) && Funded(side, o.price)
    ensures (o.account, PayCurrency(p, side)) in s.funds.bal
  {
    var resting := BookAt(s.books, p).Resting(side);
    BookAtInv(s, p);
    BookInvFrom(BookAt(s.books, p), side);
    MemberHolds(resting, side, o);
    SideWithinReserve(s, p, side, o.account);
  }

  lemma MemberHolds(s: seq<Order>, side: Side, o: Order)
    requires SideInv(s, side) && o in s && Funded(side, o.price)
    ensures OrderTotal(Held(o.account), s) > 0
  {
    LevelWithinOwn(o, o.price);
    MemberWithinTotal(Held(o.account), s, o);
  }

  /** The aggregate of every funded level fits in u64, so summing it cannot overflow. */
  lemma FundedLevelFits(s: State, p: Pair, side: Side, price: nat)
    requires Inv(s) && SupplyFits(s.funds.bal) && Funded(side, price)
    ensures LevelQty(BookAt(s.books, p), side, price) <= U64_MAX
  {
    var c, resting := PayCurrency(p, side), BookAt(s.books, p).Resting(side);
    var holdings := Holdings(s.funds.bal, c);
    BookAtInv(s, p);
    BookInvFrom(BookAt(s.books, p), side);
    InvFits(s);
    forall o | o in resting && o.price == price ensures (o.account, c) in holdings.Keys {
      OwnerHasRow(s, p, side, o);
    }
    LevelWithinHeld(resting, side, price, c, holdings.Keys);
    forall k | k in holdings ensures OrderTotal(Held(k.0), resting) <= holdings[k] {
      SideWithinReserve(s, p, side, k.0);
    }
    SumMonotone(HeldMap(holdings.Keys, resting), holdings);
    assert Supply(s.funds.bal, c) <= U64_MAX;
  }

  ghost predicate LevelsFit(b: BookView) {
    forall side, price :: LevelQty(b, side, price) <= U64_MAX
  }

  /** Asks always tie up funds, so every ask level's total is a u64. */
  ghost predicate AsksFit(b: BookView) {
    forall price :: OrderTotal(Level(price), b.asks) <= U64_MAX
  }

  lemma AsksAlwaysFit(s: State, p: Pair)
    requires Inv(s) && SupplyFits(s.funds.bal)
    ensures AsksFit(BookAt(s.books, p))
  {
    forall price ensures OrderTotal(Level(price), BookAt(s.books, p).asks) <= U64_MAX {
      FundedLevelFits(s, p, Ask, price);
      assert LevelQty(BookAt(s.books, p), Ask, price) <= U64_MAX;
    }
  }

  /** The one order that can overflow a level: a limit bid at price zero on top of others. */
  predicate OverflowsZeroBid(b: BookView, req: OrderRequest) {
    ZeroBid(req) && LevelQty(b, Bid, 0) + req.size > U64_MAX
  }

  /** Bids at zero rule out asks at zero, so such a bid rests whole. */
  lemma ZeroBidRestsWhole(b: BookView, pair: Pair, taker: Order)
    requires BookInv(b) && taker.side.Bid? && taker.orderType.Limit? && taker.price == 0
    requires LevelQty(b, Bid, 0) > 0
    ensures AddOrder(b, pair, taker).remaining == taker.remaining
  {
    LevelNonEmpty(b.bids, 0);
    var o :| o in b.bids && o.price == 0;
    var i :| 0 <= i < |b.bids| && b.bids[i] == o;
    if b.asks != [] {
      assert Clear(Bid, b.bids[i], b.asks[0]);
    }
  }

  predicate ZeroBid(req: OrderRequest) {
    req.side.Bid? && req.orderType.Limit? && req.price == 0
  }

  lemma ZeroBidLevelAfter(b: BookView, pair: Pair, id: nat, a: AccountId, req: OrderRequest)
    requires BookInv(b)
    ensures var p := AddOrder(b, pair, NewOrder(id, a, req));
            && LevelQty(p.book, Bid, 0) <= LevelQty(b, Bid, 0) + (if ZeroBid(req) then p.remaining else 0)
            && (ZeroBid(req) ==> LevelQty(p.book, Bid, 0) == LevelQty(b, Bid, 0) + p.remaining)
  {
    var taker := NewOrder(id, a, req);
    var remaining := AddOrder(b, pair, taker).remaining;
    if req.side.Bid? {
      ZeroBidOwn(b.bids, taker, remaining);
    } else {
      BookInvFrom(b, Ask);
      MatchConserves(Level(0), pair, taker, b.bids);
    }
  }

  lemma ZeroBidOwn(bids: seq<Order>, taker: Order, remaining: nat)
    ensures OrderTotal(Level(0), OwnAfter(bids, taker, remaining)) ==
            OrderTotal(Level(0), bids) + (if taker.orderType.Limit? && taker.price == 0 then remaining else 0)
  {
    EnqueueMembers(bids, taker.(remaining := remaining));
  }

  /** A placement keeps every level sum within u64 unless it is that order, and then it breaks one. */
  lemma LevelsFitIff(s: State, lim: Limits, a: AccountId, req: OrderRequest)
    requires Inv(s) && SupplyFits(s.funds.bal)
    requires LevelsFit(BookAt(s.books, req.pair))
    requires PlaceOrder(s, lim, a, req).1.Ok?
    ensures LevelsFit(PlaceOrder(s, lim, a, req).1.value.book) <==> !OverflowsZeroBid(BookAt(s.books, req.pair), req)
  {
    var b := BookAt(s.books, req.pair);
    var taker := NewOrder(s.nextOrderId, a, req);
    var s' := PlaceOrder(s, lim, a, req).0;
    var book := PlaceOrder(s, lim, a, req).1.value.book;
    PlaceIsAtomic(s, lim, a, req);
    BookAtInv(s, req.pair);
    ZeroBidLevelAfter(b, req.pair, s.nextOrderId, a, req);
    TakerConserves(req.pair, taker, b.Resting(req.side.Opposite()));
    assert LevelQty(b, Bid, 0) <= U64_MAX;
    if OverflowsZeroBid(b, req) {
      ZeroBidRestsWhole(b, req.pair, taker);
      assert LevelQty(book, Bid, 0) > U64_MAX;
    } else {
      forall side, price ensures LevelQty(book, side, price) <= U64_MAX {
        if Funded(side, price) {
          FundedLevelAfterPlace(s, lim, a, req, side, price);
        }
      }
    }
  }

  lemma FundedLevelAfterPlace(s: State, lim: Limits, a: AccountId, req: OrderRequest, side: Side, price: nat)
    requires Inv(s) && SupplyFits(s.funds.bal) && Funded(side, price)
    requires PlaceOrder(s, lim, a, req).1.Ok?
    ensures LevelQty(PlaceOrder(s, lim, a, req).1.value.book, side, price) <= U64_MAX
  {
    var s' := PlaceOrder(s, lim, a, req).0;
    var clean := s'.(funds := s'.funds.(dirty := {}));
    PlaceKeepsInv(s, lim, a, req);
    forall c ensures Supply(clean.funds.bal, c) == Supply(s.funds.bal, c) {
      PlaceSupply(s, lim, a, req, c);
    }
    SameSupplyFits(s.funds.bal, clean.funds.bal);
    FundedLevelFits(clean, req.pair, side, price);
    PlacedBook(s, lim, a, req);
  }

  lemma PlacedBook(s: State, lim: Limits, a: AccountId, req: OrderRequest)
    requires Inv(s) && PlaceOrder(s, lim, a, req).1.Ok?
    ensures var r := PlaceOrder(s, lim, a, req); BookAt(r.0.books, req.pair) == r.1.value.book
  {
    PlaceIsAtomic(s, lim, a, req);
    ExecuteSucceeds(s, a, req, Reserve(s.funds, PayKey(a, req),
      ReserveAmount(req, QuoteAmount(BookAt(s.books, req.pair), req).value)).0);
  }

  // ----- refunds and cancels -----

  /** What computing a buyer's price improvement needs: no term goes below zero, and the sum is a u64. */
  ghost predicate Refundable(price: nat, trades: seq<Trade>) {
    (forall t :: t in trades ==> t.price <= price) && 0 <= Surplus(price, trades) <= U64_MAX
  }

  ghost predicate TermsFit(price: nat, trades: seq<Trade>) {
    forall i :: 0 <= i < |trades| ==> 0 <= (price - trades[i].price) * trades[i].qty <= Surplus(price, trades)
  }

  lemma SurplusBounded(s: State, a: AccountId, req: OrderRequest)
    requires req.side.Bid? && req.orderType.Limit? && QuoteAmount(BookAt(s.books, req.pair), req).Ok?
    ensures Refundable(req.price, PlacementOf(s, a, req).trades)
  {
    var b := BookAt(s.books, req.pair);
    ReserveSplits(b, s.nextOrderId, a, req);
    TradesCross(req.pair, NewOrder(s.nextOrderId, a, req), b.Resting(req.side.Opposite()));
  }

  /** The price improvement refunded to a limit buyer is a u64, and so is every term of its sum. */
  lemma SurplusFits(s: State, a: AccountId, req: OrderRequest)
    requires req.side.Bid? && req.orderType.Limit? && QuoteAmount(BookAt(s.books, req.pair), req).Ok?
    ensures Refundable(req.price, PlacementOf(s, a, req).trades)
    ensures TermsFit(req.price, PlacementOf(s, a, req).trades)
  {
    SurplusBounded(s, a, req);
    EachTermFits(req.price, PlacementOf(s, a, req).trades);
  }

  lemma EachTermFits(price: nat, trades: seq<Trade>)
    requires forall t :: t in trades ==> t.price <= price
    ensures TermsFit(price, trades)
  {
    forall i | 0 <= i < |trades| ensures 0 <= (price - trades[i].price) * trades[i].qty <= Surplus(price, trades) {
      OneOfSurplus(price, trades, i);
    }
  }

  /** Both refunds of an admitted order are u64 amounts. */
  lemma RefundsFit(s: State, a: AccountId, req: OrderRequest, f: Funds)
    requires Admitted(s, a, req, f)
    ensures PlacementOf(s, a, req).remaining <= U64_MAX
    ensures req.side.Bid? && req.orderType.Limit? ==> Refundable(req.price, PlacementOf(s, a, req).trades)
  {
    MatchStops(req.pair, NewOrder(s.nextOrderId, a, req), BookAt(s.books, req.pair).Resting(req.side.Opposite()));
    if req.side.Bid? && req.orderType.Limit? {
      SurplusFits(s, a, req);
    }
  }

  lemma {:induction false} OneOfSurplus(price: nat, trades: seq<Trade>, i: nat)
    requires i < |trades| && forall t :: t in trades ==> t.price <= price
    ensures 0 <= (price - trades[i].price) * trades[i].qty <= Surplus(price, trades)
  {
    assert (price - trades[0].price) * trades[0].qty >= 0;
    if i > 0 {
      OneOfSurplus(price, trades[1..], i - 1);
    } else {
      SurplusNonNegative(price, trades[1..]);
    }
  }

  /** What a cancel gives back is reserved in full and is a u64. */
  lemma CancelAmountFits(s: State, p: Pair, o: Order)
    requires Inv(s) && SupplyFits(s.funds.bal) && Resting(s.books, p, o)
    ensures HeldBy(o) <= Get(s.funds.bal, (o.account, PayCurrency(p, o.side))).reserved <= U64_MAX
  {
    CancelExact(s, p, o);
    InvFits(s);
    HeldWithinSupply(s.funds.bal, (o.account, PayCurrency(p, o.side)));
  }

  /** Everything settling and refunding an admitted order does stays within u64. */
  ghost predicate Settleable(f: Funds, req: OrderRequest, trades: seq<Trade>, remaining: nat) {
    && (forall i :: 0 <= i <= |trades| ==> AllFit(SettleAll(f, req.pair, trades[..i]).bal))
    && (forall i :: 0 <= i < |trades| ==> trades[i].price * trades[i].qty <= U64_MAX)
    && Solvent(SettleAll(f, req.pair, trades).bal)
    && SupplyFits(SettleAll(f, req.pair, trades).bal)
    && remaining <= U64_MAX
    && TotalsFit(trades)
    && (req.side.Bid? && req.orderType.Limit? ==> Refundable(req.price, trades))
  }

  lemma PrefixesFit(s: State, a: AccountId, req: OrderRequest, f: Funds)
    requires Inv(s) && SupplyFits(s.funds.bal) && Admitted(s, a, req, f)
    ensures var trades := PlacementOf(s, a, req).trades;
            && (forall i :: 0 <= i <= |trades| ==> AllFit(SettleAll(f, req.pair, trades[..i]).bal))
            && (forall i :: 0 <= i < |trades| ==> trades[i].price * trades[i].qty <= U64_MAX)
  {
    var trades := PlacementOf(s, a, req).trades;
    forall i | 0 <= i <= |trades| ensures AllFit(SettleAll(f, req.pair, trades[..i]).bal) {
      PrefixFits(s, a, req, f, i);
    }
    forall i | 0 <= i < |trades| ensures trades[i].price * trades[i].qty <= U64_MAX {
      CostFits(s, a, req, f, i);
    }
  }

  lemma SettledSolvent(s: State, a: AccountId, req: OrderRequest, f: Funds)
    requires Inv(s) && SupplyFits(s.funds.bal) && Admitted(s, a, req, f)
    ensures var settled := SettleAll(f, req.pair, PlacementOf(s, a, req).trades);
            Solvent(settled.bal) && SupplyFits(settled.bal)
  {
    var trades := PlacementOf(s, a, req).trades;
    assert trades[..|trades|] == trades;
    PrefixSolvent(s, a, req, f, |trades|);
    PrefixSupplyFits(s, a, req, f, |trades|);
  }

  lemma AdmittedIsSettleable(s: State, a: AccountId, req: OrderRequest, f: Funds)
    requires Inv(s) && SupplyFits(s.funds.bal) && Admitted(s, a, req, f)
    ensures Settleable(f, req, PlacementOf(s, a, req).trades, PlacementOf(s, a, req).remaining)
  {
    PrefixesFit(s, a, req, f);
    SettledSolvent(s, a, req, f);
    RefundsFit(s, a, req, f);
    ReplyFits(s, a, req, f);
  }
}
