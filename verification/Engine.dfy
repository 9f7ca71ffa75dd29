/**
  The engine that runs: books, ledger and dedup window as objects updated in place. Each method
  is proved equal to `EngineSpec`; the invariant and the supply bound discharge every unchecked
  u64 operation on the way.
 */
module Engines {
  import opened Domain
  import opened Matching
  import opened BookSpec
  import opened Levels
  import opened Listing
  import opened OrderBooks
  import opened LedgerSpec
  import opened Ledgers
  import opened DedupSpec
  import opened Dedups
  import opened Events
  import opened EngineSpec
  import opened Reserves
  import opened Routing
  import opened PlaceProof
  import opened EngineInv
  import opened Overflow

  /** Route future cancels of a rested order; drop makers that are no longer in the book. */
  method RouteOrders(route0: map<nat, Pair>, id: nat, pair: Pair, trades: seq<Trade>, index: map<nat, Location>)
    returns (route: map<nat, Pair>)
    ensures route == RouteAfter(route0, pair, id, index.Keys, MakerIds(trades))
  {
    route := if id in index then route0[id := pair] else route0;
    ghost var start := route;
    ghost var gone: set<nat> := {};
    for i := 0 to |trades|
      invariant gone == MakerIds(trades[..i]) - index.Keys
      invariant route == start - gone
    {
      assert trades[..i + 1] == trades[..i] + [trades[i]];
      MakerIdsPush(trades[..i], trades[i]);
      if trades[i].makerId !in index {
        route := route - {trades[i].makerId};
        gone := gone + {trades[i].makerId};
      }
    }
    assert trades[..|trades|] == trades;
  }

  /** A limit buyer's price improvement, every term and every partial sum a u64. */
  method SurplusOf(price: u64, trades: seq<Trade>) returns (sum: u64)
    requires Refundable(price, trades)
    ensures sum == Surplus(price, trades)
  {
    sum := 0;
    ghost var total := Surplus(price, trades);
    for i := 0 to |trades|
      invariant sum + Surplus(price, trades[i..]) == total
      invariant sum <= total
    {
      var t := trades[i];
      ghost var rest := trades[i..];
      assert rest[0] == t && rest[1..] == trades[i + 1..];
      assert forall x :: x in rest ==> x in trades;
      OneOfSurplus(price, rest, 0);
      SurplusNonNegative(price, rest[1..]);
      var term: u64 := (price - t.price) * t.qty;
      sum := sum + term;
    }
  }

  /** The reply, the ordered events and the level changes of an accepted order. */
  method ReportPlacement(a: AccountId, req: OrderRequest, resp: MatchResponse, ghost p: Placement)
    returns (response: CommandResponse, core: seq<Event>, deltas: seq<(LevelKey, nat)>)
    requires Answers(resp, resp.orderId, p)
    requires TotalsFit(p.trades)
    ensures response ==
            PlaceReply(Ok(PlaceOrderResponse(resp.orderId, TradeTotal(Volume, p.trades), TradeTotal(Worth, p.trades))))
    ensures core == PlaceEvents(resp.orderId, a, req, p)
    ensures Lists(deltas, LevelDeltas(req.pair, p.book, p.dirty))
  {
    var filled: u64, cost: u64 := TradeTotal(Volume, resp.trades), TradeTotal(Worth, resp.trades);
    response := PlaceReply(Ok(PlaceOrderResponse(resp.orderId, filled, cost)));
    core := [OrderAccepted(resp.orderId, a, req.pair, req.side, req.orderType, req.price, req.size)]
            + TradeEvents(resp.trades) + UpdateEvents(req.pair, resp.updates);
    deltas := Keyed(req.pair, resp.bookDeltas);
    KeyedLists(req.pair, p.book, p.dirty, resp.bookDeltas);
  }

  predicate Apart(p: Pair, q: Pair) {
    p != q
  }

  class Engine {
    var books: map<Pair, OrderBook>
    ghost var view: map<Pair, BookView>
    var orderPair: map<nat, Pair>
    var nextOrderId: nat
    var nextSeq: nat
    const ledger: Ledger
    const dedup: Dedup
    var listedPairs: set<Pair>
    const limits: Limits

    ghost function State(): State
      reads this, ledger, dedup
    {
      EngineSpec.State(view, ledger.State(), nextOrderId, nextSeq, dedup.order, listedPairs)
    }

    /** The book of one market is in order and holds what `view` says. */
    ghost predicate InOrder(p: Pair)
      requires p in books && p in view
      reads `books, `view, books[p]
    {
      books[p].Valid() && books[p].View() == view[p]
    }

    /** Every market has its own book object, and `view` is what they hold. */
    ghost predicate BooksValid()
      reads `books, `view, books.Values
    {
      && books.Keys == view.Keys
      && (forall p {:trigger InOrder(p)} :: p in books ==> InOrder(p))
      && (forall p, q {:trigger Apart(p, q)} :: p in books && q in books && Apart(p, q) ==> books[p] != books[q])
    }

    ghost predicate Valid()
      reads this, books.Values, ledger, dedup
    {
      && BooksValid()
      && ledger.Valid()
      && dedup.Valid()
      && Routed(orderPair, view)
    }

    constructor (limits: Limits)
      ensures Valid() && State() == Init && Inv(State()) && this.limits == limits
      ensures fresh(ledger) && fresh(dedup)
    {
      books, view, orderPair, nextOrderId, nextSeq, listedPairs := map[], map[], map[], 0, 0, {};
      ledger := new Ledger();
      dedup := new Dedup();
      this.limits := limits;
      InitInv();
    }

    // ----- placing -----

    method CheckGuards(a: AccountId, req: OrderRequest) returns (r: Option<RejectReason>)
      requires BooksValid()
      ensures r == Guard(State(), limits, a, req)
    {
      if !req.pair.IsValid() || req.pair !in listedPairs {
        return Some(InvalidPair);
      }
      if req.pair in books {
        var book := books[req.pair];
        assert InOrder(req.pair);
        if req.orderType.Limit? && limits.priceBandBps.Some? && book.lastTradePrice.Some? {
          var band := PriceBand(book.lastTradePrice.value, limits.priceBandBps.value);
          if req.price < band.0 || req.price > band.1 {
            return Some(PriceOutOfBand);
          }
        }
        if limits.preventSelfTrade {
          var own := book.WouldSelfTrade(a, req, nextOrderId);
          if own {
            return Some(SelfTrade);
          }
        }
      }
      r := None;
    }

    method QuoteFor(req: OrderRequest) returns (r: Result<nat>)
      requires BooksValid() && AsksFit(BookAt(view, req.pair))
      ensures r == QuoteAmount(BookAt(view, req.pair), req)
    {
      if req.orderType.Market? && req.side.Bid? {
        if req.pair in books {
          assert InOrder(req.pair);
          r := books[req.pair].MarketBuyCost(req.size);
        } else {
          r := Ok(0);
        }
      } else {
        r := Checked(req.price * req.size);
      }
    }

    /** This pair's book, created on first use. */
    method BookFor(pair: Pair) returns (book: OrderBook)
      requires BooksValid()
      modifies `books, `view
      ensures BooksValid() && books == old(books)[pair := book]
      ensures view == old(view)[pair := BookAt(old(view), pair)]
      ensures if pair in old(books) then book == old(books)[pair] && book in old(books).Values else fresh(book)
    {
      if pair in books {
        book := books[pair];
      } else {
        book := new OrderBook();
        books := books[pair := book];
      }
      view := view[pair := BookAt(view, pair)];
      forall q | q in books ensures InOrder(q) {
        assert q in old(books) ==> old(InOrder(q));
      }
    }

    method SettleTrades(pair: Pair, trades: seq<Trade>)
      requires ledger.Valid() && pair.IsValid()
      requires forall i :: 0 <= i < |trades| ==> trades[i].price * trades[i].qty <= U64_MAX
      requires forall i :: 0 <= i <= |trades| ==> AllFit(SettleAll(ledger.State(), pair, trades[..i]).bal)
      modifies ledger
      ensures ledger.Valid() && ledger.State() == SettleAll(old(ledger.State()), pair, trades)
    {
      ghost var start := ledger.State();
      for i := 0 to |trades|
        invariant ledger.Valid() && ledger.State() == SettleAll(start, pair, trades[..i])
      {
        SettlePrefix(start, pair, trades, i);
        assert AllFit(SettleAll(start, pair, trades[..i + 1]).bal);
        ledger.Settle(pair, trades[i]);
      }
      assert trades[..|trades|] == trades;
    }

    /** A market sell's unfilled part, then a limit buyer's price improvement. */
    method Refund(a: AccountId, req: OrderRequest, trades: seq<Trade>, remaining: u64) returns (r: Result<()>)
      requires ledger.Valid() && Solvent(ledger.balances) && SupplyFits(ledger.balances)
      requires req.side.Bid? && req.orderType.Limit? ==> Refundable(req.price, trades)
      modifies ledger
      ensures ledger.Valid()
      ensures var after := RefundSurplus(ReleaseLeftover(old(ledger.State()), a, req, remaining), a, req, trades);
              ledger.State() == after.0 && r == after.1
    {
      r := Ok(());
      if req.orderType.Market? && req.side.Ask? && remaining > 0 {
        RoomToMove(ledger.balances, (a, req.pair.base), remaining);
        var _ := ledger.Release((a, req.pair.base), remaining);
      }
      if req.side.Bid? && req.orderType.Limit? {
        var surplus := SurplusOf(req.price, trades);
        if surplus > 0 {
          RoomToMove(ledger.balances, (a, req.pair.quote), surplus);
          r := ledger.Release((a, req.pair.quote), surplus);
        }
      }
    }

    /** Only this book changes; the others are different objects. */
    method UpdateBook(id: nat, a: AccountId, req: OrderRequest, ghost p: Placement)
      returns (resp: MatchResponse, index: map<nat, Location>)
      requires BooksValid() && req.pair in books && id !in BookIds(view[req.pair])
      requires p == AddOrder(view[req.pair], req.pair, NewOrder(id, a, req))
      modifies books[req.pair], `view
      ensures BooksValid() && view == old(view)[req.pair := p.book]
      ensures Answers(resp, id, p) && index.Keys == BookIds(p.book)
    {
      var book := books[req.pair];
      assert InOrder(req.pair);
      IndexIsIds(book);
      resp := book.AddOrder(id, a, req);
      IndexIsIds(book);
      index := book.orderIndex;
      view := view[req.pair := p.book];
      forall q | q in books ensures InOrder(q) {
        assert old(InOrder(q)) && (q != req.pair ==> Apart(q, req.pair));
      }
    }

    method AddToBook(id: nat, a: AccountId, req: OrderRequest, ghost p: Placement)
      returns (resp: MatchResponse, index: map<nat, Location>)
      requires BooksValid() && id !in BookIds(BookAt(view, req.pair))
      requires p == AddOrder(BookAt(view, req.pair), req.pair, NewOrder(id, a, req))
      modifies `books, `view, books.Values
      ensures BooksValid() && fresh(books.Values - old(books.Values))
      ensures view == old(view)[req.pair := p.book] && Answers(resp, id, p)
      ensures index.Keys == BookIds(p.book)
    {
      var _ := BookFor(req.pair);
      resp, index := UpdateBook(id, a, req, p);
    }

    /** Match an admitted order in its book and route it. */
    method MatchOrder(a: AccountId, req: OrderRequest, ghost p: Placement) returns (resp: MatchResponse)
      requires BooksValid() && nextOrderId !in BookIds(BookAt(view, req.pair))
      requires p == AddOrder(BookAt(view, req.pair), req.pair, NewOrder(nextOrderId, a, req))
      requires Routed(RouteAfter(orderPair, req.pair, nextOrderId, BookIds(p.book), MakerIds(p.trades)),
                      view[req.pair := p.book])
      modifies this, books.Values
      ensures BooksValid() && Routed(orderPair, view) && fresh(books.Values - old(books.Values))
      ensures nextSeq == old(nextSeq) && listedPairs == old(listedPairs) && nextOrderId == old(nextOrderId) + 1
      ensures view == old(view)[req.pair := p.book] && Answers(resp, old(nextOrderId), p)
    {
      var index;
      resp, index := AddToBook(nextOrderId, a, req, p);
      var route := RouteOrders(orderPair, nextOrderId, req.pair, resp.trades, index);
      orderPair, nextOrderId := route, nextOrderId + 1;
    }

    /** Settle the fills one by one, then release what the taker no longer needs. */
    method SettleAndRefund(a: AccountId, req: OrderRequest, trades: seq<Trade>, remaining: nat)
      returns (refund: Result<()>)
      requires ledger.Valid() && req.pair.IsValid() && Settleable(ledger.State(), req, trades, remaining)
      modifies ledger
      ensures ledger.Valid()
      ensures var after := RefundSurplus(
                ReleaseLeftover(SettleAll(old(ledger.State()), req.pair, trades), a, req, remaining), a, req, trades);
              ledger.State() == after.0 && refund == after.1
    {
      SettleTrades(req.pair, trades);
      refund := Refund(a, req, trades, remaining);
    }

    method ReserveFor(a: AccountId, req: OrderRequest, quoteAmount: u64) returns (r: Result<()>)
      requires ledger.Valid() && Solvent(ledger.balances) && SupplyFits(ledger.balances)
      modifies ledger
      ensures ledger.Valid()
      ensures var after := Reserve(old(ledger.State()), PayKey(a, req), ReserveAmount(req, quoteAmount));
              ledger.State() == after.0 && r == after.1
    {
      RoomToMove(ledger.balances, PayKey(a, req), ReserveAmount(req, quoteAmount));
      match req.side
      case Bid => r := ledger.Reserve((a, req.pair.quote), quoteAmount);
      case Ask => r := ledger.Reserve((a, req.pair.base), req.size);
    }

    /** Match, route, settle, refund. */
    method MatchAndSettle(a: AccountId, req: OrderRequest, ghost s: State, ghost p: Placement)
      returns (r: Result<MatchResponse>)
      requires BooksValid() && ledger.Valid() && dedup.Valid()
      requires State() == s.(funds := ledger.State()) && Executable(orderPair, s, a, req, ledger.State(), p)
      modifies this, ledger, books.Values
      ensures Valid() && fresh(books.Values - old(books.Values))
      ensures var after := Execute(s, a, req, old(ledger.State()));
              State() == after.0 && Replied(r, s.nextOrderId, after.1)
      ensures r.Ok? ==> TotalsFit(r.value.trades)
    {
      var resp := MatchOrder(a, req, p);
      var refund := SettleAndRefund(a, req, resp.trades, resp.takerRemaining);
      match refund
      case Err(e) => r := Err(e);
      case Ok(_) => r := Ok(resp);
    }

    /** Everything after a successful reserve. */
    method ExecuteOrder(a: AccountId, req: OrderRequest, ghost s: State) returns (r: Result<MatchResponse>)
      requires BooksValid() && ledger.Valid() && dedup.Valid() && Routed(orderPair, view)
      requires Inv(s) && SupplyFits(s.funds.bal) && Admitted(s, a, req, ledger.State())
      requires State() == s.(funds := ledger.State())
      modifies this, ledger, books.Values
      ensures Valid() && fresh(books.Values - old(books.Values))
      ensures var after := Execute(s, a, req, old(ledger.State()));
              State() == after.0 && Replied(r, s.nextOrderId, after.1)
      ensures r.Ok? ==> TotalsFit(r.value.trades)
    {
      ReadyToExecute(orderPair, s, a, req, ledger.State());
      r := MatchAndSettle(a, req, s, PlacementOf(s, a, req));
    }

    /** Guards, pricing, reservation: everything that can turn an order away. */
    method Admit(a: AccountId, req: OrderRequest) returns (r: Result<()>)
      requires BooksValid() && ledger.Valid() && Solvent(ledger.balances) && SupplyFits(ledger.balances)
      requires AsksFit(BookAt(view, req.pair))
      modifies ledger
      ensures ledger.Valid() && BooksValid()
      ensures var s := old(State());
              var place := EngineSpec.PlaceOrder(s, limits, a, req);
              match r
              case Err(e) => place == (s.(funds := ledger.State()), Err(e))
              case Ok(_) => Admitted(s, a, req, ledger.State()) && place == Execute(s, a, req, ledger.State())
    {
      var guard := CheckGuards(a, req);
      if guard.Some? {
        return Err(guard.value);
      }
      var quote := QuoteFor(req);
      if quote.Err? {
        return Err(quote.reason);
      }
      r := ReserveFor(a, req, quote.value);
    }

    method PlaceOrder(a: AccountId, req: OrderRequest) returns (r: Result<MatchResponse>)
      requires Valid() && Inv(State()) && SupplyFits(State().funds.bal)
      modifies this, ledger, books.Values
      ensures Valid() && fresh(books.Values - old(books.Values))
      ensures var after := EngineSpec.PlaceOrder(old(State()), limits, a, req);
              State() == after.0 && Replied(r, old(nextOrderId), after.1)
      ensures r.Ok? ==> TotalsFit(r.value.trades)
    {
      ghost var s := State();
      InvFits(s);
      AsksAlwaysFit(s, req.pair);
      var admitted := Admit(a, req);
      if admitted.Err? {
        return Err(admitted.reason);
      }
      r := ExecuteOrder(a, req, s);
    }

    // ----- cancelling -----

    /** Take the order out of its own book; the others are different objects. */
    method CancelInBook(pair: Pair, a: AccountId, id: nat) returns (r: Option<(Order, seq<((Side, nat), nat)>)>)
      requires BooksValid() && pair in books
      modifies books[pair], `view
      ensures BooksValid()
      ensures var b := old(view)[pair];
              && (r.Some? <==> Lookup(b, id).Some? && Lookup(b, id).value.account == a)
              && (r.None? ==> view == old(view))
              && (r.Some? ==>
                    var o := Lookup(b, id).value;
                    && r.value.0 == o
                    && view == old(view)[pair := Drop(b, o)]
                    && Lists(r.value.1, Deltas(Drop(b, o), {(o.side, o.price)})))
    {
      var book := books[pair];
      assert InOrder(pair);
      r := book.CancelOrder(a, id);
      if r.Some? {
        view := view[pair := Drop(view[pair], r.value.0)];
      }
      forall q | q in books ensures InOrder(q) {
        assert old(InOrder(q)) && (q != pair ==> Apart(q, pair));
      }
    }

    /** Give back what the rest of a cancelled order had reserved; a failure is ignored. */
    method ReleaseOrder(pair: Pair, order: Order)
      requires ledger.Valid() && Solvent(ledger.balances) && SupplyFits(ledger.balances) && HeldBy(order) <= U64_MAX
      modifies ledger
      ensures ledger.Valid()
      ensures ledger.State() ==
              Release(old(ledger.State()), (order.account, PayCurrency(pair, order.side)), HeldBy(order)).0
    {
      RoomToMove(ledger.balances, (order.account, PayCurrency(pair, order.side)), HeldBy(order));
      if order.side.Bid? {
        var _ := ledger.Release((order.account, pair.quote), order.price * order.remaining);
      } else {
        var _ := ledger.Release((order.account, pair.base), order.remaining);
      }
    }

    /** Cancel in a known market: book, ledger and route, each as specified. */
    method CancelAt(pair: Pair, a: AccountId, id: nat, ghost b: BookView)
      returns (r: Option<(Order, seq<((Side, nat), nat)>)>)
      requires BooksValid() && pair in books && b == view[pair]
      requires ledger.Valid() && Solvent(ledger.balances) && SupplyFits(ledger.balances)
      requires Lookup(b, id).Some? ==> HeldBy(Lookup(b, id).value) <= U64_MAX
      modifies `orderPair, `view, ledger, books[pair]
      ensures BooksValid() && ledger.Valid()
      ensures r.Some? <==> Lookup(b, id).Some? && Lookup(b, id).value.account == a
      ensures r.None? ==> view == old(view) && ledger.State() == old(ledger.State()) && orderPair == old(orderPair)
      ensures r.Some? ==>
                var o := Lookup(b, id).value;
                && r.value.0 == o
                && view == old(view)[pair := Drop(b, o)]
                && ledger.State() == Release(old(ledger.State()), (o.account, PayCurrency(pair, o.side)), HeldBy(o)).0
                && orderPair == old(orderPair) - {id}
                && Lists(r.value.1, Deltas(Drop(b, o), {(o.side, o.price)}))
    {
      r := CancelInBook(pair, a, id);
      if r.Some? {
        ReleaseOrder(pair, r.value.0);
        orderPair := orderPair - {id};
      }
    }

    method CancelOrder(a: AccountId, id: nat)
      returns (r: Option<(Pair, Order, seq<((Side, nat), nat)>)>)
      requires Valid() && Inv(State()) && SupplyFits(State().funds.bal)
      modifies this, ledger, books.Values
      ensures Valid() && books == old(books)
      ensures var after := EngineSpec.CancelOrder(old(State()), a, id);
              State() == after.0 && CancelReplied(r, after)
    {
      ghost var s := State();
      CancelRouted(orderPair, s, a, id);
      if id !in orderPair {
        return None;
      }
      var pair := orderPair[id];
      var c := CancelAt(pair, a, id, s.books[pair]);
      if c.None? {
        return None;
      }
      r := Some((pair, c.value.0, c.value.1));
    }

    // ----- depositing -----

    method DepositFunds(a: AccountId, c: Currency, amount: u64, ghost s: State) returns (r: Result<int>)
      requires ledger.Valid() && Solvent(ledger.balances) && SupplyFits(ledger.balances) && s.funds == ledger.State()
      modifies ledger
      ensures ledger.Valid()
      ensures var after := EngineSpec.DepositFunds(s, limits, a, c, amount);
              s.(funds := ledger.State()) == after.0 && r == after.1
    {
      HeldWithinSupply(ledger.balances, (a, c));
      var b := Get(ledger.balances, (a, c));
      var held: u64 := b.available + b.reserved;
      var after := held + amount;
      if after > U64_MAX {
        return Err(InvalidAmount);
      }
      if after > limits.DepositCeiling(c) {
        return Err(DepositLimitExceeded);
      }
      var available := ledger.Deposit((a, c), amount);
      r := Ok(available);
    }

    // ----- dispatch -----

    method RunCommand(a: AccountId, command: Command)
      returns (response: CommandResponse, core: seq<Event>, deltas: seq<(LevelKey, nat)>)
      requires Valid() && Inv(State()) && SupplyFits(State().funds.bal)
      modifies this, ledger, books.Values
      ensures Valid() && fresh(books.Values - old(books.Values))
      ensures Did(State(), response, core, deltas, Run(old(State()), limits, a, command))
    {
      match command {
        case Place(req) => response, core, deltas := RunPlace(a, req);
        case Cancel(id) => response, core, deltas := RunCancel(a, id);
        case Deposit(c, amount) =>
          InvFits(State());
          response, core, deltas := RunDeposit(a, c, amount);
        case Withdraw(c, amount) => response, core, deltas := RunWithdraw(a, c, amount);
        case ListPair(pair) => response, core, deltas := RunList(a, pair);
        case DelistPair(pair) => response, core, deltas := RunDelist(a, pair);
      }
    }

    method RunDeposit(a: AccountId, c: Currency, amount: u64)
      returns (response: CommandResponse, core: seq<Event>, deltas: seq<(LevelKey, nat)>)
      requires Valid() && Solvent(ledger.balances) && SupplyFits(ledger.balances)
      modifies ledger
      ensures Valid()
      ensures Did(State(), response, core, deltas, Run(old(State()), limits, a, Command.Deposit(c, amount)))
    {
      var r := DepositFunds(a, c, amount, State());
      response, core, deltas := DepositReply(r), [], [];
    }

    method RunWithdraw(a: AccountId, c: Currency, amount: u64)
      returns (response: CommandResponse, core: seq<Event>, deltas: seq<(LevelKey, nat)>)
      requires Valid()
      modifies ledger
      ensures Valid()
      ensures Did(State(), response, core, deltas, Run(old(State()), limits, a, Command.Withdraw(c, amount)))
    {
      var r := ledger.Withdraw((a, c), amount);
      response, core, deltas := WithdrawReply(r), [], [];
    }

    method RunList(a: AccountId, pair: Pair)
      returns (response: CommandResponse, core: seq<Event>, deltas: seq<(LevelKey, nat)>)
      requires Valid()
      modifies `listedPairs
      ensures Valid()
      ensures Did(State(), response, core, deltas, Run(old(State()), limits, a, ListPair(pair)))
    {
      core, deltas := [], [];
      if !pair.IsValid() {
        response := ListReply(Err(InvalidPair));
      } else {
        response := ListReply(Ok(pair !in listedPairs));
        listedPairs := listedPairs + {pair};
      }
    }

    method RunDelist(a: AccountId, pair: Pair)
      returns (response: CommandResponse, core: seq<Event>, deltas: seq<(LevelKey, nat)>)
      requires Valid()
      modifies `listedPairs
      ensures Valid()
      ensures Did(State(), response, core, deltas, Run(old(State()), limits, a, DelistPair(pair)))
    {
      response, core, deltas := DelistReply(pair in listedPairs), [], [];
      listedPairs := listedPairs - {pair};
    }

    method RunPlace(a: AccountId, req: OrderRequest)
      returns (response: CommandResponse, core: seq<Event>, deltas: seq<(LevelKey, nat)>)
      requires Valid() && Inv(State()) && SupplyFits(State().funds.bal)
      modifies this, ledger, books.Values
      ensures Valid() && fresh(books.Values - old(books.Values))
      ensures Did(State(), response, core, deltas, PlaceEffect(old(State()), limits, a, req))
    {
      ghost var s := State();
      var r := PlaceOrder(a, req);
      match r {
        case Err(e) => response, core, deltas := PlaceReply(Err(e)), [], [];
        case Ok(resp) =>
          response, core, deltas := ReportPlacement(a, req, resp, EngineSpec.PlaceOrder(s, limits, a, req).1.value);
      }
    }

    method RunCancel(a: AccountId, id: nat)
      returns (response: CommandResponse, core: seq<Event>, deltas: seq<(LevelKey, nat)>)
      requires Valid() && Inv(State()) && SupplyFits(State().funds.bal)
      modifies this, ledger, books.Values
      ensures Valid() && fresh(books.Values - old(books.Values))
      ensures Did(State(), response, core, deltas, CancelEffect(old(State()), a, id))
    {
      var r := CancelOrder(a, id);
      match r {
        case None => response, core, deltas := CancelReply(false), [], [];
        case Some(c) =>
          CancelledId(old(State()), a, id);
          response := CancelReply(true);
          core := [OrderCancelled(id), OrderUpdated(c.0, CancelUpdate(c.1))];
          deltas := Keyed(c.0, c.2);
          KeyedLists(c.0, BookAt(State().books, c.0), {(c.1.side, c.1.price)}, c.2);
      }
    }

    /** The dirty balances, each once, with their current values. */
    method DrainBalances() returns (changed: seq<(Key, Balance)>)
      requires ledger.Valid()
      modifies ledger
      ensures ledger.Valid() && ledger.State() == old(ledger.State()).(dirty := {})
      ensures Lists(changed, ChangedBalances(old(ledger.State())))
    {
      var keys := ledger.TakeDirty();
      changed := [];
      for i := 0 to |keys|
        invariant |changed| == i
        invariant forall j :: 0 <= j < i ==> changed[j] == (keys[j], ledger.balances[keys[j]])
      {
        changed := changed + [(keys[i], ledger.balances[keys[i]])];
      }
      forall k | k in ChangedBalances(old(ledger.State())) ensures Named(changed, k) {
        var i :| 0 <= i < |keys| && keys[i] == k;
        assert changed[i].0 == k;
      }
    }

    /** Drain the dirty balances and stamp a sequence number if anything happened. */
    method SealBatch(core: seq<Event>, deltas: seq<(LevelKey, nat)>, ghost e: Effect) returns (batch: Option<EventBatch>)
      requires Valid() && State() == e.state && core == e.core && Lists(deltas, e.deltas)
      modifies `nextSeq, ledger
      ensures Valid()
      ensures Stepped(State(), e.response, batch, Seal(e))
    {
      var changed := DrainBalances();
      EmptyListings(deltas, e.deltas, changed, e.state.funds);
      if core == [] && deltas == [] && changed == [] {
        return None;
      }
      var seqNo := nextSeq;
      nextSeq := nextSeq + 1;
      batch := Some(EventBatch(seqNo, core + DeltaEvents(deltas) + BalanceEvents(changed)));
      assert PublishedAs(batch.value, Seal(e).batch.value, deltas, changed);
    }

    /** Run the command and publish what it did. */
    method Dispatch(a: AccountId, command: Command) returns (response: CommandResponse, batch: Option<EventBatch>)
      requires Valid() && Inv(State()) && SupplyFits(State().funds.bal)
      modifies this, ledger, books.Values
      ensures Valid() && fresh(books.Values - old(books.Values))
      ensures Stepped(State(), response, batch, Seal(Run(old(State()), limits, a, command)))
    {
      ghost var e := Run(State(), limits, a, command);
      var core, deltas;
      response, core, deltas := RunCommand(a, command);
      batch := SealBatch(core, deltas, e);
    }

    method Accept(env: Envelope) returns (response: CommandResponse, batch: Option<EventBatch>)
      requires Valid() && Inv(State()) && SupplyFits(State().funds.bal)
      modifies this, ledger, dedup, books.Values
      ensures Valid() && fresh(books.Values - old(books.Values))
      ensures Stepped(State(), response, batch, EngineSpec.Apply(old(State()), limits, env))
    {
      ghost var s := State();
      TryKeepsWindow(s.window, env.account, env.key);
      var isNew := dedup.Insert(env.account, env.key);
      if !isNew {
        return Duplicate, None;
      }
      CountersKeepInv(s, dedup.order, s.nextSeq);
      response, batch := Dispatch(env.account, env.command);
    }

    /** One command, whole: the specification's step, and the invariant for the next one. */
    method Apply(env: Envelope) returns (response: CommandResponse, batch: Option<EventBatch>)
      requires Valid() && Inv(State()) && SupplyFits(State().funds.bal)
      modifies this, ledger, dedup, books.Values
      ensures Valid() && Inv(State()) && fresh(books.Values - old(books.Values))
      ensures Stepped(State(), response, batch, EngineSpec.Apply(old(State()), limits, env))
    {
      ApplyKeepsInv(State(), limits, env);
      response, batch := Accept(env);
    }
  }

  /** The new state, the reply and the published batch are those of the specification's step. */
  ghost predicate Stepped(s: State, response: CommandResponse, batch: Option<EventBatch>, step: Step) {
    && s == step.state
    && response == step.response
    && (batch.Some? <==> step.batch.Some?)
    && (batch.Some? ==> Publishes(batch.value, step.batch.value))
  }

  /** What a command method reports is what the specification says it did. */
  ghost predicate Did(s: State, response: CommandResponse, core: seq<Event>, deltas: seq<(LevelKey, nat)>, e: Effect) {
    s == e.state && response == e.response && core == e.core && Lists(deltas, e.deltas)
  }

  function Keyed(pair: Pair, s: seq<((Side, nat), nat)>): seq<(LevelKey, nat)> {
    seq(|s|, i requires 0 <= i < |s| => (LevelKey(pair, s[i].0.0, s[i].0.1), s[i].1))
  }

  lemma KeyedLists(pair: Pair, b: BookView, dirty: set<(Side, nat)>, s: seq<((Side, nat), nat)>)
    requires Lists(s, Deltas(b, dirty))
    ensures Lists(Keyed(pair, s), LevelDeltas(pair, b, dirty))
  {
    var rename := map d: (Side, nat) | d in dirty :: LevelKey(pair, d.0, d.1);
    var m' := LevelDeltas(pair, b, dirty);
    forall l | l in m' ensures l in rename.Values {
      var d :| d in dirty && LevelKey(pair, d.0, d.1) == l;
      assert d in rename && rename[d] == l;
    }
    assert m'.Keys == rename.Values;
    ListsRenamed(s, Deltas(b, dirty), Keyed(pair, s), m', rename);
  }

  lemma CancelledId(s: State, a: AccountId, id: nat)
    requires Inv(s) && EngineSpec.CancelOrder(s, a, id).1.Some?
    ensures EngineSpec.CancelOrder(s, a, id).1.value.1.id == id
  {
    var p := Locate(s.books, id).value;
    LookupFinds(s.books[p], id);
  }

  /** A listing is empty exactly when what it lists is. */
  lemma EmptyListings(
    deltas: seq<(LevelKey, nat)>, m: map<LevelKey, nat>, changed: seq<(Key, Balance)>, f: Funds)
    requires Lists(deltas, m) && Lists(changed, ChangedBalances(f))
    ensures (deltas == [] <==> m == map[]) && (changed == [] <==> f.dirty == {})
  {
    if deltas != [] {
      assert deltas[0].0 in m;
    }
    if m != map[] {
      var k :| k in m;
      assert Named(deltas, k);
    }
    if changed != [] {
      assert changed[0].0 in ChangedBalances(f);
    }
    if f.dirty != {} {
      var k :| k in f.dirty;
      assert k in ChangedBalances(f);
      assert Named(changed, k);
    }
  }

  ghost predicate CancelReplied(
    r: Option<(Pair, Order, seq<((Side, nat), nat)>)>, spec: (State, Option<(Pair, Order)>))
  {
    match spec.1
    case None => r.None?
    case Some(c) =>
      && r.Some? && (r.value.0, r.value.1) == c
      && Lists(r.value.2, Deltas(BookAt(spec.0.books, c.0), {(c.1.side, c.1.price)}))
  }

  /** Looking the id up in `order_pair` finds the market the order rests in. */
  lemma RouteLocates(route: map<nat, Pair>, books: map<Pair, BookView>, nextId: nat, id: nat)
    requires Routed(route, books) && BooksInv(books, nextId)
    ensures Locate(books, id) == if id in route then Some(route[id]) else None
    ensures id in route ==> route[id] in books
  {
    forall p | p in books ensures RestsIn(books, p, id) <==> id in route && route[id] == p {
      RestsInIds(books, nextId, p, id);
      assert RoutedAt(route, books, id, p);
    }
    if id in route {
      assert RoutedAt(route, books, id, route[id]);
      LocateFinds(books, nextId, route[id], id);
    }
  }

  /** The cancel specification, read through the route. */
  lemma CancelRouted(route: map<nat, Pair>, s: State, a: AccountId, id: nat)
    requires Routed(route, s.books) && Inv(s) && SupplyFits(s.funds.bal)
    ensures Solvent(s.funds.bal)
    ensures id !in route ==> EngineSpec.CancelOrder(s, a, id) == (s, None)
    ensures id in route ==> route[id] in s.books && CancelRoutedTo(route, s, a, id, route[id])
    ensures id in route && Lookup(s.books[route[id]], id).Some? ==> HeldBy(Lookup(s.books[route[id]], id).value) <= U64_MAX
  {
    InvFits(s);
    RouteLocates(route, s.books, s.nextOrderId, id);
    if id in route && Lookup(s.books[route[id]], id).Some? {
      LookupFinds(s.books[route[id]], id);
      RoutedAfterCancel(route, s.books, s.nextOrderId, route[id], Lookup(s.books[route[id]], id).value);
      CancelAmountFits(s, route[id], Lookup(s.books[route[id]], id).value);
    }
  }

  ghost predicate CancelRoutedTo(route: map<nat, Pair>, s: State, a: AccountId, id: nat, pair: Pair)
    requires pair in s.books
  {
    var found := Lookup(s.books[pair], id);
    if found.None? || found.value.account != a then EngineSpec.CancelOrder(s, a, id) == (s, None)
    else
      var o := found.value;
      var books := s.books[pair := Drop(s.books[pair], o)];
      && Routed(route - {id}, books)
      && EngineSpec.CancelOrder(s, a, id) ==
         (s.(books := books, funds := Release(s.funds, (o.account, PayCurrency(pair, o.side)), HeldBy(o)).0),
          Some((pair, o)))
  }

  ghost predicate Replied(r: Result<MatchResponse>, id: nat, spec: Result<Placement>) {
    match spec
    case Err(e) => r == Err(e)
    case Ok(p) => r.Ok? && Answers(r.value, id, p)
  }

  /** A match response carries exactly what the placement produced. */
  ghost predicate Answers(resp: MatchResponse, id: nat, p: Placement) {
    && resp.orderId == id
    && resp.trades == p.trades
    && resp.updates == p.updates
    && resp.takerRemaining == p.remaining
    && Lists(resp.bookDeltas, Deltas(p.book, p.dirty))
  }

  /** An admitted order can be matched, routed, settled and refunded without leaving u64. */
  ghost predicate Executable(route: map<nat, Pair>, s: State, a: AccountId, req: OrderRequest, f: Funds, p: Placement) {
    && p == PlacementOf(s, a, req)
    && req.pair.IsValid()
    && s.nextOrderId !in BookIds(BookAt(s.books, req.pair))
    && Routed(RouteAfter(route, req.pair, s.nextOrderId, BookIds(p.book), MakerIds(p.trades)), s.books[req.pair := p.book])
    && Settleable(f, req, p.trades, p.remaining)
  }

  lemma ReadyToExecute(route: map<nat, Pair>, s: State, a: AccountId, req: OrderRequest, f: Funds)
    requires Inv(s) && SupplyFits(s.funds.bal) && Admitted(s, a, req, f) && Routed(route, s.books)
    ensures Executable(route, s, a, req, f, PlacementOf(s, a, req))
  {
    RoutedAfterOrder(route, s.books, a, req, s.nextOrderId);
    AdmittedIsSettleable(s, a, req, f);
  }

  lemma RoutedAfterOrder(route: map<nat, Pair>, books: map<Pair, BookView>, a: AccountId, req: OrderRequest, id: nat)
    requires Routed(route, books) && BooksInv(books, id)
    ensures id !in BookIds(BookAt(books, req.pair))
    ensures var p := AddOrder(BookAt(books, req.pair), req.pair, NewOrder(id, a, req));
            Routed(RouteAfter(route, req.pair, id, BookIds(p.book), MakerIds(p.trades)), books[req.pair := p.book])
  {
    FreshId(books, id, req.pair);
    var p := AddOrder(BookAt(books, req.pair), req.pair, NewOrder(id, a, req));
    PlacementIds(BookAt(books, req.pair), req.pair, NewOrder(id, a, req));
    RoutedAfterPlace(route, books, id, req.pair, p.book, MakerIds(p.trades));
  }

  lemma FreshId(books: map<Pair, BookView>, id: nat, pair: Pair)
    requires BooksInv(books, id)
    ensures BookInv(BookAt(books, pair)) && id !in BookIds(BookAt(books, pair))
    ensures forall x :: x in BookIds(BookAt(books, pair)) ==> x < id
  {
  }

  /** The id index of a valid book names exactly its resting orders. */
  lemma IndexIsIds(book: OrderBook)
    requires book.Valid()
    ensures book.orderIndex.Keys == BookIds(book.View())
  {
    IndexedWhole(book.orderIndex, book.View().bids, book.View().asks);
    IndexKeys(book.View().bids);
    IndexKeys(book.View().asks);
  }
}
