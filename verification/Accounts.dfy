/**
  Who gets what: every account's holding is explained by its own deposits and withdrawals and by the
  trades in the event history that name it, over every run.
 */
module Accounts {
  import opened Domain
  import opened Matching
  import opened BookSpec
  import opened LedgerSpec
  import opened DedupSpec
  import opened Events
  import opened EngineSpec
  import opened Reserves
  import opened PlaceProof
  import opened EngineInv
  import opened Lifecycle
  import opened Runs

  /** What an account owns of a currency, reserved or not. */
  function Holding(bal: Balances, k: Key): int {
    Get(bal, k).available + Get(bal, k).reserved
  }

  function Buyer(t: Trade): AccountId {
    if t.takerSide.Bid? then t.takerAccount else t.makerAccount
  }

  function Seller(t: Trade): AccountId {
    if t.takerSide.Bid? then t.makerAccount else t.takerAccount
  }

  /** A trade hands the base to the buyer and the price times the quantity to the seller. */
  function TradeNet(t: Trade, k: Key): int {
    (if k == (Buyer(t), t.pair.base) then t.qty else 0)
    - (if k == (Seller(t), t.pair.base) then t.qty else 0)
    + (if k == (Seller(t), t.pair.quote) then t.price * t.qty else 0)
    - (if k == (Buyer(t), t.pair.quote) then t.price * t.qty else 0)
  }

  function TradesNet(trades: seq<Trade>, k: Key): int {
    if trades == [] then 0 else TradesNet(trades[..|trades| - 1], k) + TradeNet(trades[|trades| - 1], k)
  }

  /** The same, read off the event history. */
  function EventsNet(events: seq<Event>, k: Key): int {
    if events == [] then 0
    else
      var last := events[|events| - 1];
      EventsNet(events[..|events| - 1], k) + (if last.TradeEvent? then TradeNet(last.trade, k) else 0)
  }

  lemma {:induction false} EventsNetConcat(x: seq<Event>, y: seq<Event>, k: Key)
    ensures EventsNet(x + y, k) == EventsNet(x, k) + EventsNet(y, k)
  {
    if y == [] {
      assert x + y == x;
    } else {
      assert (x + y)[..|x + y| - 1] == x + y[..|y| - 1];
      EventsNetConcat(x, y[..|y| - 1], k);
    }
  }

  lemma {:induction false} TradeEventsNet(trades: seq<Trade>, k: Key)
    ensures EventsNet(TradeEvents(trades), k) == TradesNet(trades, k)
  {
    if trades != [] {
      var init := trades[..|trades| - 1];
      assert TradeEvents(trades)[..|trades| - 1] == TradeEvents(init);
      TradeEventsNet(init, k);
    }
  }

  lemma {:induction false} NoTradesNet(events: seq<Event>, k: Key)
    requires forall i :: 0 <= i < |events| ==> !events[i].TradeEvent?
    ensures EventsNet(events, k) == 0
  {
    if events != [] {
      NoTradesNet(events[..|events| - 1], k);
    }
  }

  lemma PlaceEventsNet(id: nat, a: AccountId, req: OrderRequest, p: Placement, k: Key)
    ensures EventsNet(PlaceEvents(id, a, req, p), k) == TradesNet(p.trades, k)
  {
    var accept := [OrderAccepted(id, a, req.pair, req.side, req.orderType, req.price, req.size)];
    var trades, updates := TradeEvents(p.trades), UpdateEvents(req.pair, p.updates);
    EventsNetConcat(accept + trades, updates, k);
    EventsNetConcat(accept, trades, k);
    NoTradesNet(accept, k);
    NoTradesNet(updates, k);
    TradeEventsNet(p.trades, k);
  }

  // ----- settlement -----

  lemma SettleHolding(f: Funds, t: Trade, k: Key)
    requires t.pair.IsValid()
    ensures Holding(Settle(f, t.pair, t).bal, k) == Holding(f.bal, k) + TradeNet(t, k)
  {
    var f1 := Legs(f, t.takerAccount, t.pair, TakerQuote(t), TakerBase(t));
    LegsGet(f, t.takerAccount, t.pair, TakerQuote(t), TakerBase(t), k);
    LegsGet(f1, t.makerAccount, t.pair, MakerQuote(t), MakerBase(t), k);
  }

  lemma {:induction false} SettleAllHolding(f: Funds, pair: Pair, trades: seq<Trade>, k: Key)
    requires pair.IsValid() && forall i :: 0 <= i < |trades| ==> trades[i].pair == pair
    ensures Holding(SettleAll(f, pair, trades).bal, k) == Holding(f.bal, k) + TradesNet(trades, k)
  {
    if trades != [] {
      var init, t := trades[..|trades| - 1], trades[|trades| - 1];
      SettleAllHolding(f, pair, init, k);
      SettleHolding(SettleAll(f, pair, init), t, k);
    }
  }

  // ----- one placement -----

  /** Reserving and releasing move money between two pockets of the same account. */
  lemma PocketsHolding(f: Funds, at: Key, amount: nat, k: Key)
    ensures Holding(Reserve(f, at, amount).0.bal, k) == Holding(f.bal, k)
    ensures Holding(Release(f, at, amount).0.bal, k) == Holding(f.bal, k)
  {
    TouchGets(f, at);
  }

  lemma RefundHolding(f: Funds, a: AccountId, req: OrderRequest, trades: seq<Trade>, remaining: nat, k: Key)
    ensures Holding(ReleaseLeftover(f, a, req, remaining).bal, k) == Holding(f.bal, k)
    ensures Holding(RefundSurplus(f, a, req, trades).0.bal, k) == Holding(f.bal, k)
  {
    PocketsHolding(f, (a, req.pair.base), remaining, k);
    if Surplus(req.price, trades) > 0 {
      PocketsHolding(f, (a, req.pair.quote), Surplus(req.price, trades), k);
    }
  }

  lemma ExecuteHolding(s: State, a: AccountId, req: OrderRequest, f: Funds, k: Key)
    requires req.pair.IsValid()
    ensures Holding(Execute(s, a, req, f).0.funds.bal, k) ==
            Holding(f.bal, k) + TradesNet(PlacementOf(s, a, req).trades, k)
  {
    var p := PlacementOf(s, a, req);
    MatchTradesBelongToTaker(req.pair, NewOrder(s.nextOrderId, a, req),
                             BookAt(s.books, req.pair).Resting(req.side.Opposite()));
    SettleAllHolding(f, req.pair, p.trades, k);
    var settled := SettleAll(f, req.pair, p.trades);
    RefundHolding(settled, a, req, p.trades, p.remaining, k);
    RefundHolding(ReleaseLeftover(settled, a, req, p.remaining), a, req, p.trades, p.remaining, k);
  }

  lemma PlaceHolding(s: State, lim: Limits, a: AccountId, req: OrderRequest, k: Key)
    requires Inv(s)
    ensures var e := PlaceEffect(s, lim, a, req);
            Holding(e.state.funds.bal, k) == Holding(s.funds.bal, k) + EventsNet(e.core, k)
  {
    PlaceIsAtomic(s, lim, a, req);
    if PlaceOrder(s, lim, a, req).1.Ok? {
      var at, amount := PayKey(a, req), ReserveAmount(req, QuoteAmount(BookAt(s.books, req.pair), req).value);
      PocketsHolding(s.funds, at, amount, k);
      ExecuteHolding(s, a, req, Reserve(s.funds, at, amount).0, k);
      PlaceEventsNet(s.nextOrderId, a, req, PlacementOf(s, a, req), k);
    }
  }

  lemma CancelHolding(s: State, a: AccountId, id: nat, k: Key)
    ensures var e := CancelEffect(s, a, id);
            Holding(e.state.funds.bal, k) == Holding(s.funds.bal, k) && EventsNet(e.core, k) == 0
  {
    var r := CancelOrder(s, a, id);
    if r.1.Some? {
      var p, o := r.1.value.0, r.1.value.1;
      PocketsHolding(s.funds, (o.account, PayCurrency(p, o.side)), HeldBy(o), k);
      NoTradesNet(CancelEvents(p, o), k);
    }
  }

  // ----- any command, any run -----

  /** What an answered command itself brings to, or takes from, an account. */
  function OwnFlow(env: Envelope, response: CommandResponse, k: Key): int {
    if env.account == k.0 then Flow(env.command, response, k.1) else 0
  }

  lemma DepositHolding(s: State, lim: Limits, a: AccountId, c: Currency, amount: nat, k: Key)
    ensures var r := DepositFunds(s, lim, a, c, amount);
            Holding(r.0.funds.bal, k) == Holding(s.funds.bal, k) + (if r.1.Ok? && k == (a, c) then amount else 0)
  {
  }

  /** A deposit is accepted iff the account then holds no more than the ceiling. */
  lemma DepositIff(s: State, lim: Limits, a: AccountId, c: Currency, amount: nat)
    ensures var r := DepositFunds(s, lim, a, c, amount);
            && (r.1.Ok? <==> Holding(s.funds.bal, (a, c)) + amount <= lim.DepositCeiling(c))
            && (r.1.Ok? ==> Holding(r.0.funds.bal, (a, c)) <= lim.DepositCeiling(c))
            && (r.1.Err? ==> r.0 == s)
  {
    DepositHolding(s, lim, a, c, amount, (a, c));
  }

  lemma WithdrawHolding(f: Funds, at: Key, amount: nat, k: Key)
    ensures var r := LedgerSpec.Withdraw(f, at, amount);
            Holding(r.0.bal, k) == Holding(f.bal, k) - (if r.1.Ok? && k == at then amount else 0)
  {
    TouchGets(f, at);
  }

  lemma RunHoldings(s: State, lim: Limits, env: Envelope, k: Key)
    requires Inv(s)
    ensures var e := Run(s, lim, env.account, env.command);
            Holding(e.state.funds.bal, k) == Holding(s.funds.bal, k) + OwnFlow(env, e.response, k) + EventsNet(e.core, k)
  {
    var a := env.account;
    match env.command
    case Place(req) => PlaceHolding(s, lim, a, req, k);
    case Cancel(id) => CancelHolding(s, a, id, k);
    case Deposit(c, amount) => DepositHolding(s, lim, a, c, amount, k);
    case Withdraw(c, amount) => WithdrawHolding(s.funds, (a, c), amount, k);
    case _ =>
  }

  lemma ApplyHoldings(s: State, lim: Limits, env: Envelope, k: Key)
    requires Inv(s)
    ensures var step := Apply(s, lim, env);
            Holding(step.state.funds.bal, k) ==
            Holding(s.funds.bal, k) + OwnFlow(env, step.response, k) + EventsNet(CoreOf(step), k)
  {
    var attempt := Try(s.window, env.account, env.key);
    if attempt.1 {
      TryKeepsWindow(s.window, env.account, env.key);
      CountersKeepInv(s, attempt.0, s.nextSeq);
      RunHoldings(s.(window := attempt.0), lim, env, k);
    }
  }

  /** An account's accepted deposits minus its accepted withdrawals of one currency. */
  ghost function Paid(lim: Limits, log: Log, k: Key): int {
    if log == [] then 0
    else Paid(lim, log[..|log| - 1], k) + OwnFlow(log[|log| - 1], LastStep(lim, log).response, k)
  }

  /**
    The account statement: after any log, what an account owns of a currency is what it paid in,
    minus what it took out, plus and minus exactly what the published trades say it got and gave.
   */
  lemma {:induction false} AccountStatement(lim: Limits, log: Log, a: AccountId, c: Currency)
    ensures Holding(StateAfter(lim, log).funds.bal, (a, c)) ==
            Paid(lim, log, (a, c)) + EventsNet(History(lim, log), (a, c))
  {
    if log != [] {
      var init, k := log[..|log| - 1], (a, c);
      AccountStatement(lim, init, a, c);
      RunInv(lim, init);
      ApplyHoldings(StateAfter(lim, init), lim, log[|log| - 1], k);
      EventsNetConcat(History(lim, init), CoreOf(LastStep(lim, log)), k);
    }
  }

  // ----- the reply -----

  /** Price times quantity over the trades of some events. */
  function EventsWorth(events: seq<Event>): nat {
    if events == [] then 0
    else (if events[0].TradeEvent? then events[0].trade.price * events[0].trade.qty else 0) + EventsWorth(events[1..])
  }

  lemma {:induction false} EventsWorthConcat(x: seq<Event>, y: seq<Event>)
    ensures EventsWorth(x + y) == EventsWorth(x) + EventsWorth(y)
  {
    if x == [] {
      assert x + y == y;
    } else {
      assert (x + y)[1..] == x[1..] + y;
      EventsWorthConcat(x[1..], y);
    }
  }

  lemma {:induction false} TradeEventsWorth(trades: seq<Trade>)
    ensures EventsWorth(TradeEvents(trades)) == TradeTotal(Worth, trades)
  {
    if trades != [] {
      assert TradeEvents(trades)[1..] == TradeEvents(trades[1..]);
      TradeEventsWorth(trades[1..]);
    }
  }

  lemma {:induction false} UpdatesAreWorthless(pair: Pair, updates: seq<OrderUpdate>)
    ensures EventsWorth(UpdateEvents(pair, updates)) == 0
  {
    if updates != [] {
      assert UpdateEvents(pair, updates)[1..] == UpdateEvents(pair, updates[1..]);
      UpdatesAreWorthless(pair, updates[1..]);
    }
  }

  lemma PlaceEventsWorth(id: nat, a: AccountId, req: OrderRequest, p: Placement)
    ensures EventsWorth(PlaceEvents(id, a, req, p)) == TradeTotal(Worth, p.trades)
  {
    var accept := [OrderAccepted(id, a, req.pair, req.side, req.orderType, req.price, req.size)];
    var trades, updates := TradeEvents(p.trades), UpdateEvents(req.pair, p.updates);
    EventsWorthConcat(accept + trades, updates);
    EventsWorthConcat(accept, trades);
    assert accept[1..] == [];
    TradeEventsWorth(p.trades);
    UpdatesAreWorthless(req.pair, p.updates);
  }

  /** The reply to an accepted order names its id, its fills and their cost as the events published with it do. */
  lemma ReplyMatchesEvents(s: State, lim: Limits, a: AccountId, req: OrderRequest)
    requires Inv(s)
    ensures var e := PlaceEffect(s, lim, a, req);
            e.response.PlaceReply? &&
            (e.response.placed.Ok? ==>
               && e.response.placed.value.orderId == s.nextOrderId
               && e.response.placed.value.filledQty == FillsIn(e.core, s.nextOrderId)
               && e.response.placed.value.totalCost == EventsWorth(e.core))
  {
    PlaceIsAtomic(s, lim, a, req);
    if PlaceOrder(s, lim, a, req).1.Ok? {
      var p := PlacementOf(s, a, req);
      BookAtInv(s, req.pair);
      TakersAreNew(BookAt(s.books, req.pair), req.pair, NewOrder(s.nextOrderId, a, req));
      PlaceRow(None, s.nextOrderId, a, req, p, s.nextOrderId);
      NewIdUntouched(s, a, req);
      PlaceEventsWorth(s.nextOrderId, a, req, p);
    }
  }

  lemma NewIdUntouched(s: State, a: AccountId, req: OrderRequest)
    requires Inv(s)
    ensures TradeTotal(Fills(s.nextOrderId), PlacementOf(s, a, req).trades) == 0
  {
    OppAlive(s, req);
    NotThereNotTouched(req.pair, NewOrder(s.nextOrderId, a, req),
                       BookAt(s.books, req.pair).Resting(req.side.Opposite()), s.nextOrderId);
  }
}
