/**
  What each command is answered, and when, over every log: stated on prices, quantities and balances,
  beside the code's own checks.
 */
module Replies {
  import opened Domain
  import opened Matching
  import opened BookSpec
  import opened LedgerSpec
  import opened DedupSpec
  import opened Events
  import opened EngineSpec
  import opened Reserves
  import opened PlaceProof
  import opened EngineInv
  import opened Lifecycle
  import opened Runs
  import opened RowLaws

  /** The command's key was not used lately, so it is carried out. */
  predicate Fresh(s: State, env: Envelope) {
    env.key !in Recent(s.window, env.account)
  }

  /** The state in which a fresh command is carried out. */
  function Entered(s: State, env: Envelope): State {
    s.(window := Try(s.window, env.account, env.key).0)
  }

  lemma FreshApply(s: State, lim: Limits, env: Envelope)
    requires Inv(s) && Fresh(s, env)
    ensures Apply(s, lim, env) == Seal(Run(Entered(s, env), lim, env.account, env.command))
    ensures Inv(Entered(s, env))
  {
    TryKeepsWindow(s.window, env.account, env.key);
    CountersKeepInv(s, Entered(s, env).window, s.nextSeq);
  }

  // ----- listing -----

  /** The last accepted list or delist command naming `p` was a valid list. */
  ghost function ListedAfter(lim: Limits, log: Log, p: Pair): bool {
    if log == [] then false
    else
      var init, last := log[..|log| - 1], log[|log| - 1];
      var carriedOut := Fresh(StateAfter(lim, init), last);
      if carriedOut && last.command == ListPair(p) && p.base != p.quote then true
      else if carriedOut && last.command == DelistPair(p) then false
      else ListedAfter(lim, init, p)
  }

  lemma RunListed(s: State, lim: Limits, a: AccountId, command: Command, p: Pair)
    ensures p in Run(s, lim, a, command).state.listed <==>
            if command == ListPair(p) && p.base != p.quote then true
            else if command == DelistPair(p) then false
            else p in s.listed
  {
  }

  /** After any log a market is open iff the last list or delist command naming it listed it. */
  lemma {:induction false} ListedIff(lim: Limits, log: Log, p: Pair)
    ensures p in StateAfter(lim, log).listed <==> ListedAfter(lim, log, p)
  {
    if log != [] {
      var init, last := log[..|log| - 1], log[|log| - 1];
      ListedIff(lim, init, p);
      ListedStep(StateAfter(lim, init), lim, last, p);
    }
  }

  lemma ListedStep(s: State, lim: Limits, env: Envelope, p: Pair)
    ensures p in Apply(s, lim, env).state.listed <==>
            if Fresh(s, env) && env.command == ListPair(p) && p.base != p.quote then true
            else if Fresh(s, env) && env.command == DelistPair(p) then false
            else p in s.listed
  {
    if Fresh(s, env) {
      RunListed(Entered(s, env), lim, env.account, env.command, p);
    }
  }

  /** The replies say whether the set of open markets changed, and neither command publishes anything. */
  lemma ListingAnswers(lim: Limits, log: Log, env: Envelope, p: Pair)
    requires Fresh(StateAfter(lim, log), env)
    ensures var step, was := Apply(StateAfter(lim, log), lim, env), ListedAfter(lim, log, p);
            && (env.command == ListPair(p) ==>
                  step.response == ListReply(if p.base == p.quote then Err(InvalidPair) else Ok(!was)))
            && (env.command == DelistPair(p) ==> step.response == DelistReply(was))
            && (env.command == ListPair(p) || env.command == DelistPair(p) ==> step.batch.None?)
  {
    ListedIff(lim, log, p);
    RunInv(lim, log);
  }

  // ----- placing -----

  /** More than one tick and more than `bps` ten-thousandths away from the last published trade. */
  predicate TooFar(last: Option<nat>, bps: nat, price: nat) {
    && last.Some? && Distance(price, last.value) > 1
    && Distance(price, last.value) * 10_000 > Min(last.value * bps, U64_MAX)
  }

  /** A trade between orders of one account would happen; or, for size zero, its own crossing order is in front. */
  ghost predicate OwnOrderAhead(s: State, a: AccountId, req: OrderRequest) {
    var opp := BookAt(s.books, req.pair).Resting(req.side.Opposite());
    if req.size > 0 then HasSelfTrade(PlacementOf(s, a, req).trades)
    else opp != [] && opp[0].account == a && WithinLimit(NewOrder(s.nextOrderId, a, req), opp[0].price)
  }

  /** The worth of what a market bid would buy, or price times size. */
  function QuotedCost(s: State, a: AccountId, req: OrderRequest): nat {
    if req.orderType.Market? && req.side.Bid? then TradeTotal(Worth, PlacementOf(s, a, req).trades)
    else req.price * req.size
  }

  /** Why an order is turned away, if it is: the first condition that fails. */
  ghost function Verdict(s: State, lim: Limits, a: AccountId, req: OrderRequest, listed: bool, last: Option<nat>)
    : Option<RejectReason>
  {
    var cost := QuotedCost(s, a, req);
    if req.pair.base == req.pair.quote || !listed then Some(InvalidPair)
    else if req.orderType.Limit? && lim.priceBandBps.Some? && TooFar(last, lim.priceBandBps.value, req.price) then
      Some(PriceOutOfBand)
    else if lim.preventSelfTrade && OwnOrderAhead(s, a, req) then Some(SelfTrade)
    else if cost > U64_MAX then Some(InvalidAmount)
    else if req.side.Bid? && cost > Get(s.funds.bal, (a, req.pair.quote)).available then Some(InsufficientFunds)
    else if req.side.Ask? && req.size > Get(s.funds.bal, (a, req.pair.base)).available then Some(InsufficientFunds)
    else None
  }

  lemma BandGuard(lim: Limits, b: BookView, req: OrderRequest)
    ensures OutOfBand(lim, b, req) <==>
            req.orderType.Limit? && lim.priceBandBps.Some? && TooFar(b.last, lim.priceBandBps.value, req.price)
  {
    if lim.priceBandBps.Some? && b.last.Some? {
      PriceBandIs(b.last.value, lim.priceBandBps.value, req.price);
    }
  }

  lemma OwnGuard(s: State, a: AccountId, req: OrderRequest)
    ensures MeetsOwn(NewOrder(s.nextOrderId, a, req), BookAt(s.books, req.pair).Resting(req.side.Opposite()))
            <==> OwnOrderAhead(s, a, req)
  {
    var taker, opp := NewOrder(s.nextOrderId, a, req), BookAt(s.books, req.pair).Resting(req.side.Opposite());
    if req.size > 0 {
      MeetsOwnIsExact(req.pair, taker, opp);
    } else {
      MeetsOwnOfEmptyTaker(req.pair, taker, opp);
    }
  }

  lemma CostGuard(s: State, a: AccountId, req: OrderRequest)
    ensures QuoteAmount(BookAt(s.books, req.pair), req) ==
            if QuotedCost(s, a, req) <= U64_MAX then Ok(QuotedCost(s, a, req)) else Err(InvalidAmount)
  {
    if req.orderType.Market? && req.side.Bid? {
      BuyCostIsWorthOfTrades(req.pair, NewOrder(s.nextOrderId, a, req), BookAt(s.books, req.pair).asks);
    }
  }

  lemma GuardIs(s: State, lim: Limits, a: AccountId, req: OrderRequest)
    ensures Guard(s, lim, a, req) ==
            if req.pair.base == req.pair.quote || req.pair !in s.listed then Some(InvalidPair)
            else if req.orderType.Limit? && lim.priceBandBps.Some?
                    && TooFar(BookAt(s.books, req.pair).last, lim.priceBandBps.value, req.price) then Some(PriceOutOfBand)
            else if lim.preventSelfTrade && OwnOrderAhead(s, a, req) then Some(SelfTrade)
            else None
  {
    BandGuard(lim, BookAt(s.books, req.pair), req);
    OwnGuard(s, a, req);
  }

  /** From any sound state: an order is placed iff no condition fails, and otherwise the first that does is the answer. */
  lemma PlaceVerdict(s: State, lim: Limits, a: AccountId, req: OrderRequest)
    requires Inv(s)
    ensures var r := PlaceOrder(s, lim, a, req).1;
            match Verdict(s, lim, a, req, req.pair in s.listed, BookAt(s.books, req.pair).last)
            case Some(e) => r == Err(e)
            case None => r == Ok(PlacementOf(s, a, req))
  {
    GuardIs(s, lim, a, req);
    CostGuard(s, a, req);
    var q := QuoteAmount(BookAt(s.books, req.pair), req);
    if q.Ok? {
      ReserveIff(s.funds, PayKey(a, req), ReserveAmount(req, q.value));
    }
    PlaceIsAtomic(s, lim, a, req);
    if Guard(s, lim, a, req).None? && q.Ok? {
      var reserve := Reserve(s.funds, PayKey(a, req), ReserveAmount(req, q.value));
      if reserve.1.Ok? {
        ExecuteSucceeds(s, a, req, reserve.0);
      }
    }
  }

  /**
    After any log a fresh order is accepted iff its market is open, its price is near enough to the
    last published trade, it would not trade with its own account, its cost is a u64 and its payer has
    that much available; otherwise the reply names the first of these that fails.
   */
  lemma PlacedIff(lim: Limits, log: Log, env: Envelope)
    requires Fresh(StateAfter(lim, log), env) && env.command.Place?
    ensures var req, response := env.command.order, Apply(StateAfter(lim, log), lim, env).response;
            && response.PlaceReply?
            && match Verdict(StateAfter(lim, log), lim, env.account, req, ListedAfter(lim, log, req.pair),
                             LastTraded(None, History(lim, log), req.pair))
               case Some(e) => response.placed == Err(e)
               case None => response.placed.Ok?
  {
    var s, req := StateAfter(lim, log), env.command.order;
    RunInv(lim, log);
    FreshApply(s, lim, env);
    ListedIff(lim, log, req.pair);
    BandAnchorIsLastTrade(lim, log, req.pair);
    PlaceVerdict(Entered(s, env), lim, env.account, req);
    SameVerdict(s, Entered(s, env).window, lim, env.account, req);
  }

  lemma SameVerdict(s: State, w: Window, lim: Limits, a: AccountId, req: OrderRequest)
    ensures var listed, last := req.pair in s.listed, BookAt(s.books, req.pair).last;
            Verdict(s.(window := w), lim, a, req, listed, last) == Verdict(s, lim, a, req, listed, last)
  {
    assert PlacementOf(s.(window := w), a, req) == PlacementOf(s, a, req);
  }

  // ----- depositing and withdrawing -----

  function Ceiling(lim: Limits, c: Currency): nat {
    match c
    case USD => lim.usdCeiling
    case SOL => lim.solCeiling
  }

  /** The batch is about this one balance, and says what the state holds. */
  ghost predicate Reported(step: Step, k: Key) {
    && step.batch.Some? && step.batch.value.core == [] && step.batch.value.deltas == map[]
    && step.batch.value.balances.Keys == {k}
    && step.batch.value.balances[k] == Get(step.state.funds.bal, k)
  }

  lemma DepositRun(s: State, lim: Limits, a: AccountId, c: Currency, amount: nat)
    ensures var b, r := Get(s.funds.bal, (a, c)), DepositFunds(s, lim, a, c, amount);
            && r.1 == (if b.available + b.reserved + amount > U64_MAX then Err(InvalidAmount)
                       else if b.available + b.reserved + amount > Ceiling(lim, c) then Err(DepositLimitExceeded)
                       else Ok(b.available + amount))
            && (if r.1.Ok? then OnlyMoved(s.funds, r.0.funds, (a, c), amount, 0) else NothingMoved(s.funds, r.0.funds))
  {
  }

  lemma SealReports(e: Effect, k: Key)
    ensures e.core == [] && e.deltas == map[] && e.state.funds.dirty == {k} ==> Reported(Seal(e), k)
    ensures forall x :: Get(Seal(e).state.funds.bal, x) == Get(e.state.funds.bal, x)
    ensures e.core == [] && e.deltas == map[] && e.state.funds.dirty == {} ==> Seal(e).batch.None?
  {
  }

  /**
    A fresh deposit is answered with the new available balance, the very one its batch reports, iff
    the account then holds no more than u64 and the ceiling allow; a refusal moves and publishes nothing.
   */
  lemma DepositAnswers(s: State, lim: Limits, env: Envelope, c: Currency, amount: u64)
    requires Inv(s) && Fresh(s, env) && env.command == Command.Deposit(c, amount)
    ensures var step, k := Apply(s, lim, env), (env.account, c);
            var b, b' := Get(s.funds.bal, k), Get(step.state.funds.bal, k);
            && step.response.DepositReply?
            && match step.response.available {
                 case Err(e) =>
                   && e == (if b.available + b.reserved + amount > U64_MAX then InvalidAmount else DepositLimitExceeded)
                   && b.available + b.reserved + amount > Ceiling(lim, c)
                   && step.batch.None? && forall x :: Get(step.state.funds.bal, x) == Get(s.funds.bal, x)
                 case Ok(v) =>
                   && b.available + b.reserved + amount <= Ceiling(lim, c)
                   && v == b'.available == b.available + amount && b'.reserved == b.reserved
                   && Reported(step, k) && forall x :: x != k ==> Get(step.state.funds.bal, x) == Get(s.funds.bal, x)
               }
  {
    FreshApply(s, lim, env);
    DepositRun(Entered(s, env), lim, env.account, c, amount);
    SealReports(Run(Entered(s, env), lim, env.account, env.command), (env.account, c));
  }

  /** A fresh withdrawal succeeds iff that much is available; then exactly that leaves the available balance. */
  lemma WithdrawAnswers(s: State, lim: Limits, env: Envelope, c: Currency, amount: u64)
    requires Inv(s) && Fresh(s, env) && env.command == Command.Withdraw(c, amount)
    ensures var step, k := Apply(s, lim, env), (env.account, c);
            var b, b' := Get(s.funds.bal, k), Get(step.state.funds.bal, k);
            if amount <= b.available then
              && step.response == WithdrawReply(Ok(()))
              && b'.available == b.available - amount && b'.reserved == b.reserved
              && Reported(step, k) && forall x :: x != k ==> Get(step.state.funds.bal, x) == Get(s.funds.bal, x)
            else
              && step.response == WithdrawReply(Err(InsufficientFunds))
              && step.batch.None? && forall x :: Get(step.state.funds.bal, x) == Get(s.funds.bal, x)
  {
    FreshApply(s, lim, env);
    WithdrawIff(s.funds, (env.account, c), amount);
    SealReports(Run(Entered(s, env), lim, env.account, env.command), (env.account, c));
  }

  // ----- cancelling -----

  /** A fresh cancel is answered yes iff the order rests and is the caller's; exactly then it is announced. */
  lemma CancelAnswers(s: State, lim: Limits, env: Envelope, id: nat)
    requires Inv(s) && Fresh(s, env) && env.command == Cancel(id)
    ensures var step := Apply(s, lim, env);
            && (step.response == CancelReply(true) <==>
                exists p, o :: Resting(s.books, p, o) && o.id == id && o.account == env.account)
            && (step.response != CancelReply(true) ==>
                  step.response == CancelReply(false) && step.batch.None? && step.state.books == s.books)
            && (step.response == CancelReply(true) ==>
                  OrderCancelled(id) in CoreOf(step) && !RestsAnywhere(step.state.books, id))
  {
    var s1, a := Entered(s, env), env.account;
    FreshApply(s, lim, env);
    CancelIffOwned(s1, a, id);
    if CancelOrder(s1, a, id).1.Some? {
      CancelledRested(s1, a, id);
      var c := CancelOrder(s1, a, id).1.value;
      IdsAfterDrop(s1.books, s1.nextOrderId, c.0, c.1, id);
      assert CancelEvents(c.0, c.1)[0] == OrderCancelled(id);
    }
  }

  // ----- what is published -----

  /** The reply says that something was done to an order or to a balance. */
  predicate Carried(response: CommandResponse) {
    match response
    case PlaceReply(r) => r.Ok?
    case CancelReply(done) => done
    case DepositReply(r) => r.Ok?
    case WithdrawReply(r) => r.Ok?
    case _ => false
  }

  lemma PlacePublishes(s: State, lim: Limits, a: AccountId, req: OrderRequest)
    requires Inv(s)
    ensures var e := PlaceEffect(s, lim, a, req); Seal(e).batch.Some? <==> Carried(e.response)
  {
    PlaceIsAtomic(s, lim, a, req);
  }

  lemma CancelSeals(s: State, a: AccountId, id: nat)
    requires Inv(s)
    ensures var e := CancelEffect(s, a, id); Seal(e).batch.Some? <==> Carried(e.response)
  {
  }

  lemma RunPublishes(s: State, lim: Limits, a: AccountId, command: Command)
    requires Inv(s)
    ensures var e := Run(s, lim, a, command); Seal(e).batch.Some? <==> Carried(e.response)
  {
    match command
    case Place(req) => PlacePublishes(s, lim, a, req);
    case Cancel(id) => CancelSeals(s, a, id);
    case Deposit(c, amount) => DepositRun(s, lim, a, c, amount);
    case Withdraw(c, amount) => WithdrawIff(s.funds, (a, c), amount);
    case _ =>
  }

  /** A command gets a sequence number iff its reply says it did something. */
  lemma PublishedIffCarried(lim: Limits, log: Log, env: Envelope)
    ensures var step := Apply(StateAfter(lim, log), lim, env); step.batch.Some? <==> Carried(step.response)
  {
    var s := StateAfter(lim, log);
    RunInv(lim, log);
    if Fresh(s, env) {
      FreshApply(s, lim, env);
      RunPublishes(Entered(s, env), lim, env.account, env.command);
    }
  }

  // ----- order ids -----

  /** How many orders were accepted. */
  ghost function AcceptedOrders(lim: Limits, log: Log): nat {
    if log == [] then 0
    else
      var response := LastStep(lim, log).response;
      AcceptedOrders(lim, log[..|log| - 1]) + (if response.PlaceReply? && response.placed.Ok? then 1 else 0)
  }

  lemma RunIssues(s: State, lim: Limits, a: AccountId, command: Command)
    requires Inv(s)
    ensures var e := Run(s, lim, a, command);
            if e.response.PlaceReply? && e.response.placed.Ok? then
              e.response.placed.value.orderId == s.nextOrderId && e.state.nextOrderId == s.nextOrderId + 1
            else e.state.nextOrderId == s.nextOrderId
  {
    if command.Place? {
      PlaceIsAtomic(s, lim, a, command.order);
    }
  }

  lemma ApplyIssues(s: State, lim: Limits, env: Envelope)
    requires Inv(s)
    ensures var step := Apply(s, lim, env);
            if step.response.PlaceReply? && step.response.placed.Ok? then
              step.response.placed.value.orderId == s.nextOrderId && step.state.nextOrderId == s.nextOrderId + 1
            else step.state.nextOrderId == s.nextOrderId
  {
    if Fresh(s, env) {
      FreshApply(s, lim, env);
      RunIssues(Entered(s, env), lim, env.account, env.command);
    }
  }

  /** Accepted orders are numbered from zero without gaps, over all markets. */
  lemma {:induction false} IdsCountOrders(lim: Limits, log: Log)
    ensures StateAfter(lim, log).nextOrderId == AcceptedOrders(lim, log)
  {
    if log != [] {
      var init := log[..|log| - 1];
      IdsCountOrders(lim, init);
      RunInv(lim, init);
      ApplyIssues(StateAfter(lim, init), lim, log[|log| - 1]);
    }
  }

  /** The next order's row carries the request, word for word, and the reply its number. */
  lemma AcceptedAsRequested(lim: Limits, log: Log, env: Envelope)
    requires env.command.Place? && Apply(StateAfter(lim, log), lim, env).response.PlaceReply?
    requires Apply(StateAfter(lim, log), lim, env).response.placed.Ok?
    ensures var r := Apply(StateAfter(lim, log), lim, env).response.placed.value;
            && r.orderId == AcceptedOrders(lim, log)
            && RowOf(lim, log + [env], r.orderId).Some?
            && HasDetails(RowOf(lim, log + [env], r.orderId).value, env.account, env.command.order)
  {
    var s, id := StateAfter(lim, log), AcceptedOrders(lim, log);
    RunInv(lim, log);
    IdsCountOrders(lim, log);
    ApplyIssues(s, lim, env);
    RunTracksOrders(lim, log, id);
    var longer := log + [env];
    assert longer[..|log|] == log;
    RowConcat(None, History(lim, log), CoreOf(LastStep(lim, longer)), id);
    AcceptedRow(s, lim, env);
  }

  lemma AcceptedRow(s: State, lim: Limits, env: Envelope)
    requires Inv(s) && env.command.Place? && Apply(s, lim, env).response.PlaceReply?
    requires Apply(s, lim, env).response.placed.Ok?
    ensures var row := RowAfter(None, CoreOf(Apply(s, lim, env)), s.nextOrderId);
            row.Some? && HasDetails(row.value, env.account, env.command.order)
  {
    var s1, req := Entered(s, env), env.command.order;
    FreshApply(s, lim, env);
    PlaceIsAtomic(s1, lim, env.account, req);
    TakerRow(s1.nextOrderId, env.account, req, PlacementOf(s1, env.account, req));
  }
}
