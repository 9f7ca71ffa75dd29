/** The engine as a value: guards, reservation, matching, settlement, refunds, dispatch. */
module EngineSpec {
  import opened Domain
  import opened Matching
  import opened BookSpec
  import opened LedgerSpec
  import opened DedupSpec
  import opened Events

  /** Abuse guards: the most an account may hold of each currency, the price band, the self-trade ban. */
  datatype Limits = Limits(usdCeiling: u64, solCeiling: u64, priceBandBps: Option<u64>, preventSelfTrade: bool) {
    function DepositCeiling(c: Currency): u64 {
      if c.USD? then usdCeiling else solCeiling
    }
  }

  datatype State = State(
    books: map<Pair, BookView>, funds: Funds, nextOrderId: nat, nextSeq: nat,
    window: Window, listed: set<Pair>)

  const Init := State(map[], Funds(map[], {}), 0, 0, map[], {})

  datatype Envelope = Envelope(account: AccountId, key: nat, command: Command)

  datatype Step = Step(state: State, response: CommandResponse, batch: Option<Batch>)

  /** A market with no book yet behaves like one with an empty book. */
  function BookAt(books: map<Pair, BookView>, pair: Pair): BookView {
    if pair in books then books[pair] else EmptyBook
  }

  // ----- placing -----

  function PriceBand(last: nat, bps: nat): (nat, nat) {
    var product := if last * bps <= U64_MAX then last * bps else U64_MAX;
    var delta := if product / 10_000 >= 1 then product / 10_000 else 1;
    (if last >= delta then last - delta else 0, if last + delta <= U64_MAX then last + delta else U64_MAX)
  }

  function Distance(x: nat, y: nat): nat {
    if x <= y then y - x else x - y
  }

  /**
    Inside the band: at most one tick away, or at most `bps` ten-thousandths of the last price, that
    product being cut off at the largest u64.
   */
  lemma PriceBandIs(last: nat, bps: nat, p: nat)
    requires p <= U64_MAX
    ensures var band := PriceBand(last, bps);
            band.0 <= p <= band.1 <==> Distance(p, last) <= 1 || Distance(p, last) * 10_000 <= Min(last * bps, U64_MAX)
  {
    var product, d := Min(last * bps, U64_MAX), Distance(p, last);
    assert d <= product / 10_000 <==> d * 10_000 <= product;
  }

  predicate OutOfBand(lim: Limits, b: BookView, req: OrderRequest) {
    && req.orderType.Limit? && lim.priceBandBps.Some? && b.last.Some?
    && var band := PriceBand(b.last.value, lim.priceBandBps.value);
       req.price < band.0 || req.price > band.1
  }

  function Guard(s: State, lim: Limits, a: AccountId, req: OrderRequest): Option<RejectReason> {
    var b := BookAt(s.books, req.pair);
    if !req.pair.IsValid() || req.pair !in s.listed then Some(InvalidPair)
    else if OutOfBand(lim, b, req) then Some(PriceOutOfBand)
    else if lim.preventSelfTrade && MeetsOwn(NewOrder(s.nextOrderId, a, req), b.Resting(req.side.Opposite())) then
      Some(SelfTrade)
    else None
  }

  function Checked(amount: nat): Result<nat> {
    if amount <= U64_MAX then Ok(amount) else Err(InvalidAmount)
  }

  function QuoteAmount(b: BookView, req: OrderRequest): Result<nat> {
    if req.orderType.Market? && req.side.Bid? then Checked(BuyCost(b.asks, req.size))
    else Checked(req.price * req.size)
  }

  function PayKey(a: AccountId, req: OrderRequest): Key {
    (a, PayCurrency(req.pair, req.side))
  }

  function ReserveAmount(req: OrderRequest, quoteAmount: nat): nat {
    if req.side.Bid? then quoteAmount else req.size
  }

  /** What a limit buyer reserved beyond what its fills cost. */
  function Surplus(price: nat, trades: seq<Trade>): int {
    if trades == [] then 0
    else (price - trades[0].price) * trades[0].qty + Surplus(price, trades[1..])
  }

  function ReleaseLeftover(f: Funds, a: AccountId, req: OrderRequest, remaining: nat): Funds {
    if req.orderType.Market? && req.side.Ask? && remaining > 0 then
      Release(f, (a, req.pair.base), remaining).0
    else f
  }

  function RefundSurplus(f: Funds, a: AccountId, req: OrderRequest, trades: seq<Trade>): (Funds, Result<()>) {
    if req.side.Bid? && req.orderType.Limit? && Surplus(req.price, trades) > 0 then
      Release(f, (a, req.pair.quote), Surplus(req.price, trades))
    else (f, Ok(()))
  }

  /** Everything after a successful reserve. */
  function Execute(s: State, a: AccountId, req: OrderRequest, reserved: Funds): (State, Result<Placement>) {
    var p := AddOrder(BookAt(s.books, req.pair), req.pair, NewOrder(s.nextOrderId, a, req));
    var settled := SettleAll(reserved, req.pair, p.trades);
    var refund := RefundSurplus(ReleaseLeftover(settled, a, req, p.remaining), a, req, p.trades);
    var s' := s.(books := s.books[req.pair := p.book], funds := refund.0, nextOrderId := s.nextOrderId + 1);
    match refund.1
    case Err(e) => (s', Err(e))
    case Ok(_) => (s', Ok(p))
  }

  function PlaceOrder(s: State, lim: Limits, a: AccountId, req: OrderRequest): (State, Result<Placement>) {
    match Guard(s, lim, a, req)
    case Some(e) => (s, Err(e))
    case None =>
      match QuoteAmount(BookAt(s.books, req.pair), req)
      case Err(e) => (s, Err(e))
      case Ok(quoteAmount) =>
        var reserve := Reserve(s.funds, PayKey(a, req), ReserveAmount(req, quoteAmount));
        match reserve.1
        case Err(e) => (s.(funds := reserve.0), Err(e))
        case Ok(_) => Execute(s, a, req, reserve.0)
  }

  // ----- cancelling -----

  ghost predicate RestsIn(books: map<Pair, BookView>, p: Pair, id: nat) {
    p in books && Lookup(books[p], id).Some?
  }

  /** The market an order rests in. */
  ghost function Locate(books: map<Pair, BookView>, id: nat): Option<Pair> {
    if exists p :: RestsIn(books, p, id) then
      var p :| RestsIn(books, p, id);
      Some(p)
    else None
  }

  function HeldBy(o: Order): nat {
    OrderWeight(Held(o.account), o)
  }

  ghost function CancelOrder(s: State, a: AccountId, id: nat): (State, Option<(Pair, Order)>) {
    match Locate(s.books, id)
    case None => (s, None)
    case Some(pair) =>
      if Lookup(s.books[pair], id).None? || Lookup(s.books[pair], id).value.account != a then (s, None)
      else
        var o := Lookup(s.books[pair], id).value;
        (s.(books := s.books[pair := Drop(s.books[pair], o)],
            funds := Release(s.funds, (o.account, PayCurrency(pair, o.side)), HeldBy(o)).0),
         Some((pair, o)))
  }

  // ----- depositing -----

  function DepositFunds(s: State, lim: Limits, a: AccountId, c: Currency, amount: nat): (State, Result<int>) {
    var held := Get(s.funds.bal, (a, c)).available + Get(s.funds.bal, (a, c)).reserved;
    if held + amount > U64_MAX then (s, Err(InvalidAmount))
    else if held + amount > lim.DepositCeiling(c) then (s, Err(DepositLimitExceeded))
    else (s.(funds := LedgerSpec.Deposit(s.funds, (a, c), amount)), Ok(Get(s.funds.bal, (a, c)).available + amount))
  }

  // ----- dispatch -----

  function TradeEvents(trades: seq<Trade>): seq<Event> {
    seq(|trades|, i requires 0 <= i < |trades| => TradeEvent(trades[i]))
  }

  function UpdateEvents(pair: Pair, updates: seq<OrderUpdate>): seq<Event> {
    seq(|updates|, i requires 0 <= i < |updates| => OrderUpdated(pair, updates[i]))
  }

  function PlaceEvents(id: nat, a: AccountId, req: OrderRequest, p: Placement): seq<Event> {
    [OrderAccepted(id, a, req.pair, req.side, req.orderType, req.price, req.size)]
    + TradeEvents(p.trades) + UpdateEvents(req.pair, p.updates)
  }

  function CancelUpdate(o: Order): OrderUpdate {
    OrderUpdate(o.id, o.account, o.size - o.remaining, o.remaining, Cancelled)
  }

  function CancelEvents(pair: Pair, o: Order): seq<Event> {
    [OrderCancelled(o.id), OrderUpdated(pair, CancelUpdate(o))]
  }

  function LevelKeys(pair: Pair, dirty: set<(Side, nat)>): set<LevelKey> {
    set d | d in dirty :: LevelKey(pair, d.0, d.1)
  }

  function LevelDeltas(pair: Pair, b: BookView, dirty: set<(Side, nat)>): map<LevelKey, nat> {
    map k | k in LevelKeys(pair, dirty) :: LevelQty(b, k.side, k.price)
  }

  /** What one command did before its dirty balances are drained. */
  datatype Effect = Effect(state: State, response: CommandResponse, core: seq<Event>, deltas: map<LevelKey, nat>)

  function PlaceEffect(s: State, lim: Limits, a: AccountId, req: OrderRequest): Effect {
    var r := PlaceOrder(s, lim, a, req);
    match r.1
    case Err(e) => Effect(r.0, PlaceReply(Err(e)), [], map[])
    case Ok(p) =>
      Effect(r.0,
             PlaceReply(Ok(PlaceOrderResponse(s.nextOrderId, TradeTotal(Volume, p.trades), TradeTotal(Worth, p.trades)))),
             PlaceEvents(s.nextOrderId, a, req, p),
             LevelDeltas(req.pair, p.book, p.dirty))
  }

  ghost function CancelEffect(s: State, a: AccountId, id: nat): Effect {
    var r := CancelOrder(s, a, id);
    match r.1
    case None => Effect(r.0, CancelReply(false), [], map[])
    case Some(c) =>
      Effect(r.0, CancelReply(true), CancelEvents(c.0, c.1),
             LevelDeltas(c.0, BookAt(r.0.books, c.0), {(c.1.side, c.1.price)}))
  }

  ghost function Run(s: State, lim: Limits, a: AccountId, command: Command): Effect {
    match command
    case Place(req) => PlaceEffect(s, lim, a, req)
    case Cancel(id) => CancelEffect(s, a, id)
    case Deposit(c, amount) =>
      var r := DepositFunds(s, lim, a, c, amount);
      Effect(r.0, DepositReply(r.1), [], map[])
    case Withdraw(c, amount) =>
      var r := LedgerSpec.Withdraw(s.funds, (a, c), amount);
      Effect(s.(funds := r.0), WithdrawReply(r.1), [], map[])
    case ListPair(p) =>
      if !p.IsValid() then Effect(s, ListReply(Err(InvalidPair)), [], map[])
      else Effect(s.(listed := s.listed + {p}), ListReply(Ok(p !in s.listed)), [], map[])
    case DelistPair(p) => Effect(s.(listed := s.listed - {p}), DelistReply(p in s.listed), [], map[])
  }

  function ChangedBalances(f: Funds): map<Key, Balance> {
    map k | k in f.dirty :: Get(f.bal, k)
  }

  /** Drain the dirty balances; a command that changed nothing observable gets no sequence number. */
  function Seal(e: Effect): Step {
    var clean := e.state.(funds := e.state.funds.(dirty := {}));
    if e.core == [] && e.deltas == map[] && e.state.funds.dirty == {} then Step(clean, e.response, None)
    else
      Step(clean.(nextSeq := clean.nextSeq + 1), e.response,
           Some(Batch(clean.nextSeq, e.core, e.deltas, ChangedBalances(e.state.funds))))
  }

  ghost function Apply(s: State, lim: Limits, env: Envelope): Step {
    var attempt := Try(s.window, env.account, env.key);
    if !attempt.1 then Step(s, Duplicate, None)
    else Seal(Run(s.(window := attempt.0), lim, env.account, env.command))
  }
}
