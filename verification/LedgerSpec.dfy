/** Available and reserved funds as a value, on unbounded integers. */
module LedgerSpec {
  import opened Domain
  import opened Matching
  import opened Sums

  type Key = (AccountId, Currency)

  datatype Balance = Balance(available: int, reserved: int)

  type Balances = map<Key, Balance>

  /** Balances plus the keys touched by the current command. */
  datatype Funds = Funds(bal: Balances, dirty: set<Key>)

  /**
    An empty row. Chosen rather than written `Balance(0, 0)`: on a row made of literals the verifier keeps
    evaluating every function of a balance, and proofs that meet many absent rows do not end.
   */
  function Zero(): (b: Balance)
    ensures b.available == 0 && b.reserved == 0
  {
    assert Balance(0, 0).available == 0;
    var b: Balance :| b.available == 0 && b.reserved == 0;
    b
  }

  function Get(bal: Balances, k: Key): Balance {
    if k in bal then bal[k] else Zero()
  }

  /** `entry(..).or_insert(zero)`: a failed operation may leave a zero row behind. */
  function Touch(f: Funds, k: Key): Funds {
    if k in f.bal then f else f.(bal := f.bal[k := Zero()])
  }

  function Move(f: Funds, k: Key, available: int, reserved: int): Funds {
    var b := Get(f.bal, k);
    Funds(f.bal[k := Balance(b.available + available, b.reserved + reserved)], f.dirty + {k})
  }

  function Deposit(f: Funds, k: Key, amount: nat): Funds {
    Move(f, k, amount, 0)
  }

  function Withdraw(f: Funds, k: Key, amount: nat): (Funds, Result<()>) {
    if Get(f.bal, k).available < amount then (Touch(f, k), Err(InsufficientFunds))
    else (Move(f, k, 0 - amount, 0), Ok(()))
  }

  function Reserve(f: Funds, k: Key, amount: nat): (Funds, Result<()>) {
    if Get(f.bal, k).available < amount then (Touch(f, k), Err(InsufficientFunds))
    else (Move(f, k, 0 - amount, amount), Ok(()))
  }

  function Release(f: Funds, k: Key, amount: nat): (Funds, Result<()>) {
    if Get(f.bal, k).reserved < amount then (Touch(f, k), Err(InvalidAmount))
    else (Move(f, k, amount, 0 - amount), Ok(()))
  }

  /** Only the balance at `k` changed, by these amounts, and it is marked. */
  ghost predicate OnlyMoved(before: Funds, after: Funds, k: Key, available: int, reserved: int) {
    && Get(after.bal, k).available == Get(before.bal, k).available + available
    && Get(after.bal, k).reserved == Get(before.bal, k).reserved + reserved
    && (forall x :: x != k ==> Get(after.bal, x) == Get(before.bal, x))
    && after.dirty == before.dirty + {k}
  }

  ghost predicate NothingMoved(before: Funds, after: Funds) {
    after.dirty == before.dirty && forall x :: Get(after.bal, x) == Get(before.bal, x)
  }

  /** All of what is available can be withdrawn, and no more; what is reserved stays out of reach. */
  lemma WithdrawIff(f: Funds, k: Key, amount: nat)
    ensures var r := Withdraw(f, k, amount);
            if amount <= Get(f.bal, k).available then r.1 == Ok(()) && OnlyMoved(f, r.0, k, 0 - amount, 0)
            else r.1 == Err(InsufficientFunds) && NothingMoved(f, r.0)
  {
    TouchGets(f, k);
  }

  /** All of what is available can be reserved, and no more. */
  lemma ReserveIff(f: Funds, k: Key, amount: nat)
    ensures var r := Reserve(f, k, amount);
            if amount <= Get(f.bal, k).available then r.1 == Ok(()) && OnlyMoved(f, r.0, k, 0 - amount, amount)
            else r.1 == Err(InsufficientFunds) && NothingMoved(f, r.0)
  {
    TouchGets(f, k);
  }

  /** All of what is reserved can be released, and no more. */
  lemma ReleaseIff(f: Funds, k: Key, amount: nat)
    ensures var r := Release(f, k, amount);
            if amount <= Get(f.bal, k).reserved then r.1 == Ok(()) && OnlyMoved(f, r.0, k, amount, 0 - amount)
            else r.1 == Err(InvalidAmount) && NothingMoved(f, r.0)
  {
    TouchGets(f, k);
  }

  /** One account's two legs of a trade: its quote balance, then its base balance. */
  function Legs(f: Funds, a: AccountId, pair: Pair, quote: Balance, base: Balance): Funds {
    Move(Move(f, (a, pair.quote), quote.available, quote.reserved), (a, pair.base), base.available, base.reserved)
  }

  function TakerQuote(t: Trade): Balance {
    if t.takerSide.Bid? then Balance(0, 0 - t.price * t.qty) else Balance(t.price * t.qty, 0)
  }

  function TakerBase(t: Trade): Balance {
    if t.takerSide.Bid? then Balance(t.qty, 0) else Balance(0, 0 - t.qty)
  }

  function MakerQuote(t: Trade): Balance {
    if t.takerSide.Bid? then Balance(t.price * t.qty, 0) else Balance(0, 0 - t.price * t.qty)
  }

  function MakerBase(t: Trade): Balance {
    if t.takerSide.Bid? then Balance(0, 0 - t.qty) else Balance(t.qty, 0)
  }

  function Settle(f: Funds, pair: Pair, t: Trade): Funds {
    Legs(Legs(f, t.takerAccount, pair, TakerQuote(t), TakerBase(t)),
         t.makerAccount, pair, MakerQuote(t), MakerBase(t))
  }

  function SettleAll(f: Funds, pair: Pair, trades: seq<Trade>): Funds {
    if trades == [] then f
    else Settle(SettleAll(f, pair, trades[..|trades| - 1]), pair, trades[|trades| - 1])
  }

  // ----- total supply of a currency -----

  ghost function Holdings(bal: Balances, c: Currency): map<Key, int> {
    map k | k in bal && k.1 == c :: bal[k].available + bal[k].reserved
  }

  /** available + reserved over all accounts. */
  ghost function Supply(bal: Balances, c: Currency): int {
    Sum(Holdings(bal, c))
  }

  lemma MoveSupply(f: Funds, k: Key, available: int, reserved: int, c: Currency)
    ensures Supply(Move(f, k, available, reserved).bal, c) ==
            Supply(f.bal, c) + (if k.1 == c then available + reserved else 0)
  {
    var h, h' := Holdings(f.bal, c), Holdings(Move(f, k, available, reserved).bal, c);
    if k.1 == c {
      var v := Get(f.bal, k).available + available + Get(f.bal, k).reserved + reserved;
      assert h' == h[k := v];
      SumUpdate(h, k, v);
    } else {
      assert h' == h;
    }
  }

  lemma TouchSupply(f: Funds, k: Key, c: Currency)
    ensures Supply(Touch(f, k).bal, c) == Supply(f.bal, c)
  {
    var h, h' := Holdings(f.bal, c), Holdings(Touch(f, k).bal, c);
    if k !in f.bal && k.1 == c {
      assert h' == h[k := 0];
      SumUpdate(h, k, 0);
    } else {
      assert h' == h;
    }
  }

  lemma TouchThenMove(f: Funds, k: Key, available: int, reserved: int)
    ensures Move(Touch(f, k), k, available, reserved) == Move(f, k, available, reserved)
  {
    assert f.bal[k := Zero()][k := Balance(available, reserved)] == f.bal[k := Balance(available, reserved)];
  }

  lemma TouchGets(f: Funds, k: Key)
    ensures forall x :: Get(Touch(f, k).bal, x) == Get(f.bal, x)
  {
  }

  lemma LegsSupply(f: Funds, a: AccountId, pair: Pair, quote: Balance, base: Balance, c: Currency)
    ensures Supply(Legs(f, a, pair, quote, base).bal, c) ==
            Supply(f.bal, c) + (if pair.quote == c then quote.available + quote.reserved else 0) + (if pair.base == c then base.available + base.reserved else 0)
  {
    var f1 := Move(f, (a, pair.quote), quote.available, quote.reserved);
    MoveSupply(f, (a, pair.quote), quote.available, quote.reserved, c);
    MoveSupply(f1, (a, pair.base), base.available, base.reserved, c);
  }

  /** A trade moves money and never creates or destroys it. */
  lemma SettleConserves(f: Funds, pair: Pair, t: Trade, c: Currency)
    ensures Supply(Settle(f, pair, t).bal, c) == Supply(f.bal, c)
  {
    var f1 := Legs(f, t.takerAccount, pair, TakerQuote(t), TakerBase(t));
    LegsSupply(f, t.takerAccount, pair, TakerQuote(t), TakerBase(t), c);
    LegsSupply(f1, t.makerAccount, pair, MakerQuote(t), MakerBase(t), c);
  }

  lemma {:induction false} SettleAllConserves(f: Funds, pair: Pair, trades: seq<Trade>, c: Currency)
    ensures Supply(SettleAll(f, pair, trades).bal, c) == Supply(f.bal, c)
  {
    if trades != [] {
      var init := trades[..|trades| - 1];
      SettleAllConserves(f, pair, init, c);
      SettleConserves(SettleAll(f, pair, init), pair, trades[|trades| - 1], c);
    }
  }

  // ----- what settlement does to one balance -----

  /** The currency in which an order of this side pays. */
  function PayCurrency(pair: Pair, side: Side): Currency {
    if side.Bid? then pair.quote else pair.base
  }

  /** What a taker of this side pays over its trades. */
  function TakerPays(side: Side, trades: seq<Trade>): nat {
    TradeTotal(if side.Bid? then Worth else Volume, trades)
  }

  /** The reserve that the trades consume at `k`, on the maker's and on the taker's account. */
  function Consumed(pair: Pair, side: Side, taker: AccountId, trades: seq<Trade>, k: Key): nat {
    (if k.1 == PayCurrency(pair, side.Opposite()) then TradeTotal(Held(k.0), trades) else 0)
    + (if k == (taker, PayCurrency(pair, side)) then TakerPays(side, trades) else 0)
  }

  ghost predicate TakenBy(trades: seq<Trade>, side: Side, taker: AccountId) {
    forall i :: 0 <= i < |trades| ==> trades[i].takerSide == side && trades[i].takerAccount == taker
  }

  lemma SettleOne(f: Funds, pair: Pair, t: Trade, k: Key)
    requires pair.IsValid()
    ensures var b, b' := Get(f.bal, k), Get(Settle(f, pair, t).bal, k);
            && b'.reserved == b.reserved - Consumed(pair, t.takerSide, t.takerAccount, [t], k)
            && b'.available >= b.available
  {
    TradeTotalOne(Held(k.0), t);
    TradeTotalOne(Worth, t);
    TradeTotalOne(Volume, t);
    SettleReserved(f, pair, t, k);
  }

  lemma LegsGet(f: Funds, a: AccountId, pair: Pair, quote: Balance, base: Balance, k: Key)
    requires pair.IsValid()
    ensures var b, b' := Get(f.bal, k), Get(Legs(f, a, pair, quote, base).bal, k);
            b' == if k == (a, pair.quote) then Balance(b.available + quote.available, b.reserved + quote.reserved)
                  else if k == (a, pair.base) then Balance(b.available + base.available, b.reserved + base.reserved)
                  else b
  {
  }

  lemma SettleReserved(f: Funds, pair: Pair, t: Trade, k: Key)
    requires pair.IsValid()
    ensures var b, b' := Get(f.bal, k), Get(Settle(f, pair, t).bal, k);
            && b'.available >= b.available
            && b'.reserved == b.reserved
                 - (if k.1 == PayCurrency(pair, t.takerSide.Opposite()) then TradeWeight(Held(k.0), t) else 0)
                 - (if k == (t.takerAccount, PayCurrency(pair, t.takerSide)) then
                      (if t.takerSide.Bid? then t.price * t.qty else t.qty) else 0)
  {
    var f1 := Legs(f, t.takerAccount, pair, TakerQuote(t), TakerBase(t));
    LegsGet(f, t.takerAccount, pair, TakerQuote(t), TakerBase(t), k);
    LegsGet(f1, t.makerAccount, pair, MakerQuote(t), MakerBase(t), k);
  }

  lemma {:induction false} SettleAllReserved(
    f: Funds, pair: Pair, side: Side, taker: AccountId, trades: seq<Trade>, k: Key)
    requires pair.IsValid() && TakenBy(trades, side, taker)
    ensures var b, b' := Get(f.bal, k), Get(SettleAll(f, pair, trades).bal, k);
            && b'.reserved == b.reserved - Consumed(pair, side, taker, trades, k)
            && b'.available >= b.available
  {
    if trades != [] {
      var init, t := trades[..|trades| - 1], trades[|trades| - 1];
      SettleAllReserved(f, pair, side, taker, init, k);
      SettleOne(SettleAll(f, pair, init), pair, t, k);
      assert trades == init + [t];
      ConsumedConcat(pair, side, taker, init, [t], k);
    }
  }

  lemma ConsumedConcat(pair: Pair, side: Side, taker: AccountId, x: seq<Trade>, y: seq<Trade>, k: Key)
    ensures Consumed(pair, side, taker, x + y, k) ==
            Consumed(pair, side, taker, x, k) + Consumed(pair, side, taker, y, k)
  {
    TradeTotalConcat(Held(k.0), x, y);
    TradeTotalConcat(Worth, x, y);
    TradeTotalConcat(Volume, x, y);
  }

  lemma SettlePrefix(f: Funds, pair: Pair, trades: seq<Trade>, i: nat)
    requires i < |trades|
    ensures SettleAll(f, pair, trades[..i + 1]) == Settle(SettleAll(f, pair, trades[..i]), pair, trades[i])
  {
    assert trades[..i + 1][..i] == trades[..i];
  }

  // ----- u64 range -----

  predicate Fits(b: Balance) {
    0 <= b.available <= U64_MAX && 0 <= b.reserved <= U64_MAX
  }

  ghost predicate AllFit(bal: Balances) {
    forall k :: k in bal ==> Fits(bal[k])
  }

  /** Both fields stay in u64 when these amounts are added. */
  predicate FitsAfter(b: Balance, available: int, reserved: int) {
    0 <= b.available + available <= U64_MAX && 0 <= b.reserved + reserved <= U64_MAX
  }

  /** Every field is written once per trade, so if the result fits, so does every step towards it. */
  lemma SettleStepsFit(f: Funds, pair: Pair, t: Trade)
    requires pair.IsValid() && AllFit(f.bal) && AllFit(Settle(f, pair, t).bal)
    ensures var f1 := Move(f, (t.takerAccount, pair.quote), TakerQuote(t).available, TakerQuote(t).reserved);
            var f2 := Move(f1, (t.takerAccount, pair.base), TakerBase(t).available, TakerBase(t).reserved);
            var f3 := Move(f2, (t.makerAccount, pair.quote), MakerQuote(t).available, MakerQuote(t).reserved);
            && FitsAfter(Get(f.bal, (t.takerAccount, pair.quote)), TakerQuote(t).available, TakerQuote(t).reserved)
            && FitsAfter(Get(f1.bal, (t.takerAccount, pair.base)), TakerBase(t).available, TakerBase(t).reserved)
            && FitsAfter(Get(f2.bal, (t.makerAccount, pair.quote)), MakerQuote(t).available, MakerQuote(t).reserved)
            && FitsAfter(Get(f3.bal, (t.makerAccount, pair.base)), MakerBase(t).available, MakerBase(t).reserved)
  {
    var f1 := Legs(f, t.takerAccount, pair, TakerQuote(t), TakerBase(t));
    var f4 := Settle(f, pair, t);
    var tq, tb := (t.takerAccount, pair.quote), (t.takerAccount, pair.base);
    var mq, mb := (t.makerAccount, pair.quote), (t.makerAccount, pair.base);
    LegsGet(f, t.takerAccount, pair, TakerQuote(t), TakerBase(t), tq);
    LegsGet(f, t.takerAccount, pair, TakerQuote(t), TakerBase(t), tb);
    LegsGet(f, t.takerAccount, pair, TakerQuote(t), TakerBase(t), mq);
    LegsGet(f, t.takerAccount, pair, TakerQuote(t), TakerBase(t), mb);
    LegsGet(f1, t.makerAccount, pair, MakerQuote(t), MakerBase(t), tq);
    LegsGet(f1, t.makerAccount, pair, MakerQuote(t), MakerBase(t), tb);
    LegsGet(f1, t.makerAccount, pair, MakerQuote(t), MakerBase(t), mq);
    LegsGet(f1, t.makerAccount, pair, MakerQuote(t), MakerBase(t), mb);
    assert Fits(f4.bal[tq]) && Fits(f4.bal[tb]) && Fits(f4.bal[mq]) && Fits(f4.bal[mb]);
  }
}
