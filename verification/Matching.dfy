/**
  The simple form of one market: two priority-ordered sequences of resting orders and a
  greedy match that walks one of them from the front. `OrderBook.dfy` proves that the
  level maps and nested loops of the real book compute exactly this.
 */
module Matching {
  import opened Domain

  datatype Order = Order(
    id: nat, orderType: OrderType, side: Side, price: nat,
    size: nat, remaining: nat, account: AccountId)

  datatype Trade = Trade(
    pair: Pair, price: nat, qty: nat, makerId: nat, takerId: nat,
    takerSide: Side, makerAccount: AccountId, takerAccount: AccountId)

  /** Post-command state of one order; `filled` is cumulative. */
  datatype OrderUpdate = OrderUpdate(
    orderId: nat, account: AccountId, filled: int, remaining: nat, status: OrderStatus)

  /** What a taker leaves behind: fills so far, the surviving makers, its own remainder. */
  datatype Outcome = Outcome(
    trades: seq<Trade>, updates: seq<OrderUpdate>, rest: seq<Order>, remaining: nat)

  predicate Crosses(taker: Order, price: nat) {
    taker.orderType.Market? || (if taker.side.Bid? then price <= taker.price else taker.price <= price)
  }

  predicate Better(side: Side, p: nat, q: nat) {
    if side.Bid? then p > q else p < q
  }

  function TradeOf(pair: Pair, taker: Order, maker: Order): Trade {
    Trade(pair, maker.price, Min(taker.remaining, maker.remaining), maker.id, taker.id,
          taker.side, maker.account, taker.account)
  }

  function Reduce(o: Order, qty: nat): (r: Order)
    requires qty <= o.remaining
  {
    o.(remaining := o.remaining - qty)
  }

  function MakerUpdate(maker: Order): OrderUpdate {
    OrderUpdate(maker.id, maker.account, maker.size - maker.remaining, maker.remaining,
                if maker.remaining == 0 then Filled else PartiallyFilled)
  }

  /** The front of the queue after its first order traded: gone when filled, else shrunk in place. */
  function AfterFill(maker: Order, others: seq<Order>): seq<Order> {
    if maker.remaining == 0 then others else [maker] + others
  }

  predicate Stops(taker: Order, opp: seq<Order>) {
    taker.remaining == 0 || opp == [] || !Crosses(taker, opp[0].price)
  }

  /** Greedy match of `taker` against the opposite side, best order first. */
  function Match(pair: Pair, taker: Order, opp: seq<Order>): (o: Outcome)
    decreases taker.remaining, |opp|
  {
    if Stops(taker, opp) then
      Outcome([], [], opp, taker.remaining)
    else
      var t := TradeOf(pair, taker, opp[0]);
      var maker := Reduce(opp[0], t.qty);
      var o := Match(pair, Reduce(taker, t.qty), AfterFill(maker, opp[1..]));
      Outcome([t] + o.trades, [MakerUpdate(maker)] + o.updates, o.rest, o.remaining)
  }

  /** A limit buyer pays at most its price, a limit seller gets at least its price. */
  predicate WithinLimit(taker: Order, price: nat) {
    taker.orderType.Limit? ==> if taker.side.Bid? then price <= taker.price else price >= taker.price
  }

  /** The trade of `taker` with `maker` at the maker's own price, and the maker's state after it. */
  predicate TradedWith(pair: Pair, taker: Order, maker: Order, t: Trade, u: OrderUpdate) {
    && t.pair == pair && t.price == maker.price && WithinLimit(taker, t.price)
    && t.makerId == maker.id && t.makerAccount == maker.account
    && t.takerId == taker.id && t.takerAccount == taker.account && t.takerSide == taker.side
    && 0 < t.qty <= maker.remaining
    && u.orderId == maker.id && u.account == maker.account
    && u.remaining == maker.remaining - t.qty && u.filled == maker.size - u.remaining
    && u.status == (if u.remaining == 0 then Filled else PartiallyFilled)
  }

  /** Independent shape of a match result: which makers traded, in which order, for how much. */
  ghost predicate Walked(pair: Pair, taker: Order, opp: seq<Order>, o: Outcome) {
    && |o.trades| <= |opp|
    && |o.updates| == |o.trades|
    && (forall i {:trigger o.trades[i]} :: 0 <= i < |o.trades| ==>
          && TradedWith(pair, taker, opp[i], o.trades[i], o.updates[i])
          && (i < |o.trades| - 1 ==> o.trades[i].qty == opp[i].remaining))
  }

  ghost predicate Alive(s: seq<Order>) {
    forall i :: 0 <= i < |s| ==> 0 < s[i].remaining
  }

  lemma {:induction false} MatchWalks(pair: Pair, taker: Order, opp: seq<Order>)
    requires Alive(opp)
    ensures Walked(pair, taker, opp, Match(pair, taker, opp))
    decreases taker.remaining, |opp|
  {
    if !Stops(taker, opp) {
      var t := TradeOf(pair, taker, opp[0]);
      var maker := Reduce(opp[0], t.qty);
      var taker' := Reduce(taker, t.qty);
      var o := Match(pair, taker, opp);
      if maker.remaining == 0 {
        MatchWalks(pair, taker', opp[1..]);
        WalkedOneMore(pair, taker, taker'.remaining, opp, t, MakerUpdate(maker), Match(pair, taker', opp[1..]));
      } else {
        assert Match(pair, taker', AfterFill(maker, opp[1..])).trades == [];
        assert o.trades == [t] && o.updates == [MakerUpdate(maker)];
      }
    }
  }

  lemma WalkedOneMore(pair: Pair, taker: Order, r: nat, opp: seq<Order>, t: Trade, u: OrderUpdate, o: Outcome)
    requires opp != [] && TradedWith(pair, taker, opp[0], t, u) && t.qty == opp[0].remaining
    requires Walked(pair, taker.(remaining := r), opp[1..], o)
    ensures Walked(pair, taker, opp, Outcome([t] + o.trades, [u] + o.updates, o.rest, o.remaining))
  {
    var o' := Outcome([t] + o.trades, [u] + o.updates, o.rest, o.remaining);
    forall i | 0 <= i < |o'.trades|
      ensures TradedWith(pair, taker, opp[i], o'.trades[i], o'.updates[i])
      ensures i < |o'.trades| - 1 ==> o'.trades[i].qty == opp[i].remaining
    {
      if i > 0 {
        assert o'.trades[i] == o.trades[i - 1] && o'.updates[i] == o.updates[i - 1];
        assert opp[i] == opp[1..][i - 1];
      }
    }
  }

  /** The match stops only when the taker is filled, nothing is left, or the best price left is beyond its limit. */
  lemma {:induction false} MatchStops(pair: Pair, taker: Order, opp: seq<Order>)
    ensures var o := Match(pair, taker, opp);
            && Stops(taker.(remaining := o.remaining), o.rest) && o.remaining <= taker.remaining
            && (o.remaining == 0 || o.rest == [] || !WithinLimit(taker, o.rest[0].price))
    decreases taker.remaining, |opp|
  {
    if !Stops(taker, opp) {
      var t := TradeOf(pair, taker, opp[0]);
      MatchStops(pair, Reduce(taker, t.qty), AfterFill(Reduce(opp[0], t.qty), opp[1..]));
    }
  }

  // ----- quantities that a match moves from the resting side into trades -----

  /**
    One additive measure, read off a resting order or off a trade with that order as maker:
    base volume, quote worth, funds an account has committed, size at a price, size of one order.
   */
  datatype Measure =
    | Volume
    | Worth
    | Held(account: AccountId)
    | Level(price: nat)
    | Fills(id: nat)

  function OrderWeight(m: Measure, o: Order): nat {
    match m
    case Volume => o.remaining
    case Worth => o.price * o.remaining
    case Held(a) => if o.account != a then 0 else if o.side.Bid? then o.price * o.remaining else o.remaining
    case Level(p) => if o.price == p then o.remaining else 0
    case Fills(id) => if o.id == id then o.remaining else 0
  }

  function TradeWeight(m: Measure, t: Trade): nat {
    match m
    case Volume => t.qty
    case Worth => t.price * t.qty
    case Held(a) => if t.makerAccount != a then 0 else if t.takerSide.Ask? then t.price * t.qty else t.qty
    case Level(p) => if t.price == p then t.qty else 0
    case Fills(id) => if t.makerId == id then t.qty else 0
  }

  function OrderTotal(m: Measure, s: seq<Order>): nat {
    if s == [] then 0 else OrderWeight(m, s[0]) + OrderTotal(m, s[1..])
  }

  function TradeTotal(m: Measure, s: seq<Trade>): nat {
    if s == [] then 0 else TradeWeight(m, s[0]) + TradeTotal(m, s[1..])
  }

  lemma {:induction false} OrderTotalConcat(m: Measure, s: seq<Order>, t: seq<Order>)
    ensures OrderTotal(m, s + t) == OrderTotal(m, s) + OrderTotal(m, t)
  {
    if s == [] {
      assert s + t == t;
    } else {
      assert (s + t)[1..] == s[1..] + t;
      OrderTotalConcat(m, s[1..], t);
    }
  }

  lemma {:induction false} TradeTotalConcat(m: Measure, s: seq<Trade>, t: seq<Trade>)
    ensures TradeTotal(m, s + t) == TradeTotal(m, s) + TradeTotal(m, t)
  {
    if s == [] {
      assert s + t == t;
    } else {
      assert (s + t)[1..] == s[1..] + t;
      TradeTotalConcat(m, s[1..], t);
    }
  }

  lemma TradeTotalOne(m: Measure, t: Trade)
    ensures TradeTotal(m, [t]) == TradeWeight(m, t)
  {
    assert [t][1..] == [];
  }

  ghost predicate OnSide(s: seq<Order>, side: Side) {
    forall i :: 0 <= i < |s| ==> s[i].side == side
  }

  lemma FillConserves(m: Measure, pair: Pair, taker: Order, maker: Order)
    requires maker.side == taker.side.Opposite()
    ensures var t := TradeOf(pair, taker, maker);
            OrderWeight(m, maker) == OrderWeight(m, Reduce(maker, t.qty)) + TradeWeight(m, t)
  {
    var t := TradeOf(pair, taker, maker);
    assert maker.price * maker.remaining == maker.price * (maker.remaining - t.qty) + maker.price * t.qty;
  }

  /** Whatever leaves the resting side in a match shows up in the trades, measure by measure. */
  lemma {:induction false} MatchConserves(m: Measure, pair: Pair, taker: Order, opp: seq<Order>)
    requires OnSide(opp, taker.side.Opposite())
    ensures var o := Match(pair, taker, opp);
            OrderTotal(m, opp) == OrderTotal(m, o.rest) + TradeTotal(m, o.trades)
    decreases taker.remaining, |opp|
  {
    if !Stops(taker, opp) {
      var t := TradeOf(pair, taker, opp[0]);
      var maker := Reduce(opp[0], t.qty);
      FillConserves(m, pair, taker, opp[0]);
      MatchConserves(m, pair, Reduce(taker, t.qty), AfterFill(maker, opp[1..]));
      var o := Match(pair, taker, opp);
      assert o.trades[1..] == Match(pair, Reduce(taker, t.qty), AfterFill(maker, opp[1..])).trades;
      if maker.remaining > 0 {
        assert ([maker] + opp[1..])[1..] == opp[1..];
      } else {
        assert OrderWeight(m, maker) == 0;
      }
    }
  }

  /** A taker fills exactly what it loses. */
  lemma {:induction false} TakerConserves(pair: Pair, taker: Order, opp: seq<Order>)
    ensures var o := Match(pair, taker, opp);
            TradeTotal(Volume, o.trades) + o.remaining == taker.remaining
    decreases taker.remaining, |opp|
  {
    if !Stops(taker, opp) {
      var t := TradeOf(pair, taker, opp[0]);
      var maker := Reduce(opp[0], t.qty);
      TakerConserves(pair, Reduce(taker, t.qty), AfterFill(maker, opp[1..]));
      var o := Match(pair, taker, opp);
      assert o.trades[1..] == Match(pair, Reduce(taker, t.qty), AfterFill(maker, opp[1..])).trades;
    }
  }

  // ----- the two read-only look-aheads, on the flat side -----

  /** Cost of buying up to `size` from the front of `asks`. */
  function BuyCost(asks: seq<Order>, size: nat): nat {
    if size == 0 || asks == [] then 0
    else
      var take := Min(size, asks[0].remaining);
      asks[0].price * take + BuyCost(asks[1..], size - take)
  }

  lemma {:induction false} BuyCostIsWorthOfTrades(pair: Pair, taker: Order, asks: seq<Order>)
    requires taker.orderType.Market?
    ensures BuyCost(asks, taker.remaining) == TradeTotal(Worth, Match(pair, taker, asks).trades)
    decreases taker.remaining, |asks|
  {
    if !Stops(taker, asks) {
      var t := TradeOf(pair, taker, asks[0]);
      var maker := Reduce(asks[0], t.qty);
      BuyCostIsWorthOfTrades(pair, Reduce(taker, t.qty), AfterFill(maker, asks[1..]));
      var o := Match(pair, taker, asks);
      assert o.trades[1..] == Match(pair, Reduce(taker, t.qty), AfterFill(maker, asks[1..])).trades;
    }
  }

  /** The self-trade scan: first own order reached before `taker` is used up. */
  predicate MeetsOwn(taker: Order, opp: seq<Order>)
    decreases |opp|
  {
    if opp == [] || !Crosses(taker, opp[0].price) then false
    else if opp[0].account == taker.account then true
    else if taker.remaining <= opp[0].remaining then false
    else MeetsOwn(Reduce(taker, opp[0].remaining), opp[1..])
  }

  ghost predicate HasSelfTrade(trades: seq<Trade>) {
    exists i :: 0 <= i < |trades| && trades[i].makerAccount == trades[i].takerAccount
  }

  /** With something to fill, the scan answers yes exactly when the match would self-trade. */
  lemma {:induction false} MeetsOwnIsExact(pair: Pair, taker: Order, opp: seq<Order>)
    requires taker.remaining > 0
    ensures MeetsOwn(taker, opp) <==> HasSelfTrade(Match(pair, taker, opp).trades)
    decreases |opp|
  {
    if !Stops(taker, opp) {
      var t := TradeOf(pair, taker, opp[0]);
      var maker := Reduce(opp[0], t.qty);
      var o := Match(pair, taker, opp);
      var o' := Match(pair, Reduce(taker, t.qty), AfterFill(maker, opp[1..]));
      assert o.trades == [t] + o'.trades;
      if opp[0].account == taker.account {
        assert o.trades[0].makerAccount == o.trades[0].takerAccount;
      } else if taker.remaining <= opp[0].remaining {
        assert o'.trades == [];
      } else {
        MeetsOwnIsExact(pair, Reduce(taker, t.qty), opp[1..]);
        assert AfterFill(maker, opp[1..]) == opp[1..];
        if HasSelfTrade(o'.trades) {
          var i :| 0 <= i < |o'.trades| && o'.trades[i].makerAccount == o'.trades[i].takerAccount;
          assert o.trades[i + 1] == o'.trades[i];
        }
        if HasSelfTrade(o.trades) {
          var i :| 0 <= i < |o.trades| && o.trades[i].makerAccount == o.trades[i].takerAccount;
          assert o'.trades[i - 1] == o.trades[i];
        }
      }
    }
  }

  /** With nothing to fill no trade can happen, yet the scan still reports a crossing own order in front. */
  lemma MeetsOwnOfEmptyTaker(pair: Pair, taker: Order, opp: seq<Order>)
    requires taker.remaining == 0
    ensures !HasSelfTrade(Match(pair, taker, opp).trades)
    ensures MeetsOwn(taker, opp) <==>
            opp != [] && Crosses(taker, opp[0].price) && opp[0].account == taker.account
  {
    assert Match(pair, taker, opp).trades == [];
  }
}
