/** Currencies, pairs, requests and responses shared by every layer of the exchange. */
module Domain {

  const U64_MAX: int := 0xFFFF_FFFF_FFFF_FFFF

  type u64 = x: int | 0 <= x <= U64_MAX

  type AccountId = nat

  datatype Option<+T> = None | Some(value: T)

  datatype Result<+T> = Ok(value: T) | Err(reason: RejectReason)

  datatype RejectReason =
    | InsufficientFunds
    | UnsupportedOrderType
    | InvalidAmount
    | InvalidPair
    | DepositLimitExceeded
    | PriceOutOfBand
    | SelfTrade

  datatype Currency = USD | SOL

  /** `base` is what is bought and sold, `quote` is what it is priced in. */
  datatype Pair = Pair(base: Currency, quote: Currency) {
    predicate IsValid() {
      base != quote
    }
  }

  datatype Side = Bid | Ask {
    function Opposite(): Side {
      if Bid? then Ask else Bid
    }
  }

  datatype OrderType = Market | Limit

  datatype OrderStatus = Open | PartiallyFilled | Filled | Cancelled

  datatype OrderRequest = OrderRequest(pair: Pair, orderType: OrderType, side: Side, price: u64, size: u64)

  datatype Command =
    | Place(order: OrderRequest)
    | Cancel(orderId: nat)
    | Deposit(depositCurrency: Currency, depositAmount: u64)
    | Withdraw(withdrawCurrency: Currency, withdrawAmount: u64)
    | ListPair(listed: Pair)
    | DelistPair(delisted: Pair)

  datatype PlaceOrderResponse = PlaceOrderResponse(orderId: nat, filledQty: nat, totalCost: nat)

  datatype CommandResponse =
    | PlaceReply(placed: Result<PlaceOrderResponse>)
    | CancelReply(cancelled: bool)
    | DepositReply(available: Result<int>)
    | WithdrawReply(withdrawn: Result<()>)
    | ListReply(newlyListed: Result<bool>)
    | DelistReply(wasListed: bool)
    | Duplicate

  function Min(x: nat, y: nat): nat {
    if x <= y then x else y
  }

  function Max(x: nat, y: nat): nat {
    if x <= y then y else x
  }
}
