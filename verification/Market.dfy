/** Orders and matching logs, with decimals counted in ticks: prices in units of
    10^-QuoteScale, sizes in units of 10^-BaseScale, funds in units of the product of both. */
module Market {

  datatype Option<T> = None | Some(value: T)

  datatype Side = Buy | Sell {
    function Opposite(): Side { if this.Buy? then Sell else Buy }
  }

  datatype OrderType = Limit | Market

  datatype DoneReason = Filled | Cancelled

  /** What the matching engine keeps of an order. */
  datatype Order = Order(id: int, size: int, funds: int, price: int, side: Side, kind: OrderType) {
    predicate IsMarketBuy() { kind.Market? && side.Buy? }
  }

  /** One message of the order stream: a new order, or a request to cancel one. */
  datatype Command = Submit(order: Order) | Cancel(order: Order)

  datatype Log =
    | OpenLog(seqNo: nat, orderId: int, remaining: int, price: int, side: Side)
    | MatchLog(seqNo: nat, tradeId: nat, takerId: int, makerId: int, side: Side, price: int, size: int)
    | DoneLog(seqNo: nat, orderId: int, price: int, remaining: int, reason: DoneReason, side: Side)
  {
    /** The orders a log is about. */
    predicate Names(id: int) {
      if MatchLog? then takerId == id || makerId == id else orderId == id
    }
  }

  /** Position of a price in the queue of one side: lower ranks are matched first. */
  function Rank(side: Side, price: int): int { if side.Sell? then price else -price }

  /** Price first, then the earlier order id. */
  predicate Before(side: Side, price1: int, id1: int, price2: int, id2: int) {
    Rank(side, price1) < Rank(side, price2) || (price1 == price2 && id1 < id2)
  }

  /** The numbers of a traded product that the engine reads: `unit` is 10^(16 - BaseScale), the
      division unit in base ticks, and `topPrice` stands for the largest float, the limit price
      of a market buy. */
  datatype Product = Product(unit: Unit, topPrice: int)

  type Unit = n: int | n >= 1 witness 1
}
