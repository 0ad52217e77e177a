/** The venue's value types: orders, trades and what a submit reports. */
module Types {
  type Price = int
  type SeqID = int
  type Account = string
  type Symbol = string

  datatype Option<+T> = None | Some(value: T)

  datatype Side = UnknownSide | Sell | Buy
  datatype OrderType = UnknownType | Limit | Market

  datatype Order = Order(
    id: SeqID,
    symbol: Symbol,
    placer: Account,
    kind: OrderType,
    price: Price,
    quantity: int,
    side: Side)

  /** One execution. The maker was resting; the taker arrived and crossed it. */
  datatype Trade = Trade(
    id: SeqID,
    symbol: Symbol,
    price: Price,
    makerId: SeqID,
    takerId: SeqID,
    makerAccount: Account,
    takerAccount: Account,
    quantity: int,
    takerSide: Side)
  {
    function Buyer(): Account {
      if takerSide == Buy then takerAccount else makerAccount
    }

    function Seller(): Account {
      if takerSide == Buy then makerAccount else takerAccount
    }
  }

  /** What one submit did to the book. */
  datatype Outcome = Outcome(trades: seq<Trade>, selfPrevented: seq<SeqID>, resting: int)

  const MAX_INT64: int := 0x7FFF_FFFF_FFFF_FFFF

  function Min(a: int, b: int): int {
    if a <= b then a else b
  }

  function Max(a: int, b: int): int {
    if a <= b then b else a
  }
}
