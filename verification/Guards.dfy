/** The two overflow guards on price times quantity, and exactly which pairs they let through. */
module Guards {
  import opened Types
  import opened AccountState

  const TWO_63: int := 0x8000_0000_0000_0000
  const TWO_64: int := 0x1_0000_0000_0000_0000

  predicate IsInt64(x: int) {
    -TWO_63 <= x < TWO_63
  }

  /** Signed 64-bit wrap-around. */
  function Wrap(x: int): int {
    (x + TWO_63) % TWO_64 - TWO_63
  }

  /** Division truncating toward zero. */
  function Quot(x: int, y: int): int
    requires y > 0
  {
    if x >= 0 then x / y else -(-x / y)
  }

  /** Settlement's guard: multiply with wrap-around, divide back, and refuse if that does not give the price. */
  function TradeValue(price: Price, quantity: int): Option<int>
    requires IsInt64(price) && IsInt64(quantity)
  {
    if price < 0 || quantity < 0 then None
    else
      var value := Wrap(price * quantity);
      if quantity != 0 && Quot(value, quantity) != price then None else Some(value)
  }

  /** The pairs whose true product is a non-negative signed 64-bit integer. */
  predicate Representable(price: Price, quantity: int) {
    price >= 0 && quantity >= 0 && price * quantity <= MAX_INT64
  }

  lemma QuotientBound(n: int, q: int)
    requires n >= 0 && q > 0
    ensures n / q * q <= n < (n / q + 1) * q
  {
  }

  lemma ProductMonotone(a: int, b: int, q: int)
    requires a <= b && q >= 0
    ensures a * q <= b * q
  {
  }

  /** The reservation guard lets through exactly the representable products, unchanged. */
  lemma NotionalIsExact(price: Price, quantity: int)
    ensures Notional(price, quantity) == if Representable(price, quantity) then Some(price * quantity) else None
  {
    if price >= 0 && quantity > 0 {
      var k := MAX_INT64 / quantity;
      QuotientBound(MAX_INT64, quantity);
      if price > k { ProductMonotone(k + 1, price, quantity); } else { ProductMonotone(price, k, quantity); }
    }
  }

  lemma WrapRange(x: int)
    ensures IsInt64(Wrap(x))
    ensures IsInt64(x) ==> Wrap(x) == x
  {
  }

  lemma QuotExact(price: int, q: int)
    requires price >= 0 && q > 0
    ensures Quot(price * q, q) == price
  {
    QuotientBound(price * q, q);
    var d := price * q / q;
    if d < price { ProductMonotone(d + 1, price, q); }
    if d > price { ProductMonotone(price + 1, d, q); }
  }

  /** A quotient that equals the price bounds the dividend from below. */
  lemma QuotBound(v: int, q: int, price: int)
    requires q > 0 && price >= 0 && Quot(v, q) == price
    ensures price * q <= v || price == 0
  {
    if v >= 0 { QuotientBound(v, q); } else { QuotientBound(-v, q); }
  }

  /** Settlement's guard lets through exactly the representable products too: wrap-around never fools it. */
  lemma TradeValueIsExact(price: Price, quantity: int)
    requires IsInt64(price) && IsInt64(quantity)
    ensures TradeValue(price, quantity) == if Representable(price, quantity) then Some(price * quantity) else None
  {
    if price >= 0 && quantity > 0 {
      var p := price * quantity;
      ProductMonotone(0, price, quantity);
      WrapRange(p);
      if p <= MAX_INT64 {
        QuotExact(price, quantity);
      } else if Quot(Wrap(p), quantity) == price {
        QuotBound(Wrap(p), quantity, price);
      }
    }
  }

  /** So reservation and settlement never disagree about a trade. */
  lemma GuardsAgree(price: Price, quantity: int)
    requires IsInt64(price) && IsInt64(quantity)
    ensures Notional(price, quantity) == TradeValue(price, quantity)
  {
    NotionalIsExact(price, quantity);
    TradeValueIsExact(price, quantity);
  }

  /** A fill inside a limit buyer's reservation is representable and costs no more than what it frees. */
  lemma FillWithinReservation(limit: Price, reserved: int, price: Price, fill: int)
    requires Representable(limit, reserved) && 0 <= price <= limit && 0 <= fill <= reserved
    ensures Representable(price, fill) && Representable(limit, fill) && price * fill <= limit * fill
  {
    ProductMonotone(price, limit, fill);
    ProductMonotone(fill, reserved, limit);
  }
}
