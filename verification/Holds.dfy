/**
 * Reservations as sums over live holds. Cash and per-symbol shares are treated
 * alike: an account's demand on an asset is what its holds commit of it.
 */
module Holds {
  import opened Types
  import opened AccountState
  import opened Guards

  type HoldMap = map<HoldKey, Hold>

  /** What can be owned and reserved: an account's cash, or its shares of one symbol. */
  datatype Asset = Cash(account: Account) | Shares(account: Account, symbol: Symbol)

  function Owned(st: State, x: Asset): int {
    match x
    case Cash(a) => Get(st.cash, a)
    case Shares(a, s) => Get2(st.positions, a, s)
  }

  function Reserved(st: State, x: Asset): int {
    match x
    case Cash(a) => Get(st.reservedCash, a)
    case Shares(a, s) => Get2(st.reservedShares, a, s)
  }

  /** What one hold commits of an asset. */
  function Demand(h: Hold, x: Asset): int {
    match x
    case Cash(a) => if h.side != Sell && h.account == a then h.price * h.quantity else 0
    case Shares(a, s) => if h.side == Sell && h.account == a && h.symbol == s then h.quantity else 0
  }

  ghost function TotalDemand(holds: HoldMap, x: Asset): int
    decreases |holds|
  {
    if holds == map[] then 0
    else
      var k :| k in holds;
      Demand(holds[k], x) + TotalDemand(holds - {k}, x)
  }

  lemma {:induction false} DemandSplits(holds: HoldMap, x: Asset, k: HoldKey)
    requires k in holds
    ensures TotalDemand(holds, x) == Demand(holds[k], x) + TotalDemand(holds - {k}, x)
    decreases |holds|
  {
    var c :| c in holds && TotalDemand(holds, x) == Demand(holds[c], x) + TotalDemand(holds - {c}, x);
    if c != k {
      DemandSplits(holds - {c}, x, k);
      DemandSplits(holds - {k}, x, c);
      assert holds - {c} - {k} == holds - {k} - {c};
    }
  }

  lemma DemandOfUpdate(holds: HoldMap, x: Asset, k: HoldKey, h: Hold)
    ensures TotalDemand(holds[k := h], x)
         == TotalDemand(holds, x) - (if k in holds then Demand(holds[k], x) else 0) + Demand(h, x)
  {
    DemandSplits(holds[k := h], x, k);
    if k in holds {
      DemandSplits(holds, x, k);
      assert holds[k := h] - {k} == holds - {k};
    } else {
      assert holds[k := h] - {k} == holds;
    }
  }

  // --- Sound states ---------------------------------------------------------------------

  /** A hold whose whole reservation passed the overflow guard. */
  predicate HoldOk(h: Hold) {
    h.quantity > 0 && (h.side != Sell ==> Representable(h.price, h.quantity))
  }

  predicate HoldsOk(holds: HoldMap) {
    forall k :: k in holds ==> HoldOk(holds[k])
  }

  /** Reserved totals are exactly the sums over live holds. */
  ghost predicate Backed(st: State) {
    forall x :: Reserved(st, x) == TotalDemand(st.holds, x)
  }

  ghost predicate Sound(st: State) {
    HoldsOk(st.holds) && Backed(st)
  }

  lemma {:induction false} DemandIsNonNegative(holds: HoldMap, x: Asset)
    requires HoldsOk(holds)
    ensures TotalDemand(holds, x) >= 0
    decreases |holds|
  {
    if holds != map[] {
      var k :| k in holds && TotalDemand(holds, x) == Demand(holds[k], x) + TotalDemand(holds - {k}, x);
      DemandIsNonNegative(holds - {k}, x);
      HoldDemand(holds[k], x);
    }
  }

  lemma HoldDemand(h: Hold, x: Asset)
    requires HoldOk(h)
    ensures Demand(h, x) >= 0
  {
    if h.side != Sell { ProductMonotone(0, h.price, h.quantity); }
  }

  /** No asset is ever negatively reserved. */
  lemma ReservedIsNonNegative(st: State, x: Asset)
    requires Sound(st)
    ensures Reserved(st, x) >= 0
  {
    DemandIsNonNegative(st.holds, x);
  }

  // --- What each primitive does to an asset's totals ----------------------------------------

  lemma SharesAfter(m: PerSymbol, a: Account, s: Symbol, delta: int, b: Account, r: Symbol)
    ensures Get2(AddShares(m, a, s, delta), b, r) == Get2(m, b, r) + (if a == b && s == r then delta else 0)
    ensures Get2(Add2(m, a, s, delta), b, r) == Get2(m, b, r) + (if a == b && s == r then delta else 0)
  {
  }

  lemma FreeTotals(st: State, h: Hold, q: int, x: Asset)
    requires h.side != Sell ==> Representable(h.price, q)
    ensures Owned(Free(st, h, q), x) == Owned(st, x)
    ensures Reserved(Free(st, h, q), x) == Reserved(st, x) - Demand(h.(quantity := q), x)
    ensures Free(st, h, q).holds == st.holds
  {
    NotionalIsExact(h.price, q);
    if x.Shares? { SharesAfter(st.reservedShares, h.account, h.symbol, -q, x.account, x.symbol); }
  }

  /** A hold after a fill of q: smaller, or gone when nothing is left of it. */
  function Shrunk(holds: HoldMap, key: HoldKey, q: int): HoldMap {
    if key !in holds then holds
    else
      var left := holds[key].quantity - (if q <= 0 then 0 else Min(q, holds[key].quantity));
      if left == 0 then holds - {key} else holds[key := holds[key].(quantity := left)]
  }

  lemma DemandIsLinear(h: Hold, q: int, x: Asset)
    ensures Demand(h, x) == Demand(h.(quantity := q), x) + Demand(h.(quantity := h.quantity - q), x)
  {
  }

  lemma DemandAfterShrink(holds: HoldMap, key: HoldKey, q: int, x: Asset)
    requires key in holds && 0 < q <= holds[key].quantity
    ensures TotalDemand(Shrunk(holds, key, q), x)
         == TotalDemand(holds, x) - Demand(holds[key].(quantity := q), x)
  {
    var h := holds[key];
    DemandIsLinear(h, q, x);
    if q == h.quantity { DemandSplits(holds, x, key); }
    else { DemandOfUpdate(holds, x, key, h.(quantity := h.quantity - q)); }
  }

  lemma PartIsRepresentable(h: Hold, q: int)
    requires HoldOk(h) && 0 < q <= h.quantity
    ensures h.side != Sell ==> Representable(h.price, q) && Representable(h.price, h.quantity - q)
  {
    if h.side != Sell {
      ProductMonotone(q, h.quantity, h.price);
      ProductMonotone(h.quantity - q, h.quantity, h.price);
    }
  }

  lemma ShrunkHoldsOk(holds: HoldMap, key: HoldKey, q: int)
    requires HoldsOk(holds)
    ensures HoldsOk(Shrunk(holds, key, q))
  {
    if key in holds && 0 < q < holds[key].quantity { PartIsRepresentable(holds[key], q); }
  }

  /** Shrinking is freeing, on the state with the smaller hold filed, then dropping a hold of nothing. */
  lemma ShrinkIsFree(st: State, key: HoldKey, q: int)
    requires key in st.holds && q > 0 && st.holds[key].quantity > 0
    ensures var h := st.holds[key]; var n := Min(q, h.quantity);
      var freed := Free(st.(holds := st.holds[key := h.(quantity := h.quantity - n)]), h, n);
      var st' := ShrinkTraded(st, key, q);
      && st'.cash == freed.cash && st'.positions == freed.positions
      && st'.reservedCash == freed.reservedCash && st'.reservedShares == freed.reservedShares
      && st'.holds == Shrunk(st.holds, key, q) == Shrunk(st.holds, key, n)
  {
    hide Free;
    var h := st.holds[key];
    var n := Min(q, h.quantity);
    FreeKeepsHolds(st.(holds := st.holds[key := h.(quantity := h.quantity - n)]), h, n);
  }

  lemma FreeKeepsHolds(st: State, h: Hold, q: int)
    ensures Free(st, h, q).holds == st.holds
  {
  }

  lemma ShrinkTotals(st: State, key: HoldKey, q: int, x: Asset)
    requires Sound(st) && key in st.holds && q > 0
    ensures var st' := ShrinkTraded(st, key, q);
      Owned(st', x) == Owned(st, x) && Reserved(st', x) == TotalDemand(st'.holds, x)
  {
    hide ShrinkTraded, Free, Shrunk, Demand;
    var h := st.holds[key];
    assert HoldOk(h);
    var n := Min(q, h.quantity);
    PartIsRepresentable(h, n);
    ShrinkIsFree(st, key, q);
    FreeTotals(st.(holds := st.holds[key := h.(quantity := h.quantity - n)]), h, n, x);
    DemandAfterShrink(st.holds, key, n, x);
  }

  /** A fill shrinks the named hold and frees exactly what it had reserved; nothing else moves. */
  lemma ShrinkTradedEffect(st: State, key: HoldKey, q: int)
    requires Sound(st) && q > 0
    ensures var st' := ShrinkTraded(st, key, q);
      && Sound(st')
      && st'.holds == Shrunk(st.holds, key, q)
      && forall x :: Owned(st', x) == Owned(st, x)
  {
    hide Free, Owned, Reserved, TotalDemand, ShrinkHold;
    if key in st.holds {
      assert HoldOk(st.holds[key]);
      ShrinkIsFree(st, key, q);
      forall x
        ensures Owned(ShrinkTraded(st, key, q), x) == Owned(st, x)
        ensures Reserved(ShrinkTraded(st, key, q), x) == TotalDemand(ShrinkTraded(st, key, q).holds, x)
      {
        ShrinkTotals(st, key, q, x);
      }
      ShrunkHoldsOk(st.holds, key, q);
    }
  }

  /** A fill of nothing, or of an order that holds nothing, changes nothing. */
  lemma ShrinkNothing(st: State, key: HoldKey, q: int)
    requires Sound(st) && (q <= 0 || key !in st.holds)
    ensures ShrinkTraded(st, key, q) == st && (key in st.holds ==> ShrinkHold(st, key, q) == st)
  {
    if key in st.holds { assert HoldOk(st.holds[key]); }
  }

  /** A trade whose value is not representable is skipped: nothing moves and nothing is freed. */
  lemma OverflowIsSkipped(st: State, symbol: Symbol, t: Trade)
    requires !Representable(t.price, t.quantity)
    ensures ApplyTrade(st, symbol, t) == st
  {
    NotionalIsExact(t.price, t.quantity);
  }

  /** Releasing a hold frees all of it. */
  lemma ReleaseEffect(st: State, key: HoldKey)
    requires Sound(st)
    ensures var st' := Release(st, key);
      && Sound(st')
      && st'.holds == st.holds - {key}
      && forall x :: Owned(st', x) == Owned(st, x)
  {
    if key in st.holds {
      var h := st.holds[key];
      assert HoldOk(h);
      ShrinkTradedEffect(st, key, h.quantity);
      assert Release(st, key) == ShrinkTraded(st, key, h.quantity);
    }
  }

  lemma AddedHoldOk(holds: HoldMap, key: HoldKey, h: Hold)
    requires HoldsOk(holds) && HoldOk(h)
    ensures HoldsOk(holds[key := h])
  {
  }

  /** What an accepted order does to one asset: it commits its demand, which the account could afford. */
  lemma ReserveTotals(st: State, o: Order, x: Asset)
    requires Reserve(st, o).1.None?
    ensures var st' := Reserve(st, o).0;
      && Owned(st', x) == Owned(st, x)
      && Reserved(st', x) == Reserved(st, x) + Demand(HoldFor(o), x)
      && (Reserved(st', x) <= Reserved(st, x) || Reserved(st', x) <= Owned(st, x))
  {
    hide Notional, Representable, AddShares, Add2;
    NotionalIsExact(o.price, o.quantity);
    if x.Shares? { SharesAfter(st.reservedShares, o.placer, o.symbol, o.quantity, x.account, x.symbol); }
  }

  lemma ReserveFiles(st: State, o: Order)
    requires Reserve(st, o).1.None?
    ensures Key(o) !in st.holds && HoldOk(HoldFor(o))
    ensures Reserve(st, o).0.holds == st.holds[Key(o) := HoldFor(o)]
  {
    NotionalIsExact(o.price, o.quantity);
  }

  /** An accepted order holds exactly its demand, and the account could afford it. */
  lemma ReserveEffect(st: State, o: Order)
    requires Sound(st)
    ensures var (st', err) := Reserve(st, o);
      && Sound(st')
      && (forall x :: Owned(st', x) == Owned(st, x))
      && (err.Some? ==> st' == st)
      && (err.None? ==>
            && Key(o) !in st.holds && o.quantity > 0 && HoldOk(HoldFor(o))
            && st'.holds == st.holds[Key(o) := HoldFor(o)]
            && (forall x :: Reserved(st', x) == Reserved(st, x) + Demand(HoldFor(o), x))
            && (forall x :: Reserved(st', x) <= Reserved(st, x) || Reserved(st', x) <= Owned(st, x)))
  {
    RefusedChangesNothing(st, o);
    hide Reserve, Reserved, Owned, Demand, HoldOk, HoldFor, Key;
    var (st', err) := Reserve(st, o);
    if err.None? {
      ReserveFiles(st, o);
      AddedHoldOk(st.holds, Key(o), HoldFor(o));
      forall x
        ensures Owned(st', x) == Owned(st, x)
        ensures Reserved(st', x) == TotalDemand(st'.holds, x) == Reserved(st, x) + Demand(HoldFor(o), x)
        ensures Reserved(st', x) <= Reserved(st, x) || Reserved(st', x) <= Owned(st, x)
      {
        ReserveTotals(st, o, x);
        DemandOfUpdate(st.holds, x, Key(o), HoldFor(o));
      }
    }
  }

  lemma RefusedChangesNothing(st: State, o: Order)
    ensures Reserve(st, o).1.Some? ==> Reserve(st, o).0 == st
    ensures Reserve(st, o).1.None? ==> o.quantity > 0
  {
  }

  lemma RestoreTotals(st: State, symbol: Symbol, o: Order, x: Asset)
    requires Key(o) !in st.holds && o.kind == Limit && o.symbol == symbol && HoldOk(HoldFor(o))
    ensures Reserved(RestoreHold(st, symbol, o), x) == Reserved(st, x) + Demand(HoldFor(o), x)
  {
    NotionalIsExact(o.price, o.quantity);
    if x.Shares? { SharesAfter(st.reservedShares, o.placer, symbol, o.quantity, x.account, x.symbol); }
  }

  lemma RestoreFiles(st: State, symbol: Symbol, o: Order)
    requires o.kind == Limit && o.symbol == symbol
    ensures var st' := RestoreHold(st, symbol, o);
      && st'.cash == st.cash && st'.positions == st.positions
      && (if Key(o) in st.holds then st' == st else st'.holds == st.holds[Key(o) := HoldFor(o)])
  {
  }

  // --- Which orders are accepted ---------------------------------------------------------------

  /** What the account has not committed of its cash, or of its shares of this symbol. */
  function FreeOf(st: State, x: Asset): int {
    Owned(st, x) - Reserved(st, x)
  }

  /** The order names an account with an entry, asks for something, and its id holds nothing yet. */
  predicate Admissible(st: State, o: Order) {
    (o.placer in st.cash || o.placer in st.positions) && o.quantity > 0 && HoldKey(o.symbol, o.id) !in st.holds
  }

  /**
   * An order is accepted exactly when its account is known, its quantity positive, its id new and
   * what it may cost is not committed already: a sell's shares, any cash at all for a MARKET buy,
   * the representable value of any other order.
   */
  lemma ReserveAcceptsIff(st: State, o: Order)
    ensures Reserve(st, o).1.None? <==>
      && Admissible(st, o)
      && if o.side == Sell then o.quantity <= FreeOf(st, Shares(o.placer, o.symbol))
         else if o.kind == Market then FreeOf(st, Cash(o.placer)) > 0
         else Representable(o.price, o.quantity) && o.price * o.quantity <= FreeOf(st, Cash(o.placer))
  {
    NotionalIsExact(o.price, o.quantity);
  }

  /** And each reason for refusing is given exactly when it is the first that applies; a refusal changes nothing. */
  lemma ReserveRefusesIff(st: State, o: Order)
    ensures var (st', err) := Reserve(st, o);
      var known := o.placer in st.cash || o.placer in st.positions;
      var value := o.side != Sell && o.kind != Market;
      && (err == Some(UnknownAccount) <==> !known)
      && (err == Some(BadQuantity) <==> known && o.quantity <= 0)
      && (err == Some(AlreadyReserved) <==> known && o.quantity > 0 && HoldKey(o.symbol, o.id) in st.holds)
      && (err == Some(InsufficientShares)) ==
           (Admissible(st, o) && o.side == Sell && FreeOf(st, Shares(o.placer, o.symbol)) < o.quantity)
      && (err == Some(BadValue) <==> Admissible(st, o) && value && !Representable(o.price, o.quantity))
      && (err == Some(InsufficientFunds)) ==
           (Admissible(st, o) && o.side != Sell
            && if o.kind == Market then FreeOf(st, Cash(o.placer)) <= 0
               else Representable(o.price, o.quantity) && FreeOf(st, Cash(o.placer)) < o.price * o.quantity)
      && (err.Some? ==> st' == st)
  {
    NotionalIsExact(o.price, o.quantity);
  }

  // --- Balances set from outside -----------------------------------------------------------------

  /** A deposit opens the account and adds to its cash alone; setting a position sets that one and no other. */
  lemma FundingEffect(st: State, a: Account, s: Symbol, n: int, x: Asset)
    ensures var st' := Deposit(st, a, n);
      && Owned(st', x) == Owned(st, x) + (if x == Cash(a) then n else 0) && Reserved(st', x) == Reserved(st, x)
      && st'.holds == st.holds && st'.cash.Keys == st.cash.Keys + {a} && st'.positions == st.positions
    ensures var st' := SetPosition(st, a, s, n);
      && Owned(st', x) == (if x == Shares(a, s) then n else Owned(st, x)) && Reserved(st', x) == Reserved(st, x)
      && st'.holds == st.holds && st'.cash == st.cash && st'.positions.Keys == st.positions.Keys + {a}
  {
  }

  /**
   * Balances are replaced exactly when no order is held; then everybody owns what is loaded and has
   * nothing reserved, and the accounts there are, are those with cash or a position loaded.
   */
  lemma LoadBalancesIff(st: State, cash: map<Account, int>, positions: PerSymbol)
    ensures var r := LoadBalances(st, cash, positions);
      && (r.Some? <==> st.holds.Keys == {})
      && (r.Some? ==>
            && r.value.holds == map[] && r.value.cash == cash
            && (forall a :: a in r.value.positions <==> a in positions && positions[a] != map[])
            && (forall a, s :: Owned(r.value, Shares(a, s)) == Get2(positions, a, s))
            && (forall x :: Reserved(r.value, x) == 0))
  {
    assert st.holds.Keys == {} <==> st.holds == map[];
  }

  /** A restored hold commits its demand whatever the account owns. */
  lemma RestoreEffect(st: State, symbol: Symbol, o: Order)
    requires Sound(st) && o.kind == Limit && o.symbol == symbol && HoldOk(HoldFor(o))
    ensures var st' := RestoreHold(st, symbol, o);
      && Sound(st')
      && st'.holds == (if Key(o) in st.holds then st.holds else st.holds[Key(o) := HoldFor(o)])
      && st'.cash == st.cash && st'.positions == st.positions
      && (Key(o) !in st.holds ==> forall x :: Reserved(st', x) == Reserved(st, x) + Demand(HoldFor(o), x))
  {
    RestoreFiles(st, symbol, o);
    hide RestoreHold, Reserved, Demand, HoldOk, HoldFor, Key;
    var st' := RestoreHold(st, symbol, o);
    if Key(o) !in st.holds {
      forall x ensures Reserved(st', x) == TotalDemand(st'.holds, x) == Reserved(st, x) + Demand(HoldFor(o), x) {
        RestoreTotals(st, symbol, o, x);
        DemandOfUpdate(st.holds, x, Key(o), HoldFor(o));
      }
      AddedHoldOk(st.holds, Key(o), HoldFor(o));
    }
  }

  // --- Several orders at once -----------------------------------------------------------------

  /** What these orders commit of an asset once each has its hold. */
  function OrdersDemand(orders: seq<Order>, x: Asset): int {
    if orders == [] then 0 else Demand(HoldFor(orders[0]), x) + OrdersDemand(orders[1..], x)
  }

  lemma {:induction false} DemandedIsNonNegative(orders: seq<Order>, x: Asset)
    requires forall o :: o in orders ==> HoldOk(HoldFor(o))
    ensures OrdersDemand(orders, x) >= 0
  {
    hide HoldFor, HoldOk, Demand;
    if orders != [] {
      assert orders[0] in orders;
      HoldDemand(HoldFor(orders[0]), x);
      DemandedIsNonNegative(orders[1..], x);
    }
  }
}
