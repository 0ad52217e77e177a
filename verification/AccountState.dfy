/**
 * What the account store holds and what each of its operations does to it, as
 * values. The `Accounts` class is proved against these functions; `Holds` and
 * `Solvency` prove what they mean.
 */
module AccountState {
  import opened Types

  datatype HoldKey = HoldKey(symbol: Symbol, orderId: SeqID)

  /** One order's outstanding reservation. */
  datatype Hold = Hold(account: Account, symbol: Symbol, side: Side, price: Price, quantity: int)

  type PerSymbol = map<Account, map<Symbol, int>>

  datatype State = State(
    cash: map<Account, int>,
    positions: PerSymbol,
    reservedCash: map<Account, int>,
    reservedShares: PerSymbol,
    holds: map<HoldKey, Hold>)

  const EmptyState := State(map[], map[], map[], map[], map[])

  datatype ReserveError =
    UnknownAccount | BadQuantity | AlreadyReserved | InsufficientShares | InsufficientFunds | BadValue

  // --- Map lookups with Go's zero default --------------------------------------

  function Get<K>(m: map<K, int>, k: K): int {
    if k in m then m[k] else 0
  }

  function Row(m: PerSymbol, a: Account): map<Symbol, int> {
    if a in m then m[a] else map[]
  }

  function Get2(m: PerSymbol, a: Account, s: Symbol): int {
    Get(Row(m, a), s)
  }

  function Put2(m: PerSymbol, a: Account, s: Symbol, v: int): PerSymbol {
    m[a := Row(m, a)[s := v]]
  }

  function Add2(m: PerSymbol, a: Account, s: Symbol, delta: int): PerSymbol {
    Put2(m, a, s, Get2(m, a, s) + delta)
  }

  /** Like Add2, but an entry that reaches zero is deleted. */
  function AddShares(m: PerSymbol, a: Account, s: Symbol, delta: int): PerSymbol {
    var v := Get2(m, a, s) + delta;
    if v == 0 then m[a := Row(m, a) - {s}] else Put2(m, a, s, v)
  }

  /** Take an amount off a reserved total; an entry that reaches zero is deleted. */
  function TakeOff(m: map<Account, int>, a: Account, amount: int): map<Account, int> {
    var v := Get(m, a) - amount;
    if v == 0 then m - {a} else m[a := v]
  }

  // --- The overflow guard ---------------------------------------------------------

  /** price * quantity, refused when negative or past the signed 64-bit maximum. */
  function Notional(price: Price, quantity: int): Option<int> {
    if price < 0 || quantity < 0 then None
    else if quantity != 0 && price > MAX_INT64 / quantity then None
    else Some(price * quantity)
  }

  // --- Operations -------------------------------------------------------------------

  predicate Exists(st: State, a: Account) {
    a in st.cash || a in st.positions
  }

  function Key(o: Order): HoldKey {
    HoldKey(o.symbol, o.id)
  }

  /** The hold an accepted order gets: a MARKET buy reserves nothing, which price 0 records. */
  function HoldFor(o: Order): Hold {
    if o.side == Sell then Hold(o.placer, o.symbol, Sell, o.price, o.quantity)
    else if o.kind == Market then Hold(o.placer, o.symbol, Buy, 0, o.quantity)
    else Hold(o.placer, o.symbol, Buy, o.price, o.quantity)
  }

  function Reserve(st: State, o: Order): (State, Option<ReserveError>) {
    if !Exists(st, o.placer) then (st, Some(UnknownAccount))
    else if o.quantity <= 0 then (st, Some(BadQuantity))
    else if Key(o) in st.holds then (st, Some(AlreadyReserved))
    else
      var held := st.holds[Key(o) := HoldFor(o)];
      var free := Get(st.cash, o.placer) - Get(st.reservedCash, o.placer);
      if o.side == Sell then
        if Get2(st.positions, o.placer, o.symbol) - Get2(st.reservedShares, o.placer, o.symbol) < o.quantity
        then (st, Some(InsufficientShares))
        else (st.(reservedShares := AddShares(st.reservedShares, o.placer, o.symbol, o.quantity), holds := held), None)
      else if o.kind == Market then
        if free <= 0 then (st, Some(InsufficientFunds)) else (st.(holds := held), None)
      else
        match Notional(o.price, o.quantity)
        case None => (st, Some(BadValue))
        case Some(cost) =>
          if free < cost then (st, Some(InsufficientFunds))
          else
            var reserved := st.reservedCash[o.placer := Get(st.reservedCash, o.placer) + cost];
            (st.(reservedCash := reserved, holds := held), None)
  }

  /** Re-establish the hold of an order recovered from the log, without an affordability check. */
  function RestoreHold(st: State, symbol: Symbol, o: Order): State {
    var key := HoldKey(symbol, o.id);
    if key in st.holds then st
    else if o.side == Sell then
      st.(reservedShares := AddShares(st.reservedShares, o.placer, symbol, o.quantity),
          holds := st.holds[key := Hold(o.placer, symbol, Sell, o.price, o.quantity)])
    else
      var reserved := match Notional(o.price, o.quantity)
        case Some(cost) => st.reservedCash[o.placer := Get(st.reservedCash, o.placer) + cost]
        case None => st.reservedCash;
      st.(reservedCash := reserved, holds := st.holds[key := Hold(o.placer, symbol, Buy, o.price, o.quantity)])
  }

  /** Free what qty units of hold h had reserved. */
  function Free(st: State, h: Hold, qty: int): State {
    if h.side == Sell then
      st.(reservedShares := AddShares(st.reservedShares, h.account, h.symbol, -qty))
    else if h.price == 0 then st
    else
      match Notional(h.price, qty)
      case None => st
      case Some(freed) => st.(reservedCash := TakeOff(st.reservedCash, h.account, freed))
  }

  lemma FreeIgnoresHolds(st: State, h: Hold, qty: int, holds: map<HoldKey, Hold>)
    ensures Free(st.(holds := holds), h, qty) == Free(st, h, qty).(holds := holds)
  {
  }

  /** Reduce a hold by at most its own quantity, freeing what that had reserved. */
  function ShrinkHold(st: State, key: HoldKey, qty: int): State
    requires key in st.holds
  {
    var h := st.holds[key];
    if qty <= 0 then st
    else
      var q := Min(qty, h.quantity);
      Free(st.(holds := st.holds[key := h.(quantity := h.quantity - q)]), h, q)
  }

  function Release(st: State, key: HoldKey): State {
    if key !in st.holds then st
    else
      var st' := ShrinkHold(st, key, st.holds[key].quantity);
      st'.(holds := st'.holds - {key})
  }

  /** Reduce one order's hold by a fill, dropping it once nothing is left of it. */
  function ShrinkTraded(st: State, key: HoldKey, qty: int): State {
    if key !in st.holds then st
    else
      var st' := ShrinkHold(st, key, qty);
      if key in st'.holds && st'.holds[key].quantity == 0 then st'.(holds := st'.holds - {key}) else st'
  }

  /** Move a trade's cash and shares between its two accounts. */
  function MoveValue(st: State, t: Trade, value: int): State {
    var paid := st.cash[t.Buyer() := Get(st.cash, t.Buyer()) - value];
    st.(cash := paid[t.Seller() := Get(paid, t.Seller()) + value],
        positions := Add2(Add2(st.positions, t.Buyer(), t.symbol, t.quantity), t.Seller(), t.symbol, -t.quantity))
  }

  /** One trade: value moves and both holds shrink; a trade whose value overflows is skipped. */
  function ApplyTrade(st: State, symbol: Symbol, t: Trade): State {
    match Notional(t.price, t.quantity)
    case None => st
    case Some(value) =>
      var moved := MoveValue(st, t, value);
      var st1 := ShrinkTraded(moved, HoldKey(symbol, t.makerId), t.quantity);
      ShrinkTraded(st1, HoldKey(symbol, t.takerId), t.quantity)
  }

  function ApplyTrades(st: State, symbol: Symbol, trades: seq<Trade>): State
    decreases |trades|
  {
    if trades == [] then st else ApplyTrades(ApplyTrade(st, symbol, trades[0]), symbol, trades[1..])
  }

  function ReleaseAll(st: State, symbol: Symbol, ids: seq<SeqID>): State
    decreases |ids|
  {
    if ids == [] then st else ReleaseAll(Release(st, HoldKey(symbol, ids[0])), symbol, ids[1..])
  }

  /** An order's whole outcome in one step. */
  function Complete(st: State, symbol: Symbol, id: SeqID, outcome: Outcome): State {
    var st' := ReleaseAll(ApplyTrades(st, symbol, outcome.trades), symbol, outcome.selfPrevented);
    if outcome.resting <= 0 then Release(st', HoldKey(symbol, id)) else st'
  }

  function Deposit(st: State, a: Account, amount: int): State {
    st.(cash := st.cash[a := Get(st.cash, a) + amount])
  }

  function SetPosition(st: State, a: Account, s: Symbol, qty: int): State {
    st.(positions := Put2(st.positions, a, s, qty))
  }

  /** Loading creates a position row only for an account that has an entry in it. */
  function NonEmptyRows(m: PerSymbol): PerSymbol {
    map a | a in m && m[a] != map[] :: m[a]
  }

  /** None when live holds forbid replacing the balances under them. */
  function LoadBalances(st: State, cash: map<Account, int>, positions: PerSymbol): Option<State> {
    if st.holds != map[] then None else Some(State(cash, NonEmptyRows(positions), map[], map[], map[]))
  }

  // --- Unfolding from the back, for loops that walk forward ------------------------------

  lemma {:induction false} ApplyTradesSnoc(st: State, symbol: Symbol, trades: seq<Trade>, t: Trade)
    ensures ApplyTrades(st, symbol, trades + [t]) == ApplyTrade(ApplyTrades(st, symbol, trades), symbol, t)
    decreases |trades|
  {
    hide ApplyTrade;
    if trades == [] {
      assert trades + [t] == [t];
    } else {
      ApplyTradesSnoc(ApplyTrade(st, symbol, trades[0]), symbol, trades[1..], t);
      assert (trades + [t])[1..] == trades[1..] + [t];
    }
  }

  lemma {:induction false} ReleaseAllSnoc(st: State, symbol: Symbol, ids: seq<SeqID>, id: SeqID)
    ensures ReleaseAll(st, symbol, ids + [id]) == Release(ReleaseAll(st, symbol, ids), HoldKey(symbol, id))
    decreases |ids|
  {
    hide Release;
    if ids == [] {
      assert ids + [id] == [id];
    } else {
      ReleaseAllSnoc(Release(st, HoldKey(symbol, ids[0])), symbol, ids[1..], id);
      assert (ids + [id])[1..] == ids[1..] + [id];
    }
  }
}
