/**
 * What an order's outcome does to holds and balances: the holds of a symbol stay
 * exactly its live orders, and no account is driven below what it has committed.
 */
module Settling {
  import opened Types
  import opened Matching
  import opened AccountState
  import opened Guards
  import opened Holds

  // --- One trade ----------------------------------------------------------------------

  /** What one trade adds to an account's holding of an asset. */
  function Movement(t: Trade, x: Asset): int {
    match x
    case Cash(a) =>
      (if a == t.Seller() then t.price * t.quantity else 0) - (if a == t.Buyer() then t.price * t.quantity else 0)
    case Shares(a, s) =>
      if s != t.symbol then 0
      else (if a == t.Buyer() then t.quantity else 0) - (if a == t.Seller() then t.quantity else 0)
  }

  function HoldsAfterTrade(holds: HoldMap, symbol: Symbol, t: Trade): HoldMap {
    Shrunk(Shrunk(holds, HoldKey(symbol, t.makerId), t.quantity), HoldKey(symbol, t.takerId), t.quantity)
  }

  predicate TradeOk(t: Trade) {
    t.quantity > 0 && Representable(t.price, t.quantity)
  }

  lemma MoveValueEffect(st: State, t: Trade, x: Asset)
    ensures var st' := MoveValue(st, t, t.price * t.quantity);
      && Owned(st', x) == Owned(st, x) + Movement(t, x)
      && Reserved(st', x) == Reserved(st, x) && st'.holds == st.holds
  {
    if x.Shares? {
      var bought := Add2(st.positions, t.Buyer(), t.symbol, t.quantity);
      SharesAfter(st.positions, t.Buyer(), t.symbol, t.quantity, x.account, x.symbol);
      SharesAfter(bought, t.Seller(), t.symbol, -t.quantity, x.account, x.symbol);
    }
  }

  /** A trade moves its value and its shares once, and shrinks both sides' holds by its quantity. */
  lemma TradeEffect(st: State, symbol: Symbol, t: Trade)
    requires Sound(st) && TradeOk(t)
    ensures var st' := ApplyTrade(st, symbol, t);
      && Sound(st')
      && st'.holds == HoldsAfterTrade(st.holds, symbol, t)
      && forall x :: Owned(st', x) == Owned(st, x) + Movement(t, x)
  {
    NotionalIsExact(t.price, t.quantity);
    var moved := MoveValue(st, t, t.price * t.quantity);
    forall x
      ensures Owned(moved, x) == Owned(st, x) + Movement(t, x)
      ensures Reserved(moved, x) == TotalDemand(moved.holds, x)
    {
      MoveValueEffect(st, t, x);
    }
    assert moved.holds == st.holds;
    hide MoveValue, ShrinkTraded, Movement;
    ShrinkTradedEffect(moved, HoldKey(symbol, t.makerId), t.quantity);
    ShrinkTradedEffect(ShrinkTraded(moved, HoldKey(symbol, t.makerId), t.quantity),
                       HoldKey(symbol, t.takerId), t.quantity);
  }

  function HoldsAfterTrades(holds: HoldMap, symbol: Symbol, trades: seq<Trade>): HoldMap
    decreases |trades|
  {
    if trades == [] then holds
    else HoldsAfterTrades(HoldsAfterTrade(holds, symbol, trades[0]), symbol, trades[1..])
  }

  function Movements(trades: seq<Trade>, x: Asset): int {
    if trades == [] then 0 else Movement(trades[0], x) + Movements(trades[1..], x)
  }

  predicate TradesOk(trades: seq<Trade>) {
    forall i :: 0 <= i < |trades| ==> TradeOk(trades[i])
  }

  lemma {:induction false} TradesEffect(st: State, symbol: Symbol, trades: seq<Trade>)
    requires Sound(st) && TradesOk(trades)
    ensures var st' := ApplyTrades(st, symbol, trades);
      && Sound(st')
      && st'.holds == HoldsAfterTrades(st.holds, symbol, trades)
      && forall x :: Owned(st', x) == Owned(st, x) + Movements(trades, x)
    decreases |trades|
  {
    hide Sound, ApplyTrade, HoldsAfterTrade, Owned, Movement;
    if trades != [] {
      TradeEffect(st, symbol, trades[0]);
      TradesEffect(ApplyTrade(st, symbol, trades[0]), symbol, trades[1..]);
    }
  }

  lemma {:induction false} ReleaseAllEffect(st: State, symbol: Symbol, ids: seq<SeqID>)
    requires Sound(st)
    ensures var st' := ReleaseAll(st, symbol, ids);
      && Sound(st')
      && st'.holds == st.holds - (set id | id in ids :: HoldKey(symbol, id))
      && forall x :: Owned(st', x) == Owned(st, x)
    decreases |ids|
  {
    hide Sound, Release, Owned;
    if ids != [] {
      ReleaseEffect(st, HoldKey(symbol, ids[0]));
      ReleaseAllEffect(Release(st, HoldKey(symbol, ids[0])), symbol, ids[1..]);
      assert (set id | id in ids :: HoldKey(symbol, id))
          == {HoldKey(symbol, ids[0])} + set id | id in ids[1..] :: HoldKey(symbol, id);
    } else {
      assert st.holds == st.holds - (set id | id in ids :: HoldKey(symbol, id));
    }
  }

  // --- Holds through a match ---------------------------------------------------------------

  predicate HeldBy(holds: HoldMap, o: Order) {
    Key(o) in holds && holds[Key(o)] == HoldFor(o)
  }

  /** A taker and the makers it meets, each with its own hold. */
  predicate Placed(holds: HoldMap, symbol: Symbol, taker: Order, makers: seq<Order>) {
    && taker.symbol == symbol && taker.quantity > 0 && HeldBy(holds, taker)
    && UniqueIds(makers)
    && (forall m :: m in makers ==>
          m.symbol == symbol && m.quantity > 0 && m.kind == Limit && m.id != taker.id && HeldBy(holds, m))
  }

  /** The hold under k is not touched. */
  predicate Untouched(a: HoldMap, b: HoldMap, k: HoldKey) {
    (k in a <==> k in b) && (k in a ==> a[k] == b[k])
  }

  /** Holds after trading: survivors and the taker's remainder are held, own orders not yet released, the rest gone. */
  ghost predicate SettledMatch(before: HoldMap, after: HoldMap, symbol: Symbol,
                               taker: Order, makers: seq<Order>, r: Matched) {
    && (forall m :: m in r.makers ==> HeldBy(after, m))
    && (if r.left > 0 then HeldBy(after, taker.(quantity := r.left)) else Key(taker) !in after)
    && (forall m :: m in makers && Key(m) in after ==> m.id in Ids(r.makers) || m.id in r.selfPrevented)
    && (forall k: HoldKey :: k.symbol != symbol || (k.orderId != taker.id && k.orderId !in Ids(makers)) ==>
          Untouched(before, after, k))
  }

  lemma TailPlaced(holds: HoldMap, symbol: Symbol, taker: Order, makers: seq<Order>)
    requires Placed(holds, symbol, taker, makers) && makers != []
    ensures Placed(holds, symbol, taker, makers[1..])
    ensures makers[0].id !in Ids(makers[1..]) && Ids(makers) == {makers[0].id} + Ids(makers[1..])
  {
    assert makers == [makers[0]] + makers[1..];
  }

  /** A full fill of the first maker: its hold is gone and the taker's is smaller by as much. */
  lemma FullFillHolds(holds: HoldMap, symbol: Symbol, taker: Order, makers: seq<Order>, t: Trade)
    requires Placed(holds, symbol, taker, makers) && makers != []
    requires t.makerId == makers[0].id && t.takerId == taker.id
    requires t.quantity == makers[0].quantity <= taker.quantity
    ensures var h := HoldsAfterTrade(holds, symbol, t);
      && Key(makers[0]) !in h
      && (forall k :: k != Key(makers[0]) && k != Key(taker) ==> Untouched(holds, h, k))
      && (if t.quantity < taker.quantity
          then Placed(h, symbol, taker.(quantity := taker.quantity - t.quantity), makers[1..])
          else Key(taker) !in h)
  {
    var h := HoldsAfterTrade(holds, symbol, t);
    assert makers[0] in makers;
    TailPlaced(holds, symbol, taker, makers);
    forall m | m in makers[1..] ensures HeldBy(h, m) {
      assert m.id in Ids(makers[1..]);
    }
  }

  /** A partial fill of the first maker: the taker's hold is gone and the maker's is smaller by as much. */
  lemma PartialFillHolds(holds: HoldMap, symbol: Symbol, taker: Order, makers: seq<Order>, t: Trade)
    requires Placed(holds, symbol, taker, makers) && makers != []
    requires t.makerId == makers[0].id && t.takerId == taker.id
    requires t.quantity == taker.quantity < makers[0].quantity
    ensures var h := HoldsAfterTrade(holds, symbol, t);
      && HeldBy(h, makers[0].(quantity := makers[0].quantity - t.quantity))
      && Key(taker) !in h
      && (forall k :: k != Key(makers[0]) && k != Key(taker) ==> Untouched(holds, h, k))
  {
    assert makers[0] in makers;
  }

  lemma SettledAfterOwn(before: HoldMap, after: HoldMap, symbol: Symbol, taker: Order, makers: seq<Order>, r: Matched)
    requires Placed(before, symbol, taker, makers) && makers != []
    requires SettledMatch(before, after, symbol, taker, makers[1..], r)
    ensures SettledMatch(before, after, symbol, taker, makers,
                         r.(selfPrevented := [makers[0].id] + r.selfPrevented))
  {
    TailPlaced(before, symbol, taker, makers);
    assert makers == [makers[0]] + makers[1..];
  }

  lemma SettledAfterFill(before: HoldMap, mid: HoldMap, after: HoldMap, symbol: Symbol,
                         taker: Order, q: int, makers: seq<Order>, r: Matched, t: Trade)
    requires Placed(before, symbol, taker, makers) && makers != []
    requires Key(makers[0]) !in mid
    requires forall k :: k != Key(makers[0]) && k != Key(taker) ==> Untouched(before, mid, k)
    requires SettledMatch(mid, after, symbol, taker.(quantity := q), makers[1..], r)
    ensures SettledMatch(before, after, symbol, taker, makers, r.(trades := [t] + r.trades))
  {
    TailPlaced(before, symbol, taker, makers);
    assert makers == [makers[0]] + makers[1..];
    assert Untouched(mid, after, Key(makers[0]));
    forall k: HoldKey | k.symbol != symbol || (k.orderId != taker.id && k.orderId !in Ids(makers))
      ensures Untouched(before, after, k)
    {
      assert makers[0] in makers && Untouched(before, mid, k) && Untouched(mid, after, k);
    }
  }

  lemma SettledPartial(before: HoldMap, after: HoldMap, symbol: Symbol, taker: Order, makers: seq<Order>, r: Matched)
    requires Placed(before, symbol, taker, makers) && makers != [] && r.left <= 0
    requires r.makers != [] && r.makers == [makers[0].(quantity := r.makers[0].quantity)] + makers[1..]
    requires HeldBy(after, r.makers[0]) && Key(taker) !in after
    requires forall k :: k != Key(makers[0]) && k != Key(taker) ==> Untouched(before, after, k)
    ensures SettledMatch(before, after, symbol, taker, makers, r)
  {
    TailPlaced(before, symbol, taker, makers);
    assert makers == [makers[0]] + makers[1..];
    MakersStayHeld(before, after, symbol, taker, makers);
    assert forall m :: m in makers[1..] ==> m in r.makers;
    assert r.makers[0] in r.makers;
  }

  lemma NothingMatched(before: HoldMap, symbol: Symbol, taker: Order, makers: seq<Order>)
    requires Placed(before, symbol, taker, makers)
    ensures SettledMatch(before, before, symbol, taker, makers, Matched([], [], taker.quantity, makers))
  {
  }

  lemma TakerDone(mid: HoldMap, symbol: Symbol, taker: Order, makers: seq<Order>)
    requires taker.quantity == 0 && Key(taker) !in mid && forall m :: m in makers ==> HeldBy(mid, m)
    ensures SettledMatch(mid, mid, symbol, taker, makers, Matched([], [], 0, makers))
  {
  }

  /** Through any match, holds follow the orders: survivors held at what is left of them, consumed makers released. */
  lemma {:induction false} MatchSettlesHolds(holds: HoldMap, symbol: Symbol, taker: Order, makers: seq<Order>,
                                             tradeId: SeqID)
    requires Placed(holds, symbol, taker, makers)
    ensures var r := Match(taker, makers, tradeId);
      SettledMatch(holds, HoldsAfterTrades(holds, symbol, r.trades), symbol, taker, makers, r)
    decreases |makers|
  {
    hide SettledMatch, HoldsAfterTrade, Acceptable, SelfMatch;
    var r := Match(taker, makers, tradeId);
    if makers == [] || !Acceptable(taker, makers[0].price) {
      NothingMatched(holds, symbol, taker, makers);
    } else if SelfMatch(taker, makers[0]) {
      TailPlaced(holds, symbol, taker, makers);
      MatchSettlesHolds(holds, symbol, taker, makers[1..], tradeId);
      SettledAfterOwn(holds, HoldsAfterTrades(holds, symbol, r.trades), symbol, taker, makers,
                      Match(taker, makers[1..], tradeId));
    } else {
      var t := r.trades[0];
      var mid := HoldsAfterTrade(holds, symbol, t);
      if t.quantity < makers[0].quantity {
        PartialFillHolds(holds, symbol, taker, makers, t);
        SettledPartial(holds, mid, symbol, taker, makers, r);
      } else {
        FullFillHolds(holds, symbol, taker, makers, t);
        var q := taker.quantity - t.quantity;
        var taker' := taker.(quantity := q);
        if q > 0 {
          MatchSettlesHolds(mid, symbol, taker', makers[1..], tradeId + 1);
        } else {
          MakersStayHeld(holds, mid, symbol, taker, makers);
          TakerDone(mid, symbol, taker', makers[1..]);
        }
        var r' := Match(taker', makers[1..], tradeId + 1);
        SettledAfterFill(holds, mid, HoldsAfterTrades(mid, symbol, r'.trades), symbol, taker, q, makers, r', t);
      }
    }
  }

  lemma MakersStayHeld(before: HoldMap, mid: HoldMap, symbol: Symbol, taker: Order, makers: seq<Order>)
    requires Placed(before, symbol, taker, makers) && makers != []
    requires forall k :: k != Key(makers[0]) && k != Key(taker) ==> Untouched(before, mid, k)
    ensures forall m :: m in makers[1..] ==> HeldBy(mid, m)
  {
    TailPlaced(before, symbol, taker, makers);
    forall m | m in makers[1..] ensures HeldBy(mid, m) {
      assert m in makers && m.id in Ids(makers[1..]);
      assert Untouched(before, mid, Key(m));
    }
  }
}
