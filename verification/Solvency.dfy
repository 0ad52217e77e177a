/**
 * What an account has uncommitted (owned less reserved) never falls by a trade
 * both of whose sides reserved for it, so no account is driven below what it has
 * committed. A MARKET buy reserves nothing and is outside this module's claims.
 */
module Solvency {
  import opened Types
  import opened Matching
  import opened AccountState
  import opened Guards
  import opened Holds
  import opened Settling
  import opened LiveHolds

  function Uncommitted(st: State, x: Asset): int {
    Owned(st, x) - Reserved(st, x)
  }

  ghost predicate Solvent(st: State) {
    forall x :: 0 <= Reserved(st, x) <= Owned(st, x)
  }

  /** No account has less of any asset uncommitted than before. */
  ghost predicate NoLessUncommitted(a: State, b: State) {
    forall x :: Uncommitted(a, x) <= Uncommitted(b, x)
  }

  function BuyerKey(symbol: Symbol, t: Trade): HoldKey {
    HoldKey(symbol, if t.takerSide == Buy then t.takerId else t.makerId)
  }

  function SellerKey(symbol: Symbol, t: Trade): HoldKey {
    HoldKey(symbol, if t.takerSide == Buy then t.makerId else t.takerId)
  }

  /** Both sides of the trade hold at least its quantity, the buyer at no worse than its price. */
  predicate Covered(holds: HoldMap, symbol: Symbol, t: Trade) {
    var b := BuyerKey(symbol, t);
    var s := SellerKey(symbol, t);
    && t.quantity > 0 && t.price >= 0 && t.symbol == symbol && b != s && b in holds && s in holds
    && holds[b].account == t.Buyer() && holds[b].side != Sell
    && holds[b].quantity >= t.quantity && holds[b].price >= t.price
    && holds[s].account == t.Seller() && holds[s].side == Sell && holds[s].symbol == symbol
    && holds[s].quantity >= t.quantity
  }

  predicate AllCovered(holds: HoldMap, symbol: Symbol, trades: seq<Trade>)
    decreases |trades|
  {
    trades == []
    || (Covered(holds, symbol, trades[0])
        && AllCovered(HoldsAfterTrade(holds, symbol, trades[0]), symbol, trades[1..]))
  }

  lemma ShrinkTwice(holds: HoldMap, k: HoldKey, l: HoldKey, q: int, x: Asset)
    requires k != l && k in holds && l in holds && 0 < q <= holds[k].quantity && q <= holds[l].quantity
    ensures TotalDemand(Shrunk(Shrunk(holds, k, q), l, q), x)
         == TotalDemand(holds, x) - Demand(holds[k].(quantity := q), x) - Demand(holds[l].(quantity := q), x)
  {
    DemandAfterShrink(holds, k, q, x);
    DemandAfterShrink(Shrunk(holds, k, q), l, q, x);
  }

  /** The holds of a covered trade's two sides free at least what the trade takes from each. */
  lemma FreedCoversMovement(holds: HoldMap, symbol: Symbol, t: Trade, x: Asset)
    requires Covered(holds, symbol, t)
    ensures TotalDemand(HoldsAfterTrade(holds, symbol, t), x) <= TotalDemand(holds, x) + Movement(t, x)
  {
    var b := BuyerKey(symbol, t);
    var s := SellerKey(symbol, t);
    ShrinkTwice(holds, HoldKey(symbol, t.makerId), HoldKey(symbol, t.takerId), t.quantity, x);
    ProductMonotone(t.price, holds[b].price, t.quantity);
    ProductMonotone(0, t.price, t.quantity);
    hide TotalDemand, Shrunk;
  }

  /** A covered trade's value is representable: the buyer's whole reservation was. */
  lemma CoveredIsOk(holds: HoldMap, symbol: Symbol, t: Trade)
    requires HoldsOk(holds) && Covered(holds, symbol, t)
    ensures TradeOk(t)
  {
    var h := holds[BuyerKey(symbol, t)];
    assert HoldOk(h);
    FillWithinReservation(h.price, h.quantity, t.price, t.quantity);
  }

  lemma CoveredTradeKeepsUncommitted(st: State, symbol: Symbol, t: Trade)
    requires Sound(st) && Covered(st.holds, symbol, t)
    ensures TradeOk(t) && NoLessUncommitted(st, ApplyTrade(st, symbol, t))
  {
    CoveredIsOk(st.holds, symbol, t);
    TradeEffect(st, symbol, t);
    forall x ensures Uncommitted(st, x) <= Uncommitted(ApplyTrade(st, symbol, t), x) {
      FreedCoversMovement(st.holds, symbol, t, x);
    }
  }

  lemma {:induction false} CoveredTradesKeepUncommitted(st: State, symbol: Symbol, trades: seq<Trade>)
    requires Sound(st) && AllCovered(st.holds, symbol, trades)
    ensures TradesOk(trades) && NoLessUncommitted(st, ApplyTrades(st, symbol, trades))
    decreases |trades|
  {
    hide Sound, ApplyTrade, Covered, TradeOk, Uncommitted, HoldsAfterTrade;
    if trades != [] {
      var st' := ApplyTrade(st, symbol, trades[0]);
      CoveredTradeKeepsUncommitted(st, symbol, trades[0]);
      TradeEffect(st, symbol, trades[0]);
      CoveredTradesKeepUncommitted(st', symbol, trades[1..]);
      assert trades == [trades[0]] + trades[1..];
      forall x ensures Uncommitted(st, x) <= Uncommitted(ApplyTrades(st, symbol, trades), x) {
        assert Uncommitted(st, x) <= Uncommitted(st', x);
      }
    }
  }

  lemma ReleaseKeepsUncommitted(st: State, key: HoldKey)
    requires Sound(st)
    ensures NoLessUncommitted(st, Release(st, key))
  {
    ReleaseEffect(st, key);
    if key in st.holds {
      forall x ensures Uncommitted(st, x) <= Uncommitted(Release(st, key), x) {
        DemandSplits(st.holds, x, key);
        assert HoldOk(st.holds[key]);
        HoldDemand(st.holds[key], x);
      }
    }
  }

  lemma {:induction false} ReleaseAllKeepsUncommitted(st: State, symbol: Symbol, ids: seq<SeqID>)
    requires Sound(st)
    ensures NoLessUncommitted(st, ReleaseAll(st, symbol, ids))
    decreases |ids|
  {
    hide Sound, Release, Uncommitted;
    if ids != [] {
      ReleaseKeepsUncommitted(st, HoldKey(symbol, ids[0]));
      ReleaseEffect(st, HoldKey(symbol, ids[0]));
      ReleaseAllKeepsUncommitted(Release(st, HoldKey(symbol, ids[0])), symbol, ids[1..]);
      forall x ensures Uncommitted(st, x) <= Uncommitted(ReleaseAll(st, symbol, ids), x) {
        assert Uncommitted(st, x) <= Uncommitted(Release(st, HoldKey(symbol, ids[0])), x);
      }
    }
  }

  lemma CompleteKeepsUncommitted(st: State, symbol: Symbol, id: SeqID, outcome: Outcome)
    requires Sound(st) && AllCovered(st.holds, symbol, outcome.trades)
    ensures TradesOk(outcome.trades) && NoLessUncommitted(st, Complete(st, symbol, id, outcome))
  {
    hide Sound, Release, Uncommitted, ApplyTrades, ReleaseAll, AllCovered, TradesOk, HoldsAfterTrades;
    CoveredTradesKeepUncommitted(st, symbol, outcome.trades);
    TradesEffect(st, symbol, outcome.trades);
    var traded := ApplyTrades(st, symbol, outcome.trades);
    ReleaseAllKeepsUncommitted(traded, symbol, outcome.selfPrevented);
    ReleaseAllEffect(traded, symbol, outcome.selfPrevented);
    var dropped := ReleaseAll(traded, symbol, outcome.selfPrevented);
    ReleaseKeepsUncommitted(dropped, HoldKey(symbol, id));
    forall x ensures Uncommitted(st, x) <= Uncommitted(Complete(st, symbol, id, outcome), x) {
      assert Uncommitted(st, x) <= Uncommitted(traded, x) <= Uncommitted(dropped, x);
    }
  }

  // --- Every trade of a match with a bounded taker is covered ---------------------------------

  /** A taker whose hold covers whatever it may trade: a LIMIT order or a MARKET sell. */
  predicate Bounded(o: Order) {
    o.kind == Limit || (o.kind == Market && o.side == Sell)
  }

  predicate Priced(list: seq<Order>) {
    forall m :: m in list ==> m.price >= 0
  }

  predicate OnSide(side: Side, list: seq<Order>) {
    forall m :: m in list ==> m.side == side
  }

  lemma FirstTradeIsCovered(holds: HoldMap, symbol: Symbol, taker: Order, makers: seq<Order>, t: Trade)
    requires Placed(holds, symbol, taker, makers) && makers != [] && taker.side != UnknownSide && Bounded(taker)
    requires makers[0].side == Opposite(taker.side) && makers[0].price >= 0
    requires Acceptable(taker, makers[0].price)
    requires 0 < t.quantity && t.quantity <= taker.quantity && t.quantity <= makers[0].quantity
    requires t == TradeOf(taker, makers[0], makers[0].price, t.quantity, t.id)
    ensures Covered(holds, symbol, t)
  {
    assert makers[0] in makers;
    assert HeldBy(holds, makers[0]);
  }

  /** Whatever a bounded taker trades, both sides had reserved. */
  lemma {:induction false} MatchIsCovered(holds: HoldMap, symbol: Symbol, taker: Order, makers: seq<Order>,
                                          tradeId: SeqID)
    requires Placed(holds, symbol, taker, makers) && taker.side != UnknownSide && Bounded(taker)
    requires OnSide(Opposite(taker.side), makers) && Priced(makers)
    ensures AllCovered(holds, symbol, Match(taker, makers, tradeId).trades)
    decreases |makers|
  {
    hide HoldsAfterTrade, Acceptable, SelfMatch, Placed, Covered;
    if taker.quantity <= 0 || makers == [] || !Acceptable(taker, makers[0].price) {
    } else if SelfMatch(taker, makers[0]) {
      TailPlaced(holds, symbol, taker, makers);
      MatchIsCovered(holds, symbol, taker, makers[1..], tradeId);
    } else {
      var r := Match(taker, makers, tradeId);
      var t := r.trades[0];
      HeadQuantity(holds, symbol, taker, makers);
      FirstTradeIsCovered(holds, symbol, taker, makers, t);
      if t.quantity == makers[0].quantity {
        FullFillHolds(holds, symbol, taker, makers, t);
        var taker' := taker.(quantity := taker.quantity - t.quantity);
        if t.quantity < taker.quantity {
          MatchIsCovered(HoldsAfterTrade(holds, symbol, t), symbol, taker', makers[1..], tradeId + 1);
        }
        assert r.trades[1..] == Match(taker', makers[1..], tradeId + 1).trades;
      }
    }
  }

  lemma HeadQuantity(holds: HoldMap, symbol: Symbol, taker: Order, makers: seq<Order>)
    requires Placed(holds, symbol, taker, makers) && makers != []
    ensures makers[0].quantity > 0 && taker.quantity > 0
  {
    assert makers[0] in makers;
  }

  lemma SubmitIsCovered(holds: HoldMap, symbol: Symbol, book: BookState, o: Order, rest: seq<Order>)
    requires Exact(holds, symbol, book, [o] + rest) && Known(o) && Bounded(o)
    requires Priced(Makers(book, o.side))
    ensures var (_, res) := Submit(book, o);
      res.Some? && AllCovered(holds, symbol, res.value.trades)
  {
    ExactPlaces(holds, symbol, book, o, rest);
    MatchIsCovered(holds, symbol, o, Makers(book, o.side), book.tradeId);
  }

  /**
   * Processing a LIMIT order or a MARKET sell lowers nobody's uncommitted cash or shares,
   * whoever it trades with: no value overflows and every account stays solvent.
   */
  lemma SubmitKeepsSolvent(st: State, symbol: Symbol, book: BookState, o: Order, rest: seq<Order>)
    requires Sound(st) && Exact(st.holds, symbol, book, [o] + rest) && Bounded(o)
    requires Priced(book.bids) && Priced(book.asks)
    ensures var (_, res) := Submit(book, o);
      && (res.Some? ==> TradesOk(res.value.trades))
      && NoLessUncommitted(st, Processed(st, symbol, o, res))
  {
    hide Sound, HoldFor, WellFormed, Complete, Release, Exact, AllCovered, TradesOk, Submit;
    var (_, res) := Submit(book, o);
    if Known(o) {
      SubmitIsCovered(st.holds, symbol, book, o, rest);
      CompleteKeepsUncommitted(st, symbol, o.id, res.value);
    } else {
      UnknownIsRefused(book, o);
      ReleaseKeepsUncommitted(st, HoldKey(symbol, o.id));
    }
  }

  lemma StaysSolvent(a: State, b: State)
    requires Solvent(a) && Sound(b) && NoLessUncommitted(a, b)
    ensures Solvent(b)
  {
    forall x ensures 0 <= Reserved(b, x) <= Owned(b, x) {
      ReservedIsNonNegative(b, x);
      assert Uncommitted(a, x) <= Uncommitted(b, x);
    }
  }

  /** Accepting an order keeps every account solvent: the check is against what is not committed. */
  lemma ReserveKeepsSolvent(st: State, o: Order)
    requires Sound(st) && Solvent(st)
    ensures Solvent(Reserve(st, o).0)
  {
    ReserveEffect(st, o);
    hide Reserve, Sound;
    var st' := Reserve(st, o).0;
    forall x ensures 0 <= Reserved(st', x) <= Owned(st', x) {
      ReservedIsNonNegative(st', x);
      assert Owned(st', x) == Owned(st, x) && Reserved(st, x) <= Owned(st, x);
    }
  }

  lemma SurvivorsPriced(makers: seq<Order>, o: Order, tradeId: SeqID)
    requires Priced(makers)
    ensures Priced(Match(o, makers, tradeId).makers)
  {
    SurvivorsAreASuffix(o, makers, tradeId);
    var r := Match(o, makers, tradeId);
    hide Match;
    var k := |makers| - |r.makers|;
    if r.makers != makers[k..] {
      assert PartlyFilledHead(makers, k, r);
      assert makers[k] in makers;
    }
  }

  /** Resting prices stay non-negative through submits of non-negatively priced orders. */
  lemma SubmitKeepsPriced(book: BookState, o: Order)
    requires WellFormed(book) && Priced(book.bids) && Priced(book.asks)
    requires o.kind == Limit ==> o.price >= 0
    ensures var book' := Submit(book, o).0; Priced(book'.bids) && Priced(book'.asks)
  {
    if Known(o) {
      SubmittedLists(book, o);
      SurvivorsPriced(Makers(book, o.side), o, book.tradeId);
      hide Submit;
      var book' := Submit(book, o).0;
      assert Priced(Makers(book', o.side)) && Priced(Makers(book', Opposite(o.side)));
    }
  }

  lemma CancelKeepsPriced(book: BookState, id: SeqID, who: Account)
    requires WellFormed(book) && Priced(book.bids) && Priced(book.asks)
    ensures var book' := Cancel(book, id, who).0; Priced(book'.bids) && Priced(book'.asks)
  {
    CancelKeepsWellFormed(book, id, who);
  }
}
