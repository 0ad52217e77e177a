/**
 * A trade whose value overflows is skipped, and its maker's hold left behind. This
 * module shows it happening within the API's bounds, and says exactly when it does.
 */
module Overflow {
  import opened Types
  import opened Matching
  import opened AccountState
  import opened Guards
  import opened Holds
  import opened Settling
  import opened LiveHolds
  import opened LiveIds

  predicate AllRepresentable(trades: seq<Trade>) {
    forall i :: 0 <= i < |trades| ==> Representable(trades[i].price, trades[i].quantity)
  }

  // --- A skipped trade leaves its maker's hold behind -----------------------------------------

  /** The hold under k stays as it is through a trade that names neither side by it, or overflows. */
  lemma SpareHold(st: State, symbol: Symbol, t: Trade, k: HoldKey)
    requires k in st.holds && k.symbol == symbol && t.takerId != k.orderId
    requires t.makerId == k.orderId ==> !Representable(t.price, t.quantity)
    ensures var st' := ApplyTrade(st, symbol, t); k in st'.holds && st'.holds[k] == st.holds[k]
  {
    NotionalIsExact(t.price, t.quantity);
    if Representable(t.price, t.quantity) {
      var moved := MoveValue(st, t, t.price * t.quantity);
      SpareShrink(moved, HoldKey(symbol, t.makerId), t.quantity, k);
      var st1 := ShrinkTraded(moved, HoldKey(symbol, t.makerId), t.quantity);
      SpareShrink(st1, HoldKey(symbol, t.takerId), t.quantity, k);
    }
  }

  lemma SpareShrink(st: State, key: HoldKey, q: int, k: HoldKey)
    requires k in st.holds && k != key
    ensures var st' := ShrinkTraded(st, key, q); k in st'.holds && st'.holds[k] == st.holds[k]
  {
    hide ShrinkTraded;
    ShrinkTradedHolds(st, key, q);
  }

  /** Every trade naming this id as maker overflows, and none names it as taker. */
  predicate OnlyOverflows(trades: seq<Trade>, id: SeqID) {
    forall i :: 0 <= i < |trades| ==>
      trades[i].takerId != id && (trades[i].makerId == id ==> !Representable(trades[i].price, trades[i].quantity))
  }

  lemma {:induction false} SpareThroughTrades(st: State, symbol: Symbol, trades: seq<Trade>, k: HoldKey)
    requires k in st.holds && k.symbol == symbol && OnlyOverflows(trades, k.orderId)
    ensures var st' := ApplyTrades(st, symbol, trades); k in st'.holds && st'.holds[k] == st.holds[k]
    decreases |trades|
  {
    hide ApplyTrade;
    if trades != [] {
      SpareHold(st, symbol, trades[0], k);
      SpareThroughTrades(ApplyTrade(st, symbol, trades[0]), symbol, trades[1..], k);
    }
  }

  lemma SpareRelease(st: State, key: HoldKey, k: HoldKey)
    requires k in st.holds && k != key
    ensures var st' := Release(st, key); k in st'.holds && st'.holds[k] == st.holds[k]
  {
  }

  lemma {:induction false} SpareThroughReleases(st: State, symbol: Symbol, ids: seq<SeqID>, k: HoldKey)
    requires k in st.holds && k.orderId !in ids
    ensures var st' := ReleaseAll(st, symbol, ids); k in st'.holds && st'.holds[k] == st.holds[k]
    decreases |ids|
  {
    hide Release;
    if ids != [] {
      SpareRelease(st, HoldKey(symbol, ids[0]), k);
      SpareThroughReleases(Release(st, HoldKey(symbol, ids[0])), symbol, ids[1..], k);
    }
  }

  /** Makers trade at most once each, are not dropped as well, and if still there are smaller. */
  ghost predicate TradedOnce(makers: seq<Order>, r: Matched) {
    && (forall i, j :: 0 <= i < j < |r.trades| ==> r.trades[i].makerId != r.trades[j].makerId)
    && (forall i :: 0 <= i < |r.trades| ==>
          r.trades[i].makerId in Ids(makers) && r.trades[i].makerId !in r.selfPrevented)
    && (forall id :: id in r.selfPrevented ==> id in Ids(makers))
    && (forall m, x, i |
          m in makers && x in r.makers && x.id == m.id && 0 <= i < |r.trades| && r.trades[i].makerId == m.id ::
          x.quantity < m.quantity)
    && Ids(r.makers) <= Ids(makers)
  }

  lemma InIds(list: seq<Order>, x: Order)
    requires x in list
    ensures x.id in Ids(list)
  {
  }

  lemma IdsOfHead(makers: seq<Order>)
    requires makers != [] && UniqueIds(makers)
    ensures makers == [makers[0]] + makers[1..]
    ensures makers[0].id !in Ids(makers[1..]) && Ids(makers) == {makers[0].id} + Ids(makers[1..])
  {
  }

  lemma TradedOnceHead(makers: seq<Order>, r: Matched, r': Matched, t: Trade)
    requires UniqueIds(makers) && makers != [] && TradedOnce(makers[1..], r')
    requires t.makerId == makers[0].id && r == r'.(trades := [t] + r'.trades)
    ensures TradedOnce(makers, r)
  {
    hide Ids, UniqueIds;
    var rest := makers[1..];
    IdsOfHead(makers);
    assert forall i :: 0 < i < |r.trades| ==> r.trades[i] == r'.trades[i - 1];
    forall m, x, i | m in makers && x in r.makers && x.id == m.id
      && 0 <= i < |r.trades| && r.trades[i].makerId == m.id
      ensures x.quantity < m.quantity
    {
      InIds(r'.makers, x);
      assert m.id != makers[0].id && m in rest && i > 0;
    }
  }

  lemma TradedOnceOwn(makers: seq<Order>, r: Matched, r': Matched)
    requires UniqueIds(makers) && makers != [] && TradedOnce(makers[1..], r')
    requires r == r'.(selfPrevented := [makers[0].id] + r'.selfPrevented)
    ensures TradedOnce(makers, r)
  {
    var rest := makers[1..];
    assert makers == [makers[0]] + rest && makers[0].id !in Ids(rest) && Ids(makers) == {makers[0].id} + Ids(rest);
    forall m, x, i | m in makers && x in r.makers && x.id == m.id
      && 0 <= i < |r.trades| && r.trades[i].makerId == m.id
      ensures x.quantity < m.quantity
    {
      assert x.id in Ids(r'.makers) && m.id != makers[0].id && m in rest;
    }
  }

  lemma TradedOncePartial(makers: seq<Order>, r: Matched)
    requires UniqueIds(makers) && makers != [] && |r.trades| == 1 && r.trades[0].makerId == makers[0].id
    requires r.selfPrevented == [] && r.makers != [] && r.makers[0].quantity < makers[0].quantity
    requires r.makers == [makers[0].(quantity := r.makers[0].quantity)] + makers[1..]
    ensures TradedOnce(makers, r)
  {
    var rest := makers[1..];
    assert makers == [makers[0]] + rest && makers[0].id !in Ids(rest) && Ids(makers) == {makers[0].id} + Ids(rest);
    forall id | id in Ids(r.makers) ensures id in Ids(makers) {
      var x :| x in r.makers && x.id == id;
      assert x == r.makers[0] || x in rest;
    }
    forall m, x, i | m in makers && x in r.makers && x.id == m.id
      && 0 <= i < |r.trades| && r.trades[i].makerId == m.id
      ensures x.quantity < m.quantity
    {
      assert m == makers[0] || m in rest;
      assert x == r.makers[0] || x in rest;
    }
  }

  lemma {:induction false} MakersTradeOnce(taker: Order, makers: seq<Order>, tradeId: SeqID)
    requires UniqueIds(makers) && forall m :: m in makers ==> m.quantity > 0
    ensures TradedOnce(makers, Match(taker, makers, tradeId))
    decreases |makers|
  {
    hide TradedOnce;
    var r := Match(taker, makers, tradeId);
    if taker.quantity <= 0 || makers == [] || !Acceptable(taker, makers[0].price) {
      NothingTraded(makers, taker.quantity);
    } else {
      UniqueTail(makers, 0);
      var fill := Min(taker.quantity, makers[0].quantity);
      if SelfMatch(taker, makers[0]) {
        MakersTradeOnce(taker, makers[1..], tradeId);
        TradedOnceOwn(makers, r, Match(taker, makers[1..], tradeId));
      } else if fill < makers[0].quantity {
        TradedOncePartial(makers, r);
      } else {
        var taker' := taker.(quantity := taker.quantity - fill);
        MakersTradeOnce(taker', makers[1..], tradeId + 1);
        TradedOnceHead(makers, r, Match(taker', makers[1..], tradeId + 1), r.trades[0]);
      }
    }
  }

  lemma NothingTraded(makers: seq<Order>, left: int)
    ensures TradedOnce(makers, Matched([], [], left, makers))
  {
  }

  lemma OverflowStrandsHold(st: State, symbol: Symbol, book: BookState, o: Order, rest: seq<Order>, i: nat)
    requires Sound(st) && Exact(st.holds, symbol, book, [o] + rest) && Known(o)
    requires var m := Match(o, Makers(book, o.side), book.tradeId);
      i < |m.trades| && !Representable(m.trades[i].price, m.trades[i].quantity)
    ensures var (book', res) := Submit(book, o);
      !Exact(Processed(st, symbol, o, res).holds, symbol, book', rest)
  {
    hide Match, Submit, HoldFor, WellFormed, Acceptable, SelfMatch, ApplyTrades, ReleaseAll, Release, Sound;
    var makers := Makers(book, o.side);
    var m := Match(o, makers, book.tradeId);
    var (book', res) := Submit(book, o);
    var st' := Processed(st, symbol, o, res);
    ExactHead(st.holds, symbol, book, o, rest);
    ExactPlaces(st.holds, symbol, book, o, rest);
    SubmittedLists(book, o);
    MakersTradeOnce(o, makers, book.tradeId);
    TradesNameTaker(o, makers, book.tradeId);
    SidesOf(book, o.side);
    var x :| x in makers && x.id == m.trades[i].makerId;
    var k := Key(x);
    assert HeldBy(st.holds, x) && k == HoldKey(symbol, x.id);
    SpareThroughTrades(st, symbol, m.trades, k);
    SpareThroughReleases(ApplyTrades(st, symbol, m.trades), symbol, m.selfPrevented, k);
    SpareRelease(ReleaseAll(ApplyTrades(st, symbol, m.trades), symbol, m.selfPrevented), HoldKey(symbol, o.id), k);
    assert k in st'.holds && st'.holds[k] == HoldFor(x);
    StrandedHold(st'.holds, symbol, book, book', o, rest, m, x, i);
  }

  lemma TradesNameTaker(o: Order, makers: seq<Order>, tradeId: SeqID)
    requires forall m :: m in makers ==> m.quantity > 0
    ensures forall i :: 0 <= i < |Match(o, makers, tradeId).trades| ==>
      Match(o, makers, tradeId).trades[i].takerId == o.id
  {
    TradesAreProper(o, makers, tradeId);
    var ts := Match(o, makers, tradeId).trades;
    forall i | 0 <= i < |ts| ensures ts[i].takerId == o.id { ProperTradesAt(o, ts, tradeId, i); }
  }

  lemma HoldForQuantity(a: Order, b: Order)
    requires HoldFor(a) == HoldFor(b)
    ensures a.quantity == b.quantity
  {
  }

  lemma StrandedHold(holds: HoldMap, symbol: Symbol, book: BookState, book': BookState, o: Order, rest: seq<Order>,
                     m: Matched, x: Order, i: nat)
    requires x.symbol == symbol
    requires x in Makers(book, o.side) && TradedOnce(Makers(book, o.side), m) && Makers(book', o.side) == m.makers
    requires i < |m.trades| && m.trades[i].makerId == x.id
    requires Key(x) in holds && holds[Key(x)] == HoldFor(x)
    requires x.id !in Ids(rest) && x.id != o.id && x.id !in Ids(Makers(book, Opposite(o.side)))
    requires forall y :: y in Makers(book', Opposite(o.side)) ==> y in Makers(book, Opposite(o.side)) || y.id == o.id
    ensures !Exact(holds, symbol, book', rest)
  {
    hide HoldFor, WellFormed;
    BothSides(book', o.side);
    if x.id in RestingIds(book') {
      var y :| (y in m.makers || y in Makers(book', Opposite(o.side))) && y.id == x.id;
      if y in m.makers {
        assert y in book'.bids || y in book'.asks;
        assert y.symbol == symbol ==> Key(y) == Key(x);
        if HoldFor(x) == HoldFor(y) { HoldForQuantity(x, y); }
      } else {
        IdsOf(Makers(book', Opposite(o.side)), y);
      }
    }
  }

  lemma TradesOkIffRepresentable(o: Order, makers: seq<Order>, tradeId: SeqID)
    requires forall m :: m in makers ==> m.quantity > 0
    ensures var ts := Match(o, makers, tradeId).trades; TradesOk(ts) <==> AllRepresentable(ts)
  {
    TradesAreProper(o, makers, tradeId);
    var ts := Match(o, makers, tradeId).trades;
    forall i | 0 <= i < |ts| ensures ts[i].quantity > 0 { ProperTradesAt(o, ts, tradeId, i); }
  }

  // --- The condition, read off the book before the call -------------------------------------------

  /** What price-time priority gives each maker has a representable value at that maker's price. */
  predicate EntitlementsFit(o: Order, makers: seq<Order>) {
    forall i :: 0 <= i < |makers| && Entitlement(o, makers, i) > 0 ==>
      Representable(makers[i].price, Entitlement(o, makers, i))
  }

  lemma {:induction false} TradedWithOnce(trades: seq<Trade>, k: nat)
    requires k < |trades| && forall i, j :: 0 <= i < j < |trades| ==> trades[i].makerId != trades[j].makerId
    ensures TradedWith(trades, trades[k].makerId) == trades[k].quantity
  {
    var id := trades[k].makerId;
    if k == 0 {
      NoTradesWithStranger(trades[1..], id);
    } else {
      TradedWithOnce(trades[1..], k - 1);
    }
  }

  /** Each trade names one maker of the list, at its price, and is all that maker trades. */
  lemma MakerOfTrade(o: Order, makers: seq<Order>, tradeId: SeqID, k: nat) returns (i: nat)
    requires Known(o) && UniqueIds(makers) && forall m :: m in makers ==> m.quantity > 0
    requires k < |Match(o, makers, tradeId).trades|
    ensures var ts := Match(o, makers, tradeId).trades;
      && i < |makers| && ts[k].makerId == makers[i].id && ts[k].price == makers[i].price
      && TradedWith(ts, makers[i].id) == ts[k].quantity > 0
  {
    hide Match, UniqueIds;
    var ts := Match(o, makers, tradeId).trades;
    MakersPriceWins(o, makers, tradeId);
    assert NamesMaker(makers, ts[k]);
    var m :| m in makers && ts[k].makerId == m.id && ts[k].price == m.price;
    i :| 0 <= i < |makers| && makers[i] == m;
    MakersTradeOnce(o, makers, tradeId);
    TradedWithOnce(ts, k);
    TradesArePositive(o, makers, tradeId);
  }

  /** One trade is one maker's whole entitlement at that maker's price. */
  lemma TradeIsEntitlement(o: Order, makers: seq<Order>, tradeId: SeqID, k: nat) returns (i: nat)
    requires Known(o) && Sorted(Opposite(o.side), makers) && UniqueIds(makers)
    requires forall m :: m in makers ==> m.quantity > 0
    requires k < |Match(o, makers, tradeId).trades|
    ensures i < |makers|
    ensures var t := Match(o, makers, tradeId).trades[k];
      t.price == makers[i].price && t.quantity == Entitlement(o, makers, i) > 0
  {
    hide Match, Entitlement, Sorted, UniqueIds, TradedWith;
    i := MakerOfTrade(o, makers, tradeId, k);
    assert forall j :: 0 <= j < |makers| ==> makers[j] in makers;
    PriceTimePriority(o, makers, tradeId, i);
  }

  /** Every maker entitled to something trades it. */
  lemma EntitlementIsTraded(o: Order, makers: seq<Order>, tradeId: SeqID, i: nat) returns (k: nat)
    requires Known(o) && Sorted(Opposite(o.side), makers) && UniqueIds(makers)
    requires forall m :: m in makers ==> m.quantity > 0
    requires i < |makers| && Entitlement(o, makers, i) > 0
    ensures var ts := Match(o, makers, tradeId).trades;
      k < |ts| && ts[k].price == makers[i].price && ts[k].quantity == Entitlement(o, makers, i)
  {
    hide Match, Entitlement, Sorted, TradedWith;
    var ts := Match(o, makers, tradeId).trades;
    assert forall j :: 0 <= j < |makers| ==> makers[j] in makers;
    PriceTimePriority(o, makers, tradeId, i);
    k := SomeTradeWith(ts, makers[i].id);
    var i' := MakerOfTrade(o, makers, tradeId, k);
    assert i' == i;
  }

  lemma SomeTradeWith(trades: seq<Trade>, id: SeqID) returns (k: nat)
    requires TradedWith(trades, id) != 0
    ensures k < |trades| && trades[k].makerId == id
  {
    hide TradedWith;
    if forall t :: t in trades ==> t.makerId != id { NoTradesWithStranger(trades, id); }
    var t :| t in trades && t.makerId == id;
    k :| 0 <= k < |trades| && trades[k] == t;
  }

  lemma RepresentableIffFit(o: Order, makers: seq<Order>, tradeId: SeqID)
    requires Known(o) && Sorted(Opposite(o.side), makers) && UniqueIds(makers)
    requires forall m :: m in makers ==> m.quantity > 0
    ensures AllRepresentable(Match(o, makers, tradeId).trades) <==> EntitlementsFit(o, makers)
  {
    hide Match, Entitlement, Sorted, UniqueIds, Representable;
    var ts := Match(o, makers, tradeId).trades;
    if AllRepresentable(ts) {
      forall i | 0 <= i < |makers| && Entitlement(o, makers, i) > 0
        ensures Representable(makers[i].price, Entitlement(o, makers, i))
      {
        var k := EntitlementIsTraded(o, makers, tradeId, i);
        assert Representable(ts[k].price, ts[k].quantity);
      }
    }
    if EntitlementsFit(o, makers) {
      forall k | 0 <= k < |ts| ensures Representable(ts[k].price, ts[k].quantity) {
        var i := TradeIsEntitlement(o, makers, tradeId, k);
        assert Representable(makers[i].price, Entitlement(o, makers, i));
      }
    }
  }

  /**
   * After processing any submit of known side and type, the symbol's holds are exactly its live
   * orders if and only if, before it, every resting order's entitlement under price-time priority
   * has a representable value at that order's price.
   */
  lemma ExactIffRepresentable(st: State, symbol: Symbol, book: BookState, o: Order, rest: seq<Order>)
    requires Sound(st) && Exact(st.holds, symbol, book, [o] + rest) && Known(o)
    ensures var (book', res) := Submit(book, o);
      && res.Some?
      && (Exact(Processed(st, symbol, o, res).holds, symbol, book', rest) <==> EntitlementsFit(o, Makers(book, o.side)))
  {
    hide HoldFor, Exact, Sound, Processed, WellFormed, EntitlementsFit;
    var makers := Makers(book, o.side);
    var ts := Match(o, makers, book.tradeId).trades;
    PlacedMakers(st.holds, symbol, book, o, rest);
    TradesOkIffRepresentable(o, makers, book.tradeId);
    RepresentableIffFit(o, makers, book.tradeId);
    if AllRepresentable(ts) {
      SubmitStaysExact(st, symbol, book, o, rest);
    } else {
      var i :| 0 <= i < |ts| && !Representable(ts[i].price, ts[i].quantity);
      OverflowStrandsHold(st, symbol, book, o, rest, i);
    }
  }

  lemma PlacedMakers(holds: HoldMap, symbol: Symbol, book: BookState, o: Order, rest: seq<Order>)
    requires Exact(holds, symbol, book, [o] + rest) && Known(o)
    ensures forall m :: m in Makers(book, o.side) ==> m.quantity > 0
    ensures Sorted(Opposite(o.side), Makers(book, o.side)) && UniqueIds(Makers(book, o.side))
  {
    ExactPlaces(holds, symbol, book, o, rest);
  }

  // --- It happens within the API's bounds ---------------------------------------------------------

  const API_MAX_PRICE: int := 0x100_0000_0000
  const API_MAX_QUANTITY: int := 0x1_0000_0000

  /**
   * A LIMIT sell at the price cap for 2^24 shares is accepted on shares alone; a MARKET
   * buy is accepted on one unit of cash. Their trade is worth 2^64: it is skipped, so
   * nobody pays or delivers, yet the sell has left the book with its hold still standing.
   */
  lemma OverflowHappens(symbol: Symbol)
    ensures var q := 0x100_0000;
      var start := State(map["b" := 1], map["s" := map[symbol := q]], map[], map[], map[]);
      var sell := Order(1, symbol, "s", Limit, API_MAX_PRICE, q, Sell);
      var buy := Order(2, symbol, "b", Market, 0, q, Buy);
      var (st1, e1) := Reserve(start, sell);
      var (book1, r1) := Submit(EmptyBook, sell);
      var (st2, e2) := Reserve(Processed(st1, symbol, sell, r1), buy);
      var (book2, r2) := Submit(book1, buy);
      var end := Processed(st2, symbol, buy, r2);
      && sell.price <= API_MAX_PRICE && q <= API_MAX_QUANTITY
      && e1.None? && e2.None?
      && r2.Some? && |r2.value.trades| == 1 && RestingIds(book2) == {}
      && end.cash == start.cash && end.positions == start.positions
      && end.holds == map[Key(sell) := HoldFor(sell)]
  {
    var q := 0x100_0000;
    var start := State(map["b" := 1], map["s" := map[symbol := q]], map[], map[], map[]);
    var sell := Order(1, symbol, "s", Limit, API_MAX_PRICE, q, Sell);
    var buy := Order(2, symbol, "b", Market, 0, q, Buy);
    var (st1, e1) := Reserve(start, sell);
    assert e1.None? && st1.holds == map[Key(sell) := HoldFor(sell)];
    var (book1, r1) := Submit(EmptyBook, sell);
    assert book1 == BookState([], [sell], 0, 1) && r1 == Some(Outcome([], [], q));
    assert Processed(st1, symbol, sell, r1) == st1;
    var (st2, e2) := Reserve(st1, buy);
    assert e2.None? && st2.holds == map[Key(sell) := HoldFor(sell), Key(buy) := HoldFor(buy)];
    var t := TradeOf(buy, sell, sell.price, q, 1);
    var (book2, r2) := Submit(book1, buy);
    assert Match(buy, [sell], 0).trades == [t];
    assert book2 == BookState([], [], 1, 2) && r2 == Some(Outcome([t], [], 0));
    NotionalIsExact(t.price, t.quantity);
    assert ApplyTrade(st2, symbol, t) == st2;
    assert ApplyTrades(st2, symbol, [t]) == st2;
    assert Processed(st2, symbol, buy, r2) == Release(st2, Key(buy));
    assert st2.holds - {Key(buy)} == map[Key(sell) := HoldFor(sell)];
  }
}
