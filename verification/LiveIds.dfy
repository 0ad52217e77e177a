/**
 * No submit ever takes the id of a live order, overflow or not: every live order
 * keeps a hold of at least its quantity, and reserving refuses an id that has one.
 * This is what makes the log of accepted requests replayable. Unlike exactness of
 * holds it needs no assumption about trade values, so it serves every run there is.
 */
module LiveIds {
  import opened Types
  import opened Matching
  import opened AccountState
  import opened Guards
  import opened Holds
  import opened Settling
  import opened LiveHolds

  /** The order has a hold of at least its quantity. */
  predicate Guard(holds: HoldMap, o: Order) {
    Key(o) in holds && holds[Key(o)].quantity >= o.quantity
  }

  predicate AllGuarded(holds: HoldMap, list: seq<Order>) {
    forall o :: o in list ==> Guard(holds, o)
  }

  /** Every live order of the symbol, resting or pending, is guarded and has an id of its own. */
  ghost predicate Guarded(holds: HoldMap, symbol: Symbol, book: BookState, pending: seq<Order>) {
    && WellFormed(book)
    && OfSymbol(symbol, book.bids) && OfSymbol(symbol, book.asks) && OfSymbol(symbol, pending)
    && AllGuarded(holds, book.bids) && AllGuarded(holds, book.asks) && AllGuarded(holds, pending)
    && (forall o :: o in pending ==> o.quantity > 0)
    && UniqueIds(pending) && RestingIds(book) !! Ids(pending)
  }

  lemma ExactIsGuarded(holds: HoldMap, symbol: Symbol, book: BookState, pending: seq<Order>)
    requires Exact(holds, symbol, book, pending)
    ensures Guarded(holds, symbol, book, pending)
  {
    forall o | o in book.bids || o in book.asks || o in pending ensures Guard(holds, o) {
      assert HeldBy(holds, o);
    }
  }

  // --- Reserved totals stay the sums over holds, overflow or not ----------------------------------

  lemma AnyTradeKeepsSound(st: State, symbol: Symbol, t: Trade)
    requires Sound(st) && t.quantity > 0
    ensures Sound(ApplyTrade(st, symbol, t))
  {
    NotionalIsExact(t.price, t.quantity);
    if Representable(t.price, t.quantity) { TradeEffect(st, symbol, t); }
  }

  lemma {:induction false} AnyTradesKeepSound(st: State, symbol: Symbol, trades: seq<Trade>)
    requires Sound(st) && forall i :: 0 <= i < |trades| ==> trades[i].quantity > 0
    ensures Sound(ApplyTrades(st, symbol, trades))
    decreases |trades|
  {
    hide Sound, ApplyTrade;
    if trades != [] {
      AnyTradeKeepsSound(st, symbol, trades[0]);
      AnyTradesKeepSound(ApplyTrade(st, symbol, trades[0]), symbol, trades[1..]);
    }
  }

  /** Whatever its trades are worth, completing an outcome keeps reserved totals the sums over holds. */
  lemma CompleteKeepsSound(st: State, symbol: Symbol, id: SeqID, outcome: Outcome)
    requires Sound(st) && forall i :: 0 <= i < |outcome.trades| ==> outcome.trades[i].quantity > 0
    ensures Sound(Complete(st, symbol, id, outcome))
  {
    hide Sound, Release, ApplyTrades;
    AnyTradesKeepSound(st, symbol, outcome.trades);
    var traded := ApplyTrades(st, symbol, outcome.trades);
    ReleaseAllEffect(traded, symbol, outcome.selfPrevented);
    ReleaseEffect(ReleaseAll(traded, symbol, outcome.selfPrevented), HoldKey(symbol, id));
  }

  // --- A hold outlives the fills its order outlives ---------------------------------------------------

  /** How much of the order with this id a trade fills. */
  function Fills(t: Trade, id: SeqID): int {
    (if t.makerId == id then t.quantity else 0) + (if t.takerId == id then t.quantity else 0)
  }

  function AllFills(trades: seq<Trade>, id: SeqID): int {
    if trades == [] then 0 else Fills(trades[0], id) + AllFills(trades[1..], id)
  }

  lemma ShrinkTradedHolds(st: State, key: HoldKey, q: int)
    ensures ShrinkTraded(st, key, q).holds == Shrunk(st.holds, key, q)
  {
    hide Free;
    if key in st.holds && q > 0 {
      var h := st.holds[key];
      var n := Min(q, h.quantity);
      FreeKeepsHolds(st.(holds := st.holds[key := h.(quantity := h.quantity - n)]), h, n);
    }
  }

  lemma OutlivesShrink(holds: HoldMap, key: HoldKey, q: int, k: HoldKey, need: int)
    requires k in holds && need > 0 && q >= 0
    requires holds[k].quantity >= need + if k == key then q else 0
    ensures var h := Shrunk(holds, key, q); k in h && h[k].quantity >= holds[k].quantity - (if k == key then q else 0)
  {
  }

  lemma OutlivesTrade(st: State, symbol: Symbol, t: Trade, k: HoldKey, need: int)
    requires k in st.holds && k.symbol == symbol && need > 0 && t.quantity > 0
    requires st.holds[k].quantity >= need + Fills(t, k.orderId)
    ensures var h := ApplyTrade(st, symbol, t).holds;
      k in h && h[k].quantity >= st.holds[k].quantity - Fills(t, k.orderId)
  {
    hide Shrunk, ShrinkTraded, MoveValue, Notional;
    match Notional(t.price, t.quantity)
    case None =>
    case Some(value) =>
      MoveKeepsHolds(st, t, value);
      var moved := MoveValue(st, t, value);
      var mk, tk := HoldKey(symbol, t.makerId), HoldKey(symbol, t.takerId);
      ShrinkTradedHolds(moved, mk, t.quantity);
      ShrinkTradedHolds(ShrinkTraded(moved, mk, t.quantity), tk, t.quantity);
      OutlivesShrink(st.holds, mk, t.quantity, k, need + if t.takerId == k.orderId then t.quantity else 0);
      OutlivesShrink(Shrunk(st.holds, mk, t.quantity), tk, t.quantity, k, need);
  }

  lemma MoveKeepsHolds(st: State, t: Trade, value: int)
    ensures MoveValue(st, t, value).holds == st.holds
  {
  }

  lemma {:induction false} OutlivesTrades(st: State, symbol: Symbol, trades: seq<Trade>, k: HoldKey, need: int)
    requires k in st.holds && k.symbol == symbol && need > 0
    requires forall i :: 0 <= i < |trades| ==> trades[i].quantity > 0
    requires st.holds[k].quantity >= need + AllFills(trades, k.orderId)
    ensures var h := ApplyTrades(st, symbol, trades).holds; k in h && h[k].quantity >= need
    decreases |trades|
  {
    hide ApplyTrade;
    if trades != [] {
      FillsAreNonNegative(trades[1..], k.orderId);
      OutlivesTrade(st, symbol, trades[0], k, need + AllFills(trades[1..], k.orderId));
      OutlivesTrades(ApplyTrade(st, symbol, trades[0]), symbol, trades[1..], k, need);
    }
  }

  lemma {:induction false} FillsAreNonNegative(trades: seq<Trade>, id: SeqID)
    requires forall i :: 0 <= i < |trades| ==> trades[i].quantity > 0
    ensures AllFills(trades, id) >= 0
  {
    if trades != [] {
      assert trades[0].quantity > 0;
      FillsAreNonNegative(trades[1..], id);
    }
  }

  lemma ReleaseHolds(st: State, key: HoldKey)
    ensures Release(st, key).holds == st.holds - {key}
  {
  }

  lemma {:induction false} ReleaseAllHolds(st: State, symbol: Symbol, ids: seq<SeqID>)
    ensures ReleaseAll(st, symbol, ids).holds == st.holds - (set id | id in ids :: HoldKey(symbol, id))
    decreases |ids|
  {
    hide Release;
    if ids != [] {
      ReleaseHolds(st, HoldKey(symbol, ids[0]));
      ReleaseAllHolds(Release(st, HoldKey(symbol, ids[0])), symbol, ids[1..]);
      assert (set id | id in ids :: HoldKey(symbol, id))
          == {HoldKey(symbol, ids[0])} + set id | id in ids[1..] :: HoldKey(symbol, id);
    }
  }

  /** A hold the outcome's fills leave something of stays filed, unless the outcome releases its order. */
  lemma OutlivesOutcome(st: State, symbol: Symbol, id: SeqID, outcome: Outcome, k: HoldKey, need: int)
    requires k in st.holds && k.symbol == symbol && need > 0
    requires forall i :: 0 <= i < |outcome.trades| ==> outcome.trades[i].quantity > 0
    requires st.holds[k].quantity >= need + AllFills(outcome.trades, k.orderId)
    requires k.orderId !in outcome.selfPrevented && (k.orderId == id ==> outcome.resting > 0)
    ensures var h := Complete(st, symbol, id, outcome).holds; k in h && h[k].quantity >= need
  {
    hide Release, ApplyTrades, ReleaseAll;
    OutlivesTrades(st, symbol, outcome.trades, k, need);
    var traded := ApplyTrades(st, symbol, outcome.trades);
    ReleaseAllHolds(traded, symbol, outcome.selfPrevented);
    ReleaseHolds(ReleaseAll(traded, symbol, outcome.selfPrevented), HoldKey(symbol, id));
  }

  // --- What a match fills -------------------------------------------------------------------------------

  /** This survivor was among the makers, larger by what it traded. */
  ghost predicate WasThere(makers: seq<Order>, trades: seq<Trade>, x: Order) {
    exists m :: m in makers && m.id == x.id && m.quantity == x.quantity + AllFills(trades, x.id)
  }

  /** Every survivor was there before, larger by what it traded; the taker is smaller by what it traded. */
  ghost predicate FillsAddUp(taker: Order, makers: seq<Order>, r: Matched) {
    && r.left == taker.quantity - AllFills(r.trades, taker.id)
    && (forall x :: x in r.makers ==> WasThere(makers, r.trades, x))
    && (forall i :: 0 <= i < |r.trades| ==> r.trades[i].makerId in Ids(makers) && r.trades[i].takerId == taker.id)
  }

  lemma {:induction false} NoFillsOfStranger(trades: seq<Trade>, id: SeqID)
    requires forall i :: 0 <= i < |trades| ==> trades[i].makerId != id && trades[i].takerId != id
    ensures AllFills(trades, id) == 0
  {
    if trades != [] { NoFillsOfStranger(trades[1..], id); }
  }

  lemma StillThereAfterTrade(makers: seq<Order>, trades: seq<Trade>, t: Trade, x: Order)
    requires makers != [] && WasThere(makers[1..], trades, x) && t.makerId != x.id && t.takerId != x.id
    ensures WasThere(makers, [t] + trades, x)
  {
    assert ([t] + trades)[1..] == trades;
    var m :| m in makers[1..] && m.id == x.id && m.quantity == x.quantity + AllFills(trades, x.id);
    assert m in makers;
  }

  lemma HeadIsApart(makers: seq<Order>)
    requires UniqueIds(makers) && makers != []
    ensures makers[0].id !in Ids(makers[1..]) && Ids(makers) == {makers[0].id} + Ids(makers[1..])
  {
    assert makers == [makers[0]] + makers[1..];
  }

  lemma FillsAfterTrade(taker: Order, makers: seq<Order>, r: Matched, r': Matched, t: Trade)
    requires UniqueIds(makers) && makers != [] && taker.id !in Ids(makers)
    requires t.makerId == makers[0].id && t.takerId == taker.id
    requires FillsAddUp(taker.(quantity := taker.quantity - t.quantity), makers[1..], r')
    requires Ids(r'.makers) <= Ids(makers[1..])
    requires r == r'.(trades := [t] + r'.trades)
    ensures FillsAddUp(taker, makers, r)
  {
    hide WasThere, UniqueIds;
    HeadIsApart(makers);
    assert r.trades[1..] == r'.trades;
    forall x | x in r.makers ensures WasThere(makers, r.trades, x) {
      assert x.id in Ids(r'.makers);
      StillThereAfterTrade(makers, r'.trades, t, x);
    }
  }

  lemma FillsAfterOwn(taker: Order, makers: seq<Order>, r: Matched, r': Matched)
    requires makers != [] && FillsAddUp(taker, makers[1..], r')
    requires r == r'.(selfPrevented := [makers[0].id] + r'.selfPrevented)
    ensures FillsAddUp(taker, makers, r)
  {
    assert makers == [makers[0]] + makers[1..];
    forall x | x in r.makers ensures WasThere(makers, r.trades, x)
    {
      var m :| m in makers[1..] && m.id == x.id && m.quantity == x.quantity + AllFills(r'.trades, x.id);
      assert m in makers;
    }
  }

  lemma FillsPartial(taker: Order, makers: seq<Order>, r: Matched, t: Trade)
    requires UniqueIds(makers) && makers != [] && taker.id !in Ids(makers)
    requires t.makerId == makers[0].id && t.takerId == taker.id
    requires r == Matched([t], [], taker.quantity - t.quantity,
                          [makers[0].(quantity := makers[0].quantity - t.quantity)] + makers[1..])
    ensures FillsAddUp(taker, makers, r)
  {
    assert makers == [makers[0]] + makers[1..];
    assert makers[0].id !in Ids(makers[1..]) && makers[0] in makers && makers[0].id in Ids(makers);
    assert r.trades[1..] == [];
    forall x | x in r.makers ensures WasThere(makers, r.trades, x)
    {
      assert AllFills(r.trades, x.id) == Fills(t, x.id);
      if x in makers[1..] {
        assert x.id in Ids(makers[1..]);
        assert x in makers;
      } else {
        assert x == makers[0].(quantity := makers[0].quantity - t.quantity);
        assert makers[0].quantity == x.quantity + AllFills(r.trades, x.id);
      }
    }
  }

  lemma NothingFilled(taker: Order, makers: seq<Order>)
    ensures FillsAddUp(taker, makers, Matched([], [], taker.quantity, makers))
  {
    forall x | x in makers ensures WasThere(makers, [], x)
    {
      assert x.quantity == x.quantity + AllFills([], x.id);
    }
  }

  lemma {:induction false} MatchFillsAddUp(taker: Order, makers: seq<Order>, tradeId: SeqID)
    requires UniqueIds(makers) && taker.id !in Ids(makers)
    ensures FillsAddUp(taker, makers, Match(taker, makers, tradeId))
    decreases |makers|
  {
    hide FillsAddUp, Acceptable, SelfMatch;
    var r := Match(taker, makers, tradeId);
    if taker.quantity <= 0 || makers == [] || !Acceptable(taker, makers[0].price) {
      NothingFilled(taker, makers);
    } else {
      UniqueTail(makers, 0);
      assert makers == [makers[0]] + makers[1..];
      var fill := Min(taker.quantity, makers[0].quantity);
      if SelfMatch(taker, makers[0]) {
        MatchFillsAddUp(taker, makers[1..], tradeId);
        FillsAfterOwn(taker, makers, r, Match(taker, makers[1..], tradeId));
      } else if fill < makers[0].quantity {
        FillsPartial(taker, makers, r, r.trades[0]);
      } else {
        var taker' := taker.(quantity := taker.quantity - fill);
        MatchFillsAddUp(taker', makers[1..], tradeId + 1);
        DroppedAreGone(taker', makers[1..], tradeId + 1);
        FillsAfterTrade(taker, makers, r, Match(taker', makers[1..], tradeId + 1), r.trades[0]);
      }
    }
  }

  // --- Each step keeps live ids guarded ---------------------------------------------------------------------

  lemma AcceptedIdIsFresh(holds: HoldMap, symbol: Symbol, book: BookState, pending: seq<Order>, id: SeqID)
    requires Guarded(holds, symbol, book, pending) && HoldKey(symbol, id) !in holds
    ensures id !in RestingIds(book) && id !in Ids(pending)
  {
  }

  /** An accepted order's id belongs to no live order, and joins the live ids. */
  lemma ReserveStaysGuarded(st: State, symbol: Symbol, book: BookState, pending: seq<Order>, o: Order)
    requires Guarded(st.holds, symbol, book, pending) && o.symbol == symbol
    ensures var (st', err) := Reserve(st, o);
      && Guarded(st'.holds, symbol, book, if err.None? then pending + [o] else pending)
      && (err.Some? ==> st' == st)
      && (err.None? ==> o.id !in RestingIds(book) && o.id !in Ids(pending))
  {
    hide WellFormed, Reserve;
    var (st', err) := Reserve(st, o);
    RefusedChangesNothing(st, o);
    if err.None? {
      ReserveFiles(st, o);
      AcceptedIdIsFresh(st.holds, symbol, book, pending, o.id);
      IdsSplit(o, pending);
      FreshOnSide(pending, o.id);
      forall x | x in book.bids || x in book.asks || x in pending ensures Guard(st'.holds, x) {
        assert Guard(st.holds, x);
      }
    }
  }

  lemma GuardedHead(holds: HoldMap, symbol: Symbol, book: BookState, o: Order, rest: seq<Order>)
    requires Guarded(holds, symbol, book, [o] + rest)
    ensures o.symbol == symbol && o.quantity > 0 && Guard(holds, o) && Key(o) == HoldKey(symbol, o.id)
    ensures o.id !in RestingIds(book) && o.id !in Ids(rest)
    ensures OfSymbol(symbol, rest) && AllGuarded(holds, rest) && UniqueIds(rest) && RestingIds(book) !! Ids(rest)
    ensures forall x :: x in rest ==> x.quantity > 0
  {
    hide WellFormed, Guard;
    var pending := [o] + rest;
    IdsSplit(o, rest);
    assert o in pending && forall x :: x in rest ==> x in pending;
    forall i, j | 0 <= i < j < |rest| ensures rest[i].id != rest[j].id {
      assert pending[i + 1] == rest[i] && pending[j + 1] == rest[j];
    }
    forall x | x in rest ensures x.id != o.id {
      var j :| 0 <= j < |rest| && rest[j] == x;
      assert pending[0] == o && pending[j + 1] == x;
    }
  }

  /** Orders that neither trade nor are dropped stay guarded. */
  lemma OutsidersStayGuarded(st: State, symbol: Symbol, o: Order, makers: seq<Order>, m: Matched, outcome: Outcome,
                             list: seq<Order>)
    requires FillsAddUp(o, makers, m) && outcome.trades == m.trades && outcome.selfPrevented == m.selfPrevented
    requires forall i :: 0 <= i < |m.trades| ==> m.trades[i].quantity > 0
    requires forall id :: id in m.selfPrevented ==> id in Ids(makers)
    requires OfSymbol(symbol, list) && AllGuarded(st.holds, list) && forall x :: x in list ==> x.quantity > 0
    requires Ids(list) !! Ids(makers) && o.id !in Ids(list)
    ensures AllGuarded(Complete(st, symbol, o.id, outcome).holds, list)
  {
    hide Complete;
    forall x | x in list ensures Guard(Complete(st, symbol, o.id, outcome).holds, x) {
      IdsOf(list, x);
      NoFillsOfStranger(m.trades, x.id);
      OutlivesOutcome(st, symbol, o.id, outcome, Key(x), x.quantity);
    }
  }

  /** Survivors of the match stay guarded at what is left of them. */
  lemma SurvivorsStayGuarded(st: State, symbol: Symbol, o: Order, makers: seq<Order>, m: Matched, outcome: Outcome)
    requires FillsAddUp(o, makers, m) && outcome.trades == m.trades && outcome.selfPrevented == m.selfPrevented
    requires forall i :: 0 <= i < |m.trades| ==> m.trades[i].quantity > 0
    requires forall id :: id in m.selfPrevented ==> id !in Ids(m.makers)
    requires OfSymbol(symbol, makers) && AllGuarded(st.holds, makers) && OfSymbol(symbol, m.makers)
    requires o.id !in Ids(makers) && Ids(m.makers) <= Ids(makers)
    requires forall x :: x in m.makers ==> x.quantity > 0
    ensures AllGuarded(Complete(st, symbol, o.id, outcome).holds, m.makers)
  {
    hide Complete;
    forall x | x in m.makers ensures Guard(Complete(st, symbol, o.id, outcome).holds, x) {
      IdsOf(m.makers, x);
      assert WasThere(makers, m.trades, x);
      var was :| was in makers && was.id == x.id && was.quantity == x.quantity + AllFills(m.trades, x.id);
      assert Guard(st.holds, was) && Key(was) == Key(x);
      OutlivesOutcome(st, symbol, o.id, outcome, Key(x), x.quantity);
    }
  }

  lemma SurvivorsArePositive(o: Order, makers: seq<Order>, tradeId: SeqID)
    requires forall x :: x in makers ==> x.quantity > 0
    ensures forall x :: x in Match(o, makers, tradeId).makers ==> x.quantity > 0
  {
    SurvivorsAreASuffix(o, makers, tradeId);
    var r := Match(o, makers, tradeId);
    hide Match;
    var k := |makers| - |r.makers|;
    if r.makers != makers[k..] { assert PartlyFilledHead(makers, k, r); }
  }

  lemma TradesArePositive(o: Order, makers: seq<Order>, tradeId: SeqID)
    requires forall x :: x in makers ==> x.quantity > 0
    ensures var ts := Match(o, makers, tradeId).trades; forall i :: 0 <= i < |ts| ==> ts[i].quantity > 0
  {
    TradesAreProper(o, makers, tradeId);
    var ts := Match(o, makers, tradeId).trades;
    forall i | 0 <= i < |ts| ensures ts[i].quantity > 0 { ProperTradesAt(o, ts, tradeId, i); }
  }

  lemma SidesArePositive(s: BookState, side: Side)
    requires WellFormed(s)
    ensures forall x :: x in Makers(s, side) ==> x.quantity > 0
    ensures UniqueIds(Makers(s, side))
  {
  }

  lemma SubmitStaysGuardedKnown(st: State, symbol: Symbol, book: BookState, o: Order, rest: seq<Order>)
    requires Guarded(st.holds, symbol, book, [o] + rest) && Known(o) && Sound(st)
    ensures var (book', res) := Submit(book, o);
      && res.Some?
      && var st' := Complete(st, symbol, o.id, res.value);
      Guarded(st'.holds, symbol, book', rest) && Sound(st')
  {
    hide Match, Submit, WellFormed, Acceptable, SelfMatch, Sound, Complete, Guard, FillsAddUp;
    var makers := Makers(book, o.side);
    var own := Makers(book, Opposite(o.side));
    var m := Match(o, makers, book.tradeId);
    var (book', res) := Submit(book, o);
    GuardedHead(st.holds, symbol, book, o, rest);
    SidesOf(book, o.side);
    SidesArePositive(book, o.side);
    SidesArePositive(book, Opposite(o.side));
    MatchFillsAddUp(o, makers, book.tradeId);
    DroppedAreGone(o, makers, book.tradeId);
    TradesArePositive(o, makers, book.tradeId);
    SurvivorsArePositive(o, makers, book.tradeId);
    SurvivorsOfSymbol(symbol, makers, o, book.tradeId);
    SubmittedLists(book, o);
    SubmitKeepsWellFormed(book, o);
    var st' := Complete(st, symbol, o.id, res.value);
    CompleteKeepsSound(st, symbol, o.id, res.value);
    SurvivorsStayGuarded(st, symbol, o, makers, m, res.value);
    OutsidersStayGuarded(st, symbol, o, makers, m, res.value, own);
    OutsidersStayGuarded(st, symbol, o, makers, m, res.value, rest);
    TakerStaysGuarded(st, symbol, o, makers, m, res.value);
    var own' := Makers(book', Opposite(o.side));
    IdsAfterRest(own, own', o, m.left, res.value.resting);
    BothSides(book, o.side);
    BothSides(book', o.side);
    forall x | x in own' ensures Guard(st'.holds, x) && x.symbol == symbol {
      if x !in own { assert x == o.(quantity := m.left); }
    }
  }

  lemma TakerStaysGuarded(st: State, symbol: Symbol, o: Order, makers: seq<Order>, m: Matched, outcome: Outcome)
    requires FillsAddUp(o, makers, m) && outcome.trades == m.trades && outcome.selfPrevented == m.selfPrevented
    requires forall i :: 0 <= i < |m.trades| ==> m.trades[i].quantity > 0
    requires forall id :: id in m.selfPrevented ==> id in Ids(makers)
    requires o.symbol == symbol && Guard(st.holds, o) && o.id !in Ids(makers)
    ensures outcome.resting > 0 && m.left > 0 ==>
      Guard(Complete(st, symbol, o.id, outcome).holds, o.(quantity := m.left))
  {
    hide Complete;
    if outcome.resting > 0 && m.left > 0 {
      OutlivesOutcome(st, symbol, o.id, outcome, Key(o), m.left);
    }
  }

  /** Removing one live order's hold guards all the others. */
  lemma WithoutHeadStaysGuarded(holds: HoldMap, symbol: Symbol, book: BookState, o: Order, rest: seq<Order>)
    requires Guarded(holds, symbol, book, [o] + rest)
    ensures Guarded(holds - {Key(o)}, symbol, book, rest)
  {
    hide WellFormed;
    GuardedHead(holds, symbol, book, o, rest);
    var after := holds - {Key(o)};
    forall x | x in book.bids || x in book.asks ensures Guard(after, x) { assert x.id in RestingIds(book); }
    forall x | x in rest ensures Guard(after, x) { IdsOf(rest, x); }
  }

  /** Processing any pending submit, overflowing or not, leaves every live id guarded. */
  lemma SubmitStaysGuarded(st: State, symbol: Symbol, book: BookState, o: Order, rest: seq<Order>)
    requires Guarded(st.holds, symbol, book, [o] + rest) && Sound(st)
    ensures var (book', res) := Submit(book, o); var st' := Processed(st, symbol, o, res);
      Guarded(st'.holds, symbol, book', rest) && Sound(st')
  {
    hide WellFormed, Sound, Complete, Release, Guarded;
    if Known(o) {
      SubmitStaysGuardedKnown(st, symbol, book, o, rest);
    } else {
      UnknownIsRefused(book, o);
      GuardedHead(st.holds, symbol, book, o, rest);
      WithoutHeadStaysGuarded(st.holds, symbol, book, o, rest);
      ReleaseEffect(st, Key(o));
    }
  }

  lemma CancelStaysGuarded(st: State, symbol: Symbol, book: BookState, pending: seq<Order>, id: SeqID, who: Account)
    requires Guarded(st.holds, symbol, book, pending) && Sound(st)
    ensures var (book', err) := Cancel(book, id, who);
      var st' := if err.None? then Release(st, HoldKey(symbol, id)) else st;
      Guarded(st'.holds, symbol, book', pending) && Sound(st')
  {
    hide Sound, Release, WellFormed, Cancel;
    var (book', err) := Cancel(book, id, who);
    CancelKeepsWellFormed(book, id, who);
    ReleaseEffect(st, HoldKey(symbol, id));
    if err.None? {
      var after := st.holds - {HoldKey(symbol, id)};
      forall x | x in book'.bids || x in book'.asks ensures Guard(after, x) { assert Guard(st.holds, x); }
      forall x | x in pending ensures Guard(after, x) {
        IdsOf(pending, x);
        assert Guard(st.holds, x);
      }
      IdsWithout(book.bids, book'.bids, id);
      IdsWithout(book.asks, book'.asks, id);
    }
  }
}
