/**
 * Price-time matching on flat lists: one list per side in price-then-arrival order,
 * consumed from its head. `Book` is proved against these functions; the lemmas say
 * what they mean.
 */
module Matching {
  import opened Types

  datatype BookState = BookState(
    bids: seq<Order>,
    asks: seq<Order>,
    tradeId: SeqID,
    maxOrderId: SeqID)

  const EmptyBook := BookState([], [], 0, 0)

  /** What is left after matching: the trades, the own orders dropped, the taker's quantity, the makers. */
  datatype Matched = Matched(
    trades: seq<Trade>,
    selfPrevented: seq<SeqID>,
    left: int,
    makers: seq<Order>)

  function Opposite(side: Side): (r: Side) {
    if side == Buy then Sell else Buy
  }

  /** p is strictly better than q for orders resting on this side. */
  predicate Better(side: Side, p: Price, q: Price) {
    if side == Buy then p > q else p < q
  }

  predicate Acceptable(taker: Order, price: Price) {
    taker.kind == Limit ==> if taker.side == Buy then price <= taker.price else price >= taker.price
  }

  predicate SelfMatch(taker: Order, maker: Order) {
    taker.placer != "" && taker.placer == maker.placer
  }

  function TradeOf(taker: Order, maker: Order, price: Price, fill: int, id: SeqID): Trade {
    Trade(id, taker.symbol, price, maker.id, taker.id, maker.placer, taker.placer, fill, taker.side)
  }

  function Match(taker: Order, makers: seq<Order>, tradeId: SeqID): Matched
    decreases |makers|
  {
    if taker.quantity <= 0 || makers == [] || !Acceptable(taker, makers[0].price) then
      Matched([], [], taker.quantity, makers)
    else if SelfMatch(taker, makers[0]) then
      var r := Match(taker, makers[1..], tradeId);
      r.(selfPrevented := [makers[0].id] + r.selfPrevented)
    else
      var maker := makers[0];
      var fill := Min(taker.quantity, maker.quantity);
      var t := TradeOf(taker, maker, maker.price, fill, tradeId + 1);
      if fill < maker.quantity then
        Matched([t], [], taker.quantity - fill, [maker.(quantity := maker.quantity - fill)] + makers[1..])
      else
        var r := Match(taker.(quantity := taker.quantity - fill), makers[1..], tradeId + 1);
        r.(trades := [t] + r.trades)
  }

  /** Trades and dropped ids found so far, followed by the rest of the match. */
  function Join(trades: seq<Trade>, prevented: seq<SeqID>, rest: Matched): Matched {
    Matched(trades + rest.trades, prevented + rest.selfPrevented, rest.left, rest.makers)
  }

  /** Where a match stands: the makers still there, and what has happened to the taker so far. */
  datatype Progress = Progress(makers: seq<Order>, taker: Order, trades: seq<Trade>, prevented: seq<SeqID>)

  /** Finishing the match from here gives what matching o against the original makers gives. */
  predicate InProgress(from: BookState, o: Order, at: Progress) {
    && UniqueIds(at.makers)
    && at.taker == o.(quantity := at.taker.quantity)
    && Join(at.trades, at.prevented, Match(at.taker, at.makers, from.tradeId + |at.trades|))
         == Match(o, Makers(from, o.side), from.tradeId)
  }

  /** When the loop may stop, what it has found is the whole match. */
  lemma ProgressIsResult(from: BookState, o: Order, at: Progress)
    requires InProgress(from, o, at)
    requires at.taker.quantity <= 0 || at.makers == [] || !Acceptable(o, at.makers[0].price)
    ensures Match(o, Makers(from, o.side), from.tradeId)
         == Matched(at.trades, at.prevented, at.taker.quantity, at.makers)
  {
  }

  predicate MeetsBest(at: Progress) {
    at.taker.quantity > 0 && at.makers != [] && Acceptable(at.taker, at.makers[0].price)
  }

  /** One step of the match: the best maker is dropped as the taker's own. */
  lemma OwnMakerDropped(from: BookState, o: Order, at: Progress)
    requires InProgress(from, o, at) && MeetsBest(at) && SelfMatch(at.taker, at.makers[0])
    ensures InProgress(from, o,
      at.(makers := at.makers[1..], prevented := at.prevented + [at.makers[0].id]))
  {
    UniqueTail(at.makers, 0);
  }

  function AfterTrade(makers: seq<Order>, fill: int): seq<Order>
    requires makers != []
  {
    var left := makers[0].quantity - fill;
    if left > 0 then [makers[0].(quantity := left)] + makers[1..] else makers[1..]
  }

  /** One step of the match: a trade, after which the maker is gone or keeps its place with what is left. */
  lemma MakerTraded(from: BookState, o: Order, at: Progress, t: Trade)
    requires InProgress(from, o, at) && MeetsBest(at) && !SelfMatch(at.taker, at.makers[0])
    requires var maker := at.makers[0];
      t == TradeOf(at.taker, maker, maker.price, Min(at.taker.quantity, maker.quantity), from.tradeId + |at.trades| + 1)
    ensures InProgress(from, o, Progress(AfterTrade(at.makers, t.quantity),
      at.taker.(quantity := at.taker.quantity - t.quantity), at.trades + [t], at.prevented))
  {
    JoinTrade(at.trades, at.prevented, at.taker, at.makers, from.tradeId + |at.trades|, t);
    UniqueTail(at.makers, at.makers[0].quantity - t.quantity);
    hide Match;
  }

  lemma JoinTrade(ts: seq<Trade>, ps: seq<SeqID>, taker: Order, makers: seq<Order>, tradeId: SeqID, t: Trade)
    requires taker.quantity > 0 && makers != [] && Acceptable(taker, makers[0].price)
    requires !SelfMatch(taker, makers[0])
    requires t == TradeOf(taker, makers[0], makers[0].price, Min(taker.quantity, makers[0].quantity), tradeId + 1)
    ensures Join(ts, ps, Match(taker, makers, tradeId))
         == Join(ts + [t], ps,
                 Match(taker.(quantity := taker.quantity - t.quantity), AfterTrade(makers, t.quantity), tradeId + 1))
  {
  }

  lemma UniqueTail(makers: seq<Order>, q: int)
    requires makers != [] && UniqueIds(makers)
    ensures UniqueIds(makers[1..]) && UniqueIds([makers[0].(quantity := q)] + makers[1..])
  {
  }

  /** The list with o placed behind every order of an equal or better price. */
  function Rest(side: Side, list: seq<Order>, o: Order): seq<Order> {
    if list == [] || Better(side, o.price, list[0].price) then [o] + list
    else [list[0]] + Rest(side, list[1..], o)
  }

  function Makers(s: BookState, takerSide: Side): seq<Order> {
    if takerSide == Buy then s.asks else s.bids
  }

  function Place(s: BookState, o: Order): BookState {
    if o.side == Buy then s.(bids := Rest(Buy, s.bids, o)) else s.(asks := Rest(Sell, s.asks, o))
  }

  function AfterMatch(s: BookState, o: Order, m: Matched): BookState {
    var id := s.tradeId + |m.trades|;
    var top := Max(s.maxOrderId, o.id);
    if o.side == Buy then BookState(s.bids, m.makers, id, top) else BookState(m.makers, s.asks, id, top)
  }

  predicate Known(o: Order) {
    o.side != UnknownSide && o.kind != UnknownType
  }

  /** None stands for the error on an unknown side or type. */
  function Submit(s: BookState, o: Order): (BookState, Option<Outcome>) {
    if !Known(o) then (s, None)
    else
      var m := Match(o, Makers(s, o.side), s.tradeId);
      var after := AfterMatch(s, o, m);
      if o.kind == Limit && m.left > 0 then
        (Place(after, o.(quantity := m.left)), Some(Outcome(m.trades, m.selfPrevented, m.left)))
      else
        (after, Some(Outcome(m.trades, m.selfPrevented, 0)))
  }

  function Ids(list: seq<Order>): set<SeqID> {
    set o | o in list :: o.id
  }

  function RestingIds(s: BookState): set<SeqID> {
    Ids(s.bids) + Ids(s.asks)
  }

  function Without(list: seq<Order>, id: SeqID): seq<Order> {
    if list == [] then []
    else if list[0].id == id then list[1..]
    else [list[0]] + Without(list[1..], id)
  }

  function Find(list: seq<Order>, id: SeqID): (r: Option<Order>)
    ensures r.Some? ==> r.value in list && r.value.id == id
    ensures r.None? ==> id !in Ids(list)
  {
    if list == [] then None
    else if list[0].id == id then Some(list[0])
    else Find(list[1..], id)
  }

  function FindResting(s: BookState, id: SeqID): Option<Order> {
    var r := Find(s.bids, id);
    if r.Some? then r else Find(s.asks, id)
  }

  datatype CancelError = OrderNotFound | NotOrderOwner

  function Cancel(s: BookState, id: SeqID, who: Account): (BookState, Option<CancelError>) {
    match FindResting(s, id)
    case None => (s, Some(OrderNotFound))
    case Some(o) =>
      if who != "" && o.placer != who then (s, Some(NotOrderOwner))
      else (s.(bids := Without(s.bids, id), asks := Without(s.asks, id)), None)
  }

  // --- Well-formed books -------------------------------------------------------

  predicate Sorted(side: Side, list: seq<Order>) {
    forall i, j :: 0 <= i < j < |list| ==> !Better(side, list[j].price, list[i].price)
  }

  predicate Resting(side: Side, list: seq<Order>) {
    forall i :: 0 <= i < |list| ==> list[i].side == side && list[i].kind == Limit && list[i].quantity > 0
  }

  predicate UniqueIds(list: seq<Order>) {
    forall i, j :: 0 <= i < j < |list| ==> list[i].id != list[j].id
  }

  predicate Uncrossed(bids: seq<Order>, asks: seq<Order>) {
    forall i, j :: 0 <= i < |bids| && 0 <= j < |asks| ==> bids[i].price < asks[j].price
  }

  predicate DisjointIds(xs: seq<Order>, ys: seq<Order>) {
    forall i, j :: 0 <= i < |xs| && 0 <= j < |ys| ==> xs[i].id != ys[j].id
  }

  predicate WellFormed(s: BookState) {
    && Sorted(Buy, s.bids) && Sorted(Sell, s.asks)
    && Resting(Buy, s.bids) && Resting(Sell, s.asks)
    && UniqueIds(s.bids) && UniqueIds(s.asks) && DisjointIds(s.bids, s.asks)
    && Uncrossed(s.bids, s.asks)
    && (forall i :: 0 <= i < |s.bids| ==> s.bids[i].id <= s.maxOrderId)
    && (forall i :: 0 <= i < |s.asks| ==> s.asks[i].id <= s.maxOrderId)
  }

  /** A list of the orders resting in this book, each once, in any order. */
  ghost predicate Lists(book: BookState, orders: seq<Order>) {
    && (forall o :: o in orders <==> o in book.bids || o in book.asks)
    && UniqueIds(orders)
  }

  // --- How the surviving makers relate to the ones that were there ---------------

  /** The first k makers are gone; the rest survive in place, the first of them perhaps in part. */
  predicate SuffixSurvives(makers: seq<Order>, k: int, r: Matched) {
    && 0 <= k <= |makers|
    && (r.makers == makers[k..] || PartlyFilledHead(makers, k, r))
  }

  predicate PartlyFilledHead(makers: seq<Order>, k: int, r: Matched)
    requires 0 <= k <= |makers|
  {
    && k < |makers| == |r.makers| + k
    && 0 < r.makers[0].quantity < makers[k].quantity
    && r.left == 0
    && r.makers == [makers[k].(quantity := r.makers[0].quantity)] + makers[k + 1..]
  }

  lemma {:induction false} SurvivorsAreASuffix(taker: Order, makers: seq<Order>, tradeId: SeqID)
    ensures var r := Match(taker, makers, tradeId); SuffixSurvives(makers, |makers| - |r.makers|, r)
    decreases |makers|
  {
    var r := Match(taker, makers, tradeId);
    var k := |makers| - |r.makers|;
    if taker.quantity <= 0 || makers == [] || !Acceptable(taker, makers[0].price) {
      assert r.makers == makers[k..];
    } else {
      var fill := Min(taker.quantity, makers[0].quantity);
      if SelfMatch(taker, makers[0]) {
        SurvivorsAreASuffix(taker, makers[1..], tradeId);
        assert makers[1..][k - 1..] == makers[k..];
      } else if fill >= makers[0].quantity {
        SurvivorsAreASuffix(taker.(quantity := taker.quantity - fill), makers[1..], tradeId + 1);
        assert makers[1..][k - 1..] == makers[k..];
      }
    }
  }

  /** Matching stops only when the taker is done, the side is empty, or the best price is unacceptable. */
  lemma {:induction false} MatchingStopsOnlyWhenItMust(taker: Order, makers: seq<Order>, tradeId: SeqID)
    ensures var r := Match(taker, makers, tradeId);
      r.left > 0 ==> r.makers == [] || !Acceptable(taker, r.makers[0].price)
    ensures taker.quantity >= 0 ==> Match(taker, makers, tradeId).left >= 0
    decreases |makers|
  {
    if taker.quantity <= 0 || makers == [] || !Acceptable(taker, makers[0].price) {
    } else if SelfMatch(taker, makers[0]) {
      MatchingStopsOnlyWhenItMust(taker, makers[1..], tradeId);
    } else {
      var fill := Min(taker.quantity, makers[0].quantity);
      if fill >= makers[0].quantity {
        MatchingStopsOnlyWhenItMust(taker.(quantity := taker.quantity - fill), makers[1..], tradeId + 1);
      }
    }
  }

  // --- Price-time priority as a closed form ---------------------------------------

  /** A maker this taker may trade with. */
  predicate Eligible(taker: Order, maker: Order) {
    Acceptable(taker, maker.price) && !SelfMatch(taker, maker)
  }

  /** Total quantity the taker may trade against in this list. */
  function Available(taker: Order, makers: seq<Order>): int {
    if makers == [] then 0
    else (if Eligible(taker, makers[0]) then makers[0].quantity else 0) + Available(taker, makers[1..])
  }

  function Clamp(x: int, hi: int): int {
    if x <= 0 then 0 else if x <= hi then x else hi
  }

  /**
   * What price-time priority owes the maker at position i: nothing unless it is
   * eligible, otherwise whatever of the taker is left after every eligible order ahead of it.
   */
  function Entitlement(taker: Order, makers: seq<Order>, i: nat): int
    requires i < |makers|
  {
    if Eligible(taker, makers[i])
    then Clamp(taker.quantity - Available(taker, makers[..i]), makers[i].quantity)
    else 0
  }

  function TradedWith(trades: seq<Trade>, makerId: SeqID): int {
    if trades == [] then 0
    else (if trades[0].makerId == makerId then trades[0].quantity else 0) + TradedWith(trades[1..], makerId)
  }

  function Volume(trades: seq<Trade>): int {
    if trades == [] then 0 else trades[0].quantity + Volume(trades[1..])
  }

  function Depth(list: seq<Order>): int {
    if list == [] then 0 else list[0].quantity + Depth(list[1..])
  }

  lemma {:induction false} TradesNameTheMakers(taker: Order, makers: seq<Order>, tradeId: SeqID)
    ensures forall t :: t in Match(taker, makers, tradeId).trades ==> t.makerId in Ids(makers)
    decreases |makers|
  {
    if taker.quantity <= 0 || makers == [] || !Acceptable(taker, makers[0].price) {
    } else if SelfMatch(taker, makers[0]) {
      TradesNameTheMakers(taker, makers[1..], tradeId);
    } else {
      var fill := Min(taker.quantity, makers[0].quantity);
      assert makers[0] in makers;
      if fill >= makers[0].quantity {
        TradesNameTheMakers(taker.(quantity := taker.quantity - fill), makers[1..], tradeId + 1);
      }
    }
  }

  lemma {:induction false} NoTradesWithStranger(trades: seq<Trade>, id: SeqID)
    requires forall t :: t in trades ==> t.makerId != id
    ensures TradedWith(trades, id) == 0
  {
    if trades != [] {
      assert trades[0] in trades;
      NoTradesWithStranger(trades[1..], id);
    }
  }

  lemma {:induction false} WorsePricesStayUnacceptable(taker: Order, makers: seq<Order>)
    requires taker.side != UnknownSide
    requires Sorted(Opposite(taker.side), makers)
    requires makers != [] && !Acceptable(taker, makers[0].price)
    ensures forall i :: 0 <= i < |makers| ==> !Acceptable(taker, makers[i].price)
  {
    forall i | 0 <= i < |makers| ensures !Acceptable(taker, makers[i].price) {
      if i > 0 { assert !Better(Opposite(taker.side), makers[i].price, makers[0].price); }
    }
  }

  lemma {:induction false} AvailableIgnoresQuantity(taker: Order, q: int, makers: seq<Order>)
    ensures Available(taker.(quantity := q), makers) == Available(taker, makers)
  {
    if makers != [] { AvailableIgnoresQuantity(taker, q, makers[1..]); }
  }

  lemma {:induction false} AvailableIsNonNegative(taker: Order, makers: seq<Order>)
    requires forall i :: 0 <= i < |makers| ==> makers[i].quantity > 0
    ensures Available(taker, makers) >= 0
  {
    if makers != [] { AvailableIsNonNegative(taker, makers[1..]); }
  }

  lemma AvailableStep(taker: Order, makers: seq<Order>, i: nat)
    requires 0 < i <= |makers|
    ensures Available(taker, makers[..i])
         == (if Eligible(taker, makers[0]) then makers[0].quantity else 0) + Available(taker, makers[1..][..i - 1])
  {
    assert makers[..i][1..] == makers[1..][..i - 1];
  }

  lemma TailOfSide(side: Side, makers: seq<Order>)
    requires makers != [] && Sorted(side, makers) && UniqueIds(makers)
    ensures Sorted(side, makers[1..]) && UniqueIds(makers[1..])
    ensures forall j :: 0 <= j < |makers[1..]| ==> makers[1..][j].id != makers[0].id
  {
  }

  /** Every maker trades exactly what price-time priority entitles it to, no more and no less. */
  lemma {:induction false} PriceTimePriority(taker: Order, makers: seq<Order>, tradeId: SeqID, i: nat)
    requires taker.side != UnknownSide && i < |makers|
    requires Sorted(Opposite(taker.side), makers) && UniqueIds(makers)
    requires forall j :: 0 <= j < |makers| ==> makers[j].quantity > 0
    ensures TradedWith(Match(taker, makers, tradeId).trades, makers[i].id) == Entitlement(taker, makers, i)
    decreases |makers|
  {
    AvailableIsNonNegative(taker, makers[..i]);
    if taker.quantity <= 0 {
    } else if !Acceptable(taker, makers[0].price) {
      WorsePricesStayUnacceptable(taker, makers);
    } else {
      TailOfSide(Opposite(taker.side), makers);
      var fill := Min(taker.quantity, makers[0].quantity);
      if i == 0 {
        OnlyTradesInRest(taker, makers[1..], tradeId, makers[0].id);
        OnlyTradesInRest(taker.(quantity := taker.quantity - fill), makers[1..], tradeId + 1, makers[0].id);
      } else {
        AvailableStep(taker, makers, i);
        AvailableIsNonNegative(taker, makers[1..][..i - 1]);
        if SelfMatch(taker, makers[0]) {
          PriceTimePriority(taker, makers[1..], tradeId, i - 1);
        } else if fill < makers[0].quantity {
          assert Match(taker, makers, tradeId).trades
              == [TradeOf(taker, makers[0], makers[0].price, fill, tradeId + 1)];
        } else {
          PriceTimePriority(taker.(quantity := taker.quantity - fill), makers[1..], tradeId + 1, i - 1);
          AvailableIgnoresQuantity(taker, taker.quantity - fill, makers[1..][..i - 1]);
        }
      }
    }
  }

  lemma OnlyTradesInRest(taker: Order, rest: seq<Order>, tradeId: SeqID, id: SeqID)
    requires forall j :: 0 <= j < |rest| ==> rest[j].id != id
    ensures TradedWith(Match(taker, rest, tradeId).trades, id) == 0
  {
    TradesNameTheMakers(taker, rest, tradeId);
    NoTradesWithStranger(Match(taker, rest, tradeId).trades, id);
  }

  // --- Exact volume and conservation ------------------------------------------------

  /** The taker trades exactly the smaller of its quantity and what it may trade against. */
  lemma {:induction false} VolumeIsExact(taker: Order, makers: seq<Order>, tradeId: SeqID)
    requires taker.side != UnknownSide && taker.quantity >= 0
    requires Sorted(Opposite(taker.side), makers)
    requires forall j :: 0 <= j < |makers| ==> makers[j].quantity > 0
    ensures var r := Match(taker, makers, tradeId);
      && Volume(r.trades) == Min(taker.quantity, Available(taker, makers))
      && r.left == taker.quantity - Volume(r.trades)
    decreases |makers|
  {
    AvailableIsNonNegative(taker, makers);
    if taker.quantity <= 0 || makers == [] {
    } else if !Acceptable(taker, makers[0].price) {
      WorsePricesStayUnacceptable(taker, makers);
      NothingAvailable(taker, makers);
    } else {
      AvailableIsNonNegative(taker, makers[1..]);
      if SelfMatch(taker, makers[0]) {
        VolumeIsExact(taker, makers[1..], tradeId);
      } else {
        var fill := Min(taker.quantity, makers[0].quantity);
        if fill >= makers[0].quantity {
          VolumeIsExact(taker.(quantity := taker.quantity - fill), makers[1..], tradeId + 1);
          AvailableIgnoresQuantity(taker, taker.quantity - fill, makers[1..]);
        }
      }
    }
  }

  lemma {:induction false} NothingAvailable(taker: Order, makers: seq<Order>)
    requires forall i :: 0 <= i < |makers| ==> !Acceptable(taker, makers[i].price)
    ensures Available(taker, makers) == 0
  {
    if makers != [] { NothingAvailable(taker, makers[1..]); }
  }

  /** The taker's own orders among these makers. */
  function Own(taker: Order, makers: seq<Order>): seq<Order> {
    if makers == [] then []
    else if SelfMatch(taker, makers[0]) then [makers[0]] + Own(taker, makers[1..])
    else Own(taker, makers[1..])
  }

  function IdList(list: seq<Order>): seq<SeqID> {
    seq(|list|, i requires 0 <= i < |list| => list[i].id)
  }

  lemma OwnStep(taker: Order, makers: seq<Order>, k: nat)
    requires 0 < k <= |makers|
    ensures Own(taker, makers[..k])
         == var rest := Own(taker, makers[1..][..k - 1]);
            if SelfMatch(taker, makers[0]) then [makers[0]] + rest else rest
  {
    assert makers[..k][1..] == makers[1..][..k - 1];
  }

  /** The own orders dropped on the way are reported, in order, and no others. */
  lemma {:induction false} OwnOrdersAreDropped(taker: Order, makers: seq<Order>, tradeId: SeqID)
    ensures var r := Match(taker, makers, tradeId);
      && |r.makers| <= |makers|
      && r.selfPrevented == IdList(Own(taker, makers[..|makers| - |r.makers|]))
    decreases |makers|
  {
    var k := |makers| - |Match(taker, makers, tradeId).makers|;
    if taker.quantity <= 0 || makers == [] || !Acceptable(taker, makers[0].price) {
    } else {
      var fill := Min(taker.quantity, makers[0].quantity);
      if SelfMatch(taker, makers[0]) {
        OwnOrdersAreDropped(taker, makers[1..], tradeId);
        OwnStep(taker, makers, k);
      } else if fill >= makers[0].quantity {
        OwnOrdersAreDropped(taker.(quantity := taker.quantity - fill), makers[1..], tradeId + 1);
        OwnStep(taker, makers, k);
        OwnIgnoresQuantity(taker, taker.quantity - fill, makers[1..][..k - 1]);
      }
    }
  }

  /** Depth of the own orders dropped while the side shrank to what survives. */
  function DroppedDepth(taker: Order, makers: seq<Order>, r: Matched): int
    requires |r.makers| <= |makers|
  {
    Depth(Own(taker, makers[..|makers| - |r.makers|]))
  }

  lemma DroppedDepthStep(taker: Order, makers: seq<Order>, r: Matched)
    requires |r.makers| < |makers|
    ensures DroppedDepth(taker, makers, r)
         == (if SelfMatch(taker, makers[0]) then makers[0].quantity else 0) + DroppedDepth(taker, makers[1..], r)
  {
    OwnStep(taker, makers, |makers| - |r.makers|);
  }

  /** Depth before is what survives, what traded and what was dropped. */
  predicate DepthBalances(taker: Order, makers: seq<Order>, r: Matched) {
    && |r.makers| <= |makers|
    && Depth(makers) == Depth(r.makers) + Volume(r.trades) + DroppedDepth(taker, makers, r)
  }

  lemma DepthOfDropped(taker: Order, makers: seq<Order>, r: Matched, id: SeqID)
    requires makers != [] && SelfMatch(taker, makers[0]) && DepthBalances(taker, makers[1..], r)
    ensures DepthBalances(taker, makers, r.(selfPrevented := [id] + r.selfPrevented))
  {
    DroppedDepthStep(taker, makers, r);
  }

  lemma DepthOfConsumed(taker: Order, q: int, makers: seq<Order>, r: Matched, t: Trade)
    requires makers != [] && !SelfMatch(taker, makers[0]) && t.quantity == makers[0].quantity
    requires DepthBalances(taker.(quantity := q), makers[1..], r)
    ensures DepthBalances(taker, makers, r.(trades := [t] + r.trades))
  {
    assert ([t] + r.trades)[1..] == r.trades;
    DroppedDepthStep(taker, makers, r);
    OwnIgnoresQuantity(taker, q, makers[1..][..|makers| - |r.makers| - 1]);
  }

  lemma DepthOfPartFilled(taker: Order, makers: seq<Order>, r: Matched)
    requires makers != [] && |r.trades| == 1
    requires r.makers == [makers[0].(quantity := makers[0].quantity - r.trades[0].quantity)] + makers[1..]
    ensures DepthBalances(taker, makers, r)
  {
    assert r.makers[1..] == makers[1..];
  }

  /** Opposite depth falls by exactly what traded plus the own orders that were dropped. */
  lemma {:induction false} DepthIsConserved(taker: Order, makers: seq<Order>, tradeId: SeqID)
    ensures var r := Match(taker, makers, tradeId);
      && |r.makers| <= |makers|
      && Depth(makers) == Depth(r.makers) + Volume(r.trades) + DroppedDepth(taker, makers, r)
    decreases |makers|
  {
    hide Depth, Volume, SelfMatch, Acceptable;
    if taker.quantity <= 0 || makers == [] || !Acceptable(taker, makers[0].price) {
      NothingTraded(taker, makers);
    } else {
      var fill := Min(taker.quantity, makers[0].quantity);
      if SelfMatch(taker, makers[0]) {
        DepthIsConserved(taker, makers[1..], tradeId);
        DepthOfDropped(taker, makers, Match(taker, makers[1..], tradeId), makers[0].id);
      } else if fill < makers[0].quantity {
        DepthOfPartFilled(taker, makers, Match(taker, makers, tradeId));
      } else {
        var taker' := taker.(quantity := taker.quantity - fill);
        var rest := Match(taker', makers[1..], tradeId + 1);
        DepthIsConserved(taker', makers[1..], tradeId + 1);
        var t := TradeOf(taker, makers[0], makers[0].price, fill, tradeId + 1);
        DepthOfConsumed(taker, taker'.quantity, makers, rest, t);
      }
    }
  }

  lemma NothingTraded(taker: Order, makers: seq<Order>)
    ensures DepthBalances(taker, makers, Matched([], [], taker.quantity, makers))
  {
  }

  lemma {:induction false} OwnIgnoresQuantity(taker: Order, q: int, makers: seq<Order>)
    ensures Own(taker.(quantity := q), makers) == Own(taker, makers)
  {
    if makers != [] { OwnIgnoresQuantity(taker, q, makers[1..]); }
  }

  /** A trade between this taker and somebody else, inside the taker's limit. */
  predicate ProperTrade(taker: Order, t: Trade) {
    && t.quantity > 0
    && Acceptable(taker, t.price)
    && t.takerId == taker.id && t.takerAccount == taker.placer
    && t.takerSide == taker.side && t.symbol == taker.symbol
    && !(taker.placer != "" && t.makerAccount == taker.placer)
  }

  predicate ProperTrades(taker: Order, ts: seq<Trade>, tradeId: SeqID) {
    ts == []
    || (ProperTrade(taker, ts[0]) && ts[0].id == tradeId + 1 && ProperTrades(taker, ts[1..], tradeId + 1))
  }

  lemma {:induction false} ProperTradesAt(taker: Order, ts: seq<Trade>, tradeId: SeqID, i: nat)
    requires ProperTrades(taker, ts, tradeId) && i < |ts|
    ensures ProperTrade(taker, ts[i]) && ts[i].id == tradeId + 1 + i
  {
    if i > 0 { ProperTradesAt(taker, ts[1..], tradeId + 1, i - 1); }
  }

  lemma {:induction false} ProperForAnyQuantity(taker: Order, q: int, ts: seq<Trade>, tradeId: SeqID)
    ensures ProperTrades(taker.(quantity := q), ts, tradeId) == ProperTrades(taker, ts, tradeId)
  {
    if ts != [] { ProperForAnyQuantity(taker, q, ts[1..], tradeId + 1); }
  }

  /** Trades never self-trade, never pass the limit, and are numbered densely after tradeId. */
  lemma {:induction false} TradesAreProper(taker: Order, makers: seq<Order>, tradeId: SeqID)
    requires forall j :: 0 <= j < |makers| ==> makers[j].quantity > 0
    ensures ProperTrades(taker, Match(taker, makers, tradeId).trades, tradeId)
    decreases |makers|
  {
    if taker.quantity <= 0 || makers == [] || !Acceptable(taker, makers[0].price) {
    } else {
      var fill := Min(taker.quantity, makers[0].quantity);
      if SelfMatch(taker, makers[0]) {
        TradesAreProper(taker, makers[1..], tradeId);
      } else if fill >= makers[0].quantity {
        var taker' := taker.(quantity := taker.quantity - fill);
        TradesAreProper(taker', makers[1..], tradeId + 1);
        ProperForAnyQuantity(taker, taker'.quantity, Match(taker', makers[1..], tradeId + 1).trades, tradeId + 1);
      }
    }
  }

  /** The trade names a maker of this list: its id, its account, its price, no more than its quantity. */
  predicate NamesMaker(makers: seq<Order>, t: Trade) {
    exists m :: m in makers
      && t.makerId == m.id && t.makerAccount == m.placer && t.price == m.price && t.quantity <= m.quantity
  }

  /** Every trade prints at its maker's price and names that maker and its account. */
  lemma {:induction false} MakersPriceWins(taker: Order, makers: seq<Order>, tradeId: SeqID)
    ensures forall t :: t in Match(taker, makers, tradeId).trades ==> NamesMaker(makers, t)
    decreases |makers|
  {
    if taker.quantity <= 0 || makers == [] || !Acceptable(taker, makers[0].price) {
    } else {
      var rest, fill := makers[1..], Min(taker.quantity, makers[0].quantity);
      var r := Match(taker, makers, tradeId);
      assert makers[0] in makers && forall m :: m in rest ==> m in makers;
      if SelfMatch(taker, makers[0]) {
        MakersPriceWins(taker, rest, tradeId);
        forall t | t in r.trades ensures NamesMaker(makers, t) { assert NamesMaker(rest, t); }
      } else {
        assert NamesMaker(makers, r.trades[0]);
        if fill >= makers[0].quantity {
          var taker' := taker.(quantity := taker.quantity - fill);
          MakersPriceWins(taker', rest, tradeId + 1);
          forall t | t in r.trades ensures NamesMaker(makers, t) {
            if t != r.trades[0] {
              assert t in Match(taker', rest, tradeId + 1).trades;
              assert NamesMaker(rest, t);
            }
          }
        }
      }
    }
  }

  /** Prices never improve along this list of trades, and none beats p. */
  predicate NeverImproving(side: Side, ts: seq<Trade>, p: Price) {
    ts == [] || (!Better(side, ts[0].price, p) && NeverImproving(side, ts[1..], ts[0].price))
  }

  /** Trades print from the best resting price towards worse ones. */
  lemma {:induction false} TradesRunFromBestToWorst(taker: Order, makers: seq<Order>, tradeId: SeqID, p: Price)
    requires taker.side != UnknownSide
    requires Sorted(Opposite(taker.side), makers)
    requires makers != [] ==> !Better(Opposite(taker.side), makers[0].price, p)
    ensures NeverImproving(Opposite(taker.side), Match(taker, makers, tradeId).trades, p)
    decreases |makers|
  {
    if taker.quantity <= 0 || makers == [] || !Acceptable(taker, makers[0].price) {
    } else {
      var rest := makers[1..];
      if rest != [] { assert rest[0] == makers[1] && !Better(Opposite(taker.side), makers[1].price, makers[0].price); }
      var fill := Min(taker.quantity, makers[0].quantity);
      if SelfMatch(taker, makers[0]) {
        TradesRunFromBestToWorst(taker, rest, tradeId, p);
      } else if fill >= makers[0].quantity {
        TradesRunFromBestToWorst(taker.(quantity := taker.quantity - fill), rest, tradeId + 1, makers[0].price);
      }
    }
  }

  // --- Submit and cancel keep books well formed -----------------------------------------

  lemma {:induction false} RestShape(side: Side, list: seq<Order>, o: Order) returns (i: nat)
    requires Sorted(side, list)
    ensures i <= |list| && Rest(side, list, o) == list[..i] + [o] + list[i..]
    ensures forall j :: 0 <= j < i ==> !Better(side, o.price, list[j].price)
    ensures forall j :: i <= j < |list| ==> Better(side, o.price, list[j].price)
  {
    if list == [] || Better(side, o.price, list[0].price) {
      i := 0;
      forall j | 0 <= j < |list| ensures Better(side, o.price, list[j].price) {
        if j > 0 { assert !Better(side, list[j].price, list[0].price); }
      }
    } else {
      var k := RestShape(side, list[1..], o);
      i := k + 1;
      assert list[..i] == [list[0]] + list[1..][..k];
      assert list[i..] == list[1..][k..];
      forall j | 0 <= j < i ensures !Better(side, o.price, list[j].price) {
        if j > 0 { assert list[j] == list[1..][j - 1]; }
      }
      forall j | i <= j < |list| ensures Better(side, o.price, list[j].price) {
        assert list[j] == list[1..][j - 1];
      }
    }
  }

  lemma RestMembers(side: Side, list: seq<Order>, o: Order)
    requires Sorted(side, list)
    ensures forall x :: x in Rest(side, list, o) <==> x == o || x in list
  {
    var i := RestShape(side, list, o);
    assert list == list[..i] + list[i..];
  }

  /** Where the order at j of the longer list stood before o was put in at i. */
  function Before(i: nat, j: nat): int {
    if j <= i then j else j - 1
  }

  lemma RestAt(side: Side, list: seq<Order>, o: Order) returns (i: nat)
    requires Sorted(side, list)
    ensures var r := Rest(side, list, o); i <= |list| && |r| == |list| + 1 && r[i] == o
    ensures var r := Rest(side, list, o); forall j :: 0 <= j < |r| && j != i ==> r[j] == list[Before(i, j)]
    ensures forall j :: 0 <= j < i ==> !Better(side, o.price, list[j].price)
    ensures forall j :: i <= j < |list| ==> Better(side, o.price, list[j].price)
  {
    hide Better, Rest;
    i := RestShape(side, list, o);
  }

  lemma RestKeepsSorted(side: Side, list: seq<Order>, o: Order)
    requires side != UnknownSide && Sorted(side, list)
    ensures Sorted(side, Rest(side, list, o))
  {
    var i := RestAt(side, list, o);
    var r := Rest(side, list, o);
    hide Rest;
    forall j, k | 0 <= j < k < |r| ensures !Better(side, r[k].price, r[j].price) {
      if j != i && k != i { assert !Better(side, list[Before(i, k)].price, list[Before(i, j)].price); }
    }
  }

  lemma RestKeepsUnique(side: Side, list: seq<Order>, o: Order)
    requires Sorted(side, list) && UniqueIds(list)
    requires forall i :: 0 <= i < |list| ==> list[i].id != o.id
    ensures UniqueIds(Rest(side, list, o))
  {
    hide Rest, Better, Sorted;
    var i := RestAt(side, list, o);
    var r := Rest(side, list, o);
    forall j, k | 0 <= j < k < |r| ensures r[j].id != r[k].id {
      if j != i && k != i { assert list[Before(i, j)].id != list[Before(i, k)].id; }
    }
  }

  /** A resting order joins its side in sorted position, keeping ids unique. */
  lemma RestKeepsSide(side: Side, list: seq<Order>, o: Order)
    requires side != UnknownSide
    requires Sorted(side, list) && Resting(side, list) && UniqueIds(list)
    requires o.side == side && o.kind == Limit && o.quantity > 0
    requires forall i :: 0 <= i < |list| ==> list[i].id != o.id
    ensures var r := Rest(side, list, o); Sorted(side, r) && Resting(side, r) && UniqueIds(r)
  {
    RestKeepsSorted(side, list, o);
    RestKeepsUnique(side, list, o);
    RestMembers(side, list, o);
    var r := Rest(side, list, o);
    forall i | 0 <= i < |r| ensures r[i].side == side && r[i].kind == Limit && r[i].quantity > 0 {
      assert r[i] in r;
    }
  }

  /** r is a tail of list, up to quantities, which stay positive. */
  predicate Survives(list: seq<Order>, r: seq<Order>) {
    && |r| <= |list|
    && (forall i :: 0 <= i < |r| ==>
          r[i] == list[|list| - |r| + i].(quantity := r[i].quantity) && r[i].quantity > 0)
  }

  lemma MakersSurvive(taker: Order, side: Side, makers: seq<Order>, tradeId: SeqID)
    requires Resting(side, makers)
    ensures Survives(makers, Match(taker, makers, tradeId).makers)
  {
    SurvivorsAreASuffix(taker, makers, tradeId);
    hide Match;
  }

  lemma SurvivorsStaySorted(side: Side, list: seq<Order>, r: seq<Order>)
    requires Sorted(side, list) && Survives(list, r)
    ensures Sorted(side, r)
  {
    var k := |list| - |r|;
    forall i, j | 0 <= i < j < |r| ensures !Better(side, r[j].price, r[i].price) {
      assert !Better(side, list[k + j].price, list[k + i].price);
    }
  }

  lemma SurvivorsStayUnique(list: seq<Order>, r: seq<Order>)
    requires UniqueIds(list) && Survives(list, r)
    ensures UniqueIds(r)
  {
    var k := |list| - |r|;
    forall i, j | 0 <= i < j < |r| ensures r[i].id != r[j].id {
      assert list[k + i].id != list[k + j].id;
    }
  }

  lemma SurvivorsStayResting(side: Side, list: seq<Order>, r: seq<Order>)
    requires Resting(side, list) && Survives(list, r)
    ensures Resting(side, r)
  {
  }

  lemma SurvivorsStayApart(bids: seq<Order>, asks: seq<Order>, bids': seq<Order>, asks': seq<Order>)
    requires DisjointIds(bids, asks) && Uncrossed(bids, asks) && Survives(bids, bids') && Survives(asks, asks')
    ensures DisjointIds(bids', asks') && Uncrossed(bids', asks')
  {
    var k, l := |bids| - |bids'|, |asks| - |asks'|;
    forall i, j | 0 <= i < |bids'| && 0 <= j < |asks'|
      ensures bids'[i].id != asks'[j].id && bids'[i].price < asks'[j].price
    {
      assert bids[k + i].id != asks[l + j].id && bids[k + i].price < asks[l + j].price;
    }
  }

  lemma AllSurvive(side: Side, list: seq<Order>)
    requires Resting(side, list)
    ensures Survives(list, list)
  {
  }

  /** What survives matching is still a well-formed side. */
  lemma MatchKeepsSide(taker: Order, makers: seq<Order>, tradeId: SeqID)
    requires taker.side != UnknownSide
    requires var side := Opposite(taker.side); Sorted(side, makers) && Resting(side, makers) && UniqueIds(makers)
    ensures var side := Opposite(taker.side); var r := Match(taker, makers, tradeId).makers;
      && Sorted(side, r) && Resting(side, r) && UniqueIds(r)
      && |r| <= |makers|
      && (forall i :: 0 <= i < |r| ==>
            var m := makers[|makers| - |r| + i]; r[i].id == m.id && r[i].price == m.price)
  {
    hide Match, Sorted, Resting, UniqueIds;
    var side, r := Opposite(taker.side), Match(taker, makers, tradeId).makers;
    MakersSurvive(taker, side, makers, tradeId);
    SurvivorsStaySorted(side, makers, r);
    SurvivorsStayResting(side, makers, r);
    SurvivorsStayUnique(makers, r);
  }

  /** Matching alone keeps the book well formed. */
  lemma MatchKeepsWellFormed(s: BookState, o: Order)
    requires WellFormed(s) && Known(o)
    ensures WellFormed(AfterMatch(s, o, Match(o, Makers(s, o.side), s.tradeId)))
  {
    hide Match, Sorted, Resting, UniqueIds, DisjointIds, Uncrossed;
    var s' := AfterMatch(s, o, Match(o, Makers(s, o.side), s.tradeId));
    MatchKeepsSide(o, Makers(s, o.side), s.tradeId);
    MakersSurvive(o, Opposite(o.side), Makers(s, o.side), s.tradeId);
    AllSurvive(Buy, s.bids);
    AllSurvive(Sell, s.asks);
    SurvivorsStayApart(s.bids, s.asks, s'.bids, s'.asks);
  }

  /** Every submit of an order whose id is not resting keeps the book well formed and uncrossed. */
  lemma SubmitKeepsWellFormed(s: BookState, o: Order)
    requires WellFormed(s) && o.id !in RestingIds(s)
    ensures WellFormed(Submit(s, o).0)
  {
    if Known(o) {
      var m := Match(o, Makers(s, o.side), s.tradeId);
      var after := AfterMatch(s, o, m);
      MatchKeepsWellFormed(s, o);
      if o.kind == Limit && m.left > 0 {
        MatchingStopsOnlyWhenItMust(o, Makers(s, o.side), s.tradeId);
        if m.makers != [] { WorsePricesStayUnacceptable(o, m.makers); }
        FreshAfterMatch(s, o);
        PlacedBookIsWellFormed(after, o.(quantity := m.left));
      }
    }
  }

  lemma UnknownIsRefused(s: BookState, o: Order)
    ensures !Known(o) ==> Submit(s, o) == (s, None)
  {
  }

  /** Recording the order's id before matching changes neither the match nor its effect. */
  lemma RaisingMaxIdFirst(s: BookState, o: Order)
    requires WellFormed(s) && Known(o)
    ensures var s' := s.(maxOrderId := Max(s.maxOrderId, o.id));
      && WellFormed(s') && RestingIds(s') == RestingIds(s)
      && Submit(s', o) == Submit(s, o)
  {
    hide Match;
  }

  lemma FreshAfterMatch(s: BookState, o: Order)
    requires WellFormed(s) && Known(o) && o.id !in RestingIds(s)
    ensures var after := AfterMatch(s, o, Match(o, Makers(s, o.side), s.tradeId));
      && (forall i :: 0 <= i < |after.bids| ==> after.bids[i].id != o.id)
      && (forall i :: 0 <= i < |after.asks| ==> after.asks[i].id != o.id)
  {
    FreshOnSide(s.bids, o.id);
    FreshOnSide(s.asks, o.id);
    MatchKeepsSide(o, Makers(s, o.side), s.tradeId);
  }

  lemma FreshOnSide(list: seq<Order>, id: SeqID)
    ensures id !in Ids(list) <==> forall i :: 0 <= i < |list| ==> list[i].id != id
  {
    if id !in Ids(list) {
      forall i | 0 <= i < |list| ensures list[i].id != id { assert list[i] in list; }
    }
  }

  lemma PlacedBookIsWellFormed(s: BookState, o: Order)
    requires WellFormed(s)
    requires o.side != UnknownSide && o.kind == Limit && o.quantity > 0 && o.id <= s.maxOrderId
    requires forall i :: 0 <= i < |s.bids| ==> s.bids[i].id != o.id
    requires forall i :: 0 <= i < |s.asks| ==> s.asks[i].id != o.id
    requires o.side == Buy ==> forall i :: 0 <= i < |s.asks| ==> o.price < s.asks[i].price
    requires o.side == Sell ==> forall i :: 0 <= i < |s.bids| ==> s.bids[i].price < o.price
    ensures WellFormed(Place(s, o))
  {
    var list := if o.side == Buy then s.bids else s.asks;
    RestKeepsSide(o.side, list, o);
    RestMembers(o.side, list, o);
    var r := Rest(o.side, list, o);
    forall i | 0 <= i < |r| ensures r[i] == o || r[i] in list { assert r[i] in r; }
  }

  lemma {:induction false} WithoutShape(list: seq<Order>, id: SeqID) returns (i: nat)
    ensures i <= |list|
    ensures forall j :: 0 <= j < i ==> list[j].id != id
    ensures i < |list| ==> list[i].id == id && Without(list, id) == list[..i] + list[i + 1..]
    ensures i == |list| ==> Without(list, id) == list
  {
    if list == [] || list[0].id == id {
      i := 0;
    } else {
      var k := WithoutShape(list[1..], id);
      i := k + 1;
      assert list[..i] == [list[0]] + list[1..][..k];
      forall j | 0 <= j < i ensures list[j].id != id {
        if j > 0 { assert list[j] == list[1..][j - 1]; }
      }
      if i < |list| { assert list[i + 1..] == list[1..][k + 1..]; }
    }
  }

  /** r is list without its element at i. */
  predicate Dropped(list: seq<Order>, i: nat, r: seq<Order>) {
    && i < |list| == |r| + 1
    && (forall j :: 0 <= j < i ==> r[j] == list[j])
    && (forall j :: i <= j < |r| ==> r[j] == list[j + 1])
  }

  lemma DroppedKeepsSorted(side: Side, list: seq<Order>, i: nat, r: seq<Order>)
    requires Sorted(side, list) && Dropped(list, i, r)
    ensures Sorted(side, r)
  {
    forall j, k | 0 <= j < k < |r| ensures !Better(side, r[k].price, r[j].price) {
      assert r[j] == list[if j < i then j else j + 1] && r[k] == list[if k < i then k else k + 1];
    }
  }

  lemma DroppedKeepsUnique(list: seq<Order>, i: nat, r: seq<Order>)
    requires UniqueIds(list) && Dropped(list, i, r)
    ensures UniqueIds(r)
  {
    forall j, k | 0 <= j < k < |r| ensures r[j].id != r[k].id {
      assert r[j] == list[if j < i then j else j + 1] && r[k] == list[if k < i then k else k + 1];
    }
  }

  lemma DroppedKeepsResting(side: Side, list: seq<Order>, i: nat, r: seq<Order>)
    requires Resting(side, list) && Dropped(list, i, r)
    ensures Resting(side, r)
  {
    forall j | 0 <= j < |r| ensures r[j].side == side && r[j].kind == Limit && r[j].quantity > 0 {
      assert r[j] == list[if j < i then j else j + 1];
    }
  }

  /** Removing an id leaves a well-formed side. */
  lemma WithoutKeepsSide(side: Side, list: seq<Order>, id: SeqID)
    requires side != UnknownSide && Sorted(side, list) && Resting(side, list) && UniqueIds(list)
    ensures var r := Without(list, id); Sorted(side, r) && Resting(side, r) && UniqueIds(r)
  {
    hide Sorted, Resting, UniqueIds;
    var i := WithoutShape(list, id);
    var r := Without(list, id);
    if i < |list| {
      assert Dropped(list, i, r);
      DroppedKeepsSorted(side, list, i, r);
      DroppedKeepsResting(side, list, i, r);
      DroppedKeepsUnique(list, i, r);
    }
  }

  /** Removing an id keeps exactly the other orders. */
  lemma WithoutMembers(list: seq<Order>, id: SeqID)
    requires UniqueIds(list)
    ensures forall o :: o in Without(list, id) <==> o in list && o.id != id
  {
    var i := WithoutShape(list, id);
    if i < |list| {
      assert list == list[..i] + [list[i]] + list[i + 1..];
      assert forall j :: i + 1 <= j < |list| ==> list[j].id != id;
    }
  }

  /** A cancel removes exactly the named order, keeps the book well formed, and does nothing when refused. */
  lemma CancelKeepsWellFormed(s: BookState, id: SeqID, who: Account)
    requires WellFormed(s)
    ensures var (s', err) := Cancel(s, id, who);
      && WellFormed(s')
      && (err.Some? ==> s' == s)
      && (err.None? ==>
            && id in RestingIds(s)
            && (forall o :: o in s'.bids <==> o in s.bids && o.id != id)
            && (forall o :: o in s'.asks <==> o in s.asks && o.id != id))
  {
    var (s', err) := Cancel(s, id, who);
    if err.None? {
      WithoutKeepsSide(Buy, s.bids, id);
      WithoutKeepsSide(Sell, s.asks, id);
      WithoutMembers(s.bids, id);
      WithoutMembers(s.asks, id);
      SubsetKeepsPairs(s, s');
    }
  }

  lemma SubsetKeepsPairs(s: BookState, s': BookState)
    requires WellFormed(s)
    requires forall o :: o in s'.bids ==> o in s.bids
    requires forall o :: o in s'.asks ==> o in s.asks
    requires s'.maxOrderId == s.maxOrderId
    ensures DisjointIds(s'.bids, s'.asks) && Uncrossed(s'.bids, s'.asks)
    ensures forall i :: 0 <= i < |s'.bids| ==> s'.bids[i].id <= s'.maxOrderId
    ensures forall i :: 0 <= i < |s'.asks| ==> s'.asks[i].id <= s'.maxOrderId
  {
    assert forall i :: 0 <= i < |s'.bids| ==> s'.bids[i] in s.bids;
    assert forall i :: 0 <= i < |s'.asks| ==> s'.asks[i] in s.asks;
  }

  /** A cancel succeeds exactly when the id rests and the caller may cancel it. */
  lemma CancelSucceedsIff(s: BookState, id: SeqID, who: Account)
    requires WellFormed(s)
    ensures Cancel(s, id, who).1.None?
      <==> exists o :: (o in s.bids || o in s.asks) && o.id == id && (who == "" || o.placer == who)
  {
    forall o | (o in s.bids || o in s.asks) && o.id == id
      ensures FindResting(s, id) == Some(o)
    {
      assert id in RestingIds(s);
      SameIdSameOrder(s, o, FindResting(s, id).value);
    }
  }

  /** Refused as not found exactly when nothing rests under the id, as not the owner's when another's order does. */
  lemma CancelRefusesIff(s: BookState, id: SeqID, who: Account)
    requires WellFormed(s)
    ensures Cancel(s, id, who).1 == Some(OrderNotFound) <==> id !in RestingIds(s)
    ensures Cancel(s, id, who).1 == Some(NotOrderOwner)
      <==> exists o :: (o in s.bids || o in s.asks) && o.id == id && who != "" && o.placer != who
  {
    forall o | (o in s.bids || o in s.asks) && o.id == id
      ensures id in RestingIds(s) && FindResting(s, id) == Some(o)
    {
      assert id in RestingIds(s);
      SameIdSameOrder(s, o, FindResting(s, id).value);
    }
  }

  lemma SameIdSameOrder(s: BookState, o: Order, o': Order)
    requires WellFormed(s)
    requires (o in s.bids || o in s.asks) && (o' in s.bids || o' in s.asks) && o.id == o'.id
    ensures o == o'
  {
  }
}
