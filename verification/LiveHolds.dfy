/**
 * The holds of a symbol are exactly its live orders, at every point inside a
 * batch: every resting order at its remaining quantity and every accepted order not
 * yet processed in full. This module proves what reserving, processing, cancelling
 * and releasing each do to that, and that other symbols' holds are left alone by all.
 */
module LiveHolds {
  import opened Types
  import opened Matching
  import opened AccountState
  import opened Holds
  import opened Settling

  predicate OfSymbol(symbol: Symbol, list: seq<Order>) {
    forall o :: o in list ==> o.symbol == symbol
  }

  predicate AllHeld(holds: HoldMap, list: seq<Order>) {
    forall o :: o in list ==> HeldBy(holds, o)
  }

  /** Every hold filed under the symbol belongs to one of these orders. */
  ghost predicate NoStrayHold(holds: HoldMap, symbol: Symbol, ids: set<SeqID>) {
    forall k: HoldKey :: k in holds && k.symbol == symbol ==> k.orderId in ids
  }

  /** A well-formed book whose resting orders are all of this symbol and all held. */
  ghost predicate BookHeld(holds: HoldMap, symbol: Symbol, book: BookState) {
    && WellFormed(book)
    && OfSymbol(symbol, book.bids) && OfSymbol(symbol, book.asks)
    && AllHeld(holds, book.bids) && AllHeld(holds, book.asks)
  }

  /** Accepted submits not yet processed, each held in full under an id of its own. */
  ghost predicate PendingHeld(holds: HoldMap, symbol: Symbol, pending: seq<Order>) {
    && OfSymbol(symbol, pending) && AllHeld(holds, pending)
    && (forall o :: o in pending ==> o.quantity > 0)
    && UniqueIds(pending)
  }

  /**
   * The holds filed under a symbol are exactly its live orders: every resting order
   * at its remaining quantity, and every accepted submit not yet processed in full.
   */
  ghost predicate Exact(holds: HoldMap, symbol: Symbol, book: BookState, pending: seq<Order>) {
    && BookHeld(holds, symbol, book)
    && PendingHeld(holds, symbol, pending)
    && RestingIds(book) !! Ids(pending)
    && NoStrayHold(holds, symbol, RestingIds(book) + Ids(pending))
  }

  /** Only this symbol's holds may differ. */
  ghost predicate OthersUntouched(a: HoldMap, b: HoldMap, symbol: Symbol) {
    forall k: HoldKey :: k.symbol != symbol ==> Untouched(a, b, k)
  }

  /** Another symbol's holds staying put keeps them exact. */
  lemma OtherSymbolsStayExact(a: HoldMap, b: HoldMap, symbol: Symbol, other: Symbol, book: BookState,
                              pending: seq<Order>)
    requires OthersUntouched(a, b, symbol) && other != symbol && Exact(a, other, book, pending)
    ensures Exact(b, other, book, pending)
  {
    hide WellFormed, HoldFor;
    forall o | o in book.bids || o in book.asks || o in pending ensures HeldBy(b, o) {
      assert HeldBy(a, o) && Untouched(a, b, Key(o));
    }
    forall k: HoldKey | k in b && k.symbol == other ensures k.orderId in RestingIds(book) + Ids(pending) {
      assert Untouched(a, b, k);
    }
  }

  lemma IdsOf(list: seq<Order>, o: Order)
    requires o in list
    ensures o.id in Ids(list)
  {
  }

  lemma IdsSplit(o: Order, rest: seq<Order>)
    ensures Ids([o] + rest) == {o.id} + Ids(rest)
    ensures Ids(rest + [o]) == {o.id} + Ids(rest)
  {
    assert forall x :: x in [o] + rest <==> x == o || x in rest;
    assert forall x :: x in rest + [o] <==> x == o || x in rest;
  }

  lemma SidesOf(s: BookState, side: Side)
    requires WellFormed(s) && side != UnknownSide
    ensures Ids(Makers(s, side)) !! Ids(Makers(s, Opposite(side)))
    ensures RestingIds(s) == Ids(Makers(s, side)) + Ids(Makers(s, Opposite(side)))
  {
  }

  // --- Reserving -------------------------------------------------------------------------

  /** An accepted order joins the pending ones; its id can be neither resting nor pending already. */
  lemma ReserveStaysExact(st: State, symbol: Symbol, book: BookState, pending: seq<Order>, o: Order)
    requires Sound(st) && Exact(st.holds, symbol, book, pending) && o.symbol == symbol
    ensures var (st', err) := Reserve(st, o);
      && Exact(st'.holds, symbol, book, if err.None? then pending + [o] else pending)
      && OthersUntouched(st.holds, st'.holds, symbol)
      && (err.None? ==> o.id !in RestingIds(book) && o.id !in Ids(pending))
  {
    hide Reserve, Sound, WellFormed, HoldFor;
    var (st', err) := Reserve(st, o);
    ReserveEffect(st, o);
    if err.None? {
      NewIdIsFree(st.holds, symbol, book, pending, o.id);
      IdsSplit(o, pending);
      forall x | x in book.bids || x in book.asks || x in pending ensures HeldBy(st'.holds, x) {
        assert HeldBy(st.holds, x);
      }
      FreshOnSide(pending, o.id);
    }
  }

  lemma NewIdIsFree(holds: HoldMap, symbol: Symbol, book: BookState, pending: seq<Order>, id: SeqID)
    requires Exact(holds, symbol, book, pending) && HoldKey(symbol, id) !in holds
    ensures id !in RestingIds(book) && id !in Ids(pending)
  {
  }

  // --- Processing one submit -----------------------------------------------------------------

  lemma ExactHead(holds: HoldMap, symbol: Symbol, book: BookState, o: Order, rest: seq<Order>)
    requires Exact(holds, symbol, book, [o] + rest)
    ensures o.symbol == symbol && o.quantity > 0 && HeldBy(holds, o)
    ensures o.id !in RestingIds(book) && o.id !in Ids(rest)
    ensures PendingHeld(holds, symbol, rest) && RestingIds(book) !! Ids(rest)
    ensures NoStrayHold(holds, symbol, RestingIds(book) + {o.id} + Ids(rest))
  {
    hide WellFormed, HoldFor, HeldBy;
    var pending := [o] + rest;
    IdsSplit(o, rest);
    assert o in pending && forall x :: x in rest ==> x in pending;
    forall i, j | 0 <= i < j < |rest| ensures rest[i].id != rest[j].id {
      assert pending[i + 1] == rest[i] && pending[j + 1] == rest[j];
    }
    forall x | x in rest ensures x.id != o.id {
      var j :| 0 <= j < |rest| && rest[j] == x;
      assert pending[0] == o && pending[j + 1] == x;
    }
  }

  lemma ExactPlaces(holds: HoldMap, symbol: Symbol, book: BookState, o: Order, rest: seq<Order>)
    requires Exact(holds, symbol, book, [o] + rest) && Known(o)
    ensures Placed(holds, symbol, o, Makers(book, o.side))
  {
    ExactHead(holds, symbol, book, o, rest);
    forall m | m in Makers(book, o.side)
      ensures m.symbol == symbol && m.quantity > 0 && m.kind == Limit && m.id != o.id && HeldBy(holds, m)
    {
      assert m.id in RestingIds(book);
    }
  }

  /** What completing an outcome leaves of the holds. */
  function HoldsAfterOutcome(holds: HoldMap, symbol: Symbol, id: SeqID, outcome: Outcome): HoldMap {
    HoldsAfterTrades(holds, symbol, outcome.trades)
      - (set d | d in outcome.selfPrevented :: HoldKey(symbol, d))
      - (if outcome.resting <= 0 then {HoldKey(symbol, id)} else {})
  }

  /**
   * Completing a match moves each trade's value once, and releases the dropped orders
   * and, unless it rests, the taker.
   */
  lemma CompleteEffect(st: State, symbol: Symbol, id: SeqID, outcome: Outcome)
    requires Sound(st) && TradesOk(outcome.trades)
    ensures var st' := Complete(st, symbol, id, outcome);
      && Sound(st')
      && (forall x :: Owned(st', x) == Owned(st, x) + Movements(outcome.trades, x))
      && st'.holds == HoldsAfterOutcome(st.holds, symbol, id, outcome)
  {
    hide Sound, Owned, Release, Movements, HoldsAfterTrades;
    TradesEffect(st, symbol, outcome.trades);
    var traded := ApplyTrades(st, symbol, outcome.trades);
    ReleaseAllEffect(traded, symbol, outcome.selfPrevented);
    ReleaseEffect(ReleaseAll(traded, symbol, outcome.selfPrevented), HoldKey(symbol, id));
  }

  lemma {:induction false} DroppedAreGone(taker: Order, makers: seq<Order>, tradeId: SeqID)
    requires UniqueIds(makers)
    ensures var r := Match(taker, makers, tradeId);
      && (forall id :: id in r.selfPrevented ==> id in Ids(makers) && id !in Ids(r.makers))
      && Ids(r.makers) <= Ids(makers)
    decreases |makers|
  {
    if taker.quantity <= 0 || makers == [] || !Acceptable(taker, makers[0].price) {
    } else {
      UniqueTail(makers, 0);
      assert makers == [makers[0]] + makers[1..];
      assert Ids(makers) == {makers[0].id} + Ids(makers[1..]);
      assert makers[0].id !in Ids(makers[1..]);
      var fill := Min(taker.quantity, makers[0].quantity);
      if SelfMatch(taker, makers[0]) {
        DroppedAreGone(taker, makers[1..], tradeId);
      } else if fill < makers[0].quantity {
        var left := [makers[0].(quantity := makers[0].quantity - fill)];
        assert forall x :: x in left + makers[1..] <==> x == left[0] || x in makers[1..];
      } else {
        DroppedAreGone(taker.(quantity := taker.quantity - fill), makers[1..], tradeId + 1);
      }
    }
  }

  /** Where every order of the book stands after a submit. */
  lemma SubmittedLists(s: BookState, o: Order)
    requires WellFormed(s) && Known(o)
    ensures var (s', res) := Submit(s, o); var m := Match(o, Makers(s, o.side), s.tradeId);
      && res == Some(Outcome(m.trades, m.selfPrevented, res.value.resting))
      && res.value.resting == (if o.kind == Limit && m.left > 0 then m.left else 0)
      && Makers(s', o.side) == m.makers
      && (forall x :: x in Makers(s', Opposite(o.side)) <==>
            x in Makers(s, Opposite(o.side)) || (res.value.resting > 0 && x == o.(quantity := m.left)))
  {
    hide Match;
    var m := Match(o, Makers(s, o.side), s.tradeId);
    RestMembers(o.side, Makers(s, Opposite(o.side)), o.(quantity := m.left));
  }

  /** A submit is taken exactly when its side and type are known; otherwise nothing happens. */
  lemma SubmitTakesIff(s: BookState, o: Order)
    ensures Submit(s, o).1.Some? <==> o.side != UnknownSide && o.kind != UnknownType
    ensures Submit(s, o).1.None? ==> Submit(s, o).0 == s
  {
  }

  /**
   * Whatever is taken, LIMIT or MARKET, buy or sell, trades the smaller of its quantity and what it
   * may trade against, and a LIMIT order rests with exactly the rest; the other orders of its side
   * stay, and trade and order counters move past what was used.
   */
  lemma SubmitIsExact(s: BookState, o: Order)
    requires WellFormed(s) && o.side != UnknownSide && o.kind != UnknownType
    ensures var (s', res) := Submit(s, o); var makers := if o.side == Buy then s.asks else s.bids;
      var own, own' := if o.side == Buy then s.bids else s.asks, if o.side == Buy then s'.bids else s'.asks;
      && res.Some?
      && var volume := Volume(res.value.trades);
      && volume == (if o.quantity <= 0 then 0 else Min(o.quantity, Available(o, makers)))
      && res.value.resting == (if o.kind == Limit && o.quantity > volume then o.quantity - volume else 0)
      && (forall x :: x in own' <==>
            x in own || (res.value.resting > 0 && x == o.(quantity := res.value.resting)))
      && s'.tradeId == s.tradeId + |res.value.trades|
      && s'.maxOrderId == (if o.id > s.maxOrderId then o.id else s.maxOrderId)
  {
    hide Match, Place, Available, Volume, WellFormed;
    var makers := Makers(s, o.side);
    SubmittedLists(s, o);
    MakersAreSorted(s, o.side);
    NothingMatched(o, makers, s.tradeId);
    if o.quantity > 0 {
      VolumeIsExact(o, makers, s.tradeId);
      MatchingStopsOnlyWhenItMust(o, makers, s.tradeId);
    }
    var (s', res) := Submit(s, o);
    var m := Match(o, makers, s.tradeId);
    PlaceKeepsCounters(AfterMatch(s, o, m), o.(quantity := m.left));
    var own, own' := if o.side == Buy then s.bids else s.asks, if o.side == Buy then s'.bids else s'.asks;
    assert own == Makers(s, Opposite(o.side)) && own' == Makers(s', Opposite(o.side));
    forall x ensures x in own' <==>
      x in own || (res.value.resting > 0 && x == o.(quantity := res.value.resting))
    {
      assert x in Makers(s', Opposite(o.side)) <==>
        x in Makers(s, Opposite(o.side)) || (res.value.resting > 0 && x == o.(quantity := m.left));
    }
  }

  lemma MakersAreSorted(s: BookState, side: Side)
    requires WellFormed(s) && side != UnknownSide
    ensures var makers := Makers(s, side);
      Sorted(Opposite(side), makers) && forall j :: 0 <= j < |makers| ==> makers[j].quantity > 0
  {
  }

  lemma PlaceKeepsCounters(s: BookState, o: Order)
    ensures Place(s, o).tradeId == s.tradeId && Place(s, o).maxOrderId == s.maxOrderId
  {
    hide Rest;
  }

  lemma NothingMatched(o: Order, makers: seq<Order>, tradeId: SeqID)
    ensures o.quantity <= 0 ==> Match(o, makers, tradeId) == Matched([], [], o.quantity, makers) && Volume([]) == 0
  {
  }

  /** Survivors keep their holds: dropping the own orders and the taker removes none of theirs. */
  lemma SurvivorsStayHeld(before: HoldMap, traded: HoldMap, after: HoldMap, symbol: Symbol, o: Order,
                          makers: seq<Order>, m: Matched)
    requires SettledMatch(before, traded, symbol, o, makers, m)
    requires OfSymbol(symbol, makers) && o.id !in Ids(makers)
    requires Ids(m.makers) <= Ids(makers) && forall id :: id in m.selfPrevented ==> id !in Ids(m.makers)
    requires forall k :: k in traded && k !in after ==>
      k == HoldKey(symbol, o.id) || k.orderId in m.selfPrevented
    requires forall k :: k in after ==> k in traded && after[k] == traded[k]
    ensures AllHeld(after, m.makers)
  {
    hide HoldFor;
    forall x | x in m.makers ensures HeldBy(after, x) { IdsOf(m.makers, x); }
  }

  /** Orders outside the match keep their holds. */
  lemma BystandersStayHeld(before: HoldMap, traded: HoldMap, after: HoldMap, symbol: Symbol, o: Order,
                           makers: seq<Order>, m: Matched, list: seq<Order>)
    requires SettledMatch(before, traded, symbol, o, makers, m)
    requires AllHeld(before, list) && OfSymbol(symbol, list)
    requires Ids(list) !! Ids(makers) && o.id !in Ids(list)
    requires forall id :: id in m.selfPrevented ==> id in Ids(makers)
    requires forall k :: k in traded && k !in after ==>
      k == HoldKey(symbol, o.id) || k.orderId in m.selfPrevented
    requires forall k :: k in after ==> k in traded && after[k] == traded[k]
    ensures AllHeld(after, list)
  {
    hide HoldFor;
    forall x | x in list ensures HeldBy(after, x) {
      IdsOf(list, x);
      assert HeldBy(before, x) && Untouched(before, traded, Key(x));
    }
  }

  /** A hold that is left names a surviving maker, the taker, or an order outside the match. */
  lemma RemainingHoldIsKnown(before: HoldMap, traded: HoldMap, after: HoldMap, symbol: Symbol, o: Order,
                             makers: seq<Order>, m: Matched, k: HoldKey)
    requires SettledMatch(before, traded, symbol, o, makers, m)
    requires OfSymbol(symbol, makers) && o.symbol == symbol
    requires k in after && k.symbol == symbol
    requires k in traded && k.orderId !in m.selfPrevented
    ensures k.orderId in Ids(m.makers) || (k == Key(o) && m.left > 0) || (k in before && k.orderId !in Ids(makers))
  {
    hide HoldFor;
    if k.orderId in Ids(makers) {
      var x :| x in makers && x.id == k.orderId;
      assert Key(x) == k;
    } else if k.orderId != o.id {
      assert Untouched(before, traded, k);
    }
  }

  /** A remainder that rests keeps its hold at what is left of it. */
  lemma TakerStaysHeld(before: HoldMap, traded: HoldMap, after: HoldMap, symbol: Symbol, o: Order,
                       makers: seq<Order>, m: Matched, resting: int)
    requires SettledMatch(before, traded, symbol, o, makers, m) && o.symbol == symbol
    requires o.id !in Ids(makers) && forall id :: id in m.selfPrevented ==> id in Ids(makers)
    requires forall k :: k in traded && k !in after ==>
      (k == HoldKey(symbol, o.id) && resting <= 0) || k.orderId in m.selfPrevented
    requires forall k :: k in after ==> k in traded && after[k] == traded[k]
    requires resting > 0 ==> m.left > 0
    ensures resting > 0 ==> HeldBy(after, o.(quantity := m.left))
  {
    hide HoldFor;
  }

  lemma OthersKept(before: HoldMap, traded: HoldMap, after: HoldMap, symbol: Symbol, o: Order,
                   makers: seq<Order>, m: Matched)
    requires SettledMatch(before, traded, symbol, o, makers, m)
    requires forall k :: k in traded && k !in after ==> k.symbol == symbol
    requires forall k :: k in after ==> k in traded && after[k] == traded[k]
    ensures OthersUntouched(before, after, symbol)
  {
    forall k: HoldKey | k.symbol != symbol ensures Untouched(before, after, k) {
      assert Untouched(before, traded, k);
    }
  }

  lemma SurvivorsOfSymbol(symbol: Symbol, makers: seq<Order>, o: Order, tradeId: SeqID)
    requires OfSymbol(symbol, makers)
    ensures OfSymbol(symbol, Match(o, makers, tradeId).makers)
  {
    SurvivorsAreASuffix(o, makers, tradeId);
    var r := Match(o, makers, tradeId);
    hide Match;
    var k := |makers| - |r.makers|;
    if r.makers != makers[k..] {
      assert PartlyFilledHead(makers, k, r);
      assert makers[k] in makers;
    }
  }

  lemma BothSides(s: BookState, side: Side)
    ensures RestingIds(s) == Ids(Makers(s, side)) + Ids(Makers(s, Opposite(side)))
    ensures side == Buy ==> s.bids == Makers(s, Sell) && s.asks == Makers(s, Buy)
    ensures {s.bids, s.asks} == {Makers(s, side), Makers(s, Opposite(side))}
  {
  }

  lemma IdsAfterRest(own: seq<Order>, own': seq<Order>, o: Order, left: int, resting: int)
    requires forall x :: x in own' <==> x in own || (resting > 0 && x == o.(quantity := left))
    ensures Ids(own') == Ids(own) + (if resting > 0 then {o.id} else {})
  {
    if resting > 0 { assert o.(quantity := left) in own'; }
  }

  /** One processed submit, as the account store sees it. */
  function Processed(st: State, symbol: Symbol, o: Order, res: Option<Outcome>): State {
    if res.None? then Release(st, HoldKey(symbol, o.id)) else Complete(st, symbol, o.id, res.value)
  }

  /** Everything a submit leaves in the book is held; nothing else of the symbol is. */
  lemma SubmitMovesHolds(holds: HoldMap, symbol: Symbol, book: BookState, o: Order, rest: seq<Order>)
    requires Exact(holds, symbol, book, [o] + rest) && Known(o)
    ensures var (book', res) := Submit(book, o);
      && res.Some?
      && var after := HoldsAfterOutcome(holds, symbol, o.id, res.value);
      && AllHeld(after, book'.bids) && AllHeld(after, book'.asks) && AllHeld(after, rest)
      && OfSymbol(symbol, book'.bids) && OfSymbol(symbol, book'.asks)
      && RestingIds(book') <= RestingIds(book) + {o.id}
      && NoStrayHold(after, symbol, RestingIds(book') + Ids(rest))
      && OthersUntouched(holds, after, symbol)
  {
    hide Match, Submit, HoldsAfterTrades, HoldFor, WellFormed, SettledMatch, Acceptable, SelfMatch;
    var makers := Makers(book, o.side);
    var own := Makers(book, Opposite(o.side));
    var m := Match(o, makers, book.tradeId);
    var (book', res) := Submit(book, o);
    ExactHead(holds, symbol, book, o, rest);
    ExactPlaces(holds, symbol, book, o, rest);
    MatchSettlesHolds(holds, symbol, o, makers, book.tradeId);
    DroppedAreGone(o, makers, book.tradeId);
    SubmittedLists(book, o);
    SidesOf(book, o.side);
    var traded := HoldsAfterTrades(holds, symbol, m.trades);
    var after := HoldsAfterOutcome(holds, symbol, o.id, res.value);
    SurvivorsStayHeld(holds, traded, after, symbol, o, makers, m);
    BystandersStayHeld(holds, traded, after, symbol, o, makers, m, own);
    BystandersStayHeld(holds, traded, after, symbol, o, makers, m, rest);
    TakerStaysHeld(holds, traded, after, symbol, o, makers, m, res.value.resting);
    OthersKept(holds, traded, after, symbol, o, makers, m);
    SurvivorsOfSymbol(symbol, makers, o, book.tradeId);
    IdsAfterRest(own, Makers(book', Opposite(o.side)), o, m.left, res.value.resting);
    BothSides(book, o.side);
    BothSides(book', o.side);
    forall x | x in Makers(book', Opposite(o.side)) ensures HeldBy(after, x) && x.symbol == symbol {
      if x !in own { assert x == o.(quantity := m.left); }
    }
    forall k: HoldKey | k in after && k.symbol == symbol
      ensures k.orderId in RestingIds(book') + Ids(rest)
    {
      assert k == HoldKey(symbol, k.orderId);
      RemainingHoldIsKnown(holds, traded, after, symbol, o, makers, m, k);
    }
  }

  lemma SubmitStaysExactKnown(holds: HoldMap, symbol: Symbol, book: BookState, o: Order, rest: seq<Order>)
    requires Exact(holds, symbol, book, [o] + rest) && Known(o)
    ensures var (book', res) := Submit(book, o); res.Some?
    ensures var (book', res) := Submit(book, o);
      Exact(HoldsAfterOutcome(holds, symbol, o.id, res.value), symbol, book', rest)
  {
    hide Submit, HoldsAfterOutcome, HoldFor, WellFormed, RestingIds;
    ExactHead(holds, symbol, book, o, rest);
    SubmitMovesHolds(holds, symbol, book, o, rest);
    SubmitKeepsWellFormed(book, o);
  }

  lemma WithoutHeadStaysExact(holds: HoldMap, symbol: Symbol, book: BookState, o: Order, rest: seq<Order>)
    requires Exact(holds, symbol, book, [o] + rest)
    ensures Exact(holds - {Key(o)}, symbol, book, rest)
    ensures OthersUntouched(holds, holds - {Key(o)}, symbol)
  {
    hide HoldFor, WellFormed;
    ExactHead(holds, symbol, book, o, rest);
    var after := holds - {Key(o)};
    forall x | x in book.bids || x in book.asks ensures HeldBy(after, x) {
      assert x.id in RestingIds(book);
    }
    forall x | x in rest ensures HeldBy(after, x) { IdsOf(rest, x); }
  }

  /**
   * Processing the next pending submit, whatever its side and type: holds stay exactly
   * the live orders, balances move by the trades' movements and nothing else.
   */
  lemma SubmitStaysExact(st: State, symbol: Symbol, book: BookState, o: Order, rest: seq<Order>)
    requires Sound(st) && Exact(st.holds, symbol, book, [o] + rest)
    requires var (_, res) := Submit(book, o); res.Some? ==> TradesOk(res.value.trades)
    ensures var (book', res) := Submit(book, o); var st' := Processed(st, symbol, o, res);
      && Sound(st') && Exact(st'.holds, symbol, book', rest)
      && OthersUntouched(st.holds, st'.holds, symbol)
      && (forall x :: Owned(st', x) == Owned(st, x) + if res.Some? then Movements(res.value.trades, x) else 0)
  {
    hide HoldsAfterOutcome, HoldFor, WellFormed, Sound, Owned, Movements, Exact, Complete, Release;
    var (book', res) := Submit(book, o);
    if Known(o) {
      SubmitMovesHolds(st.holds, symbol, book, o, rest);
      SubmitStaysExactKnown(st.holds, symbol, book, o, rest);
      CompleteEffect(st, symbol, o.id, res.value);
    } else {
      UnknownIsRefused(book, o);
      HeadKey(st.holds, symbol, book, o, rest);
      WithoutHeadStaysExact(st.holds, symbol, book, o, rest);
      ReleaseEffect(st, Key(o));
    }
  }

  lemma HeadKey(holds: HoldMap, symbol: Symbol, book: BookState, o: Order, rest: seq<Order>)
    requires Exact(holds, symbol, book, [o] + rest)
    ensures Key(o) == HoldKey(symbol, o.id)
  {
    assert o in [o] + rest;
  }

  // --- Cancelling and releasing --------------------------------------------------------------

  /** A successful cancel releases exactly the cancelled order's hold; a refused one releases nothing. */
  lemma CancelStaysExact(st: State, symbol: Symbol, book: BookState, pending: seq<Order>, id: SeqID, who: Account)
    requires Sound(st) && Exact(st.holds, symbol, book, pending)
    ensures var (book', err) := Cancel(book, id, who);
      var st' := if err.None? then Release(st, HoldKey(symbol, id)) else st;
      && Sound(st') && Exact(st'.holds, symbol, book', pending)
      && OthersUntouched(st.holds, st'.holds, symbol)
      && (forall x :: Owned(st', x) == Owned(st, x))
  {
    hide HoldFor, Sound, Owned, Release, WellFormed, Cancel;
    var (book', err) := Cancel(book, id, who);
    CancelKeepsWellFormed(book, id, who);
    ReleaseEffect(st, HoldKey(symbol, id));
    if err.None? {
      var after := st.holds - {HoldKey(symbol, id)};
      forall x | x in book'.bids || x in book'.asks ensures HeldBy(after, x) { assert HeldBy(st.holds, x); }
      forall x | x in pending ensures HeldBy(after, x) { IdsOf(pending, x); }
      IdsWithout(book.bids, book'.bids, id);
      IdsWithout(book.asks, book'.asks, id);
    }
  }

  lemma IdsWithout(list: seq<Order>, list': seq<Order>, id: SeqID)
    requires forall o :: o in list' <==> o in list && o.id != id
    ensures Ids(list') == Ids(list) - {id}
  {
    forall d | d in Ids(list) - {id} ensures d in Ids(list') {
      var o :| o in list && o.id == d;
      assert o in list';
    }
  }

  /** Two states no reader of holds, balances or reservations can tell apart. */
  ghost predicate SameAccounts(a: State, b: State) {
    a.holds == b.holds && forall x :: Owned(a, x) == Owned(b, x) && Reserved(a, x) == Reserved(b, x)
  }

  /** What is reserved is a function of the holds alone, so equal holds and balances are equal accounts. */
  lemma HoldsDetermineReservations(a: State, b: State)
    requires Sound(a) && Sound(b) && a.holds == b.holds && forall x :: Owned(a, x) == Owned(b, x)
    ensures SameAccounts(a, b)
  {
  }

  // --- Recovered books ---------------------------------------------------------------------------

  /** A recovered book: well formed, of this symbol, its buys within the reservation guard. */
  ghost predicate Recovered(symbol: Symbol, book: BookState) {
    && WellFormed(book) && OfSymbol(symbol, book.bids) && OfSymbol(symbol, book.asks)
    && (forall o :: o in book.bids || o in book.asks ==> HoldOk(HoldFor(o)))
  }
}
