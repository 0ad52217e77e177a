/**
 * What the log carries besides being replayable: every logged submit passed its
 * reservation, so every order a replay leaves resting is one whose hold can be restored.
 */
module GoodLogs {
  import opened Types
  import opened Matching
  import opened AccountState
  import opened Guards
  import opened Holds
  import opened LiveHolds
  import opened LiveIds
  import opened Commit
  import opened GroupCommit

  /** An order of this symbol that a reservation accepted. */
  predicate Reservable(symbol: Symbol, o: Order) {
    o.symbol == symbol && HoldOk(HoldFor(o))
  }

  predicate AllReservable(symbol: Symbol, orders: seq<Order>) {
    forall o :: o in orders ==> Reservable(symbol, o)
  }

  predicate GoodLog(symbol: Symbol, rs: seq<Record>) {
    forall i :: 0 <= i < |rs| && rs[i].op.SubmitOrder? ==> Reservable(symbol, rs[i].op.order)
  }

  /** A log that can be replayed and whose submits all passed their reservation. */
  ghost predicate Sane(symbol: Symbol, rs: seq<Record>) {
    Replayable(EmptyBook, rs) && GoodLog(symbol, rs)
  }

  lemma SanePrefix(symbol: Symbol, a: seq<Record>, b: seq<Record>)
    requires a <= b && Sane(symbol, b)
    ensures Sane(symbol, a)
  {
    hide Replayable, Reservable, Replay;
    assert b == a + b[|a|..];
    ReplayJoin(EmptyBook, a, b[|a|..]);
  }

  // --- Batches log only accepted orders ----------------------------------------------------------

  /** What a reservation accepts can be reserved again from the log. */
  lemma AcceptedIsReservable(st: State, symbol: Symbol, w: Work)
    requires Sound(st) && Assigned(symbol, [w]) && w.preErr.None?
    ensures AllReservable(symbol, Accepted([ReserveWork(st, w).1]))
  {
    hide Sound, Reserve, HoldOk, HoldFor;
    assert [w][0] == w;
    var w' := ReserveWork(st, w).1;
    AcceptedHead(w', []);
    assert [w'] + [] == [w'];
    if w.request.SubmitRequest? { ReserveEffect(st, w.request.order); }
  }

  lemma {:induction false} RecordsAreAccepted(works: seq<Work>, seqNo: int, ts: int)
    ensures forall i :: 0 <= i < |Records(works, seqNo, ts)| && Records(works, seqNo, ts)[i].op.SubmitOrder? ==>
      Records(works, seqNo, ts)[i].op.order in Accepted(works)
  {
    if works != [] {
      var n := if IsLogged(works[0]) then seqNo + 1 else seqNo;
      RecordsAreAccepted(works[1..], n, ts);
      var rs := Records(works[1..], n, ts);
      assert forall i :: 0 <= i < |rs| && rs[i].op.SubmitOrder? ==> rs[i].op.order in Accepted(works[1..]);
    }
  }

  /** The records of a batch are all of accepted orders, and replayable behind the log so far. */
  lemma BatchIsSane(st: State, symbol: Symbol, log: seq<Record>, works: seq<Work>, seqNo: int, ts: int)
    requires Sane(symbol, log) && Assigned(symbol, works) && AllReservable(symbol, Accepted(works))
    requires Sound(st) && Guarded(st.holds, symbol, Replay(EmptyBook, log), Accepted(works))
    ensures Sane(symbol, log + Records(works, seqNo, ts))
  {
    hide Sound, Replayable, Reservable, Records, Accepted, Assigned, Guarded, Replay;
    BatchIsReplayable(st, symbol, log, works, seqNo, ts);
    RecordsAreAccepted(works, seqNo, ts);
  }

  // --- Replaying one leaves a book whose holds can be restored -------------------------------------

  predicate RestingOk(symbol: Symbol, book: BookState) {
    AllReservable(symbol, book.bids) && AllReservable(symbol, book.asks)
  }

  lemma SmallerIsReservable(symbol: Symbol, o: Order, q: int)
    requires Reservable(symbol, o) && 0 < q <= o.quantity
    ensures Reservable(symbol, o.(quantity := q))
  {
    if HoldFor(o).side != Sell { ProductMonotone(q, o.quantity, HoldFor(o).price); }
  }

  lemma SurvivorsAreReservable(symbol: Symbol, makers: seq<Order>, o: Order, tradeId: SeqID)
    requires AllReservable(symbol, makers)
    ensures AllReservable(symbol, Match(o, makers, tradeId).makers)
  {
    SurvivorsAreASuffix(o, makers, tradeId);
    var r := Match(o, makers, tradeId);
    hide Match, Reservable;
    var k := |makers| - |r.makers|;
    if r.makers != makers[k..] {
      assert PartlyFilledHead(makers, k, r);
      assert makers[k] in makers;
      SmallerIsReservable(symbol, makers[k], r.makers[0].quantity);
    }
  }

  lemma {:induction false} LeftIsSmaller(o: Order, makers: seq<Order>, tradeId: SeqID)
    requires forall i :: 0 <= i < |makers| ==> makers[i].quantity > 0
    ensures Match(o, makers, tradeId).left <= o.quantity
    decreases |makers|
  {
    if o.quantity <= 0 || makers == [] || !Acceptable(o, makers[0].price) {
    } else if SelfMatch(o, makers[0]) {
      LeftIsSmaller(o, makers[1..], tradeId);
    } else {
      var fill := Min(o.quantity, makers[0].quantity);
      if fill >= makers[0].quantity { LeftIsSmaller(o.(quantity := o.quantity - fill), makers[1..], tradeId + 1); }
    }
  }

  lemma SubmitKeepsRestingOk(symbol: Symbol, book: BookState, o: Order)
    requires WellFormed(book) && RestingOk(symbol, book) && Reservable(symbol, o)
    ensures RestingOk(symbol, Submit(book, o).0)
  {
    if Known(o) {
      var makers := Makers(book, o.side);
      SubmittedLists(book, o);
      SurvivorsAreReservable(symbol, makers, o, book.tradeId);
      LeftIsSmaller(o, makers, book.tradeId);
      hide Submit, Match, Reservable, WellFormed;
      var left := Match(o, makers, book.tradeId).left;
      if 0 < left { SmallerIsReservable(symbol, o, left); }
      var book' := Submit(book, o).0;
      assert AllReservable(symbol, Makers(book', o.side)) && AllReservable(symbol, Makers(book', Opposite(o.side)));
    }
  }

  lemma {:induction false} ReplayKeepsRestingOk(symbol: Symbol, book: BookState, rs: seq<Record>)
    requires WellFormed(book) && RestingOk(symbol, book) && Replayable(book, rs) && GoodLog(symbol, rs)
    ensures WellFormed(Replay(book, rs)) && RestingOk(symbol, Replay(book, rs))
    decreases |rs|
  {
    hide WellFormed, RestingOk, Reservable, CanApply;
    if rs != [] {
      ApplyKeepsWellFormed(book, rs[0]);
      ApplyKeepsRestingOk(symbol, book, rs[0]);
      ReplayKeepsRestingOk(symbol, ApplyRecord(book, rs[0]), rs[1..]);
    }
  }

  lemma ApplyKeepsRestingOk(symbol: Symbol, book: BookState, r: Record)
    requires WellFormed(book) && RestingOk(symbol, book) && GoodLog(symbol, [r])
    ensures RestingOk(symbol, ApplyRecord(book, r))
  {
    hide Reservable, WellFormed;
    match r.op
    case SubmitOrder(o) =>
      assert [r][0] == r;
      SubmitKeepsRestingOk(symbol, book, o);
    case CancelOrder(id, who) => CancelKeepsWellFormed(book, id, who);
  }

  /** The book a sane log replays to is one whose holds can be restored. */
  lemma SaneLogRecovers(symbol: Symbol, rs: seq<Record>)
    requires Sane(symbol, rs)
    ensures Recovered(symbol, Replay(EmptyBook, rs))
  {
    ReplayKeepsRestingOk(symbol, EmptyBook, rs);
  }
}
