/**
 * The ids a sequencer assigns. As long as it assigns them all, they never meet a
 * live order's, over any life. An id a caller chose itself does not advance the
 * counter, and a later order can be refused for it: exactly when is stated here too.
 */
module OrderIds {
  import opened Types
  import opened Matching
  import opened AccountState
  import opened Guards
  import opened Holds
  import opened Settling
  import opened LiveHolds
  import opened LiveIds
  import opened Commit
  import opened Framing
  import opened Wal
  import opened GroupCommit
  import opened GoodLogs
  import opened Durability
  import opened NoTrace

  /** Every submit leaves its id to the venue. */
  predicate VenueNumbered(batch: seq<Request>) {
    forall r :: r in batch && r.SubmitRequest? ==> r.order.id == 0
  }

  /** No hold of this symbol is filed under an id past n. */
  predicate HeldUpTo(holds: HoldMap, symbol: Symbol, n: SeqID) {
    forall k: HoldKey :: k in holds && k.symbol == symbol ==> k.orderId <= n
  }

  /** Submits carry ids from above lo up to hi, each above the ones before it. */
  predicate Rising(works: seq<Work>, lo: SeqID, hi: SeqID)
    decreases |works|
  {
    if works == [] then lo <= hi
    else if works[0].request.SubmitRequest? then
      lo < works[0].request.order.id && Rising(works[1..], works[0].request.order.id, hi)
    else Rising(works[1..], lo, hi)
  }

  lemma {:induction false} AssignedIdsRise(symbol: Symbol, batch: seq<Request>, nextId: SeqID)
    requires VenueNumbered(batch)
    ensures var (ws, n) := AssignAll(symbol, batch, nextId); Rising(ws, nextId, n)
  {
    if batch != [] {
      assert batch[0] in batch;
      var (w, n) := Assign(symbol, batch[0], nextId);
      AssignedIdsRise(symbol, batch[1..], n);
      var ws := AssignAll(symbol, batch[1..], n).0;
      assert ([w] + ws)[1..] == ws;
    }
  }

  lemma HeldFurther(holds: HoldMap, symbol: Symbol, m: SeqID, n: SeqID)
    requires HeldUpTo(holds, symbol, m) && m <= n
    ensures HeldUpTo(holds, symbol, n)
  {
  }

  lemma ReserveNumbered(st: State, symbol: Symbol, o: Order, lo: SeqID)
    requires HeldUpTo(st.holds, symbol, lo) && o.symbol == symbol && lo < o.id
    ensures var (st', err) := Reserve(st, o);
      err != Some(AlreadyReserved) && HeldUpTo(st'.holds, symbol, o.id)
  {
    hide AddShares, Notional;
  }

  // --- Processing files no hold under a new key ---------------------------------------------------

  lemma ShrinkAddsNoKey(st: State, key: HoldKey, q: int)
    ensures ShrinkTraded(st, key, q).holds.Keys <= st.holds.Keys
  {
    hide AddShares, TakeOff, Notional;
  }

  lemma TradeAddsNoKey(st: State, symbol: Symbol, t: Trade)
    ensures ApplyTrade(st, symbol, t).holds.Keys <= st.holds.Keys
  {
    hide ShrinkTraded, Notional;
    match Notional(t.price, t.quantity)
    case None =>
    case Some(value) =>
      var moved := MoveValue(st, t, value);
      ShrinkAddsNoKey(moved, HoldKey(symbol, t.makerId), t.quantity);
      var st1 := ShrinkTraded(moved, HoldKey(symbol, t.makerId), t.quantity);
      ShrinkAddsNoKey(st1, HoldKey(symbol, t.takerId), t.quantity);
  }

  lemma {:induction false} TradesAddNoKey(st: State, symbol: Symbol, trades: seq<Trade>)
    ensures ApplyTrades(st, symbol, trades).holds.Keys <= st.holds.Keys
    decreases |trades|
  {
    hide ApplyTrade;
    if trades != [] {
      TradeAddsNoKey(st, symbol, trades[0]);
      TradesAddNoKey(ApplyTrade(st, symbol, trades[0]), symbol, trades[1..]);
    }
  }

  lemma ReleaseAddsNoKey(st: State, key: HoldKey)
    ensures Release(st, key).holds.Keys <= st.holds.Keys
  {
    hide AddShares, TakeOff, Notional;
  }

  lemma {:induction false} ReleasesAddNoKey(st: State, symbol: Symbol, ids: seq<SeqID>)
    ensures ReleaseAll(st, symbol, ids).holds.Keys <= st.holds.Keys
    decreases |ids|
  {
    hide Release;
    if ids != [] {
      ReleaseAddsNoKey(st, HoldKey(symbol, ids[0]));
      ReleasesAddNoKey(Release(st, HoldKey(symbol, ids[0])), symbol, ids[1..]);
    }
  }

  lemma ProcessAddsNoKey(v: Venue, symbol: Symbol, w: Work, failed: bool, seqNo: int)
    ensures ProcessWork(v, symbol, w, failed, seqNo).0.accounts.holds.Keys <= v.accounts.holds.Keys
  {
    hide Release, ApplyTrades, ReleaseAll;
    ReleaseAddsNoKey(v.accounts, HoldKey(symbol, w.orderId));
    if w.request.CancelRequest? { ReleaseAddsNoKey(v.accounts, HoldKey(symbol, w.request.id)); }
    if w.request.SubmitRequest? {
      var res := Submit(v.book, w.request.order).1;
      if res.Some? {
        var traded := ApplyTrades(v.accounts, symbol, res.value.trades);
        TradesAddNoKey(v.accounts, symbol, res.value.trades);
        ReleasesAddNoKey(traded, symbol, res.value.selfPrevented);
        ReleaseAddsNoKey(ReleaseAll(traded, symbol, res.value.selfPrevented), HoldKey(symbol, w.orderId));
      }
    }
  }

  predicate NoneReserved(replies: seq<Reply>) {
    forall i :: 0 <= i < |replies| ==> replies[i].err != Some(Rejected(AlreadyReserved))
  }

  lemma OnlyPreErrRejects(v: Venue, symbol: Symbol, w: Work, failed: bool, seqNo: int)
    ensures var r := ProcessWork(v, symbol, w, failed, seqNo).1;
      r.err.Some? && r.err.value.Rejected? ==> w.preErr == Some(r.err.value.reason)
  {
    hide Release, Complete, Submit, Cancel;
  }

  lemma SamePreErrs(a: seq<Work>, b: seq<Work>)
    requires SameWorks(a, b)
    ensures |a| == |b| && forall i :: 0 <= i < |a| ==> a[i].preErr == b[i].preErr
  {
    forall i | 0 <= i < |a| ensures a[i].preErr == b[i].preErr { assert a[i].(seqNo := b[i].seqNo) == b[i]; }
  }

  // --- Over any life ----------------------------------------------------------------------------------

  /** The venue assigns every id, and every restart restores exactly the recovered book's holds. */
  ghost predicate VenueRun(c: Codec, symbol: Symbol, h: History, events: seq<Event>)
    decreases |events|
  {
    events == []
    || (var e := events[0];
        && Enabled(c, symbol, h.machine, e)
        && (e.Begin? ==> VenueNumbered(e.batch))
        && (e.Restart? ==> Exact(e.accounts.holds, symbol, Restarted(c, h.machine.dir, e.maxBytes).value.book, []))
        && VenueRun(c, symbol, Next(c, symbol, h, e), events[1..]))
  }

  predicate NoneCollided(works: seq<Work>) {
    forall i :: 0 <= i < |works| ==> works[i].preErr != Some(AlreadyReserved)
  }

  /** Holds of the symbol lie at or below `top`, the ids still to be reserved above it and each other. */
  ghost predicate Apart(symbol: Symbol, m: Machine, top: SeqID) {
    m.Up? ==>
      && HeldUpTo(m.accounts.holds, symbol, top)
      && match m.phase
         case Idle => top <= m.engine.nextOrderId
         case Reserving(reserved, unreserved) => NoneCollided(reserved) && Rising(unreserved, top, m.engine.nextOrderId)
         case Replying(unreplied) => NoneCollided(unreplied) && top <= m.engine.nextOrderId
  }

  lemma ReserveStaysApart(c: Codec, symbol: Symbol, h: History, at: Layout, top: SeqID) returns (top': SeqID)
    requires HistoryOk(c, symbol, h, at) && Enabled(c, symbol, h.machine, ReserveNext) && Apart(symbol, h.machine, top)
    ensures Apart(symbol, Next(c, symbol, h, ReserveNext).machine, top')
  {
    hide LogOk, TailOk, BookOk, Sound, Guarded, HandedOk, RepliesOk, Reservable, Reserve;
    var Up(e, st, phase) := h.machine;
    var w := phase.unreserved[0];
    top' := top;
    if w.request.SubmitRequest? {
      top' := w.request.order.id;
      ReserveNumbered(st, symbol, w.request.order, top);
    }
  }

  lemma EventStaysApart(c: Codec, symbol: Symbol, h: History, at: Layout, e: Event, top: SeqID) returns (top': SeqID)
    requires HistoryOk(c, symbol, h, at) && Enabled(c, symbol, h.machine, e)
    requires e.Begin? ==> VenueNumbered(e.batch)
    requires e.Restart? ==> Exact(e.accounts.holds, symbol, Restarted(c, h.machine.dir, e.maxBytes).value.book, [])
    requires Apart(symbol, h.machine, top) && NoneReserved(h.replies)
    ensures Apart(symbol, Next(c, symbol, h, e).machine, top') && NoneReserved(Next(c, symbol, h, e).replies)
  {
    hide HistoryOk, Sound, ProcessWork, Logged, ReserveWork, AssignAll, MidLog, CanCrash, Exact, ReadAll, OpenWriter,
         Replay, SameWorks, Guarded;
    top' := top;
    var m := h.machine;
    match e
    case Begin(batch) =>
      AssignedIdsRise(symbol, batch, m.engine.nextOrderId);
      HeldFurther(m.accounts.holds, symbol, top, m.engine.nextOrderId);
      top' := m.engine.nextOrderId;
    case ReserveNext => top' := ReserveStaysApart(c, symbol, h, at, top);
    case LogBatch(ts, faults, syncOk) =>
      LoggedKeeps(c, m.engine, m.phase.reserved, ts, faults, syncOk);
      LoggingIsHarmless(c, m.engine, m.phase.reserved, ts, faults, syncOk);
      SamePreErrs(m.phase.reserved, Logged(c, m.engine, m.phase.reserved, ts, faults, syncOk).1);
    case ReplyNext =>
      var todo := m.phase.unreplied;
      if todo != [] {
        var v := Venue(m.engine.book, m.accounts);
        ProcessAddsNoKey(v, symbol, todo[0], m.engine.failed, m.engine.seqNo);
        OnlyPreErrRejects(v, symbol, todo[0], m.engine.failed, m.engine.seqNo);
      }
    case Elsewhere(st) =>
      forall k: HoldKey | k in st.holds && k.symbol == symbol ensures k.orderId <= top {
        assert Untouched(m.accounts.holds, st.holds, k);
      }
    case Crash(cut) =>
    case CrashInLog(ts, faults, tried, cut) =>
    case Restart(st, maxBytes) =>
      var book := Restarted(c, m.dir, maxBytes).value.book;
      RestartNumbersAbove(st, symbol, book);
      top' := book.maxOrderId;
  }

  lemma {:induction false} RunStaysApart(c: Codec, symbol: Symbol, h: History, at: Layout, events: seq<Event>,
                                         top: SeqID)
    requires Faithful(c) && HistoryOk(c, symbol, h, at) && VenueRun(c, symbol, h, events)
    requires Apart(symbol, h.machine, top) && NoneReserved(h.replies)
    ensures CanLive(c, symbol, h, events) && NoneReserved(Lived(c, symbol, h, events).replies)
    decreases |events|
  {
    hide HistoryOk, Enabled, Next, Apart, NoneReserved, Exact, Restarted, VenueNumbered;
    if events != [] {
      var top' := EventStaysApart(c, symbol, h, at, events[0], top);
      var at' := EventKeepsHistory(c, symbol, h, at, events[0]);
      RunStaysApart(c, symbol, Next(c, symbol, h, events[0]), at', events[1..], top');
    }
  }

  /**
   * A sequencer that assigns every id never assigns one that a live order of its symbol still
   * holds: over any life, with crashes and whatever other symbols do, no order is refused as
   * already reserved.
   */
  lemma VenueIdsNeverCollide(c: Codec, symbol: Symbol, st: State, maxBytes: int, events: seq<Event>)
    requires Faithful(c) && Sound(st) && HeldUpTo(st.holds, symbol, 0)
    requires VenueRun(c, symbol, Beginning(c, st, maxBytes), events)
    ensures CanLive(c, symbol, Beginning(c, st, maxBytes), events)
    ensures NoneReserved(Lived(c, symbol, Beginning(c, st, maxBytes), events).replies)
  {
    hide HistoryOk, Enabled, Next, Sound, Exact, Restarted, VenueNumbered, HeldUpTo, OpenWriter;
    BeginningIsOk(c, symbol, st, maxBytes);
    RunStaysApart(c, symbol, Beginning(c, st, maxBytes), FirstLayout, events, 0);
  }

  /** A restart resumes above every id its book's orders still hold. */
  lemma RestartNumbersAbove(st: State, symbol: Symbol, book: BookState)
    requires Exact(st.holds, symbol, book, [])
    ensures HeldUpTo(st.holds, symbol, book.maxOrderId)
  {
    forall k: HoldKey | k in st.holds && k.symbol == symbol ensures k.orderId <= book.maxOrderId {
      assert k.orderId in RestingIds(book);
    }
  }

  // --- Exactly when an order is refused for its id ------------------------------------------------------

  /** An account's existence and an order's quantity are judged before its id. */
  lemma ReservedIff(st: State, o: Order)
    ensures Reserve(st, o).1 == Some(AlreadyReserved) <==> Exists(st, o.placer) && o.quantity > 0 && Key(o) in st.holds
    ensures Reserve(st, o).1.None? ==> Reserve(st, o).0.holds.Keys == st.holds.Keys + {Key(o)}
    ensures Reserve(st, o).1.Some? ==> Reserve(st, o).0 == st
    ensures forall a :: Exists(Reserve(st, o).0, a) <==> Exists(st, a)
  {
    hide AddShares, Notional;
  }

  /** This id is under a hold of the symbol, or an earlier submit of the batch has just been accepted under it. */
  ghost predicate Taken(st: State, symbol: Symbol, works: seq<Work>, done: seq<Work>, i: nat)
    requires i < |works| == |done|
  {
    || HoldKey(symbol, works[i].orderId) in st.holds
    || exists j :: 0 <= j < i && done[j].request.SubmitRequest? && done[j].preErr.None?
                   && done[j].orderId == works[i].orderId
  }

  lemma TakenFromHead(st: State, symbol: Symbol, works: seq<Work>, done: seq<Work>, i: nat)
    requires 0 < i < |works| == |done| && Assigned(symbol, works)
    requires (ReserveWork(st, works[0]).1) == done[0]
    ensures Taken(ReserveWork(st, works[0]).0, symbol, works[1..], done[1..], i - 1)
      <==> Taken(st, symbol, works, done, i)
  {
    hide Reserve;
    var st1 := ReserveWork(st, works[0]).0;
    if works[0].request.SubmitRequest? { ReservedIff(st, works[0].request.order); }
    var tail, rest := works[1..], done[1..];
    if Taken(st, symbol, works, done, i) && HoldKey(symbol, works[i].orderId) !in st.holds {
      var j :| 0 <= j < i && done[j].request.SubmitRequest? && done[j].preErr.None?
          && done[j].orderId == works[i].orderId;
      if j > 0 { assert rest[j - 1] == done[j]; }
    }
    if Taken(st1, symbol, tail, rest, i - 1) && HoldKey(symbol, tail[i - 1].orderId) !in st1.holds {
      var j :| 0 <= j < i - 1 && rest[j].request.SubmitRequest? && rest[j].preErr.None?
          && rest[j].orderId == tail[i - 1].orderId;
      assert done[j + 1] == rest[j];
    }
  }

  lemma {:induction false} RefusedInBatch(st: State, symbol: Symbol, works: seq<Work>, i: nat)
    requires Assigned(symbol, works) && i < |works| && works[i].request.SubmitRequest?
    ensures var done := ReserveAll(st, works).1; var o := works[i].request.order;
      && |done| == |works|
      && (done[i].preErr == Some(AlreadyReserved)
          <==> Exists(st, o.placer) && o.quantity > 0 && Taken(st, symbol, works, done, i))
    decreases |works|
  {
    hide Reserve;
    ReserveAllKeepsLength(st, works);
    var done := ReserveAll(st, works).1;
    var (st1, w) := ReserveWork(st, works[0]);
    if works[0].request.SubmitRequest? { ReservedIff(st, works[0].request.order); }
    if i > 0 {
      assert Assigned(symbol, works[1..]);
      assert done[1..] == ReserveAll(st1, works[1..]).1 && works[1..][i - 1] == works[i];
      RefusedInBatch(st1, symbol, works[1..], i - 1);
      TakenFromHead(st, symbol, works, done, i);
    }
  }

  /**
   * A submit of a batch is refused as already reserved if and only if its account exists, its
   * quantity is positive, and the id it is given is under a hold of the symbol or was taken by
   * an earlier submit of the same batch.
   */
  lemma RefusedIff(st: State, symbol: Symbol, batch: seq<Request>, next: SeqID, i: nat)
    requires i < |batch| && batch[i].SubmitRequest?
    ensures var works := AssignAll(symbol, batch, next).0; var done := ReserveAll(st, works).1; var o := batch[i].order;
      && |done| == |works| == |batch|
      && (done[i].preErr == Some(AlreadyReserved)
          <==> Exists(st, o.placer) && o.quantity > 0 && Taken(st, symbol, works, done, i))
  {
    hide ReserveAll, Taken, Assigned;
    AssignAllAssigns(symbol, batch, next);
    AssignedOrder(symbol, batch, next, i);
    RefusedInBatch(st, symbol, AssignAll(symbol, batch, next).0, i);
  }

  lemma {:induction false} AssignedOrder(symbol: Symbol, batch: seq<Request>, next: SeqID, i: nat)
    requires i < |batch| && batch[i].SubmitRequest?
    ensures var works := AssignAll(symbol, batch, next).0;
      && |works| == |batch| && works[i].request.SubmitRequest?
      && works[i].request.order.placer == batch[i].order.placer
          && works[i].request.order.quantity == batch[i].order.quantity
  {
    var n := Assign(symbol, batch[0], next).1;
    AssignAllAssigns(symbol, batch, next);
    if i > 0 { AssignedOrder(symbol, batch[1..], n, i - 1); }
  }

  /**
   * The same while other symbols act between the reservations: the ids that count are those
   * held when the batch began and those of the batch's own orders accepted so far.
   */
  lemma RefusedInLifeIff(c: Codec, symbol: Symbol, h0: History, h: History, at: Layout)
    requires HistoryOk(c, symbol, h, at) && Enabled(c, symbol, h.machine, ReserveNext)
    requires Traceless(symbol, h0, h, false) && h.machine.phase.unreserved[0].request.SubmitRequest?
    ensures var m := h.machine; var w := m.phase.unreserved[0]; var o := w.request.order;
      ReserveWork(m.accounts, w).1.preErr == Some(AlreadyReserved)
      <==> && Exists(m.accounts, o.placer) && o.quantity > 0
           && (HoldKey(symbol, w.orderId) in h0.machine.accounts.holds
               || exists x :: x in Accepted(m.phase.reserved) && Key(x) == HoldKey(symbol, w.orderId))
  {
    hide LogOk, TailOk, BookOk, Sound, Guarded, HandedOk, RepliesOk, Reservable, Reserve, Accepted, Owned, IsRefusal;
    var m := h.machine;
    var w := m.phase.unreserved[0];
    ReservedIff(m.accounts, w.request.order);
    PendingIsHeld(m.accounts.holds, symbol, m.engine.book, Accepted(m.phase.reserved));
  }

  /**
   * Choosing one's own id is honoured but not counted: after an order with id 1 of the
   * caller's choosing, the next order left to the venue is given id 1 too, and is refused.
   */
  lemma ChosenIdRefusesLaterOrder(symbol: Symbol)
    ensures var st := State(map["a" := 100], map[], map[], map[], map[]);
      var chosen := SubmitRequest(Order(1, symbol, "a", Limit, 1, 1, Buy));
      var unset := SubmitRequest(Order(0, symbol, "a", Limit, 1, 1, Buy));
      var works := AssignAll(symbol, [chosen, unset], 0).0;
      var ws := ReserveAll(st, works).1;
      && |ws| == 2 && ws[0].preErr == None
      && ws[1].orderId == 1 && ws[1].preErr == Some(AlreadyReserved)
  {
    var st := State(map["a" := 100], map[], map[], map[], map[]);
    var first := Order(1, symbol, "a", Limit, 1, 1, Buy);
    var chosen := SubmitRequest(first);
    var unset := SubmitRequest(Order(0, symbol, "a", Limit, 1, 1, Buy));
    var batch := [chosen, unset];
    var w0 := Work(chosen, 0, 1, None);
    assert batch[1..] == [unset] && [unset][1..] == [];
    assert Assign(symbol, unset, 0) == (w0, 1) && Assign(symbol, chosen, 0) == (w0, 0);
    assert AssignAll(symbol, [unset][1..], 1) == ([], 1) && [w0] + [] == [w0];
    assert AssignAll(symbol, [unset], 0) == ([w0], 1);
    assert AssignAll(symbol, batch, 0) == ([w0] + [w0], 1);
    assert [w0] + [w0] == [w0, w0];
    NotionalIsExact(1, 1);
    var (st1, err) := Reserve(st, first);
    assert err.None? && Key(first) in st1.holds;
    assert Reserve(st1, first).1 == Some(AlreadyReserved);
    assert [w0, w0][1..] == [w0] && [w0][1..] == [];
    assert ReserveAll(st1, [w0]).1 == [w0.(preErr := Some(AlreadyReserved))];
    assert ReserveAll(st, [w0, w0]).1 == [w0] + [w0.(preErr := Some(AlreadyReserved))];
  }
}
