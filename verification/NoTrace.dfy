/**
 * A batch whose log write fails leaves no trace, whatever other symbols do meanwhile,
 * and neither does anything after it: the book, the symbol's holds and the balances stay
 * as they were and every request is refused.
 */
module NoTrace {
  import opened Types
  import opened Matching
  import opened Snapshots
  import opened AccountState
  import opened Holds
  import opened Settling
  import opened LiveHolds
  import opened LiveIds
  import opened Commit
  import opened Framing
  import opened Wal
  import opened GroupCommit
  import opened GoodLogs
  import opened Durability

  /** A run without a crash in which no batch's log write succeeds. */
  ghost predicate NoneLogged(c: Codec, symbol: Symbol, h: History, events: seq<Event>)
    decreases |events|
  {
    events == []
    || (var e := events[0];
        && Enabled(c, symbol, h.machine, e) && !e.Crash? && !e.CrashInLog? && !e.Restart?
        && (e.LogBatch? ==> Next(c, symbol, h, e).machine.engine.failed)
        && NoneLogged(c, symbol, Next(c, symbol, h, e), events[1..]))
  }

  /** Nothing was done for this caller: an error, or a snapshot of an unchanged book. */
  predicate IsRefusal(r: Reply, book: BookState) {
    r.outcome == NoOutcome && (r.err.Some? || r.snapshot == Some(SnapshotOf(book)))
  }

  /** These holds are those, but for holds of accepted orders that were not there before. */
  ghost predicate HoldsAsBefore(a: HoldMap, b: HoldMap, pending: set<HoldKey>, symbol: Symbol, alone: bool) {
    forall k: HoldKey :: alone || k.symbol == symbol ==>
      if k in pending then k !in a else Untouched(a, b, k)
  }

  /** Nothing of the run so far shows but the replies; alone means no other symbol has acted in it. */
  ghost predicate Traceless(symbol: Symbol, h0: History, h: History, alone: bool) {
    && h0.machine.Up? && h.machine.Up?
    && h.machine.engine.book == h0.machine.engine.book && h.machine.engine.seqNo == h0.machine.engine.seqNo
    && h.log == h0.log && (h0.machine.engine.failed ==> h.machine.engine.failed)
    && HoldsAsBefore(h0.machine.accounts.holds, h.machine.accounts.holds, Keys(Pending(h.machine.phase)), symbol, alone)
    && (alone ==> forall x :: Owned(h.machine.accounts, x) == Owned(h0.machine.accounts, x))
    && h0.replies <= h.replies
    && (forall i :: |h0.replies| <= i < |h.replies| ==> IsRefusal(h.replies[i], h0.machine.engine.book))
    && (h.machine.phase.Replying? ==> h.machine.engine.failed)
  }

  lemma PendingIsHeld(holds: HoldMap, symbol: Symbol, book: BookState, pending: seq<Order>)
    requires Guarded(holds, symbol, book, pending)
    ensures Keys(pending) <= holds.Keys
  {
    hide WellFormed;
    forall o | o in pending ensures Key(o) in holds { assert Guard(holds, o); }
  }

  lemma ReserveIsTraceless(c: Codec, symbol: Symbol, h0: History, h: History, at: Layout, alone: bool)
    requires HistoryOk(c, symbol, h, at) && Enabled(c, symbol, h.machine, ReserveNext)
    requires Traceless(symbol, h0, h, alone)
    ensures Traceless(symbol, h0, Next(c, symbol, h, ReserveNext), alone)
  {
    hide LogOk, TailOk, BookOk, Sound, Guarded, HandedOk, RepliesOk, Reservable, ReserveWork, Accepted, Assigned, Owned,
         Keys, IsRefusal;
    var Up(e, st, phase) := h.machine;
    var w := phase.unreserved[0];
    assert phase.unreserved == [w] + phase.unreserved[1..];
    AssignedCons(symbol, w, phase.unreserved[1..]);
    ReserveOne(st, symbol, e.book, Accepted(phase.reserved), w);
    PendingIsHeld(st.holds, symbol, e.book, Accepted(phase.reserved));
    var w' := ReserveWork(st, w).1;
    AcceptedJoin(phase.reserved, [w']);
    KeysJoin(Accepted(phase.reserved), Accepted([w']));
  }

  lemma LogIsTraceless(c: Codec, symbol: Symbol, h0: History, h: History, alone: bool, ts: int, faults: seq<Fault>,
                       syncOk: bool)
    requires Enabled(c, symbol, h.machine, LogBatch(ts, faults, syncOk)) && Traceless(symbol, h0, h, alone)
    requires Next(c, symbol, h, LogBatch(ts, faults, syncOk)).machine.engine.failed
    ensures Traceless(symbol, h0, Next(c, symbol, h, LogBatch(ts, faults, syncOk)), alone)
  {
    hide Logged, Accepted, Owned, Keys, IsRefusal, HoldsAsBefore, SameWorks, Records, Numbered;
    var Up(e, st, phase) := h.machine;
    LoggedKeeps(c, e, phase.reserved, ts, faults, syncOk);
    LoggingIsHarmless(c, e, phase.reserved, ts, faults, syncOk);
    SameWorksSameRecords(phase.reserved, Logged(c, e, phase.reserved, ts, faults, syncOk).1, 0, 0);
  }

  lemma ReplyIsTraceless(c: Codec, symbol: Symbol, h0: History, h: History, at: Layout, alone: bool)
    requires HistoryOk(c, symbol, h, at) && Enabled(c, symbol, h.machine, ReplyNext)
    requires Traceless(symbol, h0, h, alone)
    ensures Traceless(symbol, h0, Next(c, symbol, h, ReplyNext), alone)
  {
    hide LogOk, TailOk, BookOk, Sound, Guarded, HandedOk, RepliesOk, ProcessWork, Accepted, Assigned, Owned, Keys;
    var Up(e, st, phase) := h.machine;
    if phase.unreplied == [] {
      NoneAssigned(symbol);
    } else {
      var w, rest := phase.unreplied[0], phase.unreplied[1..];
      assert phase.unreplied == [w] + rest;
      AssignedCons(symbol, w, rest);
      FailedTurn(Venue(e.book, st), symbol, w, rest, e.seqNo);
      AcceptedJoin([w], rest);
      KeysJoin(Accepted([w]), Accepted(rest));
    }
  }

  lemma EventIsTraceless(c: Codec, symbol: Symbol, h0: History, h: History, at: Layout, alone: bool, e: Event)
    requires HistoryOk(c, symbol, h, at) && Traceless(symbol, h0, h, alone)
    requires Enabled(c, symbol, h.machine, e) && !e.Crash? && !e.CrashInLog? && !e.Restart? && (alone ==> !e.Elsewhere?)
    requires e.LogBatch? ==> Next(c, symbol, h, e).machine.engine.failed
    ensures Traceless(symbol, h0, Next(c, symbol, h, e), alone)
  {
    hide HistoryOk, Owned, Sound, ProcessWork, Logged, ReserveWork, AssignAll;
    match e
    case Begin(batch) => NoneAssigned(symbol);
    case ReserveNext => ReserveIsTraceless(c, symbol, h0, h, at, alone);
    case LogBatch(ts, faults, syncOk) => LogIsTraceless(c, symbol, h0, h, alone, ts, faults, syncOk);
    case ReplyNext => ReplyIsTraceless(c, symbol, h0, h, at, alone);
    case Elsewhere(st) =>
  }

  lemma {:induction false} RunIsTraceless(c: Codec, symbol: Symbol, h0: History, h: History, at: Layout, alone: bool,
                                          events: seq<Event>)
    requires Faithful(c) && HistoryOk(c, symbol, h, at) && Traceless(symbol, h0, h, alone)
    requires NoneLogged(c, symbol, h, events) && (alone ==> forall i :: 0 <= i < |events| ==> !events[i].Elsewhere?)
    ensures CanLive(c, symbol, h, events) && Traceless(symbol, h0, Lived(c, symbol, h, events), alone)
    decreases |events|
  {
    hide HistoryOk, Enabled, Next, Traceless;
    if events != [] {
      EventIsTraceless(c, symbol, h0, h, at, alone, events[0]);
      var at' := EventKeepsHistory(c, symbol, h, at, events[0]);
      RunIsTraceless(c, symbol, h0, Next(c, symbol, h, events[0]), at', alone, events[1..]);
    }
  }

  /**
   * From one idle moment to another, if no log write succeeded in between, the book, the log's
   * position and every hold of the symbol are as before and every request was refused; with no
   * other symbol acting, so are all balances and reservations. This is one failed batch, and
   * equally everything a sequencer does after its log has failed.
   */
  lemma FailedCommitLeavesNoTrace(c: Codec, symbol: Symbol, h: History, at: Layout, events: seq<Event>)
    requires Faithful(c) && HistoryOk(c, symbol, h, at) && h.machine.Up? && h.machine.phase.Idle?
    requires NoneLogged(c, symbol, h, events)
    ensures CanLive(c, symbol, h, events)
    ensures var h' := Lived(c, symbol, h, events);
      h'.machine.Up? && h'.machine.phase.Idle? ==>
        && h'.machine.engine.book == h.machine.engine.book && h'.machine.engine.seqNo == h.machine.engine.seqNo
        && h'.log == h.log && (h.machine.engine.failed ==> h'.machine.engine.failed)
        && OwnUntouched(h.machine.accounts.holds, h'.machine.accounts.holds, symbol)
        && h.replies <= h'.replies
        && (forall i :: |h.replies| <= i < |h'.replies| ==> IsRefusal(h'.replies[i], h.machine.engine.book))
        && ((forall i :: 0 <= i < |events| ==> !events[i].Elsewhere?) ==>
              SameAccounts(h.machine.accounts, h'.machine.accounts))
  {
    hide HistoryOk, Enabled, Next, Owned, Reserved, Sound, NoneLogged;
    RunIsTraceless(c, symbol, h, h, at, false, events);
    var h' := Lived(c, symbol, h, events);
    var at' := LifeKeepsHistory(c, symbol, h, at, events);
    if h'.machine.Up? && h'.machine.phase.Idle? && forall i :: 0 <= i < |events| ==> !events[i].Elsewhere? {
      RunIsTraceless(c, symbol, h, h, at, true, events);
      var a, b := h.machine.accounts, h'.machine.accounts;
      assert forall k :: Untouched(a.holds, b.holds, k);
      assert a.holds.Keys == b.holds.Keys;
      UpIsSound(c, symbol, h, at);
      UpIsSound(c, symbol, h', at');
      HoldsDetermineReservations(a, b);
    }
  }

  /** A log that has failed stays failed until a restart: from then on no batch's log write can succeed. */
  lemma {:induction false} FailedForGood(c: Codec, symbol: Symbol, h: History, events: seq<Event>)
    requires CanLive(c, symbol, h, events) && h.machine.Up? && h.machine.engine.failed
    requires forall i :: 0 <= i < |events| ==> !events[i].Crash? && !events[i].CrashInLog?
    ensures NoneLogged(c, symbol, h, events) && Lived(c, symbol, h, events).machine.Up?
    decreases |events|
  {
    hide ProcessWork, ReserveWork, AssignAll, LogWorks;
    if events != [] {
      var h1 := Next(c, symbol, h, events[0]);
      assert h1.machine.Up? && h1.machine.engine.failed;
      FailedForGood(c, symbol, h1, events[1..]);
    }
  }
}
