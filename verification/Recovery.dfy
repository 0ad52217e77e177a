/**
 * What the lives of a symbol guarantee: what is read back wherever one stops, when a
 * batch that failed survives, and that a trade once handed out keeps its meaning.
 */
module Recovery {
  import opened Types
  import opened Matching
  import opened AccountState
  import opened Guards
  import opened Holds
  import opened LiveHolds
  import opened LiveIds
  import opened Commit
  import opened Framing
  import opened Wal
  import opened GroupCommit
  import opened GoodLogs
  import opened Durability

  // --- What is read back ---------------------------------------------------------------------------

  lemma StoppedReads(c: Codec, symbol: Symbol, h: History, at: Durability.Layout)
    requires Faithful(c) && HistoryOk(c, symbol, h, at) && h.machine.Down?
    ensures var all := h.log + h.unanswered[..at.extra];
      && at.extra <= |h.unanswered| && ReadAll(c, h.machine.dir) == (all, true)
      && Sane(symbol, all) && RepliesOk(all, h.replies) && Above(all, 0) == all
  {
    hide OnDisk, ReadAll, Sane, HandedOk, Recoverable, Replay, Flat, WholeWithin;
    ReplayIsExact(c, h.machine.dir, at.parts, at.written);
    var all := h.log + h.unanswered[..at.extra];
    SanePrefix(symbol, all, h.log + h.unanswered);
    RepliesStayOk(h.log, all, h.replies);
    LogIsDense(c, h.machine.dir, at.parts, at.written);
    WholeIsDense(c, at.parts, at.written);
    AboveOfDense(all, 0, 0);
  }

  lemma WholeIsDense(c: Codec, p: Parts, k: nat)
    requires AllWritable(c, p.current) && Dense(p.All(), 0)
    ensures Dense(WholeParts(c, p, k).All(), 0)
  {
    hide Flat, WholeWithin;
    var m := WholeWithin(c, p.current, k);
    assert p.All() == Flat(p.closed) + p.current[..m] + p.current[m..];
    assert WholeParts(c, p, k).All() == p.All()[..|Flat(p.closed)| + m];
  }

  /**
   * Stopped at any point of any life (between batches, while reserving, while logging, after a
   * failed write, while replying), the directory reads back every record of every synced batch in
   * order, then some first records of the one batch whose sync had not succeeded, and nothing else.
   */
  lemma RecoveryIsExact(c: Codec, symbol: Symbol, st: State, maxBytes: int, events: seq<Event>) returns (j: nat)
    requires Faithful(c) && Sound(st) && CanLive(c, symbol, Beginning(c, st, maxBytes), events)
    requires Lived(c, symbol, Beginning(c, st, maxBytes), events).machine.Down?
    ensures var h := Lived(c, symbol, Beginning(c, st, maxBytes), events);
      && j <= |h.unanswered| && ReadAll(c, h.machine.dir) == (h.log + h.unanswered[..j], true)
      && (forall r :: r in h.replies && IsDone(r) ==> Recoverable(h.log + h.unanswered[..j], r))
  {
    hide Enabled, Next, Sound, Beginning, ReadAll, Sane, Recoverable, MachineOk, HandedOk;
    BeginningIsOk(c, symbol, st, maxBytes);
    var at := LifeKeepsHistory(c, symbol, Beginning(c, st, maxBytes), FirstLayout, events);
    var h := Lived(c, symbol, Beginning(c, st, maxBytes), events);
    StoppedReads(c, symbol, h, at);
    j := at.extra;
  }

  /**
   * Whatever happened before, a stopped symbol's directory may be opened: its log replays without
   * reusing a live id, to a book whose holds can be restored, and opening it gives a sequencer
   * with that book, numbering from the end of that log.
   */
  lemma StoppedMayOpen(c: Codec, symbol: Symbol, st: State, maxBytes: int, events: seq<Event>, maxBytes': int)
    requires Faithful(c) && Sound(st) && CanLive(c, symbol, Beginning(c, st, maxBytes), events)
    requires Lived(c, symbol, Beginning(c, st, maxBytes), events).machine.Down?
    ensures var dir := Lived(c, symbol, Beginning(c, st, maxBytes), events).machine.dir;
      var (rs, clean) := ReadAll(c, dir); var book := Replay(EmptyBook, Above(rs, 0));
      var w := OpenWriter(c, dir, maxBytes');
      && clean && Above(rs, 0) == rs && Replayable(EmptyBook, rs) && Recovered(symbol, book)
      && w.Some? && w.value.lastSeq == |rs|
      && Restarted(c, dir, maxBytes') == Some(Engine(book, w.value, w.value.lastSeq, book.maxOrderId, false))
  {
    hide Enabled, Next, Sound, Beginning, ReadAll, MachineOk, RepliesOk, HandedOk, Replayable, Replay, Recovered,
         Above, OpenWriter;
    BeginningIsOk(c, symbol, st, maxBytes);
    var at := LifeKeepsHistory(c, symbol, Beginning(c, st, maxBytes), FirstLayout, events);
    var h := Lived(c, symbol, Beginning(c, st, maxBytes), events);
    StoppedReads(c, symbol, h, at);
    SaneLogRecovers(symbol, h.log + h.unanswered[..at.extra]);
    StoppedIsDown(c, symbol, h, at);
    var at' := RestartKeeps(c, symbol, h.machine.dir, h.log, h.unanswered, at, maxBytes');
  }

  lemma StoppedIsDown(c: Codec, symbol: Symbol, h: History, at: Durability.Layout)
    requires HistoryOk(c, symbol, h, at) && h.machine.Down?
    ensures DownOk(c, symbol, h.machine.dir, h.log, h.unanswered, at)
  {
  }

  // --- Trade identity ----------------------------------------------------------------------------------

  /**
   * A trade id means one trade for ever: among everything ever handed to callers, however
   * many crashes and restarts apart, trades of equal id are equal in every field, and ids
   * are drawn from an unbroken run starting at 1.
   */
  lemma TradeIdentity(c: Codec, symbol: Symbol, st: State, maxBytes: int, events: seq<Event>)
    requires Faithful(c) && Sound(st) && CanLive(c, symbol, Beginning(c, st, maxBytes), events)
    ensures var h := Lived(c, symbol, Beginning(c, st, maxBytes), events);
      var ts := TradesOf(EmptyBook, h.log); var handed := ReplyTrades(h.replies);
      && (forall i :: 0 <= i < |ts| ==> ts[i].id == i + 1)
      && (forall t :: t in handed ==> 1 <= t.id <= |ts| && ts[t.id - 1] == t)
      && (forall t, u :: t in handed && u in handed && t.id == u.id ==> t == u)
  {
    hide Enabled, Next, TradesOf, HandedOk, Replay, Replayable, Sound, Beginning, HistoryOk, ReplyTrades, WellFormed;
    BeginningIsOk(c, symbol, st, maxBytes);
    var at := LifeKeepsHistory(c, symbol, Beginning(c, st, maxBytes), FirstLayout, events);
    var h := Lived(c, symbol, Beginning(c, st, maxBytes), events);
    LogIsReplayable(c, symbol, h, at);
    EmptyIsWellFormed();
    TradesAreDense(EmptyBook, h.log);
    HandedByItsId(c, symbol, h, at);
  }

  lemma HandedByItsId(c: Codec, symbol: Symbol, h: History, at: Durability.Layout)
    requires HistoryOk(c, symbol, h, at)
    ensures var ts := TradesOf(EmptyBook, h.log);
      forall t :: t in ReplyTrades(h.replies) ==> 1 <= t.id <= |ts| && ts[t.id - 1] == t
  {
    hide MachineOk, RepliesOk, TradesOf, ReplyTrades;
    HandedStaysOkLater(h.log[..at.applied], h.log, ReplyTrades(h.replies));
  }

  lemma LogIsReplayable(c: Codec, symbol: Symbol, h: History, at: Durability.Layout)
    requires HistoryOk(c, symbol, h, at)
    ensures Replayable(EmptyBook, h.log)
  {
    hide Replay, Replayable, Guarded, Sound, OnDisk, LogOk, BookOk, GoodLog, RepliesOk, HandedOk;
    SanePrefix(symbol, h.log, h.log + h.unanswered);
  }

  // --- When a failed batch survives ----------------------------------------------------------------------

  /**
   * The bytes that survive of the newest segment stop short of the first unanswered record:
   * that segment holds the answered records from its name on, and the frame after them is not
   * all there. A record too large to write is never there.
   */
  predicate FallsShort(c: Codec, log: seq<Record>, unanswered: seq<Record>, newest: int, cut: nat) {
    unanswered == []
    || (1 <= newest <= |log| + 1
        && var frames := log[newest - 1..] + [unanswered[0]];
           AllWritable(c, frames) ==> cut < WAL_HEADER_SIZE + |Frames(c, frames)|)
  }

  /**
   * After a crash at any point, only answered records are read back if and only if the
   * cut falls short of the next one.
   */
  lemma OnlyAnsweredIff(c: Codec, symbol: Symbol, h: History, at: Durability.Layout, cut: nat)
    requires Faithful(c) && HistoryOk(c, symbol, h, at) && h.machine.Up? && CanCrash(h.machine.engine.wal, cut)
    ensures var dir := h.machine.engine.wal.dir;
      ReadAll(c, CutLast(dir, cut)) == (h.log, true) <==> FallsShort(c, h.log, h.unanswered, Last(dir).first, cut)
  {
    hide Sane, Sound, Guarded, HandedOk, RepliesOk, Replay, Good, BookOk, ReadAll, FallsShort;
    var w := h.machine.engine.wal;
    OnlyAnswered(c, w, at.parts, at.written, h.log, h.unanswered, at.extra, cut);
  }

  lemma OnlyAnswered(c: Codec, w: Log, p: Parts, k: nat, log: seq<Record>, unanswered: seq<Record>, extra: nat,
                     cut: nat)
    requires Faithful(c) && Durable(c, w, p, k) && AllWritable(c, p.current) && CanCrash(w, cut)
    requires |log| <= Kept(c, w, p) && extra <= |unanswered| && p.All() == log + unanswered[..extra]
    ensures ReadAll(c, CutLast(w.dir, cut)) == (log, true) <==> FallsShort(c, log, unanswered, Last(w.dir).first, cut)
  {
    hide Frames, WholeWithin, ReadAll, Flat, Frame, Kept;
    var n := CrashKeepsSynced(c, w, p, k, cut);
    var f := |Flat(p.closed)|;
    var all := p.All();
    assert all[..|log|] == log;
    assert all[..n] == log <==> n == |log|;
    if f > |log| {
      assert n > |log|;
    } else if unanswered != [] {
      var m, size := |log| - f, cut - WAL_HEADER_SIZE;
      assert log[f..] == p.current[..m];
      NextFrame(c, p.current, m, k, unanswered[0], size, Last(w.dir).data);
    }
  }

  /** Of records whose first m are known, the cut holds more than m exactly if it holds the next one's frame. */
  lemma NextFrame(c: Codec, rs: seq<Record>, m: nat, k: nat, r: Record, size: nat, data: Bytes)
    requires AllWritable(c, rs) && m <= |rs| && m <= WholeWithin(c, rs, size)
    requires k <= |Frames(c, rs)| && data == HEADER + Frames(c, rs)[..k] && size <= |data| - WAL_HEADER_SIZE
    requires m < |rs| ==> rs[m] == r
    ensures var frames := rs[..m] + [r];
      WholeWithin(c, rs, size) == m <==> (AllWritable(c, frames) ==> size < |Frames(c, frames)|)
  {
    hide Frame, Writable;
    var frames := rs[..m] + [r];
    if m < |rs| {
      assert frames == rs[..m + 1];
      if size >= |Frames(c, rs[..m + 1])| { WholeIsMonotone(c, rs, m + 1, size); }
      if WholeWithin(c, rs, size) > m {
        WholeFits(c, rs, size);
        PrefixIsShorter(c, rs, m + 1, WholeWithin(c, rs, size));
      }
    } else if Writable(c, r) {
      FramesSnoc(c, rs, r);
      assert rs[..m] == rs;
      FrameIsNotEmpty(c, r);
    } else {
      assert frames[m] == r;
    }
  }

  lemma FrameIsNotEmpty(c: Codec, r: Record)
    requires Writable(c, r)
    ensures |Frame(c, r)| > 0
  {
  }

  lemma PrefixIsShorter(c: Codec, rs: seq<Record>, a: nat, b: nat)
    requires AllWritable(c, rs) && a <= b <= |rs|
    ensures |Frames(c, rs[..a])| <= |Frames(c, rs[..b])|
  {
    hide Frame, Writable;
    FramesJoin(c, rs[..a], rs[a..b]);
    assert rs[..a] + rs[a..b] == rs[..b];
  }

  // --- A failed sync whose batch survives -------------------------------------------------------------------

  function WitnessOrder(symbol: Symbol): Order {
    Order(1, symbol, "a", Limit, 1, 1, Buy)
  }

  function WitnessRecord(symbol: Symbol): Record {
    Record(1, 0, SubmitOrder(WitnessOrder(symbol)))
  }

  const WitnessAccounts := State(map["a" := 100], map[], map[], map[], map[])

  lemma WitnessReserves(symbol: Symbol)
    ensures Sound(WitnessAccounts) && Reserve(WitnessAccounts, WitnessOrder(symbol)).1 == None
  {
    NotionalIsExact(1, 1);
    forall x ensures Reserved(WitnessAccounts, x) == TotalDemand(WitnessAccounts.holds, x) {}
  }

  lemma WitnessAssigned(symbol: Symbol, chosen: Order)
    requires chosen == WitnessOrder(symbol).(id := 0)
    ensures AssignAll(symbol, [SubmitRequest(chosen)], 0)
         == ([Work(SubmitRequest(WitnessOrder(symbol)), 0, 1, None)], 1)
  {
    assert [SubmitRequest(chosen)][1..] == [];
    assert AssignAll(symbol, [], 1) == ([], 1);
    var w := Work(SubmitRequest(WitnessOrder(symbol)), 0, 1, None);
    assert [w] + [] == [w];
  }

  /** Logging the one request succeeds in writing, and then the sync fails. */
  lemma WitnessLogged(c: Codec, symbol: Symbol, e: Engine, work: Work) returns (p: Parts)
    requires Good(c, e.wal, Parts([], [])) && e.seqNo == 0 && !e.failed && RoomFor(0, 1) && IsInt64(0)
    requires work == Work(SubmitRequest(WitnessOrder(symbol)), 0, 1, None) && Writable(c, WitnessRecord(symbol))
    ensures var w := Append(c, e.wal, WitnessRecord(symbol), NoFault).0;
      && Good(c, w, p) && p.All() == [WitnessRecord(symbol)]
      && Logged(c, e, [work], 0, [NoFault], false) == (e.(wal := w, failed := true), [work.(seqNo := 1)])
      && Records([work], 0, 0) == [WitnessRecord(symbol)]
  {
    hide Append, Good;
    GoodPosition(c, e.wal, Parts([], []));
    var k;
    p, k := AppendEffect(c, e.wal, Parts([], []), WitnessRecord(symbol), NoFault);
    WitnessAppends(c, e.wal, symbol);
    var w := Append(c, e.wal, WitnessRecord(symbol), NoFault).0;
    assert [work][1..] == [] && [NoFault][1..] == [];
    assert LogWorks(c, w, [], 1, 0, []) == (w, [], 1, true);
    assert [work.(seqNo := 1)] + [] == [work.(seqNo := 1)];
    assert Records([], 1, 0) == [] && [WitnessRecord(symbol)] + [] == [WitnessRecord(symbol)];
    assert Parts([], []).All() + [WitnessRecord(symbol)] == [WitnessRecord(symbol)];
  }

  lemma WitnessAppends(c: Codec, w: Log, symbol: Symbol)
    requires Writable(c, WitnessRecord(symbol))
    ensures Append(c, w, WitnessRecord(symbol), NoFault).1
  {
  }

  lemma WholeCut(c: Codec, w: Log, p: Parts)
    requires Faithful(c) && Good(c, w, p)
    ensures w.dir != [] && CanCrash(w, |Last(w.dir).data|)
    ensures ReadAll(c, CutLast(w.dir, |Last(w.dir).data|)) == (p.All(), true)
  {
    hide Frames, ReadAll, Flat, WholeWithin;
    GoodIsDurable(c, w, p);
    NonEmptySegment(c, w, p);
    var n := CrashKeepsSynced(c, w, p, |Frames(c, p.current)|, |Last(w.dir).data|);
    AllWhole(c, p.current);
    assert p.All()[..n] == p.All();
  }

  lemma WitnessRests(symbol: Symbol)
    ensures Replay(EmptyBook, [WitnessRecord(symbol)]).bids == [WitnessOrder(symbol)]
  {
    OneRecord(EmptyBook, WitnessRecord(symbol));
    assert [] + [WitnessOrder(symbol)] == [WitnessOrder(symbol)];
  }

  /**
   * A caller can be told its batch failed to be logged, and a restart replay it all the same:
   * one accepted order, a failed sync, a crash that keeps every byte written.
   */
  lemma FailedSyncMaySurvive(c: Codec, symbol: Symbol, maxBytes: int) returns (events: seq<Event>)
    requires Faithful(c) && Writable(c, WitnessRecord(symbol))
    ensures CanLive(c, symbol, Beginning(c, WitnessAccounts, maxBytes), events)
    ensures var h := Lived(c, symbol, Beginning(c, WitnessAccounts, maxBytes), events);
      && h.machine.Down? && h.log == [] && |h.replies| == 1 && h.replies[0].err == Some(LogFailed)
      && ReadAll(c, h.machine.dir) == ([WitnessRecord(symbol)], true)
      && Replay(EmptyBook, ReadAll(c, h.machine.dir).0).bids == [WitnessOrder(symbol)]
  {
    hide Append, Good, AssignAll, Logged, Records, OpenWriter, ReadAll, Reserve, Sound, Guarded, Release, Replay,
         CanCrash;
    var o := WitnessOrder(symbol);
    var chosen := SubmitRequest(o.(id := 0));
    var work := Work(SubmitRequest(o), 0, 1, None);
    WitnessReserves(symbol);
    WitnessAssigned(symbol, o.(id := 0));
    FirstOpen(c, maxBytes);
    var h0 := Beginning(c, WitnessAccounts, maxBytes);
    var h1 := Next(c, symbol, h0, Begin([chosen]));
    assert [work][0] == work && [work][1..] == [] && [] + [work] == [work];
    var h2 := Next(c, symbol, h1, ReserveNext);
    assert h2.machine.phase == Reserving([work], []);
    var p := WitnessLogged(c, symbol, h2.machine.engine, work);
    var h3 := Next(c, symbol, h2, LogBatch(0, [NoFault], false));
    var h4 := Next(c, symbol, h3, ReplyNext);
    var w := h4.machine.engine.wal;
    WholeCut(c, w, p);
    var crash := Crash(|Last(w.dir).data|);
    WitnessRests(symbol);
    OneEvent(c, symbol, h0, Begin([chosen]));
    OneEvent(c, symbol, h1, ReserveNext);
    OneEvent(c, symbol, h2, LogBatch(0, [NoFault], false));
    OneEvent(c, symbol, h3, ReplyNext);
    OneEvent(c, symbol, h4, crash);
    LifeJoin(c, symbol, h3, [ReplyNext], [crash]);
    LifeJoin(c, symbol, h2, [LogBatch(0, [NoFault], false)], [ReplyNext] + [crash]);
    LifeJoin(c, symbol, h1, [ReserveNext], [LogBatch(0, [NoFault], false)] + ([ReplyNext] + [crash]));
    var rest := [ReserveNext] + ([LogBatch(0, [NoFault], false)] + ([ReplyNext] + [crash]));
    LifeJoin(c, symbol, h0, [Begin([chosen])], rest);
    events := [Begin([chosen])] + rest;
  }
}
