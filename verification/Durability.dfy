/**
 * One symbol's life, step by step, over any number of batches, failures, crashes
 * and restarts, while other symbols use the shared accounts between any two steps.
 * The invariant says where the records lie on disk, which of them are synced, how far
 * the book has got in them, and what every reply so far stands for; every step of
 * every kind is shown to keep it. `Recovery` and `NoTrace` draw the conclusions.
 */
module Durability {
  import opened Types
  import opened Matching
  import opened AccountState
  import opened Guards
  import opened Holds
  import opened Settling
  import opened LiveIds
  import opened Commit
  import opened Framing
  import opened Wal
  import opened GroupCommit
  import opened GoodLogs

  /** Where the sequencer stands in its batch. */
  datatype Phase =
    | Idle
    | Reserving(reserved: seq<Work>, unreserved: seq<Work>)
    | Replying(unreplied: seq<Work>)

  /** Running, or stopped with only the directory left. */
  datatype Machine = Up(engine: Engine, accounts: State, phase: Phase) | Down(dir: Dir)

  datatype Event =
    | Begin(batch: seq<Request>)
    | ReserveNext
    | LogBatch(ts: int, faults: seq<Fault>, syncOk: bool)
    | ReplyNext
    | Elsewhere(accounts: State)
    | Crash(cut: nat)
    | CrashInLog(ts: int, faults: seq<Fault>, tried: nat, cut: nat)
    | Restart(accounts: State, maxBytes: int)

  /**
   * Everything so far: the machine, the synced log, the records of the one batch that
   * went to the log since without its sync succeeding, and every reply sent.
   */
  datatype History = History(machine: Machine, log: seq<Record>, unanswered: seq<Record>, replies: seq<Reply>)

  // --- Events -----------------------------------------------------------------------------------------

  /** The records the batch now reserved gives the log. */
  function BatchRecords(m: Machine, ts: int): seq<Record>
    requires m.Up? && m.phase.Reserving?
  {
    Records(m.phase.reserved, m.engine.seqNo, ts)
  }

  /** The writer after the first `tried` requests of the batch went to the log and before any sync of them. */
  function MidLog(c: Codec, m: Machine, ts: int, faults: seq<Fault>, tried: nat): Log
    requires m.Up? && m.phase.Reserving? && RoomFor(m.engine.seqNo, |m.phase.reserved|) && IsInt64(ts)
    requires tried <= |m.phase.reserved| == |faults|
  {
    LogWorks(c, m.engine.wal, m.phase.reserved[..tried], m.engine.seqNo, ts, faults[..tried]).0
  }

  /** What a restart makes of the directory: replay it, reopen it, resume numbering above it. */
  function Restarted(c: Codec, dir: Dir, maxBytes: int): (r: Option<Engine>) {
    var rs := ReadAll(c, dir).0;
    var book := Replay(EmptyBook, rs);
    match OpenWriter(c, dir, maxBytes)
    case None => None
    case Some(w) => Some(Engine(book, w, w.lastSeq, book.maxOrderId, false))
  }

  /** Other symbols move balances and their own holds, never a hold of this symbol. */
  ghost predicate OwnUntouched(a: HoldMap, b: HoldMap, symbol: Symbol) {
    forall k: HoldKey :: k.symbol == symbol ==> Untouched(a, b, k)
  }

  predicate ReadyToLog(m: Machine) {
    m.Up? && m.phase.Reserving? && m.phase.unreserved == []
  }

  ghost predicate Enabled(c: Codec, symbol: Symbol, m: Machine, event: Event) {
    match event
    case Begin(batch) => m.Up? && m.phase.Idle?
    case ReserveNext => m.Up? && m.phase.Reserving? && m.phase.unreserved != []
    case LogBatch(ts, faults, _) =>
      && ReadyToLog(m) && IsInt64(ts)
      && RoomFor(m.engine.seqNo, |m.phase.reserved|) && |faults| == |m.phase.reserved|
    case ReplyNext => m.Up? && m.phase.Replying?
    case Elsewhere(st) => m.Up? && Sound(st) && OwnUntouched(m.accounts.holds, st.holds, symbol)
    case Crash(cut) => m.Up? && CanCrash(m.engine.wal, cut)
    case CrashInLog(ts, faults, tried, cut) =>
      && ReadyToLog(m) && IsInt64(ts) && !m.engine.failed
      && RoomFor(m.engine.seqNo, |m.phase.reserved|) && tried <= |faults| == |m.phase.reserved|
      && CanCrash(MidLog(c, m, ts, faults, tried), cut)
    case Restart(st, maxBytes) =>
      && m.Down? && Sound(st) && Restarted(c, m.dir, maxBytes).Some?
      && Guarded(st.holds, symbol, Replay(EmptyBook, ReadAll(c, m.dir).0), [])
  }

  function AfterReserve(m: Machine): Machine
    requires m.Up? && m.phase.Reserving? && m.phase.unreserved != []
  {
    var (st, w) := ReserveWork(m.accounts, m.phase.unreserved[0]);
    m.(accounts := st, phase := Reserving(m.phase.reserved + [w], m.phase.unreserved[1..]))
  }

  function AfterLog(c: Codec, h: History, ts: int, faults: seq<Fault>, syncOk: bool): History
    requires ReadyToLog(h.machine) && IsInt64(ts)
    requires RoomFor(h.machine.engine.seqNo, |h.machine.phase.reserved|) && |faults| == |h.machine.phase.reserved|
  {
    var m := h.machine;
    var rs := BatchRecords(m, ts);
    var (e', ws) := Logged(c, m.engine, m.phase.reserved, ts, faults, syncOk);
    h.(machine := m.(engine := e', phase := Replying(ws)),
       log := if e'.failed then h.log else h.log + rs,
       unanswered := if e'.failed && !m.engine.failed then rs else h.unanswered)
  }

  function AfterReply(symbol: Symbol, h: History): History
    requires h.machine.Up? && h.machine.phase.Replying?
  {
    var m := h.machine;
    var todo := m.phase.unreplied;
    if todo == [] then h.(machine := m.(phase := Idle))
    else
      var (v, r) := ProcessWork(Venue(m.engine.book, m.accounts), symbol, todo[0], m.engine.failed, m.engine.seqNo);
      h.(machine := Up(m.engine.(book := v.book), v.accounts, Replying(todo[1..])), replies := h.replies + [r])
  }

  /** What an event makes of the history. */
  function Next(c: Codec, symbol: Symbol, h: History, event: Event): History
    requires Enabled(c, symbol, h.machine, event)
  {
    var m := h.machine;
    match event
    case Begin(batch) =>
      var (works, next) := AssignAll(symbol, batch, m.engine.nextOrderId);
      h.(machine := m.(engine := m.engine.(nextOrderId := next), phase := Reserving([], works)))
    case ReserveNext => h.(machine := AfterReserve(m))
    case LogBatch(ts, faults, syncOk) => AfterLog(c, h, ts, faults, syncOk)
    case ReplyNext => AfterReply(symbol, h)
    case Elsewhere(st) => h.(machine := m.(accounts := st))
    case Crash(cut) => h.(machine := Down(CutLast(m.engine.wal.dir, cut)))
    case CrashInLog(ts, faults, tried, cut) =>
      h.(machine := Down(CutLast(MidLog(c, m, ts, faults, tried).dir, cut)), unanswered := BatchRecords(m, ts))
    case Restart(st, maxBytes) =>
      h.(machine := Up(Restarted(c, m.dir, maxBytes).value, st, Idle), log := ReadAll(c, m.dir).0, unanswered := [])
  }

  // --- The invariant ---------------------------------------------------------------------------------

  /**
   * Where the records lie on disk, how many unanswered ones are among them, how far the book
   * has got in the log, and the time its latest batch was logged.
   */
  datatype Layout = Layout(parts: Parts, written: nat, extra: nat, applied: nat, ts: int)

  /** Orders accepted and not yet processed. */
  function Pending(phase: Phase): seq<Order> {
    match phase
    case Idle => []
    case Reserving(reserved, _) => Accepted(reserved)
    case Replying(unreplied) => Accepted(unreplied)
  }

  ghost predicate PhaseOk(symbol: Symbol, phase: Phase) {
    match phase
    case Idle => true
    case Reserving(reserved, unreserved) =>
      && Assigned(symbol, reserved) && Assigned(symbol, unreserved)
      && (forall i :: 0 <= i < |unreserved| ==> unreserved[i].preErr.None?)
      && AllReservable(symbol, Accepted(reserved))
    case Replying(unreplied) => Assigned(symbol, unreplied)
  }

  /** On disk: the log, then the first few of the unanswered batch's records. */
  ghost predicate TailOk(symbol: Symbol, all: seq<Record>, log: seq<Record>, unanswered: seq<Record>, extra: nat) {
    extra <= |unanswered| && all == log + unanswered[..extra] && Sane(symbol, log + unanswered)
  }

  /** The book is the replay of what has been applied; the requests still to be answered are the rest of the log. */
  ghost predicate BookOk(e: Engine, phase: Phase, log: seq<Record>, at: Layout) {
    && at.applied <= |log| && e.book == Replay(EmptyBook, log[..at.applied])
    && if phase.Replying? && !e.failed then
         && Records(phase.unreplied, at.applied, at.ts) == log[at.applied..]
         && phase.unreplied == Numbered(phase.unreplied, at.applied)
       else at.applied == |log|
  }

  ghost predicate UpOk(c: Codec, symbol: Symbol, m: Machine, log: seq<Record>, unanswered: seq<Record>, at: Layout)
    requires m.Up?
  {
    && LogOk(c, m.engine, at.parts, at.written, log)
    && TailOk(symbol, at.parts.All(), log, unanswered, at.extra)
    && (!m.engine.failed ==> unanswered == [])
    && BookOk(m.engine, m.phase, log, at)
    && Sound(m.accounts) && Guarded(m.accounts.holds, symbol, m.engine.book, Pending(m.phase))
    && PhaseOk(symbol, m.phase)
  }

  ghost predicate DownOk(c: Codec, symbol: Symbol, dir: Dir, log: seq<Record>, unanswered: seq<Record>, at: Layout) {
    && OnDisk(c, dir, at.parts, at.written) && AllWritable(c, at.parts.current)
    && TailOk(symbol, WholeParts(c, at.parts, at.written).All(), log, unanswered, at.extra)
    && at.applied == |log|
  }

  ghost predicate MachineOk(c: Codec, symbol: Symbol, h: History, at: Layout) {
    match h.machine
    case Up(_, _, _) => UpOk(c, symbol, h.machine, h.log, h.unanswered, at)
    case Down(dir) => DownOk(c, symbol, dir, h.log, h.unanswered, at)
  }

  /** Every trade handed to a caller is the one the log prints under that id. */
  ghost predicate HandedOk(log: seq<Record>, handed: seq<Trade>) {
    forall i :: 0 <= i < |handed| ==>
      var ts := TradesOf(EmptyBook, log);
      1 <= handed[i].id <= |ts| && ts[handed[i].id - 1] == handed[i]
  }

  /** A reply that something was done. */
  predicate IsDone(r: Reply) {
    r.err.None? && r.snapshot.None?
  }

  /** The log holds this reply's record at the reply's position, and replaying it prints the reply's trades. */
  ghost predicate Recoverable(log: seq<Record>, r: Reply) {
    && 1 <= r.seqNo <= |log| && log[r.seqNo - 1].seqNo == r.seqNo
    && r.outcome.trades == RecordTrades(Replay(EmptyBook, log[..r.seqNo - 1]), log[r.seqNo - 1])
  }

  ghost predicate RepliesOk(log: seq<Record>, replies: seq<Reply>) {
    forall i :: 0 <= i < |replies| && IsDone(replies[i]) ==> Recoverable(log, replies[i])
  }

  ghost predicate HistoryOk(c: Codec, symbol: Symbol, h: History, at: Layout) {
    && MachineOk(c, symbol, h, at) && at.applied <= |h.log|
    && HandedOk(h.log[..at.applied], ReplyTrades(h.replies))
    && RepliesOk(h.log, h.replies)
  }

  // --- Trades of a log ----------------------------------------------------------------------------------

  lemma {:induction false} TradesJoin(book: BookState, a: seq<Record>, b: seq<Record>)
    ensures TradesOf(book, a + b) == TradesOf(book, a) + TradesOf(Replay(book, a), b)
    decreases |a|
  {
    hide ApplyRecord, RecordTrades;
    if a == [] {
      assert a + b == b;
    } else {
      TradesJoin(ApplyRecord(book, a[0]), a[1..], b);
      assert (a + b)[1..] == a[1..] + b;
    }
  }

  predicate NumberedFrom(ts: seq<Trade>, id: SeqID) {
    forall i :: 0 <= i < |ts| ==> ts[i].id == id + 1 + i
  }

  lemma RecordTradesAreDense(book: BookState, r: Record)
    requires WellFormed(book)
    ensures NumberedFrom(RecordTrades(book, r), book.tradeId)
    ensures ApplyRecord(book, r).tradeId == book.tradeId + |RecordTrades(book, r)|
  {
    if r.op.SubmitOrder? && Known(r.op.order) {
      var o := r.op.order;
      SidesArePositive(book, o.side);
      var makers := Makers(book, o.side);
      assert forall j :: 0 <= j < |makers| ==> makers[j] in makers;
      TradesAreProper(o, makers, book.tradeId);
      var ts := Match(o, makers, book.tradeId).trades;
      forall i | 0 <= i < |ts| ensures ts[i].id == book.tradeId + 1 + i { ProperTradesAt(o, ts, book.tradeId, i); }
    }
  }

  /** The trades of a replay are numbered one after another from the book's counter. */
  lemma {:induction false} TradesAreDense(book: BookState, records: seq<Record>)
    requires WellFormed(book) && Replayable(book, records)
    ensures NumberedFrom(TradesOf(book, records), book.tradeId)
    ensures Replay(book, records).tradeId == book.tradeId + |TradesOf(book, records)|
    decreases |records|
  {
    hide WellFormed, CanApply, ApplyRecord, RecordTrades;
    if records != [] {
      var r := records[0];
      RecordTradesAreDense(book, r);
      ApplyKeepsWellFormed(book, r);
      TradesAreDense(ApplyRecord(book, r), records[1..]);
    }
  }

  lemma EmptyIsWellFormed()
    ensures WellFormed(EmptyBook)
  {
  }

  /** A longer log prints the same trades first. */
  lemma HandedStaysOk(log: seq<Record>, more: seq<Record>, handed: seq<Trade>)
    requires HandedOk(log, handed)
    ensures HandedOk(log + more, handed)
  {
    hide TradesOf;
    TradesJoin(EmptyBook, log, more);
  }

  lemma NewTradesAreOk(log: seq<Record>, rs: seq<Record>, handed: seq<Trade>)
    requires HandedOk(log, handed) && Replayable(EmptyBook, log + rs)
    ensures HandedOk(log + rs, handed + TradesOf(Replay(EmptyBook, log), rs))
  {
    hide TradesOf, WellFormed, Replay, Replayable;
    HandedStaysOk(log, rs, handed);
    TradesJoin(EmptyBook, log, rs);
    EmptyIsWellFormed();
    TradesAreDense(EmptyBook, log + rs);
    var old', new' := TradesOf(EmptyBook, log), TradesOf(Replay(EmptyBook, log), rs);
    forall i | |handed| <= i < |handed + new'|
      ensures var t := (handed + new')[i];
        1 <= t.id <= |old' + new'| && (old' + new')[t.id - 1] == t
    {
      var j := |old'| + (i - |handed|);
      assert (old' + new')[j] == (handed + new')[i];
    }
  }

  // --- Replies ---------------------------------------------------------------------------------------------

  lemma {:induction false} ReplyTradesSnoc(replies: seq<Reply>, r: Reply)
    ensures ReplyTrades(replies + [r]) == ReplyTrades(replies) + r.outcome.trades
  {
    if replies == [] {
      assert replies + [r] == [r] && [r][1..] == [];
      assert r.outcome.trades + [] == [] + r.outcome.trades;
    } else {
      ReplyTradesSnoc(replies[1..], r);
      assert (replies + [r])[1..] == replies[1..] + [r] && (replies + [r])[0] == replies[0];
    }
  }

  lemma RecoverableLater(a: seq<Record>, b: seq<Record>, r: Reply)
    requires a <= b && Recoverable(a, r)
    ensures Recoverable(b, r)
  {
    assert b[..r.seqNo - 1] == a[..r.seqNo - 1];
  }

  /** A longer log still backs every reply. */
  lemma RepliesStayOk(a: seq<Record>, b: seq<Record>, replies: seq<Reply>)
    requires a <= b && RepliesOk(a, replies)
    ensures RepliesOk(b, replies)
  {
    hide Recoverable;
    forall i | 0 <= i < |replies| && IsDone(replies[i]) ensures Recoverable(b, replies[i]) {
      RecoverableLater(a, b, replies[i]);
    }
  }

  lemma HandedStaysOkLater(a: seq<Record>, b: seq<Record>, handed: seq<Trade>)
    requires a <= b && HandedOk(a, handed)
    ensures HandedOk(b, handed)
  {
    hide HandedOk;
    assert b == a + b[|a|..];
    HandedStaysOk(a, b[|a|..], handed);
  }

  lemma UpIsSound(c: Codec, symbol: Symbol, h: History, at: Layout)
    requires HistoryOk(c, symbol, h, at) && h.machine.Up?
    ensures Sound(h.machine.accounts)
  {
  }

  // --- Reserving ----------------------------------------------------------------------------------------------

  lemma BeginEvent(c: Codec, symbol: Symbol, h: History, at: Layout, batch: seq<Request>)
    requires HistoryOk(c, symbol, h, at) && Enabled(c, symbol, h.machine, Begin(batch))
    ensures HistoryOk(c, symbol, Next(c, symbol, h, Begin(batch)), at)
  {
    hide LogOk, TailOk, Sound, Guarded, HandedOk, RepliesOk, Reservable, AssignAll, Replay;
    AssignAllAssigns(symbol, batch, h.machine.engine.nextOrderId);
    NoneAssigned(symbol);
    var e := h.machine.engine;
    KeepsLog(c, e, e.(nextOrderId := AssignAll(symbol, batch, e.nextOrderId).1), at.parts, at.written, h.log);
  }

  /** Neither the book nor the order counter is the log's business. */
  lemma KeepsLog(c: Codec, e: Engine, e': Engine, p: Parts, k: nat, log: seq<Record>)
    requires LogOk(c, e, p, k, log)
    requires e'.wal == e.wal && e'.seqNo == e.seqNo && e'.failed == e.failed
    ensures LogOk(c, e', p, k, log)
  {
  }

  lemma ReserveEvent(c: Codec, symbol: Symbol, h: History, at: Layout)
    requires HistoryOk(c, symbol, h, at) && Enabled(c, symbol, h.machine, ReserveNext)
    ensures HistoryOk(c, symbol, Next(c, symbol, h, ReserveNext), at)
  {
    hide LogOk, TailOk, Sound, Guarded, HandedOk, RepliesOk, Reservable, Replay, ReserveWork, Accepted, Assigned, Added;
    var Up(e, st, phase) := h.machine;
    var w := phase.unreserved[0];
    assert phase.unreserved == [w] + phase.unreserved[1..];
    AssignedCons(symbol, w, phase.unreserved[1..]);
    ReserveOne(st, symbol, e.book, Accepted(phase.reserved), w);
    AcceptedIsReservable(st, symbol, w);
    var w' := ReserveWork(st, w).1;
    AcceptedJoin(phase.reserved, [w']);
    AssignedSnoc(symbol, phase.reserved, w');
  }

  lemma AssignedSnoc(symbol: Symbol, works: seq<Work>, w: Work)
    requires Assigned(symbol, works) && Assigned(symbol, [w])
    ensures Assigned(symbol, works + [w])
  {
    assert [w][0] == w;
  }

  // --- Logging -------------------------------------------------------------------------------------------------

  lemma {:induction false} NumberedTwice(works: seq<Work>, n: int)
    ensures Numbered(Numbered(works, n), n) == Numbered(works, n)
  {
    if works != [] {
      var rest := Numbered(works[1..], if IsLogged(works[0]) then n + 1 else n);
      NumberedTwice(works[1..], if IsLogged(works[0]) then n + 1 else n);
      var head := if IsLogged(works[0]) then works[0].(seqNo := n + 1) else works[0];
      assert Numbered(works, n) == [head] + rest && ([head] + rest)[1..] == rest;
    }
  }

  /** The batch's records, behind the log, are all of accepted orders and can be replayed. */
  lemma BatchTail(c: Codec, symbol: Symbol, h: History, at: Layout, ts: int)
    requires HistoryOk(c, symbol, h, at) && ReadyToLog(h.machine) && !h.machine.engine.failed
    ensures Sane(symbol, h.log + BatchRecords(h.machine, ts))
    ensures h.machine.engine.seqNo == |h.log| == at.applied && h.unanswered == [] && at.parts.All() == h.log
  {
    hide Durable, Good, Kept, Sane, Sound, Guarded, HandedOk, RepliesOk, Reservable, Replay, Records, Accepted,
         Assigned;
    var m := h.machine;
    assert h.log[..at.applied] == h.log && h.log + [] == h.log;
    BatchIsSane(m.accounts, symbol, h.log, m.phase.reserved, m.engine.seqNo, ts);
  }

  lemma LogEvent(c: Codec, symbol: Symbol, h: History, at: Layout, ts: int, faults: seq<Fault>, syncOk: bool)
    returns (at': Layout)
    requires HistoryOk(c, symbol, h, at) && Enabled(c, symbol, h.machine, LogBatch(ts, faults, syncOk))
    ensures HistoryOk(c, symbol, Next(c, symbol, h, LogBatch(ts, faults, syncOk)), at')
  {
    hide LogOk, Sane, Sound, Guarded, HandedOk, RepliesOk, Reservable, Replay, Records, Accepted, Assigned, Logged,
         Numbered, SameWorks;
    var Up(e, st, phase) := h.machine;
    var works := phase.reserved;
    var p, k, j := LoggedWorks(c, e, at.parts, at.written, h.log, works, ts, faults, syncOk);
    var (e', ws) := Logged(c, e, works, ts, faults, syncOk);
    LoggedKeeps(c, e, works, ts, faults, syncOk);
    SameWorksSameRecords(works, ws, e.seqNo, ts);
    SameWorksAssigned(symbol, works, ws);
    if e.failed {
      at' := at;
    } else {
      BatchTail(c, symbol, h, at, ts);
      var rs := BatchRecords(h.machine, ts);
      if e'.failed {
        at' := Layout(p, k, j, at.applied, ts);
      } else {
        at' := Layout(p, k, 0, at.applied, ts);
        NumberedTwice(works, e.seqNo);
        assert rs[..j] == rs && h.log + rs + [] == h.log + rs;
        assert (h.log + rs)[..at.applied] == h.log[..at.applied] && (h.log + rs)[at.applied..] == rs;
        RepliesStayOk(h.log, h.log + rs, h.replies);
      }
    }
  }

  /** Logging touches neither the book nor the order counter, and a failed log stays failed. */
  lemma LoggedKeeps(c: Codec, e: Engine, works: seq<Work>, ts: int, faults: seq<Fault>, syncOk: bool)
    requires RoomFor(e.seqNo, |works|) && IsInt64(ts) && |faults| == |works|
    ensures var (e', ws) := Logged(c, e, works, ts, faults, syncOk);
      && e'.book == e.book && e'.nextOrderId == e.nextOrderId
      && (e.failed ==> e' == e && ws == works) && (e'.failed ==> e'.seqNo == e.seqNo)
  {
    hide LogWorks;
  }

  // --- Replying ------------------------------------------------------------------------------------------------

  lemma BatchDone(c: Codec, symbol: Symbol, h: History, at: Layout)
    requires HistoryOk(c, symbol, h, at) && Enabled(c, symbol, h.machine, ReplyNext) && h.machine.phase.unreplied == []
    ensures HistoryOk(c, symbol, Next(c, symbol, h, ReplyNext), at)
  {
    hide LogOk, TailOk, Sound, Guarded, HandedOk, RepliesOk, Replay;
    NoneAssigned(symbol);
  }

  lemma FailedReply(c: Codec, symbol: Symbol, h: History, at: Layout)
    requires HistoryOk(c, symbol, h, at) && Enabled(c, symbol, h.machine, ReplyNext)
    requires h.machine.phase.unreplied != [] && h.machine.engine.failed
    ensures HistoryOk(c, symbol, Next(c, symbol, h, ReplyNext), at)
  {
    hide LogOk, TailOk, Sound, Guarded, HandedOk, Recoverable, Replay, ProcessWork, Accepted, Assigned, Keys;
    var Up(e, st, phase) := h.machine;
    var w, rest := phase.unreplied[0], phase.unreplied[1..];
    assert phase.unreplied == [w] + rest;
    AssignedCons(symbol, w, rest);
    FailedTurn(Venue(e.book, st), symbol, w, rest, e.seqNo);
    var (v, r) := ProcessWork(Venue(e.book, st), symbol, w, true, e.seqNo);
    assert e.(book := v.book) == e;
    ReplyTradesSnoc(h.replies, r);
    assert ReplyTrades(h.replies) + [] == ReplyTrades(h.replies);
    FailedIsNotDone(Venue(e.book, st), symbol, w, e.seqNo);
  }

  lemma FailedIsNotDone(v: Venue, symbol: Symbol, w: Work, at: int)
    ensures !IsDone(ProcessWork(v, symbol, w, true, at).1)
  {
    hide Release;
  }

  /** A turn after a good sync: the next record of the log is applied, and the reply is that record's. */
  lemma GoodReply(c: Codec, symbol: Symbol, h: History, at: Layout) returns (at': Layout)
    requires HistoryOk(c, symbol, h, at) && Enabled(c, symbol, h.machine, ReplyNext)
    requires h.machine.phase.unreplied != [] && !h.machine.engine.failed
    ensures HistoryOk(c, symbol, Next(c, symbol, h, ReplyNext), at')
  {
    hide LogOk, TailOk, Sound, Guarded, HandedOk, Recoverable, Replay, ProcessWork, Accepted, Assigned, TradesOf,
         ApplyRecord, CanApply, RecordTrades, Replayable, RepliesOk;
    var Up(e, st, phase) := h.machine;
    var w, rest := phase.unreplied[0], phase.unreplied[1..];
    assert phase.unreplied == [w] + rest;
    AssignedCons(symbol, w, rest);
    var v0 := Venue(e.book, st);
    ProcessedLikeRecord(v0, symbol, w, rest, e.seqNo, at.applied + 1, at.ts);
    ReplyIsItsRecords(v0, symbol, w, e.seqNo);
    var (v, r) := ProcessWork(v0, symbol, w, false, e.seqNo);
    KeepsLog(c, e, e.(book := v.book), at.parts, at.written, h.log);
    ReplyTradesSnoc(h.replies, r);
    var applied := h.log[..at.applied];
    if IsLogged(w) {
      var rec := Record(at.applied + 1, at.ts, MutationOf(w.request));
      assert h.log[at.applied..][0] == rec && h.log[at.applied..][1..] == h.log[at.applied + 1..];
      assert h.log[..at.applied + 1] == applied + [rec];
      ReplayJoin(EmptyBook, applied, [rec]);
      OneRecord(e.book, rec);
      SanePrefixes(symbol, h.log, h.unanswered, at);
      NewTradesAreOk(applied, [rec], ReplyTrades(h.replies));
      NextIsRecoverable(h.log, at.applied, r);
      at' := at.(applied := at.applied + 1);
    } else {
      assert ReplyTrades(h.replies) + [] == ReplyTrades(h.replies);
      at' := at;
    }
    OneMoreReply(h.log, h.replies, r);
  }

  lemma OneMoreReply(log: seq<Record>, replies: seq<Reply>, r: Reply)
    requires RepliesOk(log, replies) && (IsDone(r) ==> Recoverable(log, r))
    ensures RepliesOk(log, replies + [r])
  {
    hide Recoverable;
  }

  lemma NextIsRecoverable(log: seq<Record>, i: nat, r: Reply)
    requires i < |log| && log[i].seqNo == i + 1 == r.seqNo
    requires r.outcome.trades == RecordTrades(Replay(EmptyBook, log[..i]), log[i])
    ensures Recoverable(log, r)
  {
  }

  lemma SanePrefixes(symbol: Symbol, log: seq<Record>, unanswered: seq<Record>, at: Layout)
    requires TailOk(symbol, at.parts.All(), log, unanswered, at.extra) && at.applied < |log|
    ensures Replayable(EmptyBook, log[..at.applied + 1])
  {
    hide Replayable, GoodLog;
    SanePrefix(symbol, log[..at.applied + 1], log + unanswered);
  }

  lemma OneRecord(book: BookState, r: Record)
    ensures Replay(book, [r]) == ApplyRecord(book, r) && TradesOf(book, [r]) == RecordTrades(book, r)
  {
    hide ApplyRecord, RecordTrades;
    assert [r][1..] == [] && RecordTrades(book, r) + [] == RecordTrades(book, r);
  }

  lemma ReplyIsItsRecords(v: Venue, symbol: Symbol, w: Work, at: int)
    ensures var r := ProcessWork(v, symbol, w, false, at).1;
      if IsLogged(w) then r.seqNo == w.seqNo && r.snapshot.None? else !IsDone(r)
  {
    hide Release, Complete, Submit, Cancel;
  }

  lemma ReplyEvent(c: Codec, symbol: Symbol, h: History, at: Layout) returns (at': Layout)
    requires HistoryOk(c, symbol, h, at) && Enabled(c, symbol, h.machine, ReplyNext)
    ensures HistoryOk(c, symbol, Next(c, symbol, h, ReplyNext), at')
  {
    hide HistoryOk, Next;
    at' := at;
    if h.machine.phase.unreplied == [] {
      BatchDone(c, symbol, h, at);
    } else if h.machine.engine.failed {
      FailedReply(c, symbol, h, at);
    } else {
      at' := GoodReply(c, symbol, h, at);
    }
  }

  // --- Other symbols' activity -----------------------------------------------------------------------------

  lemma ElsewhereKeepsGuarded(a: HoldMap, b: HoldMap, symbol: Symbol, book: BookState, pending: seq<Order>)
    requires Guarded(a, symbol, book, pending) && OwnUntouched(a, b, symbol)
    ensures Guarded(b, symbol, book, pending)
  {
    hide WellFormed, UniqueIds, Ids, RestingIds;
    forall o | o in book.bids || o in book.asks || o in pending ensures Guard(b, o) {
      assert Guard(a, o) && Untouched(a, b, Key(o));
    }
  }

  lemma ElsewhereEvent(c: Codec, symbol: Symbol, h: History, at: Layout, st: State)
    requires HistoryOk(c, symbol, h, at) && Enabled(c, symbol, h.machine, Elsewhere(st))
    ensures HistoryOk(c, symbol, Next(c, symbol, h, Elsewhere(st)), at)
  {
    hide LogOk, TailOk, Sound, Guarded, HandedOk, RepliesOk, Replay, Accepted, Assigned, Records, Numbered,
         OwnUntouched;
    var m := h.machine;
    ElsewhereKeepsGuarded(m.accounts.holds, st.holds, symbol, m.engine.book, Pending(m.phase));
  }

  // --- Crashes and restarts --------------------------------------------------------------------------------------

  /** A crash leaves the synced log, then some of the records that were being logged or had failed to be. */
  lemma CrashLeavesDir(c: Codec, symbol: Symbol, w: Log, p: Parts, k: nat, log: seq<Record>, unanswered: seq<Record>,
                       extra: nat, cut: nat)
    returns (at': Layout)
    requires Faithful(c) && Durable(c, w, p, k) && CanCrash(w, cut) && AllWritable(c, p.current)
    requires |log| <= Kept(c, w, p) && TailOk(symbol, p.All(), log, unanswered, extra)
    ensures DownOk(c, symbol, CutLast(w.dir, cut), log, unanswered, at')
    ensures w.dir != [] && WAL_HEADER_SIZE <= cut <= |Last(w.dir).data|
    ensures at'.parts == p && at'.written == cut - WAL_HEADER_SIZE
  {
    hide Sane, Kept, OnDisk;
    var n := CrashKeepsSynced(c, w, p, k, cut);
    var whole := WholeParts(c, p, cut - WAL_HEADER_SIZE).All();
    assert whole == p.All()[..n] == log + unanswered[..n - |log|];
    at' := Layout(p, cut - WAL_HEADER_SIZE, n - |log|, |log|, 0);
  }

  lemma CrashEvent(c: Codec, symbol: Symbol, h: History, at: Layout, cut: nat) returns (at': Layout)
    requires Faithful(c) && HistoryOk(c, symbol, h, at) && Enabled(c, symbol, h.machine, Crash(cut))
    ensures HistoryOk(c, symbol, Next(c, symbol, h, Crash(cut)), at')
  {
    hide Sane, TailOk, Sound, Guarded, HandedOk, RepliesOk, Replay, Kept, Durable, OnDisk, Good, DownOk;
    var m := h.machine;
    at' := CrashLeavesDir(c, symbol, m.engine.wal, at.parts, at.written, h.log, h.unanswered, at.extra, cut);
    Answered(c, symbol, CutLast(m.engine.wal.dir, cut), h, at, at');
  }

  lemma Answered(c: Codec, symbol: Symbol, dir: Dir, h: History, at: Layout, at': Layout)
    requires DownOk(c, symbol, dir, h.log, h.unanswered, at')
    requires at.applied <= |h.log| && HandedOk(h.log[..at.applied], ReplyTrades(h.replies))
    ensures at'.applied == |h.log| && HandedOk(h.log[..at'.applied], ReplyTrades(h.replies))
  {
    hide HandedOk, OnDisk, TailOk;
    assert h.log[..|h.log|] == h.log;
    HandedStaysOkLater(h.log[..at.applied], h.log, ReplyTrades(h.replies));
  }

  /** The log when a crash comes while a batch is going to it, at any point before its sync returned. */
  lemma MidLogLayout(c: Codec, symbol: Symbol, h: History, at: Layout, ts: int, faults: seq<Fault>, tried: nat)
    returns (p: Parts, k: nat, j: nat)
    requires HistoryOk(c, symbol, h, at) && ReadyToLog(h.machine) && !h.machine.engine.failed
    requires RoomFor(h.machine.engine.seqNo, |h.machine.phase.reserved|) && IsInt64(ts)
    requires tried <= |h.machine.phase.reserved| == |faults|
    ensures var w := MidLog(c, h.machine, ts, faults, tried);
      && Durable(c, w, p, k) && AllWritable(c, p.current) && |h.log| <= Kept(c, w, p)
      && TailOk(symbol, p.All(), h.log, BatchRecords(h.machine, ts), j)
  {
    hide Sane, Sound, Guarded, LogWorks, Good, Durable, Kept, Records, HandedOk, RepliesOk, BookOk;
    var m := h.machine;
    var works := m.phase.reserved;
    BatchTail(c, symbol, h, at, ts);
    GoodPosition(c, m.engine.wal, at.parts);
    p, k, j := LogWorksEffect(c, m.engine.wal, at.parts, works[..tried], m.engine.seqNo, ts, faults[..tried]);
    RecordsOfPrefix(works, tried, m.engine.seqNo, ts);
    DurableIsSynced(c, MidLog(c, m, ts, faults, tried), p, k);
    assert Records(works[..tried], m.engine.seqNo, ts)[..j] == BatchRecords(m, ts)[..j];
  }

  lemma {:induction false} RecordsOfPrefix(works: seq<Work>, n: nat, seqNo: int, ts: int)
    requires n <= |works|
    ensures Records(works[..n], seqNo, ts) <= Records(works, seqNo, ts)
  {
    if n > 0 {
      assert works[..n][1..] == works[1..][..n - 1];
      RecordsOfPrefix(works[1..], n - 1, if IsLogged(works[0]) then seqNo + 1 else seqNo, ts);
    }
  }

  lemma CrashInLogEvent(c: Codec, symbol: Symbol, h: History, at: Layout, ts: int, faults: seq<Fault>, tried: nat,
                        cut: nat)
    returns (at': Layout)
    requires Faithful(c) && HistoryOk(c, symbol, h, at)
    requires Enabled(c, symbol, h.machine, CrashInLog(ts, faults, tried, cut))
    ensures HistoryOk(c, symbol, Next(c, symbol, h, CrashInLog(ts, faults, tried, cut)), at')
  {
    hide Sane, TailOk, Sound, Guarded, HandedOk, RepliesOk, Replay, Kept, Durable, OnDisk, Good, MidLog, Records,
         DownOk;
    var p, k, j := MidLogLayout(c, symbol, h, at, ts, faults, tried);
    var w := MidLog(c, h.machine, ts, faults, tried);
    at' := CrashLeavesDir(c, symbol, w, p, k, h.log, BatchRecords(h.machine, ts), j, cut);
    Answered(c, symbol, CutLast(w.dir, cut), h.(unanswered := BatchRecords(h.machine, ts)), at, at');
  }

  /** Restarting reads back exactly what the directory holds, and all of it is then answered from. */
  lemma RestartKeeps(c: Codec, symbol: Symbol, dir: Dir, log: seq<Record>, unanswered: seq<Record>, at: Layout,
                     maxBytes: int)
    returns (at': Layout)
    requires Faithful(c) && DownOk(c, symbol, dir, log, unanswered, at)
    ensures var all := log + unanswered[..at.extra]; var r := Restarted(c, dir, maxBytes);
      && r.Some? && ReadAll(c, dir) == (all, true)
      && LogOk(c, r.value, at'.parts, at'.written, all) && !r.value.failed && r.value.book == Replay(EmptyBook, all)
      && TailOk(symbol, at'.parts.All(), all, [], at'.extra) && at'.applied == |all|
  {
    hide Replay, OnDisk, ReadAll, OpenWriter, Kept, Sane;
    var p, k := at.parts, at.written;
    ReopenIsExact(c, dir, p, k, maxBytes);
    var q := WholeParts(c, p, k);
    var all := log + unanswered[..at.extra];
    SanePrefix(symbol, all, log + unanswered);
    var w := OpenWriter(c, dir, maxBytes).value;
    GoodIsDurable(c, w, q);
    GoodPosition(c, w, q);
    assert all[..|all|] == all && all + [] == all;
    at' := Layout(q, |Frames(c, q.current)|, 0, |all|, 0);
  }

  lemma RestartEvent(c: Codec, symbol: Symbol, h: History, at: Layout, st: State, maxBytes: int) returns (at': Layout)
    requires Faithful(c) && HistoryOk(c, symbol, h, at) && Enabled(c, symbol, h.machine, Restart(st, maxBytes))
    ensures var h' := Next(c, symbol, h, Restart(st, maxBytes));
      HistoryOk(c, symbol, h', at') && h'.log == h.log + h.unanswered[..at.extra]
  {
    hide Sane, LogOk, HandedOk, RepliesOk, Guarded, Sound, Restarted, ReadAll, Replay, OnDisk, WholeParts;
    at' := RestartKeeps(c, symbol, h.machine.dir, h.log, h.unanswered, at, maxBytes);
    var all := h.log + h.unanswered[..at.extra];
    assert all[..|all|] == all && h.log[..|h.log|] == h.log;
    HandedStaysOkLater(h.log, all, ReplyTrades(h.replies));
    RepliesStayOk(h.log, all, h.replies);
  }

  // --- Any event, any life -------------------------------------------------------------------------------------------

  /**
   * Every event keeps the history in order and only ever extends the log and the replies:
   * batches step by step, failed ones, crashes anywhere, restarts, and other symbols' activity.
   */
  lemma EventKeepsHistory(c: Codec, symbol: Symbol, h: History, at: Layout, event: Event) returns (at': Layout)
    requires Faithful(c) && HistoryOk(c, symbol, h, at) && Enabled(c, symbol, h.machine, event)
    ensures var h' := Next(c, symbol, h, event);
      HistoryOk(c, symbol, h', at') && h.log <= h'.log && h.replies <= h'.replies
  {
    hide HistoryOk, Sane, Guarded, Sound, MidLog, Restarted, ReadAll, CanCrash, Replay, Logged, ProcessWork, Records;
    at' := at;
    match event
    case Begin(batch) => BeginEvent(c, symbol, h, at, batch);
    case ReserveNext => ReserveEvent(c, symbol, h, at);
    case LogBatch(ts, faults, syncOk) => at' := LogEvent(c, symbol, h, at, ts, faults, syncOk);
    case ReplyNext => at' := ReplyEvent(c, symbol, h, at);
    case Elsewhere(st) => ElsewhereEvent(c, symbol, h, at, st);
    case Crash(cut) => at' := CrashEvent(c, symbol, h, at, cut);
    case CrashInLog(ts, faults, tried, cut) => at' := CrashInLogEvent(c, symbol, h, at, ts, faults, tried, cut);
    case Restart(st, maxBytes) => at' := RestartEvent(c, symbol, h, at, st, maxBytes);
  }

  /** A symbol that has never traded: nothing logged, nobody answered. */
  function Beginning(c: Codec, st: State, maxBytes: int): History {
    var w := OpenWriter(c, [], maxBytes).value;
    History(Up(Engine(EmptyBook, w, w.lastSeq, 0, false), st, Idle), [], [], [])
  }

  const FirstLayout := Layout(Parts([], []), 0, 0, 0, 0)

  lemma BeginningIsOk(c: Codec, symbol: Symbol, st: State, maxBytes: int)
    requires Sound(st)
    ensures HistoryOk(c, symbol, Beginning(c, st, maxBytes), FirstLayout)
    ensures Restarted(c, [], maxBytes) == Some(Beginning(c, st, maxBytes).machine.engine)
  {
    hide Sound, Frames, OpenWriter;
    FirstOpen(c, maxBytes);
    EmptyFrames(c);
    GoodIsDurable(c, OpenWriter(c, [], maxBytes).value, Parts([], []));
  }

  ghost predicate CanLive(c: Codec, symbol: Symbol, h: History, events: seq<Event>)
    decreases |events|
  {
    events == []
    || (Enabled(c, symbol, h.machine, events[0]) && CanLive(c, symbol, Next(c, symbol, h, events[0]), events[1..]))
  }

  function Lived(c: Codec, symbol: Symbol, h: History, events: seq<Event>): History
    requires CanLive(c, symbol, h, events)
    decreases |events|
  {
    if events == [] then h else Lived(c, symbol, Next(c, symbol, h, events[0]), events[1..])
  }

  /** Over any life the log and the replies only grow, and stay in order. */
  lemma {:induction false} LifeKeepsHistory(c: Codec, symbol: Symbol, h: History, at: Layout, events: seq<Event>)
    returns (at': Layout)
    requires Faithful(c) && HistoryOk(c, symbol, h, at) && CanLive(c, symbol, h, events)
    ensures var h' := Lived(c, symbol, h, events);
      HistoryOk(c, symbol, h', at') && h.log <= h'.log && h.replies <= h'.replies
    decreases |events|
  {
    hide HistoryOk, Enabled, Next;
    at' := at;
    if events != [] {
      at' := EventKeepsHistory(c, symbol, h, at, events[0]);
      at' := LifeKeepsHistory(c, symbol, Next(c, symbol, h, events[0]), at', events[1..]);
    }
  }

  lemma {:induction false} LifeJoin(c: Codec, symbol: Symbol, h: History, a: seq<Event>, b: seq<Event>)
    requires CanLive(c, symbol, h, a) && CanLive(c, symbol, Lived(c, symbol, h, a), b)
    ensures CanLive(c, symbol, h, a + b) && Lived(c, symbol, h, a + b) == Lived(c, symbol, Lived(c, symbol, h, a), b)
    decreases |a|
  {
    hide Enabled, Next;
    if a == [] {
      assert a + b == b;
    } else {
      LifeJoin(c, symbol, Next(c, symbol, h, a[0]), a[1..], b);
      assert (a + b)[0] == a[0] && (a + b)[1..] == a[1..] + b;
    }
  }

  lemma OneEvent(c: Codec, symbol: Symbol, h: History, event: Event)
    requires Enabled(c, symbol, h.machine, event)
    ensures CanLive(c, symbol, h, [event]) && Lived(c, symbol, h, [event]) == Next(c, symbol, h, event)
  {
    hide Enabled, Next;
    assert [event][1..] == [];
    assert CanLive(c, symbol, Next(c, symbol, h, event), [event][1..]);
  }
}
