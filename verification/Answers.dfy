/** What every caller is told: over any life, exactly what the log, the book and the accounts say. */
module Answers {
  import opened Types
  import opened Matching
  import opened Snapshots
  import opened AccountState
  import opened Holds
  import opened LiveHolds
  import opened LiveIds
  import opened Commit
  import opened Framing
  import opened Wal
  import opened GroupCommit
  import opened Durability

  // --- One request -----------------------------------------------------------------------------------

  /** An order resting under this id. */
  predicate Rests(book: BookState, o: Order, id: SeqID) {
    (o in book.bids || o in book.asks) && o.id == id
  }

  /**
   * What a mutation's caller is owed on the book it meets. A submit of known side and type is done,
   * and its outcome is the book's; a cancel is done if the id rests and the caller may cancel it.
   */
  ghost predicate AnswersMutation(book: BookState, op: Mutation, r: Reply) {
    && r.snapshot.None?
    && match op
       case SubmitOrder(o) =>
         && r.orderId == o.id
         && (if o.side != UnknownSide && o.kind != UnknownType
             then r.err.None? && Submit(book, o).1 == Some(r.outcome)
             else r.err == Some(UnknownSideOrType) && r.outcome == NoOutcome)
       case CancelOrder(id, who) =>
         && r.outcome == NoOutcome
         && (r.err.None? <==> exists o :: Rests(book, o, id) && (who == "" || o.placer == who))
         && (r.err == Some(CancelRefused(OrderNotFound)) <==> forall o :: !Rests(book, o, id))
         && (r.err == Some(CancelRefused(NotOrderOwner)))
              == (exists o :: Rests(book, o, id) && who != "" && o.placer != who)
  }

  /** What any caller is owed: a snapshot, the pre-trade check's reason, the log's failure, or the mutation's answer. */
  ghost predicate AnswersWork(book: BookState, position: int, w: Work, failed: bool, r: Reply) {
    if w.request.SnapshotRequest? then
      r.err.None? && r.outcome == NoOutcome && r.seqNo == position && r.snapshot == Some(SnapshotOf(book))
    else
      && r.seqNo == w.seqNo && (w.request.SubmitRequest? ==> r.orderId == w.request.order.id)
      && if w.preErr.Some? then r.err == Some(Rejected(w.preErr.value)) && r.outcome == NoOutcome && r.snapshot.None?
         else if failed then r.err == Some(LogFailed) && r.outcome == NoOutcome && r.snapshot.None?
         else AnswersMutation(book, MutationOf(w.request), r)
  }

  lemma CancelAnswers(book: BookState, id: SeqID, who: Account, reply: Reply, v: Venue, symbol: Symbol)
    requires WellFormed(book) && v.book == book
    requires reply.err.None? && reply.snapshot.None? && reply.outcome == NoOutcome
    ensures AnswersMutation(book, CancelOrder(id, who), ProcessCancel(v, symbol, id, who, reply).1)
  {
    hide WellFormed, Release, Cancel, FindResting, Without;
    CancelSucceedsIff(book, id, who);
    CancelRefusesIff(book, id, who);
    RestingIdRests(book, id);
    var r := ProcessCancel(v, symbol, id, who, reply).1;
    assert r.err.None? <==> Cancel(book, id, who).1.None?;
    assert (exists o :: Rests(book, o, id) && (who == "" || o.placer == who))
      <==> exists o :: (o in book.bids || o in book.asks) && o.id == id && (who == "" || o.placer == who);
    assert (exists o :: Rests(book, o, id) && who != "" && o.placer != who)
      <==> exists o :: (o in book.bids || o in book.asks) && o.id == id && who != "" && o.placer != who;
  }

  lemma RestingIdRests(book: BookState, id: SeqID)
    ensures id !in RestingIds(book) <==> forall o :: !Rests(book, o, id)
  {
    if id in RestingIds(book) {
      var o :| (o in book.bids || o in book.asks) && o.id == id;
      assert Rests(book, o, id);
    }
  }

  lemma SubmitAnswers(v: Venue, symbol: Symbol, o: Order, reply: Reply)
    requires reply.err.None? && reply.snapshot.None? && reply.outcome == NoOutcome && reply.orderId == o.id
    ensures AnswersMutation(v.book, SubmitOrder(o), ProcessSubmit(v, symbol, o, o.id, reply).1)
  {
    hide Submit, Release, Complete;
    SubmitTakesIff(v.book, o);
  }

  /** Every request's turn answers its caller so. */
  lemma TurnAnswers(v: Venue, symbol: Symbol, w: Work, failed: bool, position: int)
    requires WellFormed(v.book) && Assigned(symbol, [w])
    ensures AnswersWork(v.book, position, w, failed, ProcessWork(v, symbol, w, failed, position).1)
  {
    hide WellFormed, AnswersMutation, Release, ProcessCancel, ProcessSubmit;
    assert [w][0] == w;
    var reply := Reply(w.seqNo, w.orderId, None, NoOutcome, None);
    if !w.request.SnapshotRequest? && w.preErr.None? && !failed {
      match w.request
      case CancelRequest(id, who) =>
        CancelAnswers(v.book, id, who, reply, v, symbol);
        CancelKeepsNumber(v, symbol, id, who, reply);
      case SubmitRequest(o) =>
        SubmitAnswers(v, symbol, o, reply);
        SubmitKeepsNumber(v, symbol, o, reply);
    }
  }

  lemma CancelKeepsNumber(v: Venue, symbol: Symbol, id: SeqID, who: Account, reply: Reply)
    ensures var r := ProcessCancel(v, symbol, id, who, reply).1; r.seqNo == reply.seqNo && r.orderId == reply.orderId
  {
    hide Cancel, Release;
  }

  lemma SubmitKeepsNumber(v: Venue, symbol: Symbol, o: Order, reply: Reply)
    ensures var r := ProcessSubmit(v, symbol, o, o.id, reply).1; r.seqNo == reply.seqNo && r.orderId == reply.orderId
  {
    hide Submit, Release, Complete;
  }

  // --- A batch ----------------------------------------------------------------------------------------

  /** Request i of a batch is answered on the book that the records before it replay to. */
  lemma {:induction false} BatchAnswers(v: Venue, symbol: Symbol, works: seq<Work>, at: int, seqNo: int, ts: int,
                                        i: nat)
    requires Sound(v.accounts) && Guarded(v.accounts.holds, symbol, v.book, Accepted(works))
    requires Assigned(symbol, works) && i < |works|
    ensures var replies := ProcessAll(v, symbol, works, false, at).1;
      && |replies| == |works|
      && AnswersWork(Replay(v.book, Records(works[..i], seqNo, ts)), at, works[i], false, replies[i])
    decreases |works|
  {
    hide Sound, Guarded, ProcessWork, CanApply, ApplyRecord, RecordTrades, AnswersWork, Assigned;
    var w, rest := works[0], works[1..];
    assert works == [w] + rest;
    AssignedCons(symbol, w, rest);
    RepliesMatch(v, symbol, works, false, at);
    var n := if IsLogged(w) then seqNo + 1 else seqNo;
    ProcessedLikeRecord(v, symbol, w, rest, at, n, ts);
    var v1 := ProcessWork(v, symbol, w, false, at).0;
    if i == 0 {
      GuardedBookIsWellFormed(v.accounts.holds, symbol, v.book, Accepted(works));
      TurnAnswers(v, symbol, w, false, at);
      assert works[..0] == [];
    } else {
      BatchAnswers(v1, symbol, rest, at, n, ts, i - 1);
      assert works[..i][1..] == rest[..i - 1];
      if IsLogged(w) {
        var rec := Record(n, ts, MutationOf(w.request));
        assert Records(works[..i], seqNo, ts) == [rec] + Records(rest[..i - 1], n, ts);
        assert ([rec] + Records(rest[..i - 1], n, ts))[1..] == Records(rest[..i - 1], n, ts);
      }
    }
  }

  lemma {:induction false} RepliesMatch(v: Venue, symbol: Symbol, works: seq<Work>, failed: bool, at: int)
    ensures |ProcessAll(v, symbol, works, failed, at).1| == |works|
    decreases |works|
  {
    hide ProcessWork;
    if works != [] { RepliesMatch(ProcessWork(v, symbol, works[0], failed, at).0, symbol, works[1..], failed, at); }
  }

  lemma GuardedBookIsWellFormed(holds: HoldMap, symbol: Symbol, book: BookState, pending: seq<Order>)
    requires Guarded(holds, symbol, book, pending)
    ensures WellFormed(book)
  {
  }

  // --- A life -----------------------------------------------------------------------------------------

  /** A request is about to be answered. */
  predicate AboutToReply(m: Machine) {
    m.Up? && m.phase.Replying? && m.phase.unreplied != []
  }

  /** How many records of the log the book has been given. */
  function Applied(h: History): int {
    if h.machine.Up? && h.machine.phase.Replying? && !h.machine.engine.failed
    then |h.log| - |Records(h.machine.phase.unreplied, 0, 0)| else |h.log|
  }

  lemma {:induction false} SameCount(works: seq<Work>, a: int, b: int, x: int, y: int)
    ensures |Records(works, a, x)| == |Records(works, b, y)|
  {
    if works != [] { SameCount(works[1..], if IsLogged(works[0]) then a + 1 else a,
                               if IsLogged(works[0]) then b + 1 else b, x, y); }
  }

  lemma AppliedIs(c: Codec, symbol: Symbol, h: History, at: Durability.Layout)
    requires HistoryOk(c, symbol, h, at)
    ensures Applied(h) == at.applied && 0 <= Applied(h) <= |h.log|
    ensures h.machine.Up? ==> h.machine.engine.book == Replay(EmptyBook, h.log[..Applied(h)])
  {
    hide LogOk, TailOk, Sound, Guarded, HandedOk, RepliesOk, Replay, Records, OnDisk;
    if h.machine.Up? && h.machine.phase.Replying? {
      SameCount(h.machine.phase.unreplied, 0, at.applied, 0, at.ts);
    }
  }

  /**
   * The next reply of any history is one more, and answers its request exactly: on the book the log
   * replays to so far, and, if it is a mutation's, as the record the log holds at its position.
   */
  lemma ReplyIsExact(c: Codec, symbol: Symbol, h: History, at: Durability.Layout)
    requires HistoryOk(c, symbol, h, at) && AboutToReply(h.machine)
    ensures var h' := Next(c, symbol, h, ReplyNext); var w := h.machine.phase.unreplied[0];
      var n := Applied(h); var failed := h.machine.engine.failed;
      && 0 <= n <= |h.log| && |h'.replies| == |h.replies| + 1 && h'.replies[..|h.replies|] == h.replies
      && AnswersWork(Replay(EmptyBook, h.log[..n]), |h.log|, w, failed, h'.replies[|h.replies|])
      && (if !failed && IsLogged(w)
          then n < |h.log| && h.log[n].op == MutationOf(w.request) && h'.replies[|h.replies|].seqNo == n + 1
                 && Applied(h') == n + 1
          else Applied(h') == n)
  {
    hide TailOk, Sound, Guarded, HandedOk, RepliesOk, Replay, ProcessWork, Assigned, AnswersWork, Good, Durable,
         Kept, Accepted;
    AppliedIs(c, symbol, h, at);
    var Up(e, st, phase) := h.machine;
    var w, rest := phase.unreplied[0], phase.unreplied[1..];
    assert phase.unreplied == [w] + rest;
    AssignedCons(symbol, w, rest);
    GuardedBookIsWellFormed(st.holds, symbol, e.book, Pending(phase));
    TurnAnswers(Venue(e.book, st), symbol, w, e.failed, e.seqNo);
    SameCount(rest, 0, 1, 0, 0);
    SameCount(rest, 0, at.applied + 1, 0, at.ts);
    if !e.failed && IsLogged(w) {
      assert h.log[at.applied..][0] == h.log[at.applied];
      RepliesNumber(e.book, e.seqNo, w, ProcessWork(Venue(e.book, st), symbol, w, false, e.seqNo).1);
    }
  }

  lemma RepliesNumber(book: BookState, position: int, w: Work, r: Reply)
    requires AnswersWork(book, position, w, false, r) && IsLogged(w)
    ensures r.seqNo == w.seqNo && AnswersMutation(book, MutationOf(w.request), r)
  {
  }

  /** Nothing else replies, and nothing but replying, a crash or a restart gives the book more of the log. */
  lemma OthersSayNothing(c: Codec, symbol: Symbol, h: History, event: Event)
    requires Enabled(c, symbol, h.machine, event) && !(event.ReplyNext? && AboutToReply(h.machine))
    ensures var h' := Next(c, symbol, h, event);
      && h'.replies == h.replies
      && (h.machine.Up? && h'.machine.Up? ==> Applied(h') == Applied(h))
      && (h.machine.Up? && h'.machine.Down? ==> Applied(h') == |h.log| && (event.Crash? || event.CrashInLog?))
      && (h.machine.Down? ==> event.Restart? && h'.machine.Up? && Applied(h) == |h.log|)
  {
    hide Sound, Guarded, AssignAll, ReserveWork, LogWorks, MidLog, Restarted, ReadAll, Replay, CanCrash, CutLast,
         ProcessWork, Records, OwnUntouched;
    match event
    case LogBatch(ts, faults, syncOk) =>
      var m := h.machine;
      SameWorksSelf(m.phase.reserved);
      LoggingKeepsWorks(c, m.engine.wal, m.phase.reserved, m.engine.seqNo, ts, faults);
      var ws := Logged(c, m.engine, m.phase.reserved, ts, faults, syncOk).1;
      SameWorksSameRecords(m.phase.reserved, ws, m.engine.seqNo, ts);
      SameCount(ws, 0, m.engine.seqNo, 0, ts);
    case ReplyNext => NoRecords();
    case _ =>
  }

  lemma NoRecords()
    ensures Records([], 0, 0) == []
  {
  }

  /** The life so far, after each event. */
  lemma {:induction false} LifeUpTo(c: Codec, symbol: Symbol, h: History, events: seq<Event>, k: nat)
    requires CanLive(c, symbol, h, events) && k <= |events|
    ensures CanLive(c, symbol, h, events[..k])
    ensures k < |events| ==>
      && Enabled(c, symbol, Lived(c, symbol, h, events[..k]).machine, events[k])
      && CanLive(c, symbol, h, events[..k + 1])
      && Lived(c, symbol, h, events[..k + 1]) == Next(c, symbol, Lived(c, symbol, h, events[..k]), events[k])
    decreases k
  {
    hide Enabled, Next;
    if k > 0 {
      LifeUpTo(c, symbol, Next(c, symbol, h, events[0]), events[1..], k - 1);
      assert events[..k][1..] == events[1..][..k - 1];
      if k < |events| { assert events[..k + 1][1..] == events[1..][..k]; }
    } else if |events| > 0 {
      OneEvent(c, symbol, h, events[0]);
      assert events[..1] == [events[0]];
    }
  }

  /** At event k the caller of record i is answered, or a crash comes before it is. */
  ghost predicate SettlesRecord(c: Codec, symbol: Symbol, h0: History, events: seq<Event>, i: int, k: nat) {
    && k < |events| && CanLive(c, symbol, h0, events[..k])
    && var h := Lived(c, symbol, h0, events[..k]);
       || (events[k].ReplyNext? && AboutToReply(h.machine) && !h.machine.engine.failed
           && IsLogged(h.machine.phase.unreplied[0]) && Applied(h) == i)
       || ((events[k].Crash? || events[k].CrashInLog?) && Applied(h) <= i)
  }

  lemma {:induction false} SettlesSnoc(c: Codec, symbol: Symbol, h0: History, events: seq<Event>, e: Event, i: int,
                                       k: nat)
    requires SettlesRecord(c, symbol, h0, events, i, k)
    ensures SettlesRecord(c, symbol, h0, events + [e], i, k) && (events + [e])[k] == events[k]
  {
    hide CanLive, Lived, Applied;
    assert (events + [e])[..k] == events[..k];
  }

  /** Every record the book has been given is answered at some event, unless a crash came first. */
  lemma {:induction false} EveryRecordIsSettled(c: Codec, symbol: Symbol, h0: History, at: Durability.Layout,
                                                events: seq<Event>, i: nat)
    returns (k: nat)
    requires Faithful(c) && HistoryOk(c, symbol, h0, at) && h0.machine.Up? && h0.log == []
    requires CanLive(c, symbol, h0, events)
    requires var h := Lived(c, symbol, h0, events); h.machine.Up? ==> i < Applied(h)
    ensures SettlesRecord(c, symbol, h0, events, i, k)
    decreases |events|
  {
    hide HistoryOk, Enabled, Next, Applied, SettlesRecord, AboutToReply;
    k := 0;
    if events == [] {
      AppliedIs(c, symbol, h0, at);
    } else {
      var n := |events| - 1;
      var init, e := events[..n], events[n];
      assert init + [e] == events && events[..n + 1] == events;
      LifeUpTo(c, symbol, h0, events, n);
      var at1 := LifeKeepsHistory(c, symbol, h0, at, init);
      var h := Lived(c, symbol, h0, init);
      AppliedIs(c, symbol, h, at1);
      NextSettles(c, symbol, h0, events, n, h, at1, i);
      if SettlesRecord(c, symbol, h0, events, i, n) {
        k := n;
      } else {
        k := EveryRecordIsSettled(c, symbol, h0, at, init, i);
        SettlesSnoc(c, symbol, h0, init, e, i, k);
      }
    }
  }

  /** What the last event adds to the book's records it answers, or a crash cuts off. */
  lemma {:induction false} NextSettles(c: Codec, symbol: Symbol, h0: History, events: seq<Event>, n: nat, h: History,
                                       at: Durability.Layout, i: nat)
    requires n < |events| && CanLive(c, symbol, h0, events[..n]) && h == Lived(c, symbol, h0, events[..n])
    requires HistoryOk(c, symbol, h, at) && Enabled(c, symbol, h.machine, events[n])
    requires var h' := Next(c, symbol, h, events[n]); h'.machine.Up? ==> i < Applied(h')
    ensures SettlesRecord(c, symbol, h0, events, i, n) || (h.machine.Up? ==> i < Applied(h))
  {
    hide HistoryOk, Enabled, Next, Applied, CanLive, Lived, AnswersWork;
    if events[n].ReplyNext? && AboutToReply(h.machine) {
      ReplyIsExact(c, symbol, h, at);
      ReplyingStaysUp(c, symbol, h);
    } else {
      OthersSayNothing(c, symbol, h, events[n]);
    }
  }

  lemma ReplyingStaysUp(c: Codec, symbol: Symbol, h: History)
    requires AboutToReply(h.machine)
    ensures Enabled(c, symbol, h.machine, ReplyNext) && Next(c, symbol, h, ReplyNext).machine.Up?
  {
    hide ProcessWork;
  }

  /** This reply is to this record of the log. */
  ghost predicate AnswersRecord(log: seq<Record>, i: nat, r: Reply)
    requires i < |log|
  {
    r.seqNo == i + 1 && AnswersMutation(Replay(EmptyBook, log[..i]), log[i].op, r)
  }

  lemma RepliesPrefix(a: seq<Reply>, b: seq<Reply>, n: nat)
    requires a <= b && n < |a|
    ensures b[n] == a[n]
  {
  }

  /**
   * Over any life, every record of the log the book has been given was answered, exactly, by a reply
   * of its own, unless a crash came before it could be.
   */
  lemma EveryRecordIsAnswered(c: Codec, symbol: Symbol, st: State, maxBytes: int, events: seq<Event>, i: nat)
    returns (k: nat)
    requires Faithful(c) && Sound(st) && CanLive(c, symbol, Beginning(c, st, maxBytes), events)
    requires var h := Lived(c, symbol, Beginning(c, st, maxBytes), events); h.machine.Up? && i < Applied(h) <= |h.log|
    ensures k < |events| && CanLive(c, symbol, Beginning(c, st, maxBytes), events[..k])
    ensures var h0 := Beginning(c, st, maxBytes); var h := Lived(c, symbol, h0, events);
      var hk := Lived(c, symbol, h0, events[..k]);
      || ((events[k].Crash? || events[k].CrashInLog?) && Applied(hk) <= i)
      || (|hk.replies| < |h.replies| && AnswersRecord(h.log, i, h.replies[|hk.replies|]))
  {
    hide HistoryOk, Enabled, Next, Applied, Beginning, Sound, CanLive, Lived, AnswersMutation, AnswersWork;
    var h0 := Beginning(c, st, maxBytes);
    BeginningIsOk(c, symbol, st, maxBytes);
    BeginningIsUp(c, st, maxBytes);
    k := EveryRecordIsSettled(c, symbol, h0, FirstLayout, events, i);
    LifeUpTo(c, symbol, h0, events, k);
    var hk := Lived(c, symbol, h0, events[..k]);
    if events[k].ReplyNext? {
      var at := LifeKeepsHistory(c, symbol, h0, FirstLayout, events[..k]);
      ReplyIsExact(c, symbol, hk, at);
      LifeGrows(c, symbol, h0, FirstLayout, events, k + 1);
      LifeGrows(c, symbol, h0, FirstLayout, events, k);
      var h, h1 := Lived(c, symbol, h0, events), Next(c, symbol, hk, ReplyNext);
      RepliesPrefix(h1.replies, h.replies, |hk.replies|);
      assert h.log[..i] == hk.log[..i];
      LoggedAnswer(Replay(EmptyBook, hk.log[..i]), |hk.log|, hk.machine.phase.unreplied[0], h1.replies[|hk.replies|]);
    }
  }

  lemma LoggedAnswer(book: BookState, position: int, w: Work, r: Reply)
    requires AnswersWork(book, position, w, false, r) && IsLogged(w)
    ensures AnswersMutation(book, MutationOf(w.request), r)
  {
  }

  lemma BeginningIsUp(c: Codec, st: State, maxBytes: int)
    ensures Beginning(c, st, maxBytes).machine.Up? && Beginning(c, st, maxBytes).log == []
  {
  }

  lemma {:induction false} LifeGrows(c: Codec, symbol: Symbol, h0: History, at: Durability.Layout, events: seq<Event>,
                                     k: nat)
    requires Faithful(c) && HistoryOk(c, symbol, h0, at) && CanLive(c, symbol, h0, events) && k <= |events|
    ensures CanLive(c, symbol, h0, events[..k])
    ensures var a, b := Lived(c, symbol, h0, events[..k]), Lived(c, symbol, h0, events);
      a.log <= b.log && a.replies <= b.replies
    decreases |events|
  {
    hide HistoryOk, Enabled, Next;
    if k == 0 {
      var at1 := LifeKeepsHistory(c, symbol, h0, at, events);
    } else {
      var at1 := EventKeepsHistory(c, symbol, h0, at, events[0]);
      LifeGrows(c, symbol, Next(c, symbol, h0, events[0]), at1, events[1..], k - 1);
      assert events[..k][1..] == events[1..][..k - 1];
    }
  }

  // --- The pre-trade check's verdict ---------------------------------------------------------------------

  /** The requests of the batch under way that have been checked. */
  function Checked(m: Machine): seq<Work> {
    if m.Down? then []
    else match m.phase
      case Idle => []
      case Reserving(reserved, _) => reserved
      case Replying(unreplied) => unreplied
  }

  /** At event k this request was checked, and this is what the accounts said then. */
  ghost predicate CheckedAt(c: Codec, symbol: Symbol, h0: History, events: seq<Event>, w: Work, k: nat) {
    && k < |events| && CanLive(c, symbol, h0, events[..k]) && events[k].ReserveNext?
    && var m := Lived(c, symbol, h0, events[..k]).machine;
    && m.Up? && m.phase.Reserving? && m.phase.unreserved != [] && m.phase.unreserved[0].request == w.request
    && w.preErr == if w.request.SubmitRequest? then Reserve(m.accounts, w.request.order).1
                   else m.phase.unreserved[0].preErr
  }

  lemma {:induction false} CheckedSnoc(c: Codec, symbol: Symbol, h0: History, events: seq<Event>, e: Event, w: Work,
                                       k: nat)
    requires CheckedAt(c, symbol, h0, events, w, k)
    ensures CheckedAt(c, symbol, h0, events + [e], w, k)
  {
    hide CanLive, Lived, Reserve;
    assert (events + [e])[..k] == events[..k];
  }

  /** Whatever is checked after an event was checked by it, or before it with the same verdict. */
  lemma CheckedStep(c: Codec, symbol: Symbol, h: History, e: Event, w: Work) returns (w': Work)
    requires Enabled(c, symbol, h.machine, e) && w in Checked(Next(c, symbol, h, e).machine)
    ensures w'.request == w.request && w'.preErr == w.preErr
    ensures w' in Checked(h.machine)
      || (e.ReserveNext? && w' == ReserveWork(h.machine.accounts, h.machine.phase.unreserved[0]).1)
  {
    hide Sound, Guarded, AssignAll, Reserve, LogWorks, MidLog, Restarted, ReadAll, Replay, CanCrash, CutLast,
         ProcessWork, Records, OwnUntouched;
    w' := w;
    match e
    case LogBatch(ts, faults, syncOk) =>
      var m := h.machine;
      SameWorksSelf(m.phase.reserved);
      LoggingKeepsWorks(c, m.engine.wal, m.phase.reserved, m.engine.seqNo, ts, faults);
      var ws := Logged(c, m.engine, m.phase.reserved, ts, faults, syncOk).1;
      var j :| 0 <= j < |ws| && ws[j] == w;
      w' := m.phase.reserved[j];
    case _ =>
  }

  /** Every request awaiting its answer carries the verdict the accounts gave it when it was checked. */
  lemma {:induction false} VerdictIsReserves(c: Codec, symbol: Symbol, h0: History, events: seq<Event>, w: Work)
    returns (k: nat)
    requires CanLive(c, symbol, h0, events) && Checked(h0.machine) == []
    requires w in Checked(Lived(c, symbol, h0, events).machine)
    ensures CheckedAt(c, symbol, h0, events, w, k)
    decreases |events|
  {
    hide Enabled, Next, Checked, Reserve;
    var n := |events| - 1;
    var init, e := events[..n], events[n];
    assert init + [e] == events && events[..n + 1] == events;
    LifeUpTo(c, symbol, h0, events, n);
    var h := Lived(c, symbol, h0, init);
    var w' := CheckedStep(c, symbol, h, e, w);
    if w' in Checked(h.machine) {
      k := VerdictIsReserves(c, symbol, h0, init, w');
      CheckedSnoc(c, symbol, h0, init, e, w', k);
    } else {
      k := n;
      ReserveNextIs(c, symbol, h, e);
    }
  }

  lemma ReserveNextIs(c: Codec, symbol: Symbol, h: History, e: Event)
    requires Enabled(c, symbol, h.machine, e) && e.ReserveNext?
    ensures h.machine.Up? && h.machine.phase.Reserving? && h.machine.phase.unreserved != []
  {
  }

  /**
   * Over any life, whoever is answered next is answered exactly: on the book the log replays to so
   * far, with the verdict the accounts gave when the request was checked at event j.
   */
  lemma EveryReplyIsExact(c: Codec, symbol: Symbol, st: State, maxBytes: int, events: seq<Event>) returns (j: nat)
    requires Faithful(c) && Sound(st) && CanLive(c, symbol, Beginning(c, st, maxBytes), events)
    requires AboutToReply(Lived(c, symbol, Beginning(c, st, maxBytes), events).machine)
    ensures var h0 := Beginning(c, st, maxBytes); var h := Lived(c, symbol, h0, events);
      var h' := Next(c, symbol, h, ReplyNext); var w := h.machine.phase.unreplied[0];
      && 0 <= Applied(h) <= |h.log| && |h'.replies| == |h.replies| + 1
      && AnswersWork(Replay(EmptyBook, h.log[..Applied(h)]), |h.log|, w, h.machine.engine.failed,
                     h'.replies[|h.replies|])
      && CheckedAt(c, symbol, h0, events, w, j)
  {
    hide HistoryOk, Applied, Beginning, Sound, CanLive, Lived, AnswersWork, CheckedAt;
    var h0 := Beginning(c, st, maxBytes);
    BeginningIsOk(c, symbol, st, maxBytes);
    NothingChecked(c, st, maxBytes);
    var at := LifeKeepsHistory(c, symbol, h0, FirstLayout, events);
    var h := Lived(c, symbol, h0, events);
    ReplyIsExact(c, symbol, h, at);
    j := VerdictIsReserves(c, symbol, h0, events, h.machine.phase.unreplied[0]);
  }

  lemma NothingChecked(c: Codec, st: State, maxBytes: int)
    ensures Checked(Beginning(c, st, maxBytes).machine) == []
  {
  }
}
