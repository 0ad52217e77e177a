/**
 * One symbol's whole commit against its log, as a function: what reaches the log
 * and how much of it is synced, what the book becomes, and what every caller is
 * told. Processing the batch is shown to be replaying its records, and a failed
 * log write to leave its requests nothing but the release of their holds.
 */
module GroupCommit {
  import opened Types
  import opened Matching
  import opened Snapshots
  import opened AccountState
  import opened Guards
  import opened Holds
  import opened LiveIds
  import opened Commit
  import opened Framing
  import opened Wal

  /** What one symbol's sequencer goroutine owns. */
  datatype Engine = Engine(book: BookState, wal: Log, seqNo: int, nextOrderId: SeqID, failed: bool)

  /** Positions stay within 64 bits while this many more are used. */
  predicate RoomFor(seqNo: int, n: nat) {
    IsInt64(seqNo) && seqNo + n < TWO_63
  }

  /** Append the record of each logged request in turn, stopping at the first failure. */
  function LogWorks(c: Codec, w: Log, works: seq<Work>, seqNo: int, ts: int, faults: seq<Fault>)
    : (Log, seq<Work>, int, bool)
    requires RoomFor(seqNo, |works|) && IsInt64(ts) && |faults| == |works|
    decreases |works|
  {
    if works == [] then (w, [], seqNo, true)
    else if !IsLogged(works[0]) then
      var (w', ws, n, ok) := LogWorks(c, w, works[1..], seqNo, ts, faults[1..]);
      (w', [works[0]] + ws, n, ok)
    else
      var head := works[0].(seqNo := seqNo + 1);
      var (w1, ok1) := Append(c, w, Record(seqNo + 1, ts, MutationOf(works[0].request)), faults[0]);
      if !ok1 then (w1, [head] + works[1..], seqNo + 1, false)
      else
        var (w', ws, n, ok) := LogWorks(c, w1, works[1..], seqNo + 1, ts, faults[1..]);
        (w', [head] + ws, n, ok)
  }

  /** The whole batch is one sync: nothing is durable until it succeeds. */
  function LogBatch(c: Codec, w: Log, works: seq<Work>, seqNo: int, ts: int, faults: seq<Fault>, syncOk: bool)
    : (Log, seq<Work>, int, bool)
    requires RoomFor(seqNo, |works|) && IsInt64(ts) && |faults| == |works|
  {
    var (w1, ws, n, ok) := LogWorks(c, w, works, seqNo, ts, faults);
    if !ok then (w1, ws, n, false)
    else
      var (w2, synced) := Sync(w1, syncOk);
      (w2, ws, n, synced)
  }

  lemma {:induction false} ReserveAllKeepsLength(st: State, works: seq<Work>)
    ensures |ReserveAll(st, works).1| == |works|
    decreases |works|
  {
    if works != [] { ReserveAllKeepsLength(ReserveWork(st, works[0]).0, works[1..]); }
  }

  lemma {:induction false} AssignAllKeepsLength(symbol: Symbol, batch: seq<Request>, nextId: SeqID)
    ensures |AssignAll(symbol, batch, nextId).0| == |batch|
  {
    AssignAllAssigns(symbol, batch, nextId);
  }

  /** The batch with ids assigned and the pre-trade check done. */
  function Prepared(symbol: Symbol, e: Engine, st: State, batch: seq<Request>): (r: (State, seq<Work>))
    ensures |r.1| == |batch|
  {
    var works := AssignAll(symbol, batch, e.nextOrderId).0;
    AssignAllKeepsLength(symbol, batch, e.nextOrderId);
    ReserveAllKeepsLength(st, works);
    ReserveAll(st, works)
  }

  /** The log's part of a commit: skipped once the log has failed, and undone in the counter if it fails now. */
  function Logged(c: Codec, e: Engine, works: seq<Work>, ts: int, faults: seq<Fault>, syncOk: bool): (Engine, seq<Work>)
    requires RoomFor(e.seqNo, |works|) && IsInt64(ts) && |faults| == |works|
  {
    if e.failed then (e, works)
    else
      var (w, ws, n, ok) := LogBatch(c, e.wal, works, e.seqNo, ts, faults, syncOk);
      (e.(wal := w, seqNo := if ok then n else e.seqNo, failed := !ok), ws)
  }

  /** A whole commit: assign, reserve, log and sync, then process and answer every request. */
  function CommitBatch(c: Codec, symbol: Symbol, e: Engine, st: State, batch: seq<Request>,
                       ts: int, faults: seq<Fault>, syncOk: bool): (Engine, State, seq<Reply>)
    requires RoomFor(e.seqNo, |batch|) && IsInt64(ts) && |faults| == |batch|
  {
    var (st1, works) := Prepared(symbol, e, st, batch);
    var (e1, ws) := Logged(c, e, works, ts, faults, syncOk);
    var (v, replies) := ProcessAll(Venue(e.book, st1), symbol, ws, e1.failed, e1.seqNo);
    (e1.(book := v.book, nextOrderId := AssignAll(symbol, batch, e.nextOrderId).1), v.accounts, replies)
  }

  // --- Logging -----------------------------------------------------------------------------------------

  /** Works that differ at most in the position they were given. */
  predicate SameWorks(a: seq<Work>, b: seq<Work>) {
    |a| == |b| && forall i :: 0 <= i < |a| ==> a[i].(seqNo := b[i].seqNo) == b[i]
  }

  lemma SameLength(a: seq<Work>, b: seq<Work>)
    requires SameWorks(a, b)
    ensures |a| == |b|
  {
  }

  lemma {:induction false} SameWorksSameRecords(a: seq<Work>, b: seq<Work>, seqNo: int, ts: int)
    requires SameWorks(a, b)
    ensures Records(a, seqNo, ts) == Records(b, seqNo, ts) && Accepted(a) == Accepted(b)
  {
    if a != [] {
      assert a[0].(seqNo := b[0].seqNo) == b[0];
      SameWorksSameRecords(a[1..], b[1..], if IsLogged(a[0]) then seqNo + 1 else seqNo, ts);
    }
  }

  lemma SameWorksCons(a: seq<Work>, b: seq<Work>, x: Work, y: Work)
    requires SameWorks(a, b) && x.(seqNo := y.seqNo) == y
    ensures SameWorks([x] + a, [y] + b)
  {
  }

  /**
   * Logging a batch adds a prefix of its records to the log: all of them if no append
   * failed, each numbered from the position after seqNo. What was synced before stays synced.
   */
  lemma {:induction false} LogWorksEffect(c: Codec, w: Log, p: Parts, works: seq<Work>, seqNo: int, ts: int,
                                          faults: seq<Fault>)
    returns (p': Parts, k: nat, j: nat)
    requires RoomFor(seqNo, |works|) && IsInt64(ts) && |faults| == |works|
    requires Good(c, w, p) && seqNo == w.lastSeq
    ensures var (w', ws, n, ok) := LogWorks(c, w, works, seqNo, ts, faults); var rs := Records(works, seqNo, ts);
      && Durable(c, w', p', k) && AllWritable(c, p'.current)
      && Kept(c, w', p') >= Kept(c, w, p)
      && j <= |rs| && p'.All() == p.All() + rs[..j]
      && SameWorks(works, ws)
      && (ok ==> j == |rs| && Good(c, w', p') && n == seqNo + |rs| == w'.lastSeq && ws == Numbered(works, seqNo))
      && w'.maxBytes == w.maxBytes
    decreases |works|
  {
    hide Append, Kept, Durable, AllWritable, SameWorks, Dense;
    if works == [] {
      NothingLogged(c, w, p);
      p', k, j := p, |Frames(c, p.current)|, 0;
      assert p.All() + [] == p.All();
    } else if !IsLogged(works[0]) {
      p', k, j := LogWorksEffect(c, w, p, works[1..], seqNo, ts, faults[1..]);
      SameWorksCons(works[1..], LogWorks(c, w, works[1..], seqNo, ts, faults[1..]).1, works[0], works[0]);
      assert works == [works[0]] + works[1..];
    } else {
      var r := Record(seqNo + 1, ts, MutationOf(works[0].request));
      var head := works[0].(seqNo := seqNo + 1);
      var (w1, ok1) := Append(c, w, r, faults[0]);
      var p1, k1 := AppendEffect(c, w, p, r, faults[0]);
      var tail := Records(works[1..], seqNo + 1, ts);
      var rs := [r] + tail;
      assert works == [works[0]] + works[1..];
      if !ok1 {
        p', k := p1, k1;
        j := if p1.All() == p.All() then 0 else 1;
        assert rs[..0] == [] && rs[..1] == [r] && p.All() + [] == p.All();
        SameWorksSelf(works[1..]);
        SameWorksCons(works[1..], works[1..], works[0], head);
      } else {
        var j1;
        GoodPosition(c, w1, p1);
        p', k, j1 := LogWorksEffect(c, w1, p1, works[1..], seqNo + 1, ts, faults[1..]);
        j := j1 + 1;
        assert rs[..j] == [r] + tail[..j1];
        assert p.All() + [r] + tail[..j1] == p.All() + rs[..j];
        SameWorksCons(works[1..], LogWorks(c, w1, works[1..], seqNo + 1, ts, faults[1..]).1, works[0], head);
      }
    }
  }

  /**
   * Logging numbers the requests it gets to, in order; those behind one whose append failed keep
   * no number, and there is such a one exactly if logging failed.
   */
  lemma {:induction false} LoggingNumbers(c: Codec, w: Log, works: seq<Work>, seqNo: int, ts: int, faults: seq<Fault>)
    returns (reached: nat)
    requires RoomFor(seqNo, |works|) && IsInt64(ts) && |faults| == |works|
    ensures var (_, ws, n, ok) := LogWorks(c, w, works, seqNo, ts, faults);
      && reached <= |works| && ws == Numbered(works[..reached], seqNo) + works[reached..]
      && n == seqNo + |Records(works[..reached], seqNo, ts)|
      && (ok ==> reached == |works|) && (!ok ==> reached > 0 && IsLogged(works[reached - 1]))
    decreases |works|
  {
    hide Append;
    if works == [] {
      reached := 0;
    } else {
      var rest := works[1..];
      var head := if IsLogged(works[0]) then works[0].(seqNo := seqNo + 1) else works[0];
      var k := if IsLogged(works[0]) then seqNo + 1 else seqNo;
      var w1, ok1 := w, true;
      if IsLogged(works[0]) {
        w1 := Append(c, w, Record(k, ts, MutationOf(works[0].request)), faults[0]).0;
        ok1 := Append(c, w, Record(k, ts, MutationOf(works[0].request)), faults[0]).1;
      }
      if !ok1 {
        reached := 1;
        assert works[..1][1..] == [] && Numbered([], k) == [] && [head] + [] == [head];
        assert Records([], k, ts) == [];
      } else {
        var r := LoggingNumbers(c, w1, rest, k, ts, faults[1..]);
        reached := r + 1;
        assert works[..reached][1..] == rest[..r] && works[reached..] == rest[r..];
        assert [head] + (Numbered(rest[..r], k) + rest[r..]) == [head] + Numbered(rest[..r], k) + rest[r..];
      }
    }
  }

  lemma {:induction false} LoggingKeepsWorks(c: Codec, w: Log, works: seq<Work>, seqNo: int, ts: int,
                                             faults: seq<Fault>)
    requires RoomFor(seqNo, |works|) && IsInt64(ts) && |faults| == |works|
    ensures SameWorks(works, LogWorks(c, w, works, seqNo, ts, faults).1)
    decreases |works|
  {
    hide Append, SameWorks;
    if works == [] {
      SameWorksSelf(works);
    } else {
      assert works == [works[0]] + works[1..];
      SameWorksSelf(works[1..]);
      var head := if IsLogged(works[0]) then works[0].(seqNo := seqNo + 1) else works[0];
      var n := if IsLogged(works[0]) then seqNo + 1 else seqNo;
      var w1 :=
        if IsLogged(works[0]) then Append(c, w, Record(n, ts, MutationOf(works[0].request)), faults[0]).0 else w;
      LoggingKeepsWorks(c, w1, works[1..], n, ts, faults[1..]);
      SameWorksCons(works[1..], LogWorks(c, w1, works[1..], n, ts, faults[1..]).1, works[0], head);
      SameWorksCons(works[1..], works[1..], works[0], head);
    }
  }

  lemma GoodPosition(c: Codec, w: Log, p: Parts)
    requires Good(c, w, p)
    ensures w.lastSeq == |p.All()|
  {
  }

  lemma SameWorksSelf(a: seq<Work>)
    ensures SameWorks(a, a)
  {
  }

  lemma NothingLogged(c: Codec, w: Log, p: Parts)
    requires Good(c, w, p)
    ensures AllWritable(c, p.current) && Durable(c, w, p, |Frames(c, p.current)|) && SameWorks([], [])
  {
  }

  // --- Reserving a batch --------------------------------------------------------------------------------------

  /** What reserving some requests has added: holds under these orders' keys, and nothing else. */
  ghost predicate Added(st: State, st': State, orders: seq<Order>) {
    && (forall x :: Owned(st', x) == Owned(st, x))
    && (forall k: HoldKey :: k in st.holds ==> k in st'.holds && st'.holds[k] == st.holds[k])
    && st'.holds.Keys == st.holds.Keys + Keys(orders)
    && st.holds.Keys !! Keys(orders)
  }

  lemma NothingAdded(st: State)
    ensures Added(st, st, [])
  {
  }

  lemma AddedJoin(st: State, st1: State, st2: State, a: seq<Order>, b: seq<Order>)
    requires Added(st, st1, a) && Added(st1, st2, b)
    ensures Added(st, st2, a + b)
  {
    KeysJoin(a, b);
    forall x ensures Owned(st2, x) == Owned(st, x) { assert Owned(st1, x) == Owned(st, x); }
  }

  lemma ReserveOne(st: State, symbol: Symbol, book: BookState, done: seq<Order>, w: Work)
    requires Sound(st) && Guarded(st.holds, symbol, book, done) && Assigned(symbol, [w]) && w.preErr.None?
    ensures var (st', w') := ReserveWork(st, w);
      && Sound(st') && Guarded(st'.holds, symbol, book, done + Accepted([w']))
      && Assigned(symbol, [w']) && Added(st, st', Accepted([w']))
  {
    hide Sound, Guarded, Reserve, Owned;
    assert [w][0] == w;
    NothingAdded(st);
    assert done + [] == done;
    var (st', w') := ReserveWork(st, w);
    AcceptedHead(w', []);
    assert [w'] + [] == [w'];
    if w.request.SubmitRequest? {
      var o := w.request.order;
      ReserveStaysGuarded(st, symbol, book, done, o);
      ReserveEffect(st, o);
      if w'.preErr.None? {
        assert Accepted([w']) == [o] && Keys([o]) == {Key(o)};
      }
    }
  }

  lemma AssignedCons(symbol: Symbol, w: Work, rest: seq<Work>)
    ensures Assigned(symbol, [w] + rest) <==> Assigned(symbol, [w]) && Assigned(symbol, rest)
  {
    var all := [w] + rest;
    if Assigned(symbol, all) {
      assert all[0] == w;
      forall i | 0 <= i < |rest| && rest[i].request.SubmitRequest?
        ensures rest[i].request.order.symbol == symbol && rest[i].request.order.id == rest[i].orderId
      {
        assert all[i + 1] == rest[i];
      }
    }
    assert [w][0] == w;
  }

  /** Reserving a batch guards exactly its accepted orders too, and moves no balance. */
  lemma {:induction false} ReserveAllEffect(st: State, symbol: Symbol, book: BookState, done: seq<Order>,
                                            works: seq<Work>)
    requires Sound(st) && Guarded(st.holds, symbol, book, done)
    requires Assigned(symbol, works) && forall i :: 0 <= i < |works| ==> works[i].preErr.None?
    ensures var (st', ws) := ReserveAll(st, works);
      && Sound(st') && Guarded(st'.holds, symbol, book, done + Accepted(ws))
      && Assigned(symbol, ws) && Added(st, st', Accepted(ws))
    decreases |works|
  {
    hide Sound, Guarded, ReserveWork, Added, Assigned, Accepted;
    if works == [] {
      NothingAdded(st);
      NoneAssigned(symbol);
      assert done + [] == done;
    } else {
      assert works == [works[0]] + works[1..];
      AssignedCons(symbol, works[0], works[1..]);
      ReserveOne(st, symbol, book, done, works[0]);
      var (st1, w) := ReserveWork(st, works[0]);
      ReserveAllEffect(st1, symbol, book, done + Accepted([w]), works[1..]);
      var (st2, ws) := ReserveAll(st1, works[1..]);
      AcceptedJoin([w], ws);
      AssignedCons(symbol, w, ws);
      AddedJoin(st, st1, st2, Accepted([w]), Accepted(ws));
      assert done + Accepted([w]) + Accepted(ws) == done + (Accepted([w]) + Accepted(ws));
    }
  }

  lemma NoneAssigned(symbol: Symbol)
    ensures Assigned(symbol, []) && Accepted([]) == []
  {
  }

  function Keys(orders: seq<Order>): set<HoldKey> {
    set o | o in orders :: Key(o)
  }

  lemma KeysJoin(a: seq<Order>, b: seq<Order>)
    ensures Keys(a + b) == Keys(a) + Keys(b)
  {
    assert forall o :: o in a + b <==> o in a || o in b;
  }

  // --- Processing is replaying ------------------------------------------------------------------------------------

  /** The trades one record prints against this book, and those of a whole log. */
  function RecordTrades(book: BookState, r: Record): seq<Trade> {
    if r.op.SubmitOrder? then
      var res := Submit(book, r.op.order).1;
      if res.Some? then res.value.trades else []
    else []
  }

  function TradesOf(book: BookState, records: seq<Record>): seq<Trade>
    decreases |records|
  {
    if records == [] then []
    else RecordTrades(book, records[0]) + TradesOf(ApplyRecord(book, records[0]), records[1..])
  }

  /** The trades a batch's callers are told about, in order. */
  function ReplyTrades(replies: seq<Reply>): seq<Trade> {
    if replies == [] then [] else replies[0].outcome.trades + ReplyTrades(replies[1..])
  }

  lemma ProcessedLikeRecord(v: Venue, symbol: Symbol, w: Work, rest: seq<Work>, seqNo: int, n: int, ts: int)
    requires Sound(v.accounts) && Guarded(v.accounts.holds, symbol, v.book, Accepted([w] + rest))
    requires Assigned(symbol, [w])
    ensures var (v', r) := ProcessWork(v, symbol, w, false, seqNo);
      && Sound(v'.accounts) && Guarded(v'.accounts.holds, symbol, v'.book, Accepted(rest))
      && (if IsLogged(w) then
            var rec := Record(n, ts, MutationOf(w.request));
            CanApply(v.book, rec) && v'.book == ApplyRecord(v.book, rec)
                && r.outcome.trades == RecordTrades(v.book, rec)
          else v' == v && r.outcome.trades == [])
  {
    hide Sound, Guarded, Release, Complete, RestingIds;
    AcceptedHead(w, rest);
    assert [w][0] == w;
    if IsLogged(w) {
      if w.request.CancelRequest? {
        CancelStaysGuarded(v.accounts, symbol, v.book, Accepted(rest), w.request.id, w.request.who);
      } else {
        var o := w.request.order;
        GuardedHead(v.accounts.holds, symbol, v.book, o, Accepted(rest));
        SubmitStaysGuarded(v.accounts, symbol, v.book, o, Accepted(rest));
      }
    }
  }

  /**
   * Processing a batch does to the book what replaying its records does, prints the same
   * trades, and never takes a live order's id.
   */
  lemma {:induction false} ProcessingIsReplaying(v: Venue, symbol: Symbol, works: seq<Work>, at: int, seqNo: int,
                                                 ts: int)
    requires Sound(v.accounts) && Guarded(v.accounts.holds, symbol, v.book, Accepted(works))
    requires Assigned(symbol, works)
    ensures var (v', replies) := ProcessAll(v, symbol, works, false, at); var rs := Records(works, seqNo, ts);
      && v'.book == Replay(v.book, rs) && Replayable(v.book, rs)
      && ReplyTrades(replies) == TradesOf(v.book, rs)
      && Sound(v'.accounts) && Guarded(v'.accounts.holds, symbol, v'.book, [])
    decreases |works|
  {
    hide Sound, Guarded, ProcessWork, CanApply, ApplyRecord, RecordTrades;
    if works != [] {
      var w, rest := works[0], works[1..];
      assert works == [w] + rest && [w][0] == w;
      var n := if IsLogged(w) then seqNo + 1 else seqNo;
      ProcessedLikeRecord(v, symbol, w, rest, at, n, ts);
      var (v1, r) := ProcessWork(v, symbol, w, false, at);
      ProcessingIsReplaying(v1, symbol, rest, at, n, ts);
      var rs := Records(rest, n, ts);
      if IsLogged(w) {
        var rec := Record(n, ts, MutationOf(w.request));
        assert ([rec] + rs)[1..] == rs;
      } else {
        assert [] + TradesOf(v.book, rs) == TradesOf(v.book, rs);
      }
      var replies := ProcessAll(v1, symbol, rest, false, at).1;
      assert ([r] + replies)[1..] == replies;
    }
  }

  // --- Answering ------------------------------------------------------------------------------------------------

  /** A batch's accepted orders' records can be replayed onto the book they were reserved against. */
  lemma BatchIsReplayable(st: State, symbol: Symbol, log: seq<Record>, works: seq<Work>, seqNo: int, ts: int)
    requires Replayable(EmptyBook, log) && Assigned(symbol, works)
    requires Sound(st) && Guarded(st.holds, symbol, Replay(EmptyBook, log), Accepted(works))
    ensures Replayable(EmptyBook, log + Records(works, seqNo, ts))
  {
    hide Sound, Guarded, Records, Replayable, Replay;
    ProcessingIsReplaying(Venue(Replay(EmptyBook, log), st), symbol, works, 0, seqNo, ts);
    ReplayJoin(EmptyBook, log, Records(works, seqNo, ts));
  }

  lemma AcceptedOne(symbol: Symbol, w: Work)
    requires Assigned(symbol, [w])
    ensures w.request.SubmitRequest? && w.preErr.None? ==>
      Accepted([w]) == [w.request.order] && Keys(Accepted([w])) == {HoldKey(symbol, w.orderId)}
      && Key(w.request.order) == HoldKey(symbol, w.orderId)
    ensures !(w.request.SubmitRequest? && w.preErr.None?) ==> Accepted([w]) == []
  {
    AcceptedHead(w, []);
    assert [w] + [] == [w] && [w][0] == w;
    if w.request.SubmitRequest? && w.preErr.None? {
      var o := w.request.order;
      assert [o] + Accepted([]) == [o];
      forall k ensures k in Keys([o]) <==> k == Key(o) { assert Key([o][0]) == Key(o); }
    }
  }

  /** After the log has failed, a request's turn changes nothing but its own reservation, which it gives back. */
  lemma FailedTurn(v: Venue, symbol: Symbol, w: Work, rest: seq<Work>, at: int)
    requires Sound(v.accounts) && Guarded(v.accounts.holds, symbol, v.book, Accepted([w] + rest))
      && Assigned(symbol, [w])
    ensures var (v', r) := ProcessWork(v, symbol, w, true, at);
      && v'.book == v.book && Sound(v'.accounts) && Guarded(v'.accounts.holds, symbol, v.book, Accepted(rest))
      && v'.accounts.holds == v.accounts.holds - Keys(Accepted([w]))
      && (forall x :: Owned(v'.accounts, x) == Owned(v.accounts, x))
      && r.outcome == NoOutcome
      && (if w.request.SnapshotRequest? then r.snapshot == Some(SnapshotOf(v.book)) else r.err.Some?)
  {
    hide Sound, Guarded, Owned, Release;
    AcceptedHead(w, rest);
    AcceptedOne(symbol, w);
    if w.request.SubmitRequest? && w.preErr.None? {
      var o := w.request.order;
      ReleaseEffect(v.accounts, Key(o));
      WithoutHeadStaysGuarded(v.accounts.holds, symbol, v.book, o, Accepted(rest));
    } else {
      assert v.accounts.holds - Keys([]) == v.accounts.holds;
    }
  }

  // --- The log's part of a commit -------------------------------------------------------------------------------

  /** Between commits: this log is synced and read back first, and nothing else is on disk unless a write failed. */
  ghost predicate LogOk(c: Codec, e: Engine, p: Parts, k: nat, log: seq<Record>) {
    && Durable(c, e.wal, p, k) && AllWritable(c, p.current)
    && |log| <= Kept(c, e.wal, p) <= |p.All()| && log == p.All()[..|log|]
    && (!e.failed ==> Good(c, e.wal, p) && log == p.All())
    && e.seqNo == |log|
  }

  lemma KeptIsBounded(c: Codec, w: Log, p: Parts)
    requires AllWritable(c, p.current) && w.synced >= WAL_HEADER_SIZE
    ensures |Flat(p.closed)| <= Kept(c, w, p) <= |p.All()|
  {
  }

  /** Logging a batch: a prefix of its records on disk, all of them synced if it succeeded. */
  lemma LoggedWorks(c: Codec, e: Engine, p: Parts, k: nat, log: seq<Record>,
                    works: seq<Work>, ts: int, faults: seq<Fault>, syncOk: bool)
    returns (p': Parts, k': nat, j: nat)
    requires RoomFor(e.seqNo, |works|) && IsInt64(ts) && |faults| == |works|
    requires LogOk(c, e, p, k, log)
    ensures var (e', ws) := Logged(c, e, works, ts, faults, syncOk); var rs := Records(works, e.seqNo, ts);
      && SameWorks(works, ws)
      && LogOk(c, e', p', k', if e'.failed then log else log + rs)
      && (e.failed ==> e' == e && p' == p && k' == k)
      && (!e.failed ==> j <= |rs| && p'.All() == log + rs[..j])
      && (!e'.failed ==> j == |rs| && ws == Numbered(works, e.seqNo))
  {
    hide LogWorks, Good, Durable, Kept, Records, Numbered;
    SameWorksSelf(works);
    if e.failed {
      p', k', j := p, k, 0;
    } else {
      GoodPosition(c, e.wal, p);
      p', k', j := LogWorksEffect(c, e.wal, p, works, e.seqNo, ts, faults);
      var (w1, ws, n, ok) := LogWorks(c, e.wal, works, e.seqNo, ts, faults);
      var rs := Records(works, e.seqNo, ts);
      DurableIsSynced(c, w1, p', k');
      KeptIsBounded(c, w1, p');
      assert (log + rs[..j])[..|log|] == log;
      if ok {
        SyncEffect(c, w1, p');
        assert rs[..j] == rs && (log + rs)[..|log + rs|] == log + rs;
        GoodIsDurable(c, Sync(w1, true).0, p');
        GoodIsDurable(c, w1, p');
        k' := |Frames(c, p'.current)|;
      }
    }
  }

  lemma DurableIsSynced(c: Codec, w: Log, p: Parts, k: nat)
    requires Durable(c, w, p, k)
    ensures w.synced >= WAL_HEADER_SIZE
  {
  }

  lemma GoodIsDurable(c: Codec, w: Log, p: Parts)
    requires Good(c, w, p)
    ensures AllWritable(c, p.current) && Durable(c, w, p, |Frames(c, p.current)|)
  {
  }

  lemma SameWorksAssigned(symbol: Symbol, a: seq<Work>, b: seq<Work>)
    requires SameWorks(a, b) && Assigned(symbol, a)
    ensures Assigned(symbol, b)
  {
    forall i | 0 <= i < |b| && b[i].request.SubmitRequest?
      ensures b[i].request.order.symbol == symbol && b[i].request.order.id == b[i].orderId
    {
      assert a[i].(seqNo := b[i].seqNo) == b[i];
    }
  }

  lemma LoggingIsHarmless(c: Codec, e: Engine, works: seq<Work>, ts: int, faults: seq<Fault>, syncOk: bool)
    requires RoomFor(e.seqNo, |works|) && IsInt64(ts) && |faults| == |works|
    ensures SameWorks(works, Logged(c, e, works, ts, faults, syncOk).1)
  {
    SameWorksSelf(works);
    LoggingKeepsWorks(c, e.wal, works, e.seqNo, ts, faults);
  }
}
