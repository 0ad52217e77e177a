/** One symbol's sequencer: the group commit over the book, the shared accounts and the log, in place. */
module SequencerModule {
  import opened Types
  import opened Matching
  import opened Ladders
  import opened AccountState
  import opened Guards
  import opened Holds
  import opened LiveIds
  import opened Commit
  import opened Framing
  import opened Wal
  import opened WalFiles
  import opened GroupCommit
  import opened BookModule
  import opened AccountsModule

  class Sequencer {
    const symbol: Symbol
    const book: Book
    const accounts: Accounts
    const wal: Writer
    var seqNo: int
    var nextOrderID: SeqID
    var walFailed: bool

    ghost predicate Valid()
      reads this, book, book.Repr, accounts, accounts.Repr, wal, wal.disk
    {
      && book.Valid() && accounts.Valid()
      && book in book.Repr && accounts in accounts.Repr && book.Repr !! accounts.Repr
      && {this as object, wal, wal.disk} !! book.Repr + accounts.Repr
    }

    /** What this goroutine owns, as a value. */
    ghost function Engine(): Engine
      reads this, book, book.Repr, wal, wal.disk
      requires book.Valid()
    {
      GroupCommit.Engine(book.View(), wal.View(), seqNo, nextOrderID, walFailed)
    }

    /** Start above everything the log and the recovered book already hold. */
    constructor (symbol: Symbol, book: Book, accounts: Accounts, wal: Writer)
      requires book.Valid() && accounts.Valid() && book.Repr !! accounts.Repr
      requires {wal as object, wal.disk} !! book.Repr + accounts.Repr
      ensures Valid() && this.symbol == symbol && this.book == book && this.accounts == accounts && this.wal == wal
      ensures Engine() == GroupCommit.Engine(book.View(), wal.View(), wal.lastSeq, book.maxOrderID, false)
    {
      this.symbol, this.book, this.accounts, this.wal := symbol, book, accounts, wal;
      seqNo, nextOrderID, walFailed := wal.lastSeq, book.maxOrderID, false;
    }

    /** Give every submit without an id the next one, and every submit this sequencer's symbol. */
    method AssignIds(batch: seq<Request>) returns (works: seq<Work>)
      modifies this`nextOrderID
      ensures (works, nextOrderID) == AssignAll(symbol, batch, old(nextOrderID))
    {
      works := [];
      ghost var start := nextOrderID;
      for i := 0 to |batch|
        invariant |works| == i
        invariant (works, nextOrderID) == AssignAll(symbol, batch[..i], start)
      {
        AssignAllSnoc(symbol, batch[..i], batch[i], start);
        assert batch[..i + 1] == batch[..i] + [batch[i]];
        var w, n := Assign(symbol, batch[i], nextOrderID).0, Assign(symbol, batch[i], nextOrderID).1;
        nextOrderID := n;
        works := works + [w];
      }
      assert batch[..|batch|] == batch;
    }

    /** Check and reserve for every submit before anything is logged. */
    method ReserveBatch(works: seq<Work>) returns (works': seq<Work>)
      requires Valid()
      modifies accounts
      ensures Valid() && fresh(accounts.Repr - old(accounts.Repr))
      ensures (accounts.View(), works') == ReserveAll(old(accounts.View()), works)
      ensures |works'| == |works|
    {
      hide Reserve, CoreInv, WellFormed, Book.Linked, Book.State, Book.View;
      works' := [];
      ghost var start := accounts.View();
      for i := 0 to |works|
        invariant Valid() && fresh(accounts.Repr - old(accounts.Repr))
        invariant |works'| == i
        invariant (accounts.View(), works') == ReserveAll(start, works[..i])
      {
        ReserveAllSnoc(start, works[..i], works[i]);
        assert works[..i + 1] == works[..i] + [works[i]];
        var w := works[i];
        if w.request.SubmitRequest? {
          var err := accounts.Reserve(w.request.order);
          w := w.(preErr := err);
        }
        works' := works' + [w];
      }
      assert works[..|works|] == works;
    }

    /** Append one request's record, unless it gets none. */
    method LogOne(w: Work, ts: int, fault: Fault) returns (w': Work, ok: bool)
      requires Valid() && RoomFor(seqNo, 1) && IsInt64(ts)
      modifies this`seqNo, wal, wal.disk
      ensures Valid() && book.Repr == old(book.Repr) && accounts.Repr == old(accounts.Repr)
      ensures (wal.View(), w', seqNo, ok) == LogStep(wal.codec, old(wal.View()), w, old(seqNo), ts, fault)
    {
      hide Wal.Append, CoreInv, WellFormed, Book.Linked, Book.State, Book.View;
      w', ok := w, true;
      if IsLogged(w) {
        seqNo := seqNo + 1;
        w' := w.(seqNo := seqNo);
        ok := wal.Append(Record(seqNo, ts, MutationOf(w.request)), fault);
      }
    }

    /** Append the record of every logged request, then sync once for all of them. */
    method LogRequests(works: seq<Work>, ts: int, faults: seq<Fault>, syncOk: bool)
      returns (works': seq<Work>, ok: bool)
      requires Valid() && RoomFor(seqNo, |works|) && IsInt64(ts) && |faults| == |works|
      modifies this`seqNo, wal, wal.disk
      ensures Valid() && book.Repr == old(book.Repr) && accounts.Repr == old(accounts.Repr)
      ensures (wal.View(), works', seqNo, ok)
           == LogBatch(wal.codec, old(wal.View()), works, old(seqNo), ts, faults, syncOk)
    {
      hide LogWorks, LogStep, CoreInv, WellFormed, Book.Linked, Book.State, Book.View, Writer.View;
      works', ok := [], true;
      ghost var all := LogWorks(wal.codec, wal.View(), works, seqNo, ts, faults);
      assert works[0..] == works && faults[0..] == faults;
      OntoNothing(all);
      for i := 0 to |works|
        invariant Valid() && book.Repr == old(book.Repr) && accounts.Repr == old(accounts.Repr)
        invariant ok && RoomFor(seqNo, |works| - i)
        invariant all == Onto(works', LogWorks(wal.codec, wal.View(), works[i..], seqNo, ts, faults[i..]))
      {
        LogWorksStep(wal.codec, wal.View(), works[i], works[i + 1..], seqNo, ts, faults[i], faults[i + 1..]);
        assert works[i..] == [works[i]] + works[i + 1..] && faults[i..] == [faults[i]] + faults[i + 1..];
        ghost var done := works';
        var w;
        w, ok := LogOne(works[i], ts, faults[i]);
        if !ok { return works' + ([w] + works[i + 1..]), false; }
        works' := works' + [w];
        OntoSnoc(done, w, LogWorks(wal.codec, wal.View(), works[i + 1..], seqNo, ts, faults[i + 1..]));
      }
      NothingToLog(wal.codec, wal.View(), works[|works|..], seqNo, ts, faults[|works|..]);
      assert works' + [] == works';
      ok := wal.Sync(syncOk);
    }

    /** Drop a submit's reservation; cancels never hold one. */
    method ReleaseWork(w: Work)
      requires Valid()
      modifies accounts.Repr
      ensures Valid() && accounts.Repr == old(accounts.Repr)
      ensures accounts.View() ==
        if w.request.SubmitRequest? then AccountState.Release(old(accounts.View()), HoldKey(symbol, w.orderId))
        else old(accounts.View())
    {
      hide AccountState.Release, CoreInv, WellFormed, Book.Linked, Book.State, Book.View;
      if w.request.SubmitRequest? { accounts.Release(HoldKey(symbol, w.orderId)); }
    }

    method CancelOrder(w: Work) returns (r: Reply)
      requires Valid() && w.request.CancelRequest?
      modifies book.Repr, accounts.Repr
      ensures Valid() && accounts.Repr == old(accounts.Repr) && book.Repr == old(book.Repr)
      ensures (Venue(book.View(), accounts.View()), r)
           == ProcessCancel(old(Venue(book.View(), accounts.View())), symbol, w.request.id, w.request.who,
                            Reply(w.seqNo, w.orderId, None, NoOutcome, None))
    {
      hide AccountState.Release, CoreInv, WellFormed, Book.Linked, Book.State, Book.View;
      r := Reply(w.seqNo, w.orderId, None, NoOutcome, None);
      ghost var st := accounts.View();
      var err := book.CancelOwned(w.request.id, w.request.who);
      if err.Some? { return r.(err := Some(CancelRefused(err.value))); }
      assert accounts.View() == st;
      accounts.Release(HoldKey(symbol, w.request.id));
    }

    method SubmitToBook(w: Work) returns (r: Reply)
      requires Valid() && w.request.SubmitRequest? && w.request.order.id !in RestingIds(book.View())
      modifies book.Repr, accounts.Repr
      ensures Valid() && accounts.Repr == old(accounts.Repr) && fresh(book.Repr - old(book.Repr))
      ensures (Venue(book.View(), accounts.View()), r)
           == ProcessSubmit(old(Venue(book.View(), accounts.View())), symbol, w.request.order, w.orderId,
                            Reply(w.seqNo, w.orderId, None, NoOutcome, None))
    {
      hide AccountState.Release, AccountState.Complete, RestingIds, CoreInv, WellFormed, Book.Linked, Book.State,
           Book.View;
      r := Reply(w.seqNo, w.orderId, None, NoOutcome, None);
      ghost var st := accounts.View();
      var res := book.SubmitOrder(w.request.order);
      book.ValidParts();
      assert accounts.View() == st;
      if res.None? {
        ReleaseWork(w);
        return r.(err := Some(UnknownSideOrType));
      }
      accounts.Complete(symbol, w.orderId, res.value.trades, res.value.resting, res.value.selfPrevented);
      return r.(outcome := res.value);
    }

    /** Process one request: the branches of the reply loop, in order. */
    method ProcessOne(w: Work) returns (r: Reply)
      requires Valid()
      requires w.request.SubmitRequest? && w.preErr.None? && !walFailed ==>
        w.request.order.id !in RestingIds(book.View())
      modifies book.Repr, accounts.Repr
      ensures Valid() && accounts.Repr == old(accounts.Repr) && fresh(book.Repr - old(book.Repr))
      ensures (Venue(book.View(), accounts.View()), r)
           == ProcessWork(old(Venue(book.View(), accounts.View())), symbol, w, walFailed, seqNo)
    {
      hide AccountState.Release, ProcessCancel, ProcessSubmit, RestingIds, CoreInv, WellFormed, Book.Linked, Book.State;
      r := Reply(w.seqNo, w.orderId, None, NoOutcome, None);
      if w.request.SnapshotRequest? {
        var snapshot := book.TakeSnapshot();
        r := r.(snapshot := Some(snapshot), seqNo := seqNo);
      } else if w.preErr.Some? {
        r := r.(err := Some(Rejected(w.preErr.value)));
      } else if walFailed {
        r := r.(err := Some(LogFailed));
        ReleaseWork(w);
      } else if w.request.CancelRequest? {
        r := CancelOrder(w);
      } else {
        r := SubmitToBook(w);
      }
    }

    /** Ids the remaining submits may take: none of a live order. */
    ghost predicate MayProcess(works: seq<Work>)
      reads this, book, book.Repr, accounts, accounts.Repr, wal, wal.disk
      requires Valid()
    {
      && Sound(accounts.View()) && Assigned(symbol, works)
      && Guarded(accounts.View().holds, symbol, book.View(), Accepted(works))
    }

    /** Process and answer every request of the batch in order. */
    method ProcessBatch(works: seq<Work>) returns (replies: seq<Reply>)
      requires Valid() && (walFailed || MayProcess(works))
      modifies book.Repr, accounts.Repr
      ensures Valid() && accounts.Repr == old(accounts.Repr) && fresh(book.Repr - old(book.Repr))
      ensures (Venue(book.View(), accounts.View()), replies)
           == ProcessAll(old(Venue(book.View(), accounts.View())), symbol, works, walFailed, seqNo)
    {
      hide ProcessWork, Sound, Guarded, RestingIds, CoreInv, WellFormed, Book.Linked, Book.State, Book.View,
           Accounts.View, Assigned;
      replies := [];
      ghost var v0 := Venue(book.View(), accounts.View());
      assert works[..0] == [] && works[0..] == works;
      for i := 0 to |works|
        invariant Valid() && accounts.Repr == old(accounts.Repr) && fresh(book.Repr - old(book.Repr))
        invariant walFailed || MayProcess(works[i..])
        invariant |replies| == i
        invariant (Venue(book.View(), accounts.View()), replies)
               == ProcessAll(v0, symbol, works[..i], walFailed, seqNo)
      {
        ghost var v := Venue(book.View(), accounts.View());
        ProcessAllSnoc(v0, symbol, works[..i], works[i], walFailed, seqNo);
        assert works[..i + 1] == works[..i] + [works[i]];
        FromHere(works, i);
        if !walFailed { NextMayProcess(v, symbol, works[i], works[i + 1..], seqNo); }
        var r := ProcessOne(works[i]);
        replies := replies + [r];
      }
      assert works[..|works|] == works;
    }

    /**
     * Commit one batch: nothing reaches the book unless the whole batch is in the log and
     * synced, and a log that has failed once is never written again.
     */
    method Commit(batch: seq<Request>, ts: int, faults: seq<Fault>, syncOk: bool) returns (replies: seq<Reply>)
      requires Valid() && RoomFor(seqNo, |batch|) && IsInt64(ts) && |faults| == |batch|
      requires Sound(accounts.View()) && Guarded(accounts.View().holds, symbol, book.View(), [])
      modifies this, wal, wal.disk, book.Repr, accounts.Repr
      ensures Valid() && fresh(accounts.Repr - old(accounts.Repr)) && fresh(book.Repr - old(book.Repr))
      ensures (Engine(), accounts.View(), replies)
           == CommitBatch(wal.codec, symbol, old(Engine()), old(accounts.View()), batch, ts, faults, syncOk)
    {
      hide Sound, Guarded, RestingIds, CoreInv, WellFormed, Book.Linked, Book.State, Book.View, Accounts.View,
           LogBatch, AssignAll, ReserveAll, ProcessAll, Accepted, Assigned;
      ghost var e0, st0 := Engine(), accounts.View();
      BatchMayProcess(wal.codec, symbol, e0, st0, batch, ts, faults, syncOk);
      AssignAllKeepsLength(symbol, batch, nextOrderID);
      var works := AssignIds(batch);
      works := ReserveBatch(works);
      if !walFailed {
        var startSeq := seqNo;
        var ok;
        works, ok := LogRequests(works, ts, faults, syncOk);
        if !ok {
          seqNo := startSeq;
          walFailed := true;
        }
      }
      replies := ProcessBatch(works);
    }
  }

  lemma FromHere<T>(s: seq<T>, i: nat)
    requires i < |s|
    ensures s[i..] == [s[i]] + s[i + 1..]
  {
  }

  lemma {:induction false} ProcessAllSnoc(v: Venue, symbol: Symbol, works: seq<Work>, w: Work, failed: bool, at: int)
    ensures var (v1, rs) := ProcessAll(v, symbol, works, failed, at);
      var (v2, r) := ProcessWork(v1, symbol, w, failed, at);
      ProcessAll(v, symbol, works + [w], failed, at) == (v2, rs + [r])
    decreases |works|
  {
    hide ProcessWork;
    if works == [] {
      assert works + [w] == [w] && [w][1..] == [];
      var (v1, r) := ProcessWork(v, symbol, w, failed, at);
      assert ProcessAll(v1, symbol, [w][1..], failed, at) == (v1, []);
      assert [r] + [] == [] + [r];
    } else {
      var (v0, r0) := ProcessWork(v, symbol, works[0], failed, at);
      ProcessAllSnoc(v0, symbol, works[1..], w, failed, at);
      assert (works + [w])[1..] == works[1..] + [w] && (works + [w])[0] == works[0];
      var (v1, rs) := ProcessAll(v0, symbol, works[1..], failed, at);
      var r := ProcessWork(v1, symbol, w, failed, at).1;
      assert [r0] + (rs + [r]) == [r0] + rs + [r];
    }
  }

  lemma NextMayProcess(v: Venue, symbol: Symbol, w: Work, rest: seq<Work>, at: int)
    requires Sound(v.accounts) && Guarded(v.accounts.holds, symbol, v.book, Accepted([w] + rest))
    requires Assigned(symbol, [w] + rest)
    ensures w.request.SubmitRequest? && w.preErr.None? ==> w.request.order.id !in RestingIds(v.book)
    ensures var v' := ProcessWork(v, symbol, w, false, at).0;
      && Sound(v'.accounts) && Guarded(v'.accounts.holds, symbol, v'.book, Accepted(rest)) && Assigned(symbol, rest)
  {
    hide Sound, Guarded, ProcessWork, RestingIds, Accepted, Assigned;
    AssignedCons(symbol, w, rest);
    ProcessedLikeRecord(v, symbol, w, rest, at, 0, 0);
    AcceptedHead(w, rest);
    if w.request.SubmitRequest? && w.preErr.None? {
      GuardedHead(v.accounts.holds, symbol, v.book, w.request.order, Accepted(rest));
    }
  }

  /** After reserving and logging, the batch's submits may be processed. */
  lemma BatchMayProcess(c: Codec, symbol: Symbol, e: Engine, st: State, batch: seq<Request>, ts: int,
                        faults: seq<Fault>, syncOk: bool)
    requires Sound(st) && Guarded(st.holds, symbol, e.book, [])
    requires RoomFor(e.seqNo, |batch|) && IsInt64(ts) && |faults| == |batch|
    ensures var (st1, works) := Prepared(symbol, e, st, batch);
      var ws := Logged(c, e, works, ts, faults, syncOk).1;
      Sound(st1) && Guarded(st1.holds, symbol, e.book, Accepted(ws)) && Assigned(symbol, ws)
  {
    hide Sound, Guarded, LogWorks, Accepted, Assigned;
    AssignAllAssigns(symbol, batch, e.nextOrderId);
    var works0 := AssignAll(symbol, batch, e.nextOrderId).0;
    ReserveAllEffect(st, symbol, e.book, [], works0);
    var (st1, works) := Prepared(symbol, e, st, batch);
    assert [] + Accepted(works) == Accepted(works);
    LoggingKeepsWorks(c, e.wal, works, e.seqNo, ts, faults);
    SameWorksSelf(works);
    var ws := Logged(c, e, works, ts, faults, syncOk).1;
    SameWorksSameRecords(works, ws, 0, 0);
    SameWorksAssigned(symbol, works, ws);
  }

  /** A log step's result with these works already done in front of it. */
  function Onto(done: seq<Work>, r: (Log, seq<Work>, int, bool)): (Log, seq<Work>, int, bool) {
    (r.0, done + r.1, r.2, r.3)
  }

  lemma OntoNothing(r: (Log, seq<Work>, int, bool))
    ensures Onto([], r) == r
  {
    assert [] + r.1 == r.1;
  }

  lemma OntoSnoc(done: seq<Work>, w: Work, r: (Log, seq<Work>, int, bool))
    ensures Onto(done + [w], r) == Onto(done, Onto([w], r))
  {
    assert done + [w] + r.1 == done + ([w] + r.1);
  }

  /** One request's turn at the log. */
  function LogStep(c: Codec, w: Log, work: Work, seqNo: int, ts: int, fault: Fault): (Log, Work, int, bool)
    requires RoomFor(seqNo, 1) && IsInt64(ts)
  {
    if !IsLogged(work) then (w, work, seqNo, true)
    else
      var (w1, ok) := Append(c, w, Record(seqNo + 1, ts, MutationOf(work.request)), fault);
      (w1, work.(seqNo := seqNo + 1), seqNo + 1, ok)
  }

  lemma LogWorksStep(c: Codec, w: Log, work: Work, rest: seq<Work>, seqNo: int, ts: int, fault: Fault,
                     faults: seq<Fault>)
    requires RoomFor(seqNo, |rest| + 1) && IsInt64(ts) && |faults| == |rest|
    ensures var (w1, work', n, ok) := LogStep(c, w, work, seqNo, ts, fault);
      && RoomFor(n, |rest|)
      && LogWorks(c, w, [work] + rest, seqNo, ts, [fault] + faults) ==
        if ok then Onto([work'], LogWorks(c, w1, rest, n, ts, faults)) else (w1, [work'] + rest, n, false)
  {
    hide Append;
    assert ([work] + rest)[1..] == rest && ([fault] + faults)[1..] == faults;
  }

  lemma NothingToLog(c: Codec, w: Log, works: seq<Work>, seqNo: int, ts: int, faults: seq<Fault>)
    requires works == [] && faults == [] && RoomFor(seqNo, 0) && IsInt64(ts)
    ensures LogWorks(c, w, works, seqNo, ts, faults) == (w, [], seqNo, true)
  {
  }

  lemma {:induction false} AssignAllSnoc(symbol: Symbol, batch: seq<Request>, r: Request, nextId: SeqID)
    ensures var (ws, n) := AssignAll(symbol, batch, nextId); var (w, n') := Assign(symbol, r, n);
      AssignAll(symbol, batch + [r], nextId) == (ws + [w], n')
  {
    if batch == [] {
      assert batch + [r] == [r] && [r][1..] == [];
      var (w, n) := Assign(symbol, r, nextId);
      assert AssignAll(symbol, [r][1..], n) == ([], n);
      assert [w] + [] == [] + [w];
    } else {
      var (w0, n0) := Assign(symbol, batch[0], nextId);
      AssignAllSnoc(symbol, batch[1..], r, n0);
      assert (batch + [r])[1..] == batch[1..] + [r] && (batch + [r])[0] == batch[0];
      var (ws, n) := AssignAll(symbol, batch[1..], n0);
      assert [w0] + (ws + [Assign(symbol, r, n).0]) == [w0] + ws + [Assign(symbol, r, n).0];
    }
  }

  lemma {:induction false} ReserveAllSnoc(st: State, works: seq<Work>, w: Work)
    ensures var (st1, ws) := ReserveAll(st, works); var (st2, w') := ReserveWork(st1, w);
      ReserveAll(st, works + [w]) == (st2, ws + [w'])
    decreases |works|
  {
    hide ReserveWork;
    if works == [] {
      assert works + [w] == [w] && [w][1..] == [];
      var (st1, w1) := ReserveWork(st, w);
      assert ReserveAll(st1, [w][1..]) == (st1, []);
      assert [w1] + [] == [] + [w1];
    } else {
      var (st0, w0) := ReserveWork(st, works[0]);
      ReserveAllSnoc(st0, works[1..], w);
      assert (works + [w])[1..] == works[1..] + [w] && (works + [w])[0] == works[0];
      var (st1, ws) := ReserveAll(st0, works[1..]);
      assert [w0] + (ws + [ReserveWork(st1, w).1]) == [w0] + ws + [ReserveWork(st1, w).1];
    }
  }
}
