/**
 * A group commit, step by step, as values: assign order ids, reserve the whole
 * batch, log it, then process and answer each request. The `Sequencer` class is
 * proved against these functions; `World` interleaves the same steps across symbols.
 */
module Commit {
  import opened Types
  import opened Matching
  import opened Snapshots
  import opened AccountState
  import opened Holds
  import opened Settling
  import opened LiveHolds

  datatype Request = SubmitRequest(order: Order) | CancelRequest(id: SeqID, who: Account) | SnapshotRequest

  /** A request in a batch, with what the commit has assigned to it so far. */
  datatype Work = Work(request: Request, seqNo: int, orderId: SeqID, preErr: Option<ReserveError>)

  datatype CommitError =
    Rejected(reason: ReserveError) | LogFailed | CancelRefused(why: CancelError) | UnknownSideOrType

  /** What the caller is told. */
  datatype Reply = Reply(seqNo: int, orderId: SeqID, snapshot: Option<Snapshot>, outcome: Outcome,
                         err: Option<CommitError>)

  const NoOutcome := Outcome([], [], 0)

  /** The logged intent to apply one mutation, its log position and the time it was logged. */
  datatype Mutation = SubmitOrder(order: Order) | CancelOrder(id: SeqID, who: Account)
  datatype Record = Record(seqNo: int, ts: int, op: Mutation)

  // --- Assigning order ids ------------------------------------------------------------------

  /** An unset id gets the next one, and the symbol is always the sequencer's own. */
  function Assign(symbol: Symbol, request: Request, nextId: SeqID): (Work, SeqID) {
    match request
    case SubmitRequest(o) =>
      var id := if o.id == 0 then nextId + 1 else o.id;
      (Work(SubmitRequest(o.(id := id, symbol := symbol)), 0, id, None), if o.id == 0 then nextId + 1 else nextId)
    case _ => (Work(request, 0, 0, None), nextId)
  }

  function AssignAll(symbol: Symbol, batch: seq<Request>, nextId: SeqID): (seq<Work>, SeqID) {
    if batch == [] then ([], nextId)
    else
      var (w, n) := Assign(symbol, batch[0], nextId);
      var (ws, n') := AssignAll(symbol, batch[1..], n);
      ([w] + ws, n')
  }

  /** How many of the first i requests are submits without an id. */
  function UnsetBefore(batch: seq<Request>, i: nat): nat
    requires i <= |batch|
  {
    if i == 0 then 0
    else
      var r := batch[i - 1];
      UnsetBefore(batch, i - 1) + (if r.SubmitRequest? && r.order.id == 0 then 1 else 0)
  }

  lemma {:induction false} UnsetShift(batch: seq<Request>, i: nat)
    requires 0 < i <= |batch|
    ensures UnsetBefore(batch, i) == UnsetBefore(batch, 1) + UnsetBefore(batch[1..], i - 1)
  {
    if i > 1 { UnsetShift(batch, i - 1); }
  }

  /**
   * Request i keeps everything but what the sequencer assigns: its symbol, and, if it came without
   * an id, the next one after those the batch has used so far; nothing is refused or numbered yet.
   */
  lemma {:induction false} AssignsExactly(symbol: Symbol, batch: seq<Request>, nextId: SeqID, i: nat)
    requires i < |batch|
    ensures var (ws, n) := AssignAll(symbol, batch, nextId);
      && |ws| == |batch| && n == nextId + UnsetBefore(batch, |batch|)
      && ws[i].seqNo == 0 && ws[i].preErr.None?
      && if batch[i].SubmitRequest? then
           var o := batch[i].order; var id := if o.id == 0 then nextId + UnsetBefore(batch, i) + 1 else o.id;
           ws[i].orderId == id && ws[i].request == SubmitRequest(o.(id := id, symbol := symbol))
         else ws[i].orderId == 0 && ws[i].request == batch[i]
  {
    var (w, n) := Assign(symbol, batch[0], nextId);
    UnsetShift(batch, |batch|);
    assert UnsetBefore(batch, 1) == n - nextId;
    if i > 0 {
      UnsetShift(batch, i);
      AssignsExactly(symbol, batch[1..], n, i - 1);
    } else if |batch| > 1 {
      AssignsExactly(symbol, batch[1..], n, 0);
    }
  }

  // --- Reserving -----------------------------------------------------------------------------

  /** The pre-trade check of one request; only submits have one. */
  function ReserveWork(st: State, w: Work): (State, Work) {
    match w.request
    case SubmitRequest(o) => var (st', err) := Reserve(st, o); (st', w.(preErr := err))
    case _ => (st, w)
  }

  function ReserveAll(st: State, works: seq<Work>): (State, seq<Work>)
    decreases |works|
  {
    if works == [] then (st, [])
    else
      var (st1, w) := ReserveWork(st, works[0]);
      var (st2, ws) := ReserveAll(st1, works[1..]);
      (st2, [w] + ws)
  }

  /** Request i is checked against the accounts as the requests before it left them, and given that verdict alone. */
  lemma {:induction false} ReservesInOrder(st: State, works: seq<Work>, i: nat)
    requires i < |works|
    ensures var (st', ws) := ReserveAll(st, works); var before := ReserveAll(st, works[..i]).0;
      && |ws| == |works|
      && if works[i].request.SubmitRequest? then
           var (after, err) := Reserve(before, works[i].request.order);
           ws[i] == works[i].(preErr := err) && ReserveAll(st, works[..i + 1]).0 == after
         else ws[i] == works[i] && ReserveAll(st, works[..i + 1]).0 == before
    decreases i
  {
    hide Reserve;
    var (st1, w) := ReserveWork(st, works[0]);
    ReserveKeepsLength(st, works);
    if i > 0 {
      ReservesInOrder(st1, works[1..], i - 1);
      assert works[..i][1..] == works[1..][..i - 1] && works[..i + 1][1..] == works[1..][..i];
    } else {
      assert works[..0] == [] && works[..1][1..] == [];
    }
  }

  lemma {:induction false} ReserveKeepsLength(st: State, works: seq<Work>)
    ensures |ReserveAll(st, works).1| == |works|
    decreases |works|
  {
    hide Reserve;
    if works != [] { ReserveKeepsLength(ReserveWork(st, works[0]).0, works[1..]); }
  }

  // --- Logging ---------------------------------------------------------------------------------

  /** Rejected orders and snapshots get no log position. */
  predicate IsLogged(w: Work) {
    w.preErr.None? && !w.request.SnapshotRequest?
  }

  function MutationOf(request: Request): Mutation
    requires !request.SnapshotRequest?
  {
    match request
    case SubmitRequest(o) => SubmitOrder(o)
    case CancelRequest(id, who) => CancelOrder(id, who)
  }

  /** The batch's records, numbered from the position after seqNo. */
  function Records(works: seq<Work>, seqNo: int, ts: int): seq<Record> {
    if works == [] then []
    else if IsLogged(works[0]) then
      [Record(seqNo + 1, ts, MutationOf(works[0].request))] + Records(works[1..], seqNo + 1, ts)
    else Records(works[1..], seqNo, ts)
  }

  /** The works carrying the positions of their records. */
  function Numbered(works: seq<Work>, seqNo: int): seq<Work> {
    if works == [] then works
    else if IsLogged(works[0]) then [works[0].(seqNo := seqNo + 1)] + Numbered(works[1..], seqNo + 1)
    else [works[0]] + Numbered(works[1..], seqNo)
  }

  /** The position a request is given is its record's, under the same mutation. */
  lemma {:induction false} NumberNamesRecord(works: seq<Work>, seqNo: int, ts: int, i: nat) returns (j: nat)
    requires i < |works| && IsLogged(works[i])
    ensures |Numbered(works, seqNo)| == |works| && j < |Records(works, seqNo, ts)|
    ensures Records(works, seqNo, ts)[j] == Record(Numbered(works, seqNo)[i].seqNo, ts, MutationOf(works[i].request))
    ensures Records(works, seqNo, ts)[j].seqNo == seqNo + 1 + j
  {
    if i == 0 {
      j := 0;
      NumberedKeepsLength(works[1..], seqNo + 1);
    } else {
      var n := if IsLogged(works[0]) then seqNo + 1 else seqNo;
      j := NumberNamesRecord(works[1..], n, ts, i - 1);
      if IsLogged(works[0]) { j := j + 1; }
    }
  }

  lemma {:induction false} NumberedKeepsLength(works: seq<Work>, seqNo: int)
    ensures |Numbered(works, seqNo)| == |works|
  {
    if works != [] { NumberedKeepsLength(works[1..], if IsLogged(works[0]) then seqNo + 1 else seqNo); }
  }

  // --- Replaying ---------------------------------------------------------------------------------

  function ApplyRecord(book: BookState, r: Record): BookState {
    match r.op
    case SubmitOrder(o) => Submit(book, o).0
    case CancelOrder(id, who) => Cancel(book, id, who).0
  }

  function Replay(book: BookState, records: seq<Record>): BookState
    decreases |records|
  {
    if records == [] then book else Replay(ApplyRecord(book, records[0]), records[1..])
  }

  /** No submit reuses the id of an order resting at that point. */
  predicate CanApply(book: BookState, r: Record) {
    r.op.SubmitOrder? ==> r.op.order.id !in RestingIds(book)
  }

  predicate Replayable(book: BookState, records: seq<Record>)
    decreases |records|
  {
    records == [] || (CanApply(book, records[0]) && Replayable(ApplyRecord(book, records[0]), records[1..]))
  }

  lemma {:induction false} ReplayJoin(book: BookState, a: seq<Record>, b: seq<Record>)
    ensures Replay(book, a + b) == Replay(Replay(book, a), b)
    ensures Replayable(book, a + b) <==> Replayable(book, a) && Replayable(Replay(book, a), b)
    decreases |a|
  {
    hide ApplyRecord, CanApply;
    if a == [] {
      assert a + b == b;
    } else {
      ReplayJoin(ApplyRecord(book, a[0]), a[1..], b);
      assert (a + b)[1..] == a[1..] + b;
    }
  }

  lemma ApplyKeepsWellFormed(book: BookState, r: Record)
    requires WellFormed(book) && CanApply(book, r)
    ensures WellFormed(ApplyRecord(book, r))
  {
    match r.op
    case SubmitOrder(o) => SubmitKeepsWellFormed(book, o);
    case CancelOrder(id, who) => CancelKeepsWellFormed(book, id, who);
  }

  lemma {:induction false} ReplayKeepsWellFormed(book: BookState, records: seq<Record>)
    requires WellFormed(book) && Replayable(book, records)
    ensures WellFormed(Replay(book, records))
    decreases |records|
  {
    hide WellFormed, CanApply, ApplyRecord;
    if records != [] {
      ApplyKeepsWellFormed(book, records[0]);
      ReplayKeepsWellFormed(ApplyRecord(book, records[0]), records[1..]);
    }
  }

  // --- Processing --------------------------------------------------------------------------------

  /** A symbol's book together with the shared accounts. */
  datatype Venue = Venue(book: BookState, accounts: State)

  /** One request's turn: the branches of the reply loop, in order. */
  function ProcessWork(v: Venue, symbol: Symbol, w: Work, failed: bool, seqNo: int): (Venue, Reply) {
    var reply := Reply(w.seqNo, w.orderId, None, NoOutcome, None);
    if w.request.SnapshotRequest? then (v, reply.(snapshot := Some(SnapshotOf(v.book)), seqNo := seqNo))
    else if w.preErr.Some? then (v, reply.(err := Some(Rejected(w.preErr.value))))
    else if failed then
      (if w.request.SubmitRequest? then v.(accounts := Release(v.accounts, HoldKey(symbol, w.orderId))) else v,
       reply.(err := Some(LogFailed)))
    else
      match w.request
      case CancelRequest(id, who) => ProcessCancel(v, symbol, id, who, reply)
      case SubmitRequest(o) => ProcessSubmit(v, symbol, o, w.orderId, reply)
  }

  function ProcessCancel(v: Venue, symbol: Symbol, id: SeqID, who: Account, reply: Reply): (Venue, Reply) {
    var (book', err) := Cancel(v.book, id, who);
    if err.Some? then (v.(book := book'), reply.(err := Some(CancelRefused(err.value))))
    else (Venue(book', Release(v.accounts, HoldKey(symbol, id))), reply)
  }

  function ProcessSubmit(v: Venue, symbol: Symbol, o: Order, orderId: SeqID, reply: Reply): (Venue, Reply) {
    var (book', res) := Submit(v.book, o);
    if res.None? then
      (Venue(book', Release(v.accounts, HoldKey(symbol, orderId))), reply.(err := Some(UnknownSideOrType)))
    else
      (Venue(book', Complete(v.accounts, symbol, orderId, res.value)), reply.(outcome := res.value))
  }

  function ProcessAll(v: Venue, symbol: Symbol, works: seq<Work>, failed: bool, seqNo: int): (Venue, seq<Reply>)
    decreases |works|
  {
    if works == [] then (v, [])
    else
      var (v1, r) := ProcessWork(v, symbol, works[0], failed, seqNo);
      var (v2, rs) := ProcessAll(v1, symbol, works[1..], failed, seqNo);
      (v2, [r] + rs)
  }

  // --- The orders of a batch -----------------------------------------------------------------------

  /** The submits whose reservation was accepted, in batch order. */
  function Accepted(works: seq<Work>): seq<Order> {
    if works == [] then []
    else if works[0].request.SubmitRequest? && works[0].preErr.None? then
      [works[0].request.order] + Accepted(works[1..])
    else Accepted(works[1..])
  }

  lemma {:induction false} AcceptedJoin(a: seq<Work>, b: seq<Work>)
    ensures Accepted(a + b) == Accepted(a) + Accepted(b)
  {
    if a == [] {
      assert a + b == b;
    } else {
      AcceptedJoin(a[1..], b);
      assert (a + b)[1..] == a[1..] + b;
    }
  }

  /** Works as the first pass leaves them: submits carry their final id and the sequencer's symbol. */
  predicate Assigned(symbol: Symbol, works: seq<Work>) {
    forall i :: 0 <= i < |works| && works[i].request.SubmitRequest? ==>
      works[i].request.order.symbol == symbol && works[i].request.order.id == works[i].orderId
  }

  lemma {:induction false} AssignAllAssigns(symbol: Symbol, batch: seq<Request>, nextId: SeqID)
    ensures var (ws, n) := AssignAll(symbol, batch, nextId);
      && |ws| == |batch| && Assigned(symbol, ws) && n >= nextId
      && (forall i :: 0 <= i < |ws| ==> ws[i].preErr.None?)
  {
    if batch != [] {
      var (w, n) := Assign(symbol, batch[0], nextId);
      AssignAllAssigns(symbol, batch[1..], n);
    }
  }

  // --- One step of a batch keeps the holds exact -----------------------------------------------------

  lemma ReserveWorkStaysExact(st: State, symbol: Symbol, book: BookState, done: seq<Work>, w: Work)
    requires Sound(st) && Exact(st.holds, symbol, book, Accepted(done))
    requires Assigned(symbol, [w]) && w.preErr.None?
    ensures var (st', w') := ReserveWork(st, w);
      && Sound(st') && Exact(st'.holds, symbol, book, Accepted(done + [w']))
      && OthersUntouched(st.holds, st'.holds, symbol)
      && Assigned(symbol, [w']) && w'.request == w.request && w'.orderId == w.orderId
      && (forall x :: Owned(st', x) == Owned(st, x))
  {
    var (st', w') := ReserveWork(st, w);
    AcceptedJoin(done, [w']);
    hide Sound, Exact, Owned;
    if w.request.SubmitRequest? {
      var o := w.request.order;
      assert [w][0] == w && o.symbol == symbol;
      ReserveStaysExact(st, symbol, book, Accepted(done), o);
      ReserveEffect(st, o);
    }
    assert Accepted([w']) == if w'.request.SubmitRequest? && w'.preErr.None? then [w'.request.order] else [];
    assert Accepted(done) + [] == Accepted(done);
  }

  /** The trades processing this request prints all have representable values. */
  predicate NoOverflow(v: Venue, symbol: Symbol, w: Work, failed: bool, seqNo: int) {
    TradesOk(ProcessWork(v, symbol, w, failed, seqNo).1.outcome.trades)
  }

  /** Holds are still exactly the live orders, and balances have moved by these trades only. */
  ghost predicate Settled(v: Venue, v': Venue, symbol: Symbol, pending: seq<Order>, trades: seq<Trade>) {
    && Sound(v'.accounts) && Exact(v'.accounts.holds, symbol, v'.book, pending)
    && OthersUntouched(v.accounts.holds, v'.accounts.holds, symbol)
    && (forall x :: Owned(v'.accounts, x) == Owned(v.accounts, x) + Movements(trades, x))
  }

  lemma ProcessCancelSettles(v: Venue, symbol: Symbol, id: SeqID, who: Account, reply: Reply, pending: seq<Order>)
    requires Sound(v.accounts) && Exact(v.accounts.holds, symbol, v.book, pending)
    requires reply.outcome.trades == []
    ensures var (v', r) := ProcessCancel(v, symbol, id, who, reply); Settled(v, v', symbol, pending, r.outcome.trades)
  {
    hide Sound, Exact, Owned, Release;
    CancelStaysExact(v.accounts, symbol, v.book, pending, id, who);
  }

  lemma ProcessSubmitSettles(v: Venue, symbol: Symbol, o: Order, reply: Reply, rest: seq<Order>)
    requires Sound(v.accounts) && Exact(v.accounts.holds, symbol, v.book, [o] + rest)
    requires reply.outcome.trades == []
    requires TradesOk(ProcessSubmit(v, symbol, o, o.id, reply).1.outcome.trades)
    ensures var (v', r) := ProcessSubmit(v, symbol, o, o.id, reply); Settled(v, v', symbol, rest, r.outcome.trades)
  {
    hide Sound, Exact, Owned, Release, Complete;
    SubmitStaysExact(v.accounts, symbol, v.book, o, rest);
  }

  lemma AcceptedHead(w: Work, rest: seq<Work>)
    ensures Accepted([w] + rest)
         == if w.request.SubmitRequest? && w.preErr.None? then [w.request.order] + Accepted(rest) else Accepted(rest)
  {
    assert ([w] + rest)[1..] == rest;
  }

  /** Whatever a request's turn does, holds are exactly the live orders again after it. */
  lemma ProcessWorkStaysExact(v: Venue, symbol: Symbol, w: Work, rest: seq<Work>, failed: bool, seqNo: int)
    requires Sound(v.accounts) && Exact(v.accounts.holds, symbol, v.book, Accepted([w] + rest))
    requires Assigned(symbol, [w]) && NoOverflow(v, symbol, w, failed, seqNo)
    ensures var (v', r) := ProcessWork(v, symbol, w, failed, seqNo);
      Settled(v, v', symbol, Accepted(rest), r.outcome.trades)
  {
    hide Sound, Exact, Owned, Release, ProcessCancel, ProcessSubmit, Accepted;
    AcceptedHead(w, rest);
    assert [w][0] == w;
    var reply := Reply(w.seqNo, w.orderId, None, NoOutcome, None);
    var pending := Accepted(rest);
    if w.request.SnapshotRequest? || w.preErr.Some? {
    } else if failed {
      if w.request.SubmitRequest? {
        var o := w.request.order;
        assert Key(o) == HoldKey(symbol, w.orderId);
        WithoutHeadStaysExact(v.accounts.holds, symbol, v.book, o, pending);
        ReleaseEffect(v.accounts, Key(o));
      }
    } else if w.request.CancelRequest? {
      ProcessCancelSettles(v, symbol, w.request.id, w.request.who, reply, pending);
    } else {
      ProcessSubmitSettles(v, symbol, w.request.order, reply, pending);
    }
  }
}
