/**
 * The pooled reply channels as a protocol: any number of callers, one sequencer
 * goroutine, contexts that end at any moment, batching and shutdown. Each channel
 * buffers one result; results are identified with the requests they answer.
 */
module ReplyPool {

  type ReqId = nat
  type ChanId = nat

  /** Where a caller of `do` stands. */
  datatype Caller =
    | Sending(chan: ChanId)
    | Waiting(chan: ChanId)
    | Answered(result: ReqId)
    | GaveUp

  /** A request the goroutine has taken, with the channel to answer on. */
  datatype Ticket = Ticket(req: ReqId, chan: ChanId)

  datatype Pool = Pool(
    free: set<ChanId>,
    made: nat,
    buffer: map<ChanId, seq<ReqId>>,
    callers: map<ReqId, Caller>,
    batch: seq<Ticket>,
    replying: bool,
    stopped: bool,
    owner: map<ChanId, ReqId>,
    taken: seq<ReqId>,
    sent: seq<ReqId>)

  const MAX_BATCH: nat := 256

  datatype Step =
    | CallWithPooled(req: ReqId, chan: ChanId)
    | CallWithNew(req: ReqId)
    | Discard(chan: ChanId)
    | HandOver(req: ReqId)
    | AbortSend(req: ReqId)
    | StartReplying
    | Reply
    | Receive(req: ReqId)
    | AbandonWait(req: ReqId)
    | Stop

  predicate Enabled(p: Pool, step: Step) {
    match step
    case CallWithPooled(r, c) => r !in p.callers && c in p.free
    case CallWithNew(r) => r !in p.callers
    case Discard(c) => c in p.free
    case HandOver(r) =>
      && r in p.callers && p.callers[r].Sending?
      && !p.stopped && !p.replying && |p.batch| < MAX_BATCH
    case AbortSend(r) => r in p.callers && p.callers[r].Sending?
    case StartReplying => !p.replying && p.batch != []
    case Reply =>
      p.replying && p.batch != [] && p.batch[0].chan in p.buffer && p.buffer[p.batch[0].chan] == []
    case Receive(r) =>
      r in p.callers && p.callers[r].Waiting? && p.callers[r].chan in p.buffer && p.buffer[p.callers[r].chan] != []
    case AbandonWait(r) => r in p.callers && p.callers[r].Waiting?
    case Stop => p.batch == [] && !p.replying
  }

  function Do(p: Pool, step: Step): Pool
    requires Enabled(p, step)
  {
    match step
    case CallWithPooled(r, c) =>
      p.(free := p.free - {c}, callers := p.callers[r := Sending(c)], owner := p.owner[c := r])
    case CallWithNew(r) =>
      p.(made := p.made + 1, buffer := p.buffer[p.made := []],
         callers := p.callers[r := Sending(p.made)], owner := p.owner[p.made := r])
    case Discard(c) => p.(free := p.free - {c})
    case HandOver(r) =>
      var c := p.callers[r].chan;
      p.(callers := p.callers[r := Waiting(c)], batch := p.batch + [Ticket(r, c)], taken := p.taken + [r])
    case AbortSend(r) =>
      var c := p.callers[r].chan;
      p.(callers := p.callers[r := GaveUp], free := p.free + {c}, owner := p.owner - {c})
    case StartReplying => p.(replying := true)
    case Reply =>
      var t := p.batch[0];
      p.(buffer := p.buffer[t.chan := [t.req]], batch := p.batch[1..], sent := p.sent + [t.req],
         replying := p.batch[1..] != [])
    case Receive(r) =>
      var c := p.callers[r].chan;
      p.(callers := p.callers[r := Answered(p.buffer[c][0])], buffer := p.buffer[c := p.buffer[c][1..]],
         free := p.free + {c}, owner := p.owner - {c})
    case AbandonWait(r) => p.(callers := p.callers[r := GaveUp])
    case Stop => p.(stopped := true)
  }

  // --- The invariant ----------------------------------------------------------------------------

  /** Pooled channels are empty, exist, and belong to nobody. */
  ghost predicate FreeOk(p: Pool) {
    forall c :: c in p.free ==> c in p.buffer && p.buffer[c] == [] && c !in p.owner
  }

  ghost predicate ChansOk(p: Pool) {
    && (forall c :: c in p.buffer ==> c < p.made)
    && (forall c :: c in p.owner ==> c in p.buffer)
    && (forall c, d :: c in p.owner && d in p.owner && p.owner[c] == p.owner[d] ==> c == d)
    && (forall c :: c in p.owner ==> p.owner[c] in p.callers)
  }

  /** A buffered result is its channel's owner's, and has been sent. */
  ghost predicate BuffersOk(p: Pool) {
    forall c :: c in p.buffer && p.buffer[c] != [] ==>
      c in p.owner && p.buffer[c] == [p.owner[c]] && p.owner[c] in p.sent
  }

  ghost predicate CallerOk(p: Pool, r: ReqId)
    requires ChansOk(p) && r in p.callers
  {
    match p.callers[r]
    case Sending(c) => c in p.owner && p.owner[c] == r && p.buffer[c] == [] && r !in p.taken
    case Waiting(c) => c in p.owner && p.owner[c] == r && (Ticket(r, c) in p.batch || p.buffer[c] == [r])
    case Answered(x) => x == r && r in p.sent
    case GaveUp => true
  }

  ghost predicate CallersOk(p: Pool)
    requires ChansOk(p)
  {
    forall r :: r in p.callers ==> CallerOk(p, r)
  }

  /** Everything in the batch is owed one answer, on an empty channel of its own. */
  ghost predicate BatchOk(p: Pool)
    requires ChansOk(p)
  {
    && (forall i :: 0 <= i < |p.batch| ==>
          var t := p.batch[i];
          && t.chan in p.owner && p.owner[t.chan] == t.req && p.buffer[t.chan] == []
          && t.req in p.callers && (p.callers[t.req] == Waiting(t.chan) || p.callers[t.req] == GaveUp)
          && t.req in p.taken && t.req !in p.sent)
    && (forall i, j :: 0 <= i < j < |p.batch| ==> p.batch[i].req != p.batch[j].req)
    && |p.batch| <= MAX_BATCH
  }

  function Reqs(batch: seq<Ticket>): seq<ReqId> {
    seq(|batch|, i requires 0 <= i < |batch| => batch[i].req)
  }

  predicate NoRepeats(s: seq<ReqId>) {
    forall i, j :: 0 <= i < j < |s| ==> s[i] != s[j]
  }

  /** The requests taken, each once, are those answered, in the order they were taken, and then the batch. */
  ghost predicate AccountedFor(p: Pool) {
    && p.taken == p.sent + Reqs(p.batch) && NoRepeats(p.taken)
    && (forall r :: r in p.taken ==> r in p.callers)
  }

  ghost predicate Inv(p: Pool) {
    ChansOk(p) && FreeOk(p) && BuffersOk(p) && CallersOk(p) && BatchOk(p) && AccountedFor(p)
    && (p.replying ==> p.batch != [])
  }

  const EmptyPool: Pool := Pool({}, 0, map[], map[], [], false, false, map[], [], [])

  lemma EmptyPoolIsOk()
    ensures Inv(EmptyPool)
  {
  }

  // --- Each step ------------------------------------------------------------------------------------

  lemma CallKeeps(p: Pool, r: ReqId, c: ChanId)
    requires Inv(p) && Enabled(p, CallWithPooled(r, c))
    ensures Inv(Do(p, CallWithPooled(r, c)))
  {
    hide Reqs, NoRepeats;
    var p' := Do(p, CallWithPooled(r, c));
    assert ChansOk(p') && FreeOk(p') && BuffersOk(p');
    assert CallersOk(p');
    assert BatchOk(p') && AccountedFor(p');
  }

  lemma CallNewKeeps(p: Pool, r: ReqId)
    requires Inv(p) && Enabled(p, CallWithNew(r))
    ensures Inv(Do(p, CallWithNew(r)))
  {
    hide Reqs, NoRepeats;
    var p' := Do(p, CallWithNew(r));
    assert p.made !in p.buffer && p.made !in p.owner;
    assert ChansOk(p') && FreeOk(p') && BuffersOk(p');
    assert CallersOk(p');
    assert BatchOk(p') && AccountedFor(p');
  }

  lemma HandOverKeepsChannels(p: Pool, r: ReqId)
    requires Inv(p) && Enabled(p, HandOver(r))
    ensures var p' := Do(p, HandOver(r)); ChansOk(p') && FreeOk(p') && BuffersOk(p') && CallersOk(p')
  {
    var p' := Do(p, HandOver(r));
    var c := p.callers[r].chan;
    assert CallerOk(p, r);
    assert Ticket(r, c) in p'.batch && forall t :: t in p.batch ==> t in p'.batch;
    forall q | q in p'.callers ensures CallerOk(p', q) { assert CallerOk(p, q); }
  }

  lemma HandOverKeepsBatch(p: Pool, r: ReqId)
    requires Inv(p) && Enabled(p, HandOver(r))
    ensures var p' := Do(p, HandOver(r)); ChansOk(p') && BatchOk(p') && AccountedFor(p')
  {
    hide FreeOk, BuffersOk;
    var p' := Do(p, HandOver(r));
    var c := p.callers[r].chan;
    var n := |p.batch|;
    assert CallerOk(p, r);
    assert p'.batch[n] == Ticket(r, c) && forall i :: 0 <= i < n ==> p'.batch[i] == p.batch[i];
    assert forall i :: 0 <= i < n ==> p.batch[i].req != r;
    assert Reqs(p'.batch) == Reqs(p.batch) + [r];
    assert r !in p.taken && forall q :: q in p'.taken ==> q in p.taken || q == r;
  }

  lemma HandOverKeeps(p: Pool, r: ReqId)
    requires Inv(p) && Enabled(p, HandOver(r))
    ensures Inv(Do(p, HandOver(r)))
  {
    HandOverKeepsChannels(p, r);
    HandOverKeepsBatch(p, r);
    hide FreeOk, BuffersOk, ChansOk, BatchOk, AccountedFor, CallersOk;
  }

  lemma AbortKeepsChannels(p: Pool, r: ReqId)
    requires Inv(p) && Enabled(p, AbortSend(r))
    ensures var p' := Do(p, AbortSend(r)); ChansOk(p') && FreeOk(p') && BuffersOk(p') && CallersOk(p')
  {
    hide AccountedFor, BatchOk;
    assert CallerOk(p, r);
    var p' := Do(p, AbortSend(r));
    forall q | q in p'.callers ensures CallerOk(p', q) { assert CallerOk(p, q); }
  }

  lemma AbortKeepsBatch(p: Pool, r: ReqId)
    requires Inv(p) && Enabled(p, AbortSend(r))
    ensures var p' := Do(p, AbortSend(r)); ChansOk(p') && BatchOk(p') && AccountedFor(p')
  {
    hide FreeOk, BuffersOk, Reqs, NoRepeats;
    assert CallerOk(p, r);
    assert forall i :: 0 <= i < |p.batch| ==> p.batch[i].req != r;
  }

  lemma AbortKeeps(p: Pool, r: ReqId)
    requires Inv(p) && Enabled(p, AbortSend(r))
    ensures Inv(Do(p, AbortSend(r)))
  {
    AbortKeepsChannels(p, r);
    AbortKeepsBatch(p, r);
    hide FreeOk, BuffersOk, ChansOk, BatchOk, AccountedFor, CallersOk;
  }

  lemma ReplyKeepsChannels(p: Pool)
    requires Inv(p) && Enabled(p, Reply)
    ensures var p' := Do(p, Reply); ChansOk(p') && FreeOk(p') && BuffersOk(p') && CallersOk(p')
  {
    hide AccountedFor;
    var p' := Do(p, Reply);
    var t := p.batch[0];
    assert p.batch == [t] + p'.batch;
    assert ChansOk(p') && FreeOk(p') && BuffersOk(p');
    forall r | r in p'.callers && p'.callers[r].Waiting?
      ensures Ticket(r, p'.callers[r].chan) in p'.batch || p'.buffer[p'.callers[r].chan] == [r]
    {
      var c := p.callers[r].chan;
      if Ticket(r, c) in p.batch && Ticket(r, c) != t { assert Ticket(r, c) in p'.batch; }
    }
  }

  lemma ReplyKeepsBatch(p: Pool)
    requires Inv(p) && Enabled(p, Reply)
    ensures var p' := Do(p, Reply); ChansOk(p') && BatchOk(p')
  {
    hide FreeOk, BuffersOk, AccountedFor, CallersOk;
    var p' := Do(p, Reply);
    assert forall i :: 0 <= i < |p'.batch| ==> p'.batch[i] == p.batch[i + 1];
  }

  lemma ReplyKeepsCount(p: Pool)
    requires Inv(p) && Enabled(p, Reply)
    ensures AccountedFor(Do(p, Reply))
  {
    hide FreeOk, BuffersOk, CallersOk, BatchOk;
    var p' := Do(p, Reply);
    assert Reqs(p.batch) == [p.batch[0].req] + Reqs(p'.batch);
  }

  lemma ReplyKeeps(p: Pool)
    requires Inv(p) && Enabled(p, Reply)
    ensures Inv(Do(p, Reply))
  {
    ReplyKeepsChannels(p);
    ReplyKeepsBatch(p);
    ReplyKeepsCount(p);
    hide FreeOk, BuffersOk, ChansOk, BatchOk, AccountedFor, CallersOk;
  }

  lemma ReceiveKeeps(p: Pool, r: ReqId)
    requires Inv(p) && Enabled(p, Receive(r))
    ensures Inv(Do(p, Receive(r)))
    ensures Do(p, Receive(r)).callers[r] == Answered(r)
  {
    hide Reqs, NoRepeats;
    var p' := Do(p, Receive(r));
    var c := p.callers[r].chan;
    assert CallerOk(p, r) && p.buffer[c] == [r];
    assert forall i :: 0 <= i < |p.batch| ==> p.batch[i].chan != c;
    assert ChansOk(p');
    assert FreeOk(p');
    assert BuffersOk(p');
    forall q | q in p'.callers ensures CallerOk(p', q) {
      assert CallerOk(p, q);
    }
    assert BatchOk(p');
  }

  lemma AbandonKeeps(p: Pool, r: ReqId)
    requires Inv(p) && Enabled(p, AbandonWait(r))
    ensures Inv(Do(p, AbandonWait(r)))
  {
    hide Reqs, NoRepeats;
    var p' := Do(p, AbandonWait(r));
    assert CallersOk(p') && BatchOk(p') && AccountedFor(p');
  }

  /** Every step of every caller and of the goroutine keeps the protocol in order. */
  lemma StepKeepsInv(p: Pool, step: Step)
    requires Inv(p) && Enabled(p, step)
    ensures Inv(Do(p, step))
  {
    match step
    case CallWithPooled(r, c) => CallKeeps(p, r, c);
    case CallWithNew(r) => CallNewKeeps(p, r);
    case HandOver(r) => HandOverKeeps(p, r);
    case AbortSend(r) => AbortKeeps(p, r);
    case Reply => ReplyKeeps(p);
    case Receive(r) => ReceiveKeeps(p, r);
    case AbandonWait(r) => AbandonKeeps(p, r);
    case Discard(c) =>
    case StartReplying =>
    case Stop =>
  }

  // --- Runs ----------------------------------------------------------------------------------------------

  predicate CanRun(p: Pool, steps: seq<Step>)
    decreases |steps|
  {
    steps == [] || (Enabled(p, steps[0]) && CanRun(Do(p, steps[0]), steps[1..]))
  }

  function Ran(p: Pool, steps: seq<Step>): Pool
    requires CanRun(p, steps)
    decreases |steps|
  {
    if steps == [] then p else Ran(Do(p, steps[0]), steps[1..])
  }

  lemma {:induction false} RunKeepsInv(p: Pool, steps: seq<Step>)
    requires Inv(p) && CanRun(p, steps)
    ensures Inv(Ran(p, steps))
    decreases |steps|
  {
    hide Inv, Enabled, Do;
    if steps != [] {
      StepKeepsInv(p, steps[0]);
      RunKeepsInv(Do(p, steps[0]), steps[1..]);
    }
  }

  /**
   * Over all interleavings: a pooled channel is empty and nobody's; an answer's send never
   * blocks; and no caller ever receives another request's result.
   */
  lemma ProtocolIsSafe(steps: seq<Step>)
    requires CanRun(EmptyPool, steps)
    ensures var p := Ran(EmptyPool, steps);
      && (forall c :: c in p.free ==>
            && c in p.buffer && p.buffer[c] == []
            && (forall r :: r in p.callers && (p.callers[r].Sending? || p.callers[r].Waiting?) ==>
                p.callers[r].chan != c)
            && (forall i :: 0 <= i < |p.batch| ==> p.batch[i].chan != c))
      && (p.replying ==> Enabled(p, Reply))
      && (forall r :: r in p.callers && p.callers[r].Answered? ==> p.callers[r].result == r)
  {
    EmptyPoolIsOk();
    RunKeepsInv(EmptyPool, steps);
    hide Ran, CanRun;
  }

  /**
   * Every request the goroutine takes is sent exactly one answer, in the order taken: over any
   * run no answer is sent twice, what has been answered is a first part of what has been taken,
   * and the rest of it is the batch in hand.
   */
  lemma EachAnsweredOnce(steps: seq<Step>)
    requires CanRun(EmptyPool, steps)
    ensures var p := Ran(EmptyPool, steps);
      && NoRepeats(p.sent) && p.sent <= p.taken && NoRepeats(p.taken)
      && (forall r :: r in p.taken && r !in p.sent ==> exists i :: 0 <= i < |p.batch| && p.batch[i].req == r)
      && (p.batch == [] ==> p.sent == p.taken)
  {
    EmptyPoolIsOk();
    RunKeepsInv(EmptyPool, steps);
    var p := Ran(EmptyPool, steps);
    hide Ran, CanRun, ChansOk, FreeOk, BuffersOk, CallersOk, BatchOk;
    assert forall i :: 0 <= i < |p.sent| ==> p.sent[i] == p.taken[i];
    forall r | r in p.taken && r !in p.sent ensures exists i :: 0 <= i < |p.batch| && p.batch[i].req == r {
      assert r in Reqs(p.batch);
    }
  }
}
