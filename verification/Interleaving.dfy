/**
 * The interleaved steps are the sequencer's program: when no other symbol moves in
 * between, the steps of one batch do to the book and the accounts what one commit does.
 */
module Interleaving {
  import opened Types
  import opened Matching
  import opened AccountState
  import opened Guards
  import opened Commit
  import opened Framing
  import opened Wal
  import opened GroupCommit
  import opened World

  function Repeat(step: Step, n: nat): seq<Step> {
    if n == 0 then [] else [step] + Repeat(step, n - 1)
  }

  lemma {:induction false} EndJoin(w: World, a: seq<Step>, b: seq<Step>)
    requires AnyRun(w, a) && AnyRun(End(w, a), b)
    ensures AnyRun(w, a + b) && End(w, a + b) == End(End(w, a), b)
    decreases |a|
  {
    hide Enabled, Do;
    if a == [] {
      assert a + b == b;
    } else {
      EndJoin(Do(w, a[0]), a[1..], b);
      assert (a + b)[0] == a[0] && (a + b)[1..] == a[1..] + b;
    }
  }

  function AtPhase(w: World, s: Symbol, st: State, d: Desk): World {
    World(st, w.desks[s := d])
  }

  lemma {:induction false} ReserveRun(w: World, s: Symbol, reserved: seq<Work>, unreserved: seq<Work>)
    requires s in w.desks && w.desks[s].phase == Reserving(reserved, unreserved)
    ensures AnyRun(w, Repeat(ReserveNext(s), |unreserved|))
    ensures var (st, ws) := ReserveAll(w.accounts, unreserved);
      End(w, Repeat(ReserveNext(s), |unreserved|))
        == AtPhase(w, s, st, w.desks[s].(phase := Reserving(reserved + ws, [])))
    decreases |unreserved|
  {
    hide ReserveWork;
    if unreserved == [] {
      assert reserved + [] == reserved;
      assert w.desks[s := w.desks[s].(phase := Reserving(reserved, []))] == w.desks;
    } else {
      var w1 := Do(w, ReserveNext(s));
      var (st1, work) := ReserveWork(w.accounts, unreserved[0]);
      ReserveRun(w1, s, reserved + [work], unreserved[1..]);
      var ws := ReserveAll(st1, unreserved[1..]).1;
      assert reserved + [work] + ws == reserved + ([work] + ws);
      assert Repeat(ReserveNext(s), |unreserved|)[1..] == Repeat(ReserveNext(s), |unreserved[1..]|);
      assert w1.desks[s := w1.desks[s].(phase := Reserving(reserved + [work] + ws, []))]
          == w.desks[s := w.desks[s].(phase := Reserving(reserved + [work] + ws, []))];
    }
  }

  lemma {:induction false} ProcessRun(w: World, s: Symbol, works: seq<Work>)
    requires s in w.desks && w.desks[s].phase == Processing(works)
    ensures AnyRun(w, Repeat(ProcessNext(s), |works| + 1))
    ensures var d := w.desks[s]; var v := ProcessAll(Venue(d.book, w.accounts), s, works, d.failed, d.position).0;
      End(w, Repeat(ProcessNext(s), |works| + 1)) == AtPhase(w, s, v.accounts, d.(book := v.book, phase := Idle))
    decreases |works|
  {
    hide ProcessWork;
    var w1 := Do(w, ProcessNext(s));
    assert Repeat(ProcessNext(s), |works| + 1)[1..] == Repeat(ProcessNext(s), |works|);
    if works == [] {
      assert End(w, Repeat(ProcessNext(s), 1)) == End(w1, []);
    } else {
      ProcessRun(w1, s, works[1..]);
      var d := w.desks[s];
      var v := ProcessAll(Venue(d.book, w.accounts), s, works, d.failed, d.position).0;
      assert w1.desks[s := d.(book := v.book, phase := Idle)] == w.desks[s := d.(book := v.book, phase := Idle)];
    }
  }

  lemma {:induction false} ProcessIgnoresPositions(v: Venue, s: Symbol, a: seq<Work>, b: seq<Work>, failed: bool,
                                                   x: int, y: int)
    requires SameWorks(a, b)
    ensures ProcessAll(v, s, a, failed, x).0 == ProcessAll(v, s, b, failed, y).0
    decreases |a|
  {
    hide Release, Complete, Submit, Cancel;
    if a != [] {
      assert a[0].(seqNo := b[0].seqNo) == b[0];
      ProcessIgnoresPositions(ProcessWork(v, s, a[0], failed, x).0, s, a[1..], b[1..], failed, x, y);
    }
  }

  lemma {:induction false} NumberedIsSame(works: seq<Work>, seqNo: int)
    ensures SameWorks(works, Numbered(works, seqNo))
  {
    if works != [] { NumberedIsSame(works[1..], if IsLogged(works[0]) then seqNo + 1 else seqNo); }
  }

  /** The steps of one batch, one after another. */
  function BatchSteps(s: Symbol, batch: seq<Request>, ts: int, ok: bool): seq<Step> {
    [Begin(s, batch)] + Repeat(ReserveNext(s), |batch|) + [Step.Log(s, ts, ok)] + Repeat(ProcessNext(s), |batch| + 1)
  }

  lemma SingleStep(w: World, step: Step)
    requires Enabled(w, step)
    ensures AnyRun(w, [step]) && End(w, [step]) == Do(w, step)
  {
    assert [step][1..] == [];
    assert AnyRun(Do(w, step), [step][1..]);
  }

  /**
   * Taken without interruption, the steps of a batch leave the book and the accounts exactly
   * as one commit of it does, whether its log write succeeds, fails, or had failed before.
   */
  lemma UninterruptedBatchIsCommit(c: Codec, w: World, s: Symbol, e: Engine, batch: seq<Request>, ts: int,
                                   faults: seq<Fault>, syncOk: bool)
    requires s in w.desks && w.desks[s].phase.Idle?
    requires RoomFor(e.seqNo, |batch|) && IsInt64(ts) && |faults| == |batch|
    requires var d := w.desks[s]; d.book == e.book && d.nextOrderId == e.nextOrderId && d.failed == e.failed
    ensures var (e', st', _) := CommitBatch(c, s, e, w.accounts, batch, ts, faults, syncOk);
      var steps := BatchSteps(s, batch, ts, !e'.failed);
      && AnyRun(w, steps)
      && var w' := End(w, steps);
      && w'.accounts == st' && s in w'.desks && w'.desks[s].book == e'.book && w'.desks[s].nextOrderId == e'.nextOrderId
      && w'.desks[s].failed == e'.failed && w'.desks[s].phase.Idle?
  {
    hide ReserveAll, ProcessAll, AssignAll, LogWorks, SameWorks, Numbered, Records;
    var (e', st', _) := CommitBatch(c, s, e, w.accounts, batch, ts, faults, syncOk);
    var ok := !e'.failed;
    var (st1, works) := Prepared(s, e, w.accounts, batch);
    AssignAllKeepsLength(s, batch, e.nextOrderId);
    LoggingIsHarmless(c, e, works, ts, faults, syncOk);
    var (e1, ws) := Logged(c, e, works, ts, faults, syncOk);

    var works0 := AssignAll(s, batch, e.nextOrderId).0;
    var w1 := Do(w, Begin(s, batch));
    SingleStep(w, Begin(s, batch));
    ReserveRun(w1, s, [], works0);
    var w2 := End(w1, Repeat(ReserveNext(s), |batch|));
    assert [] + works == works;
    var w3 := Do(w2, Step.Log(s, ts, ok));
    SingleStep(w2, Step.Log(s, ts, ok));
    var logged := w3.desks[s].phase.unprocessed;
    NumberedIsSame(works, w2.desks[s].position);
    SameWorksSelf(works);
    ProcessRun(w3, s, logged);
    SameLength(works, logged);
    ProcessIgnoresPositions(Venue(e.book, st1), s, works, logged, e'.failed, e1.seqNo, w3.desks[s].position);
    ProcessIgnoresPositions(Venue(e.book, st1), s, works, ws, e'.failed, e1.seqNo, e1.seqNo);

    EndJoin(w, [Begin(s, batch)], Repeat(ReserveNext(s), |batch|));
    EndJoin(w, [Begin(s, batch)] + Repeat(ReserveNext(s), |batch|), [Step.Log(s, ts, ok)]);
    EndJoin(w, [Begin(s, batch)] + Repeat(ReserveNext(s), |batch|) + [Step.Log(s, ts, ok)],
            Repeat(ProcessNext(s), |batch| + 1));
  }
}
