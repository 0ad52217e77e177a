/**
 * The whole path of a record: the primary writes it to its own directory, a tailer
 * reads it there while the log grows and rotates, a stream carries it, and a follower
 * stores and applies it. Either side may crash and restart, the primary may lose power,
 * and the stream may break; what was on the wire is then read again from the directory.
 */
module Streaming {
  import opened Types
  import opened Matching
  import opened Commit
  import opened Framing
  import opened Wal
  import opened Tailing
  import opened Replication

  /** The primary's directory and how its records lie there. */
  datatype Primary = Primary(dir: Dir, parts: Parts, written: nat)

  /** A stream: where its tailer has got to, and the records sent and not yet received. */
  datatype Wire = Wire(tail: Tail, sent: seq<Record>)

  datatype Net = Net(primary: Primary, wire: Option<Wire>, side: Replication.Side)

  datatype Move =
    | Write(next: Primary)
    | RestartPrimary(maxBytes: int)
    | LosePower(cut: nat, maxBytes: int)
    | Connect
    | Poll(next: Primary, listed: Primary, max: int)
    | Receive(count: nat, faults: seq<Fault>, syncOk: bool)
    | Break
    | CrashFollower(cut: nat)
    | StartFollower(maxBytes: int)

  /** The records a reader of the primary's directory finds. */
  function Visible(c: Codec, pr: Primary): seq<Record>
    requires AllWritable(c, pr.parts.current)
  {
    WholeParts(c, pr.parts, pr.written).All()
  }

  ghost predicate PrimaryStands(c: Codec, pr: Primary) {
    && OnDisk(c, pr.dir, pr.parts, pr.written) && AllWritable(c, pr.parts.current)
    && Replayable(EmptyBook, Visible(c, pr))
  }

  /** The primary appended and rotated, or did nothing. */
  ghost predicate Grew(c: Codec, a: Primary, b: Primary) {
    PrimaryStands(c, b) && Extends(a.parts, a.written, b.parts, b.written)
  }

  function Abstract(c: Codec, n: Net): System
    requires AllWritable(c, n.primary.parts.current)
  {
    System(Visible(c, n.primary), n.side)
  }

  /** What can be read of the follower's own log. */
  function Held(c: Codec, side: Replication.Side): seq<Record> {
    ReadAll(c, if side.Running? then side.follower.wal.dir else side.dir).0
  }

  /** How many records are whole in the bytes a power loss leaves: unsynced ones at the end may go. */
  function Surviving(c: Codec, pr: Primary, cut: nat): nat
    requires AllWritable(c, pr.parts.current) && cut >= WAL_HEADER_SIZE
  {
    |Flat(pr.parts.closed)| + WholeWithin(c, pr.parts.current, cut - WAL_HEADER_SIZE)
  }

  /** Closed segments were synced; of the newest, some first bytes are left. */
  predicate MayLose(pr: Primary, cut: nat) {
    pr.dir != [] && WAL_HEADER_SIZE <= cut <= |Last(pr.dir).data|
  }

  function PowerLost(pr: Primary, cut: nat): Primary
    requires MayLose(pr, cut)
  {
    Primary(CutLast(pr.dir, cut), pr.parts, cut - WAL_HEADER_SIZE)
  }

  /** The primary's process starts again over its directory; its streams are gone. */
  function Restarted(c: Codec, n: Net, maxBytes: int): Net
    requires AllWritable(c, n.primary.parts.current)
  {
    var whole := WholeParts(c, n.primary.parts, n.primary.written);
    var dir := match OpenWriter(c, n.primary.dir, maxBytes) case Some(w) => w.dir case None => n.primary.dir;
    Net(Primary(dir, whole, |Frames(c, whole.current)|), None,
        if n.side.Running? then n.side.(stream := None) else n.side)
  }

  ghost predicate Able(c: Codec, n: Net, move: Move) {
    && AllWritable(c, n.primary.parts.current)
    && match move
       case Write(next) => Grew(c, n.primary, next)
       case RestartPrimary(_) => true
       case Connect => n.side.Running? && !n.side.failed && n.side.follower.position >= 0
       case LosePower(cut, _) =>
         MayLose(n.primary, cut) && |Held(c, n.side)| <= Surviving(c, n.primary, cut)
       case Poll(next, listed, max) =>
         && n.wire.Some? && max >= 1 && Grew(c, n.primary, next) && Grew(c, next, listed)
         && !LeavesSome(c, n.primary.dir, next.dir, listed.dir, n.wire.value.tail, max)
       case Receive(count, faults, syncOk) =>
         && n.wire.Some? && count <= |n.wire.value.sent| && n.side.Running? && n.side.stream.Some?
         && var batch := n.wire.value.sent[..count];
            AllInt64(batch) && |faults| == |Above(batch, n.side.follower.position)|
       case Break => n.side.Running?
       case CrashFollower(cut) => Enabled(c, Abstract(c, n), FollowerCrash(cut))
       case StartFollower(maxBytes) => Enabled(c, Abstract(c, n), FollowerStart(maxBytes))
  }

  /** What the follower receives is what was sent first; it applies it, and a failure ends the stream. */
  function Made(c: Codec, n: Net, move: Move): Net
    requires Able(c, n, move)
  {
    match move
    case Write(next) => n.(primary := next)
    case RestartPrimary(maxBytes) => Restarted(c, n, maxBytes)
    case LosePower(cut, maxBytes) => Restarted(c, n.(primary := PowerLost(n.primary, cut)), maxBytes)
    case Connect =>
      var from: nat := n.side.follower.position;
      Net(n.primary, Some(Wire(Tail(from, None, 0), [])), n.side.(stream := Some(from)))
    case Poll(next, listed, max) =>
      var (tail, rs, _) := OnePass(c, n.primary.dir, next.dir, listed.dir, n.wire.value.tail, max);
      n.(primary := listed, wire := Some(Wire(tail, n.wire.value.sent + rs)))
    case Receive(count, faults, syncOk) =>
      var wire := n.wire.value;
      var (f, ok) := ApplyBatch(c, n.side.follower, wire.sent[..count], faults, syncOk);
      Net(n.primary, if ok then Some(wire.(sent := wire.sent[count..])) else None,
          Running(f, !ok, if ok then Some(n.side.stream.value + count) else None))
    case Break => Net(n.primary, None, n.side.(stream := None))
    case CrashFollower(cut) => Net(n.primary, None, Do(c, Abstract(c, n), FollowerCrash(cut)).side)
    case StartFollower(maxBytes) => Net(n.primary, None, Do(c, Abstract(c, n), FollowerStart(maxBytes)).side)
  }

  // --- The invariant ------------------------------------------------------------------------------------

  /** Where a stream's tailer stands in the primary's directory. */
  datatype Stand = Stand(start: int, segment: nat, passed: nat)

  /** What is on the wire is the primary's log from what the follower has been handed to where the tailer has got. */
  ghost predicate WireOk(c: Codec, pr: Primary, wire: Wire, handed: nat, stand: Stand)
    requires AllWritable(c, pr.parts.current)
  {
    && 0 <= stand.start <= |Visible(c, pr)|
    && Follows(c, pr.parts, pr.written, wire.tail, stand.start, stand.segment, stand.passed)
    && handed <= wire.tail.afterSeq <= |Visible(c, pr)|
    && wire.sent == Visible(c, pr)[handed..wire.tail.afterSeq]
  }

  ghost predicate NetOk(c: Codec, n: Net, at: Replication.Layout, stand: Stand) {
    && PrimaryStands(c, n.primary)
    && SystemOk(c, Abstract(c, n), at)
    && (n.wire.Some? <==> n.side.Running? && n.side.stream.Some?)
    && (n.wire.Some? ==> WireOk(c, n.primary, n.wire.value, n.side.stream.value, stand))
  }

  // --- The visible log ---------------------------------------------------------------------------------------

  lemma VisibleIsPrefix(c: Codec, p: Parts, k: nat)
    requires AllWritable(c, p.current)
    ensures WholeParts(c, p, k).All() <= p.All()
    ensures |WholeParts(c, p, k).All()| == |Flat(p.closed)| + WholeWithin(c, p.current, k)
  {
    hide Flat, WholeWithin;
    var m := WholeWithin(c, p.current, k);
    assert p.All() == Flat(p.closed) + p.current[..m] + p.current[m..];
  }

  /** Growth only ever adds to what is visible. */
  lemma VisibleGrows(c: Codec, a: Primary, b: Primary)
    requires PrimaryStands(c, a) && Grew(c, a, b)
    ensures Visible(c, a) <= Visible(c, b)
  {
    hide Flat, WholeWithin, OnDisk, Replayable, Frames;
    GrowthExtendsLog(a.parts, a.written, b.parts, b.written);
    VisibleIsPrefix(c, a.parts, a.written);
    VisibleIsPrefix(c, b.parts, b.written);
    var x, y := Visible(c, a), Visible(c, b);
    assert |x| <= |y| by {
      if b.parts.closed == a.parts.closed {
        WholeGrows(c, a.parts.current, a.written, b.parts.current, b.written);
      } else {
        var i := |a.parts.closed|;
        FlatSplit(b.parts.closed, i);
        assert b.parts.closed[..i] == a.parts.closed;
        assert |a.parts.current| <= |b.parts.closed[i]|;
      }
    }
    assert x == b.parts.All()[..|x|] && y == b.parts.All()[..|y|];
  }

  lemma VisibleIsPrimary(c: Codec, pr: Primary)
    requires PrimaryStands(c, pr)
    ensures PrimaryOk(Visible(c, pr))
  {
    hide Flat, WholeWithin, Replayable, Frames;
    LogIsDense(c, pr.dir, pr.parts, pr.written);
    VisibleIsPrefix(c, pr.parts, pr.written);
    var log := Visible(c, pr);
    assert log == pr.parts.All()[..|log|];
    VisibleInt64(c, pr.dir, pr.parts, pr.written);
  }

  lemma VisibleInt64(c: Codec, dir: Dir, p: Parts, k: nat)
    requires OnDisk(c, dir, p, k)
    ensures AllInt64(p.All())
  {
    hide Flat, Frames;
    ClosedInt64(c, dir, p, k, |p.closed|);
    assert p.closed[..|p.closed|] == p.closed;
  }

  lemma {:induction false} ClosedInt64(c: Codec, dir: Dir, p: Parts, k: nat, i: nat)
    requires OnDisk(c, dir, p, k) && i <= |p.closed|
    ensures AllInt64(Flat(p.closed[..i]))
  {
    hide Frames;
    if i > 0 {
      ClosedInt64(c, dir, p, k, i - 1);
      assert p.closed[..i][..i - 1] == p.closed[..i - 1];
      assert SegmentWhole(c, dir[i - 1], p.closed[i - 1], |Flat(p.closed[..i - 1])|);
    }
  }

  /** A tailer has not got past what is visible. */
  lemma TailIsVisible(c: Codec, p: Parts, k: nat, t: Tail, start: int, i: nat, m: nat)
    requires TailAt(c, p, k, t, start, i, m) && start <= |WholeParts(c, p, k).All()|
    ensures t.afterSeq <= |WholeParts(c, p, k).All()|
  {
    hide Flat, WholeWithin, Frames;
    VisibleIsPrefix(c, p, k);
    if i < |p.closed| {
      FlatSplit(p.closed, i);
    } else {
      assert p.closed[..i] == p.closed;
    }
  }

  // --- Every move keeps it --------------------------------------------------------------------------------------

  /** The same stretch of a log that has grown. */
  lemma SameStretch(a: seq<Record>, b: seq<Record>, x: nat, y: nat)
    requires a <= b && x <= y <= |a|
    ensures b[x..y] == a[x..y]
  {
  }

  lemma GrownSystem(c: Codec, n: Net, next: Primary, at: Replication.Layout, stand: Stand)
    returns (at': Replication.Layout)
    requires Faithful(c) && NetOk(c, n, at, stand) && Grew(c, n.primary, next)
    ensures SystemOk(c, Abstract(c, n.(primary := next)), at')
  {
    hide OnDisk, Replayable, Flat, WholeWithin, FollowerOk, Visible, Extends, WireOk, Dense, AllInt64;
    VisibleGrows(c, n.primary, next);
    VisibleIsPrimary(c, next);
    var log, log' := Visible(c, n.primary), Visible(c, next);
    assert log + log'[|log|..] == log';
    at' := StepKeepsSystem(c, Abstract(c, n), at, PrimaryLogs(log'[|log|..]));
  }

  lemma WriteKeeps(c: Codec, n: Net, next: Primary, at: Replication.Layout, stand: Stand)
    returns (at': Replication.Layout)
    requires Faithful(c) && NetOk(c, n, at, stand) && Grew(c, n.primary, next)
    ensures NetOk(c, n.(primary := next), at', stand)
  {
    hide OnDisk, Replayable, Flat, WholeWithin, SystemOk, Visible, Extends, Follows;
    at' := GrownSystem(c, n, next, at, stand);
    VisibleGrows(c, n.primary, next);
    if n.wire.Some? {
      var tail := n.wire.value.tail;
      UnlocatedGrows(c, next.dir, n.primary.parts, n.primary.written, next.parts, next.written, tail,
                     stand.start, stand.segment, stand.passed);
      SameStretch(Visible(c, n.primary), Visible(c, next), n.side.stream.value, tail.afterSeq);
    }
  }

  lemma ListedSystem(c: Codec, n: Net, next: Primary, listed: Primary, at: Replication.Layout, stand: Stand)
    returns (at': Replication.Layout)
    requires Faithful(c) && NetOk(c, n, at, stand) && Grew(c, n.primary, next) && Grew(c, next, listed)
    ensures SystemOk(c, Abstract(c, n.(primary := listed)), at')
    ensures Visible(c, n.primary) <= Visible(c, listed)
  {
    hide OnDisk, Replayable, Flat, WholeWithin, FollowerOk, Visible, Extends, WireOk, Dense, AllInt64;
    VisibleGrows(c, n.primary, next);
    VisibleGrows(c, next, listed);
    VisibleIsPrimary(c, listed);
    var log, log' := Visible(c, n.primary), Visible(c, listed);
    assert log + log'[|log|..] == log';
    at' := StepKeepsSystem(c, Abstract(c, n), at, PrimaryLogs(log'[|log|..]));
  }

  lemma PollKeeps(c: Codec, n: Net, next: Primary, listed: Primary, max: int, at: Replication.Layout, stand: Stand)
    returns (at': Replication.Layout, stand': Stand)
    requires Faithful(c) && NetOk(c, n, at, stand) && Able(c, n, Poll(next, listed, max))
    ensures NetOk(c, Made(c, n, Poll(next, listed, max)), at', stand')
    ensures Visible(c, n.primary) <= Visible(c, listed)
  {
    hide OnDisk, Replayable, Flat, WholeWithin, SystemOk, Visible, Extends, OnePass, TailAt, LeavesSome, Held;
    at' := ListedSystem(c, n, next, listed, at, stand);
    var t := n.wire.value.tail;
    var l := Look(n.primary.dir, n.primary.parts, n.primary.written, next.dir, next.parts, next.written,
                  listed.dir, listed.parts, listed.written, max);
    var i, m := PassYields(c, l, t, stand.start, stand.segment, stand.passed);
    stand' := Stand(stand.start, i, m);
    var (t', rs, _) := Passed(c, l, t);
    PollIsVisible(c, listed, t', stand');
    SentGrows(c, n.primary, listed, n.wire.value.sent, rs, n.side.stream.value, t.afterSeq, t'.afterSeq);
  }

  lemma PollIsVisible(c: Codec, pr: Primary, t: Tail, stand: Stand)
    requires AllWritable(c, pr.parts.current) && stand.start <= |Visible(c, pr)|
    requires t.segment.Some? && Follows(c, pr.parts, pr.written, t, stand.start, stand.segment, stand.passed)
    ensures t.afterSeq <= |Visible(c, pr)|
  {
    TailIsVisible(c, pr.parts, pr.written, t, stand.start, stand.segment, stand.passed);
  }

  lemma SentGrows(c: Codec, a: Primary, b: Primary, sent: seq<Record>, rs: seq<Record>, x: nat, y: int, z: int)
    requires AllWritable(c, a.parts.current) && AllWritable(c, b.parts.current) && Visible(c, a) <= Visible(c, b)
    requires x <= y <= z <= |Visible(c, b)| && y <= |Visible(c, a)|
    requires sent == Visible(c, a)[x..y] && rs == Slice(b.parts.All(), y, z)
    ensures sent + rs == Visible(c, b)[x..z]
  {
    hide Flat, WholeWithin;
    VisibleIsPrefix(c, b.parts, b.written);
    var log, all := Visible(c, b), b.parts.All();
    SameStretch(log, all, y, z);
    SameStretch(Visible(c, a), log, x, y);
    assert log[x..y] + log[y..z] == log[x..z];
  }

  lemma ReceiveKeeps(c: Codec, n: Net, count: nat, faults: seq<Fault>, syncOk: bool, at: Replication.Layout,
                     stand: Stand)
    returns (at': Replication.Layout)
    requires Faithful(c) && NetOk(c, n, at, stand) && Able(c, n, Receive(count, faults, syncOk))
    ensures NetOk(c, Made(c, n, Receive(count, faults, syncOk)), at', stand)
  {
    hide PrimaryStands, SystemOk, Visible, Follows, ApplyBatch, Above;
    var log, x, y := Visible(c, n.primary), n.side.stream.value, n.wire.value.tail.afterSeq;
    SliceOfSlice(log, x, y, 0, count);
    SliceOfSlice(log, x, y, count, y - x);
    assert n.wire.value.sent[count..] == n.wire.value.sent[count..y - x];
    at' := StepKeepsSystem(c, Abstract(c, n), at, Deliver(count, faults, syncOk));
  }

  /** Starting again cuts a torn tail off the primary's directory and leaves what can be read of it. */
  lemma RestartStands(c: Codec, n: Net, maxBytes: int)
    requires Faithful(c) && PrimaryStands(c, n.primary)
    ensures PrimaryStands(c, Restarted(c, n, maxBytes).primary)
    ensures Visible(c, Restarted(c, n, maxBytes).primary) == Visible(c, n.primary)
    ensures OpenWriter(c, n.primary.dir, maxBytes).Some?
    ensures OpenWriter(c, n.primary.dir, maxBytes).value.lastSeq == |Visible(c, n.primary)|
  {
    hide OnDisk, ReadAll, MaxSeq, Flat, WholeWithin, Replayable, OpenWriter, Frames, Kept;
    var pr := n.primary;
    ReopenIsExact(c, pr.dir, pr.parts, pr.written, maxBytes);
    var whole := WholeParts(c, pr.parts, pr.written);
    AllWhole(c, whole.current);
    assert whole.current[..|whole.current|] == whole.current;
    GoodIsWhole(c, OpenWriter(c, pr.dir, maxBytes).value, whole);
  }

  lemma RestartKeeps(c: Codec, n: Net, maxBytes: int, at: Replication.Layout)
    requires Faithful(c) && PrimaryStands(c, n.primary) && SystemOk(c, Abstract(c, n), at)
    ensures NetOk(c, Restarted(c, n, maxBytes), at, Stand(0, 0, 0))
    ensures Visible(c, Restarted(c, n, maxBytes).primary) == Visible(c, n.primary)
  {
    hide PrimaryStands, Visible, FollowerOk, WireOk;
    RestartStands(c, n, maxBytes);
  }

  // --- The primary loses power ---------------------------------------------------------------------------------

  lemma PowerLossStands(c: Codec, pr: Primary, cut: nat)
    requires PrimaryStands(c, pr) && MayLose(pr, cut)
    ensures PrimaryStands(c, PowerLost(pr, cut))
    ensures Visible(c, PowerLost(pr, cut)) <= Visible(c, pr)
    ensures |Visible(c, PowerLost(pr, cut))| == Surviving(c, pr, cut)
  {
    hide OnDisk, Flat, WholeWithin, Replayable, Replay;
    CutHolds(c, pr.dir, pr.parts, pr.written, cut);
    CutIsWithin(c, pr.dir, pr.parts, pr.written, cut);
    SyncedGrows(c, pr.parts.current, cut - WAL_HEADER_SIZE, pr.written);
    VisibleIsPrefix(c, pr.parts, pr.written);
    VisibleIsPrefix(c, pr.parts, cut - WAL_HEADER_SIZE);
    var log, log' := Visible(c, pr), Visible(c, PowerLost(pr, cut));
    assert log' == log[..|log'|];
    assert log == log' + log[|log'|..];
    ReplayJoin(EmptyBook, log', log[|log'|..]);
  }

  /** What can be read of the follower's directory. */
  lemma HeldIsWhole(c: Codec, s: System, at: Replication.Layout)
    requires Faithful(c) && SystemOk(c, s, at)
    ensures Held(c, s.side) <= s.primary
    ensures s.side.Running? || s.side.dir != [] ==>
      AllWritable(c, at.parts.current) && Held(c, s.side) == WholeParts(c, at.parts, at.written).All()
    ensures s.side.Running? ==> s.side.follower.position <= |Held(c, s.side)|
    ensures s.side.Running? && !s.side.failed ==> s.side.follower.position == |Held(c, s.side)|
  {
    hide PrimaryOk, OnDisk, Flat, WholeWithin, Kept, Good, Replay;
    match s.side
    case Running(f, failed, _) =>
      ReplayIsExact(c, f.wal.dir, at.parts, at.written);
      if !failed { GoodIsAll(c, f.wal, at.parts, at.written); }
    case Stopped(dir) => if dir != [] { ReplayIsExact(c, dir, at.parts, at.written); }
  }

  /** A primary that loses nothing the follower holds is still one the follower follows. */
  lemma SparedSystem(c: Codec, s: System, at: Replication.Layout, log: seq<Record>)
    requires Faithful(c) && SystemOk(c, s, at) && PrimaryOk(log)
    requires log <= s.primary && |Held(c, s.side)| <= |log|
    ensures SystemOk(c, System(log, s.side), at)
  {
    hide PrimaryOk, OnDisk, Flat, WholeWithin, Kept, Good, Replay, WholeParts, Durable;
    HeldIsWhole(c, s, at);
    if s.side.Running? {
      assert log[..s.side.follower.position] == s.primary[..s.side.follower.position];
    }
  }

  lemma LosePowerKeeps(c: Codec, n: Net, cut: nat, maxBytes: int, at: Replication.Layout, stand: Stand)
    requires Faithful(c) && NetOk(c, n, at, stand) && Able(c, n, LosePower(cut, maxBytes))
    ensures NetOk(c, Made(c, n, LosePower(cut, maxBytes)), at, Stand(0, 0, 0))
  {
    hide PrimaryStands, Visible, SystemOk, WireOk, Held, Surviving;
    var lost := PowerLost(n.primary, cut);
    PowerLossStands(c, n.primary, cut);
    VisibleIsPrimary(c, lost);
    SparedSystem(c, Abstract(c, n), at, Visible(c, lost));
    RestartKeeps(c, n.(primary := lost), maxBytes, at);
  }

  lemma ConnectKeeps(c: Codec, n: Net, at: Replication.Layout, stand: Stand) returns (stand': Stand)
    requires Faithful(c) && NetOk(c, n, at, stand) && Able(c, n, Connect)
    ensures NetOk(c, Made(c, n, Connect), at, stand')
  {
    hide PrimaryStands, FollowerOk, Visible;
    var f := n.side.follower;
    FollowerPosition(c, f, at.parts, at.written, Visible(c, n.primary), n.side.failed);
    stand' := Stand(f.position, 0, 0);
    assert Visible(c, n.primary)[f.position..f.position] == [];
  }

  lemma MoveKeepsNet(c: Codec, n: Net, at: Replication.Layout, stand: Stand, move: Move)
    returns (at': Replication.Layout, stand': Stand)
    requires Faithful(c) && NetOk(c, n, at, stand) && Able(c, n, move)
    ensures NetOk(c, Made(c, n, move), at', stand')
    ensures !move.LosePower? ==> Visible(c, n.primary) <= Visible(c, Made(c, n, move).primary)
  {
    hide PrimaryStands, Visible, Grew, OnePass, OpenWriter, Above, WholeParts, ApplyBatch, WireOk, FollowerOk,
         OpenSymbol, CanCrash, Held, Surviving, LeavesSome, Restarted;
    at', stand' := at, stand;
    match move
    case Write(next) => at' := WriteKeeps(c, n, next, at, stand); VisibleGrows(c, n.primary, next);
    case RestartPrimary(maxBytes) => stand' := Stand(0, 0, 0); RestartKeeps(c, n, maxBytes, at);
    case LosePower(cut, maxBytes) => stand' := Stand(0, 0, 0); LosePowerKeeps(c, n, cut, maxBytes, at, stand);
    case Connect => stand' := ConnectKeeps(c, n, at, stand);
    case Poll(next, listed, max) => at', stand' := PollKeeps(c, n, next, listed, max, at, stand);
    case Receive(count, faults, syncOk) => at' := ReceiveKeeps(c, n, count, faults, syncOk, at, stand);
    case Break =>
    case CrashFollower(cut) => at' := StepKeepsSystem(c, Abstract(c, n), at, FollowerCrash(cut));
    case StartFollower(maxBytes) => at' := StepKeepsSystem(c, Abstract(c, n), at, FollowerStart(maxBytes));
  }

  // --- Any run --------------------------------------------------------------------------------------------------

  /** A primary with an empty log, and no follower yet. */
  function Quiet(c: Codec, maxBytes: int): Net {
    Net(Primary(OpenWriter(c, [], maxBytes).value.dir, Parts([], []), 0), None, Stopped([]))
  }

  ghost predicate CanMove(c: Codec, n: Net, moves: seq<Move>)
    decreases |moves|
  {
    moves == [] || (Able(c, n, moves[0]) && CanMove(c, Made(c, n, moves[0]), moves[1..]))
  }

  function Moved(c: Codec, n: Net, moves: seq<Move>): Net
    requires CanMove(c, n, moves)
    decreases |moves|
  {
    if moves == [] then n else Moved(c, Made(c, n, moves[0]), moves[1..])
  }

  lemma {:induction false} MovesKeepNet(c: Codec, n: Net, at: Replication.Layout, stand: Stand, moves: seq<Move>)
    returns (at': Replication.Layout, stand': Stand)
    requires Faithful(c) && NetOk(c, n, at, stand) && CanMove(c, n, moves)
    ensures NetOk(c, Moved(c, n, moves), at', stand')
    decreases |moves|
  {
    hide NetOk, Able, Made;
    at', stand' := at, stand;
    if moves != [] {
      at', stand' := MoveKeepsNet(c, n, at, stand, moves[0]);
      at', stand' := MovesKeepNet(c, Made(c, n, moves[0]), at', stand', moves[1..]);
    }
  }

  lemma QuietIsOk(c: Codec, maxBytes: int)
    ensures NetOk(c, Quiet(c, maxBytes), Replication.Layout(Parts([], []), 0), Stand(0, 0, 0))
    ensures Visible(c, Quiet(c, maxBytes).primary) == []
  {
    hide OpenWriter;
    FirstOpen(c, maxBytes);
    EmptyFrames(c);
    GoodIsWhole(c, OpenWriter(c, [], maxBytes).value, Parts([], []));
  }

  /**
   * End to end, over any growth, rotation and restart of the primary's log, any polls, batches,
   * broken streams and crashes of the follower: reading both directories, the follower's log is a
   * prefix of the primary's under the same positions, its book is the replay of that log up to its
   * position, and, unless an apply has failed, its position is the end of it.
   */
  lemma StreamedFollowerIsPrefix(c: Codec, maxBytes: int, moves: seq<Move>)
    requires Faithful(c) && CanMove(c, Quiet(c, maxBytes), moves)
    ensures var n := Moved(c, Quiet(c, maxBytes), moves);
      n.side.Running? ==>
        var f := n.side.follower; var (rs, clean) := ReadAll(c, f.wal.dir);
        var (log, whole) := ReadAll(c, n.primary.dir);
        && clean && whole && rs <= log
        && 0 <= f.position <= |rs| && f.book == Replay(EmptyBook, rs[..f.position])
        && (!n.side.failed ==> f.position == |rs|)
  {
    hide Able, Made, Replay, FollowerOk, ReadAll, Replayable, OnDisk, Flat, WholeWithin, WireOk, Quiet;
    QuietIsOk(c, maxBytes);
    var at, stand := MovesKeepNet(c, Quiet(c, maxBytes), Replication.Layout(Parts([], []), 0), Stand(0, 0, 0), moves);
    var n := Moved(c, Quiet(c, maxBytes), moves);
    if n.side.Running? {
      ReplayIsExact(c, n.primary.dir, n.primary.parts, n.primary.written);
      FollowerReads(c, n.side.follower, at.parts, at.written, Visible(c, n.primary), n.side.failed);
    }
  }

  // --- When a power loss leaves the follower ahead of the primary ------------------------------------------------

  /**
   * After any run, whatever bytes the primary's power loss leaves: what the follower holds is still
   * a prefix of the primary's log if and only if all of it is whole in those bytes. If it is not,
   * the primary will log next at a position the follower already holds another record at.
   */
  lemma PowerLossSparesIff(c: Codec, maxBytes: int, moves: seq<Move>, cut: nat)
    requires Faithful(c) && CanMove(c, Quiet(c, maxBytes), moves)
    requires MayLose(Moved(c, Quiet(c, maxBytes), moves).primary, cut)
    ensures AllWritable(c, Moved(c, Quiet(c, maxBytes), moves).primary.parts.current)
    ensures var n := Moved(c, Quiet(c, maxBytes), moves);
      var dir := CutLast(n.primary.dir, cut); var (log, whole) := ReadAll(c, dir); var held := Held(c, n.side);
      && whole && (held <= log <==> |held| <= Surviving(c, n.primary, cut))
      && OpenWriter(c, dir, maxBytes).Some?
      && (!(held <= log) ==> OpenWriter(c, dir, maxBytes).value.lastSeq + 1 <= |held|)
  {
    hide Able, Made, SystemOk, ReadAll, Replayable, OnDisk, Flat, WholeWithin, WireOk, Quiet, Held, OpenWriter;
    QuietIsOk(c, maxBytes);
    var at, stand := MovesKeepNet(c, Quiet(c, maxBytes), Replication.Layout(Parts([], []), 0), Stand(0, 0, 0), moves);
    var n := Moved(c, Quiet(c, maxBytes), moves);
    var lost := PowerLost(n.primary, cut);
    PowerLossStands(c, n.primary, cut);
    HeldIsWhole(c, Abstract(c, n), at);
    ReplayIsExact(c, lost.dir, lost.parts, lost.written);
    RestartStands(c, n.(primary := lost), maxBytes);
    var log, held := Visible(c, n.primary), Held(c, n.side);
    assert log[..|held|] == held;
  }

  /** However much of what was not synced goes, the follower is spared if and only if what it holds was synced. */
  lemma SyncedIsEnoughIff(c: Codec, maxBytes: int, moves: seq<Move>, synced: nat)
    requires Faithful(c) && CanMove(c, Quiet(c, maxBytes), moves)
    requires MayLose(Moved(c, Quiet(c, maxBytes), moves).primary, synced)
    ensures AllWritable(c, Moved(c, Quiet(c, maxBytes), moves).primary.parts.current)
    ensures var n := Moved(c, Quiet(c, maxBytes), moves);
      (forall cut :: synced <= cut <= |Last(n.primary.dir).data| ==>
         Held(c, n.side) <= ReadAll(c, CutLast(n.primary.dir, cut)).0)
      <==> |Held(c, n.side)| <= Surviving(c, n.primary, synced)
  {
    hide Able, Made, CanMove, Moved, ReadAll, Flat, WholeWithin, Quiet, Held, OpenWriter, Frames;
    var n := Moved(c, Quiet(c, maxBytes), moves);
    PowerLossSparesIff(c, maxBytes, moves, synced);
    forall cut: nat | synced <= cut <= |Last(n.primary.dir).data|
      ensures Held(c, n.side) <= ReadAll(c, CutLast(n.primary.dir, cut)).0
         <==> |Held(c, n.side)| <= Surviving(c, n.primary, cut)
      ensures Surviving(c, n.primary, synced) <= Surviving(c, n.primary, cut)
    {
      PowerLossSparesIff(c, maxBytes, moves, cut);
      SyncedGrows(c, n.primary.parts.current, synced - WAL_HEADER_SIZE, cut - WAL_HEADER_SIZE);
    }
  }

  // --- A record the follower keeps and the primary loses ---------------------------------------------------------

  lemma OneMoveMore(c: Codec, n: Net, move: Move, rest: seq<Move>)
    requires Able(c, n, move) && CanMove(c, Made(c, n, move), rest)
    ensures CanMove(c, n, [move] + rest) && Moved(c, n, [move] + rest) == Moved(c, Made(c, n, move), rest)
  {
    hide Able, Made;
    assert ([move] + rest)[1..] == rest;
  }

  /** The primary with this one record written whole, synced or not. */
  function WithOne(c: Codec, r: Record): Primary
    requires Writable(c, r)
  {
    Primary(OneRecord(c, r), Parts([], [r]), |Frames(c, [r])|)
  }

  lemma WithOneStands(c: Codec, r: Record)
    requires Writable(c, r) && r.seqNo == 1
    ensures PrimaryStands(c, WithOne(c, r)) && Visible(c, WithOne(c, r)) == [r]
  {
    hide Frame, Frames, Writable, WholeWithin;
    OneOnDisk(c, r);
    AllWhole(c, [r]);
    assert [r][..1] == [r] && Flat([]) + [r] == [r];
    assert Visible(c, WithOne(c, r)) == [r];
    assert CanApply(EmptyBook, r);
    assert [r][1..] == [] && Replayable(ApplyRecord(EmptyBook, r), []);
  }

  /** A new follower, connected. */
  function Connected(c: Codec, pr: Primary, maxBytes: int): Net {
    var f := Follower(EmptyBook, OpenWriter(c, [], maxBytes).value, 0);
    Net(pr, Some(Wire(Tail(0, None, 0), [])), Running(f, false, Some(0)))
  }

  lemma ConnectsFirst(c: Codec, maxBytes: int, rest: seq<Move>)
    requires CanMove(c, Connected(c, Quiet(c, maxBytes).primary, maxBytes), rest)
    ensures var moves := [StartFollower(maxBytes)] + ([Connect] + rest); var n := Quiet(c, maxBytes);
      CanMove(c, n, moves) && Moved(c, n, moves) == Moved(c, Connected(c, n.primary, maxBytes), rest)
  {
    hide CanMove, Moved, OpenWriter;
    EmptyFrames(c);
    FirstOpen(c, maxBytes);
    var n := Quiet(c, maxBytes);
    OneMoveMore(c, Made(c, n, StartFollower(maxBytes)), Connect, rest);
    OneMoveMore(c, n, StartFollower(maxBytes), [Connect] + rest);
  }

  /** It polls a record written and not yet synced. */
  lemma PollsUnsynced(c: Codec, maxBytes: int, r: Record, rest: seq<Move>, tail: Tail)
    requires Faithful(c) && Writable(c, r) && r.seqNo == 1
    requires var one := WithOne(c, r); tail == OnePass(c, one.dir, one.dir, one.dir, Tail(0, None, 0), 1).0
    requires CanMove(c, Connected(c, WithOne(c, r), maxBytes).(wire := Some(Wire(tail, [r]))), rest)
    ensures var one := WithOne(c, r);
      var moves := [Write(one)] + ([Poll(one, one, 1)] + rest);
      var n := Connected(c, Quiet(c, maxBytes).primary, maxBytes);
      && CanMove(c, n, moves)
      && Moved(c, n, moves) == Moved(c, Connected(c, one, maxBytes).(wire := Some(Wire(tail, [r]))), rest)
  {
    hide CanMove, Moved, OpenWriter, OnePass, PrimaryStands, LeavesSome, Frames, Writable;
    var one, n := WithOne(c, r), Connected(c, Quiet(c, maxBytes).primary, maxBytes);
    EmptyFrames(c);
    WithOneStands(c, r);
    YieldsFirst(c, r, 1);
    var n' := Made(c, n, Write(one));
    assert [] + [r] == [r];
    OneMoveMore(c, n', Poll(one, one, 1), rest);
    OneMoveMore(c, n, Write(one), [Poll(one, one, 1)] + rest);
  }

  lemma AppliesOne(c: Codec, f: Follower, r: Record)
    requires Writable(c, r) && r.seqNo == 1 && f.position == 0
    ensures AllInt64([r]) && Above([r], 0) == [r]
    ensures var (f', ok) := ApplyBatch(c, f, [r], [NoFault], true); ok && f'.position == 1
  {
    hide Frame;
    AboveSnoc([], r, 0);
    assert [] + [r] == [r] && Above([], 0) == [];
    var (w, appended) := Append(c, f.wal, r, NoFault);
    assert [r][1..] == [] && [NoFault][1..] == [];
    assert AppendAll(c, w, [], []) == (w, true);
    assert AppendAll(c, f.wal, [r], [NoFault]) == (w, true);
  }

  /** Receiving it, the follower stores and applies it. */
  lemma ReceivesOne(c: Codec, maxBytes: int, r: Record, tail: Tail)
    requires Faithful(c) && Writable(c, r) && r.seqNo == 1
    ensures var n := Connected(c, WithOne(c, r), maxBytes).(wire := Some(Wire(tail, [r])));
      var receive := Receive(1, [NoFault], true);
      && CanMove(c, n, [receive])
      && Moved(c, n, [receive]).primary == WithOne(c, r)
      && var side := Moved(c, n, [receive]).side; side.Running? && !side.failed && side.follower.position == 1
  {
    hide CanMove, Moved, OpenWriter, ApplyBatch, Above, Frames, Writable;
    var n := Connected(c, WithOne(c, r), maxBytes).(wire := Some(Wire(tail, [r])));
    var receive := Receive(1, [NoFault], true);
    assert [r][..1] == [r];
    AppliesOne(c, n.side.follower, r);
    NothingMoves(c, Made(c, n, receive));
    OneMoveMore(c, n, receive, []);
    assert [receive] + [] == [receive];
  }

  lemma NothingMoves(c: Codec, n: Net)
    ensures CanMove(c, n, []) && Moved(c, n, []) == n
  {
  }

  /**
   * A record written, read by the tailer, received and stored before the primary has synced it; then
   * the power goes. The follower holds it and the primary does not.
   */
  lemma FollowerOutlivesPrimary(c: Codec, maxBytes: int, r: Record) returns (moves: seq<Move>)
    requires Faithful(c) && Writable(c, r) && r.seqNo == 1
    ensures CanMove(c, Quiet(c, maxBytes), moves)
    ensures var n := Moved(c, Quiet(c, maxBytes), moves);
      && Held(c, n.side) == [r]
      && MayLose(n.primary, WAL_HEADER_SIZE)
      && ReadAll(c, CutLast(n.primary.dir, WAL_HEADER_SIZE)) == ([], true)
  {
    hide CanMove, Moved, SystemOk, OnePass, Frames, Writable, WireOk, Connected, ReadAll, Held, Quiet;
    var one, receive := WithOne(c, r), [Receive(1, [NoFault], true)];
    var tail := OnePass(c, one.dir, one.dir, one.dir, Tail(0, None, 0), 1).0;
    ReceivesOne(c, maxBytes, r, tail);
    PollsUnsynced(c, maxBytes, r, receive, tail);
    var rest := [Write(one)] + ([Poll(one, one, 1)] + receive);
    ConnectsFirst(c, maxBytes, rest);
    moves := [StartFollower(maxBytes)] + ([Connect] + rest);
    QuietIsOk(c, maxBytes);
    var at, stand := MovesKeepNet(c, Quiet(c, maxBytes), Replication.Layout(Parts([], []), 0), Stand(0, 0, 0), moves);
    HeldIsWhole(c, Abstract(c, Moved(c, Quiet(c, maxBytes), moves)), at);
    WithOneStands(c, r);
    assert [r][..1] == [r];
    LosesOne(c, r);
  }

  lemma LosesOne(c: Codec, r: Record)
    requires Faithful(c) && Writable(c, r) && r.seqNo == 1
    ensures var pr := WithOne(c, r);
      MayLose(pr, WAL_HEADER_SIZE) && ReadAll(c, CutLast(pr.dir, WAL_HEADER_SIZE)) == ([], true)
  {
    hide ReadAll, Frames;
    var pr := WithOne(c, r);
    WithOneStands(c, r);
    PowerLossStands(c, pr, WAL_HEADER_SIZE);
    ReplayIsExact(c, CutLast(pr.dir, WAL_HEADER_SIZE), pr.parts, 0);
    assert Flat([]) == [];
  }
}
