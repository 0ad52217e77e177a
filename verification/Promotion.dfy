/**
 * Opening a follower's own log again, by a follower that restarts or by a sequencer
 * that takes over from the primary.
 */
module Promotion {
  import opened Matching
  import opened Commit
  import opened Framing
  import opened Wal
  import opened Replication
  import Durability
  import Streaming

  /** What a follower's directory holds, wherever it stopped: some first records of the primary's log. */
  lemma DirectoryReads(c: Codec, dir: Dir, at: Layout, primary: seq<Record>, maxBytes: int) returns (n: nat)
    requires Faithful(c) && PrimaryOk(primary)
    requires dir == [] || Stored(c, dir, at, primary)
    ensures n <= |primary| && ReadAll(c, dir) == (primary[..n], true)
    ensures dir != [] ==> AllWritable(c, at.parts.current) && n == |WholeParts(c, at.parts, at.written).All()|
    ensures var w := OpenWriter(c, dir, maxBytes); w.Some? && w.value.lastSeq == n
  {
    hide OnDisk, ReadAll, OpenWriter, Replayable, Kept, Good, Durable, MaxSeq, Dense, Flat, WholeWithin;
    if dir == [] {
      n := 0;
      FirstOpen(c, maxBytes);
      NothingStored(c);
      assert primary[..0] == [];
    } else {
      var p, k := at.parts, at.written;
      DiskIsWritable(c, dir, p, k);
      ReopenIsExact(c, dir, p, k, maxBytes);
      var q := WholeParts(c, p, k);
      GoodFacts(c, OpenWriter(c, dir, maxBytes).value, q);
      n := |q.All()|;
      assert q.All() <= primary && q.All() == primary[..n];
    }
  }

  lemma NothingStored(c: Codec)
    ensures ReadAll(c, []) == ([], true)
  {
  }

  lemma PrefixOfPrimary(primary: seq<Record>, n: nat)
    requires PrimaryOk(primary) && n <= |primary|
    ensures Replayable(EmptyBook, primary[..n]) && Dense(primary[..n], 0) && Above(primary[..n], 0) == primary[..n]
  {
    hide Replayable, Replay;
    assert primary == primary[..n] + primary[n..];
    ReplayJoin(EmptyBook, primary[..n], primary[n..]);
    AboveOfDense(primary[..n], 0, 0);
  }

  /** A follower's own directory may always be opened again: it replays without reusing a live id. */
  lemma FollowerMayOpen(c: Codec, steps: seq<Step>, maxBytes: int)
    requires Faithful(c) && CanRun(c, System([], Stopped([])), steps)
    requires Ran(c, System([], Stopped([])), steps).side.Stopped?
    ensures var s := Ran(c, System([], Stopped([])), steps); var (rs, clean) := ReadAll(c, s.side.dir);
      && clean && rs <= s.primary && Above(rs, 0) == rs && Replayable(EmptyBook, rs)
      && OpenSymbol(c, s.side.dir, maxBytes).Some?
  {
    hide Enabled, Do, OnDisk, ReadAll, OpenWriter, Replayable, Replay, Above, MaxSeq, Dense, AllInt64;
    assert SystemOk(c, System([], Stopped([])), Layout(Parts([], []), 0)) by { NothingPrimary(); }
    var at := RunKeepsSystem(c, System([], Stopped([])), Layout(Parts([], []), 0), steps);
    var s := Ran(c, System([], Stopped([])), steps);
    var n := DirectoryReads(c, s.side.dir, at, s.primary, maxBytes);
    PrefixOfPrimary(s.primary, n);
  }

  lemma NothingPrimary()
    ensures PrimaryOk([])
  {
  }

  lemma {:induction false} FirstPosition(works: seq<Work>, seqNo: int, ts: int)
    ensures var rs := Records(works, seqNo, ts); rs != [] ==> rs[0].seqNo == seqNo + 1
  {
    if works != [] && !IsLogged(works[0]) { FirstPosition(works[1..], seqNo, ts); }
  }

  /**
   * Promoting a follower, stopped at any moment of any run, its last apply failed or not, with any
   * unsynced bytes lost: the sequencer opened on its directory has the book the first n records of
   * the primary's log replay to, n at least everything the follower had applied, and the first
   * record it logs takes position n + 1.
   */
  lemma PromotionContinues(c: Codec, steps: seq<Step>, cut: nat, maxBytes: int, works: seq<Work>, ts: int)
    returns (n: nat)
    requires Faithful(c) && CanRun(c, System([], Stopped([])), steps)
    requires var side := Ran(c, System([], Stopped([])), steps).side; side.Running? && CanCrash(side.follower.wal, cut)
    ensures var s := Ran(c, System([], Stopped([])), steps); var f := s.side.follower;
      var dir := CutLast(f.wal.dir, cut);
      && f.position <= n <= |s.primary| && (!s.side.failed ==> n == f.position)
      && ReadAll(c, dir) == (s.primary[..n], true)
      && var r := Durability.Restarted(c, dir, maxBytes);
      && r.Some? && r.value.book == Replay(EmptyBook, s.primary[..n]) && r.value.seqNo == n && !r.value.failed
      && var rs := Records(works, r.value.seqNo, ts); rs != [] ==> rs[0].seqNo == n + 1
  {
    hide Enabled, Do, OnDisk, ReadAll, OpenWriter, Replay, Good, Kept, Flat, WholeWithin, Records, Replayable, Dense,
         AllInt64;
    assert SystemOk(c, System([], Stopped([])), Layout(Parts([], []), 0)) by { NothingPrimary(); }
    var at := RunKeepsSystem(c, System([], Stopped([])), Layout(Parts([], []), 0), steps);
    var s := Ran(c, System([], Stopped([])), steps);
    n := StoppedHolds(c, s.side.follower, at, s.primary, s.side.failed, cut, maxBytes);
    FirstPosition(works, n, ts);
  }

  lemma StoppedHolds(c: Codec, f: Follower, at: Layout, primary: seq<Record>, failed: bool, cut: nat, maxBytes: int)
    returns (n: nat)
    requires Faithful(c) && PrimaryOk(primary) && FollowerOk(c, f, at.parts, at.written, primary, failed)
    requires CanCrash(f.wal, cut)
    ensures f.position <= n <= |primary| && (!failed ==> n == f.position)
    ensures var dir := CutLast(f.wal.dir, cut); var w := OpenWriter(c, dir, maxBytes);
      ReadAll(c, dir) == (primary[..n], true) && w.Some? && w.value.lastSeq == n
  {
    hide OnDisk, ReadAll, OpenWriter, Replay, Good, Kept, Flat, Replayable, Dense, AllInt64, WholeWithin, Frames;
    FollowerCrashes(c, f, at.parts, at.written, primary, failed, cut);
    var n' := CrashKeepsSynced(c, f.wal, at.parts, at.written, cut);
    n := DirectoryReads(c, CutLast(f.wal.dir, cut), Layout(at.parts, cut - WAL_HEADER_SIZE), primary, maxBytes);
    assert |at.parts.All()[..n']| == n';
  }

  // --- The same over the whole path from the primary's directory ----------------------------------

  /** What a sequencer opened on this directory starts from: the book of the first n of these records. */
  ghost predicate TakesOver(c: Codec, dir: Dir, log: seq<Record>, n: nat, maxBytes: int) {
    && n <= |log| && ReadAll(c, dir) == (log[..n], true)
    && Above(log[..n], 0) == log[..n] && Replayable(EmptyBook, log[..n])
    && var r := Durability.Restarted(c, dir, maxBytes);
    r.Some? && r.value.book == Replay(EmptyBook, log[..n]) && r.value.seqNo == n && !r.value.failed
  }

  lemma DirectoryTakesOver(c: Codec, dir: Dir, at: Layout, log: seq<Record>, maxBytes: int) returns (n: nat)
    requires Faithful(c) && PrimaryOk(log) && (dir == [] || Stored(c, dir, at, log))
    ensures TakesOver(c, dir, log, n, maxBytes)
    ensures OpenSymbol(c, dir, maxBytes).Some? && OpenWriter(c, dir, maxBytes).Some?
    ensures OpenWriter(c, dir, maxBytes).value.lastSeq == n
  {
    hide ReadAll, OpenWriter, Replay, Replayable, Above, Stored, Dense, AllInt64;
    n := DirectoryReads(c, dir, at, log, maxBytes);
    PrefixOfPrimary(log, n);
  }

  lemma NetStands(c: Codec, maxBytes: int, moves: seq<Streaming.Move>) returns (at: Layout)
    requires Faithful(c) && Streaming.CanMove(c, Streaming.Quiet(c, maxBytes), moves)
    ensures var n := Streaming.Moved(c, Streaming.Quiet(c, maxBytes), moves); var log := ReadAll(c, n.primary.dir).0;
      && ReadAll(c, n.primary.dir).1 && PrimaryOk(log) && SystemOk(c, System(log, n.side), at)
  {
    hide Streaming.CanMove, Streaming.Moved, Streaming.Quiet, SystemOk, ReadAll, PrimaryOk, Streaming.WireOk, OnDisk,
         Flat, WholeWithin;
    Streaming.QuietIsOk(c, maxBytes);
    var stand;
    at, stand := Streaming.MovesKeepNet(c, Streaming.Quiet(c, maxBytes), Layout(Parts([], []), 0),
                                        Streaming.Stand(0, 0, 0), moves);
    var n := Streaming.Moved(c, Streaming.Quiet(c, maxBytes), moves);
    ReplayIsExact(c, n.primary.dir, n.primary.parts, n.primary.written);
    Streaming.VisibleIsPrimary(c, n.primary);
  }

  /**
   * Promoting a stopped follower after any run end to end, the primary's crashes and the power
   * losses that spare it included: its directory opens with the book of the first n records that
   * can be read of the primary's directory, as a follower and as a sequencer that logs next at n + 1.
   */
  lemma StoppedFollowerTakesOver(c: Codec, maxBytes: int, moves: seq<Streaming.Move>, maxBytes': int, works: seq<Work>,
                                 ts: int)
    returns (n: nat)
    requires Faithful(c) && Streaming.CanMove(c, Streaming.Quiet(c, maxBytes), moves)
    requires Streaming.Moved(c, Streaming.Quiet(c, maxBytes), moves).side.Stopped?
    ensures var net := Streaming.Moved(c, Streaming.Quiet(c, maxBytes), moves); var dir := net.side.dir;
      && TakesOver(c, dir, ReadAll(c, net.primary.dir).0, n, maxBytes')
      && OpenSymbol(c, dir, maxBytes').Some?
    ensures var rs := Records(works, n, ts); rs != [] ==> rs[0].seqNo == n + 1
  {
    hide Streaming.CanMove, Streaming.Moved, Streaming.Quiet, ReadAll, PrimaryOk, Stored, TakesOver, OpenSymbol,
         OpenWriter;
    var at := NetStands(c, maxBytes, moves);
    var net := Streaming.Moved(c, Streaming.Quiet(c, maxBytes), moves);
    n := DirectoryTakesOver(c, net.side.dir, at, ReadAll(c, net.primary.dir).0, maxBytes');
    FirstPosition(works, n, ts);
  }

  /** And of a follower stopped while it runs, with any unsynced bytes lost: n is at least all it had applied. */
  lemma RunningFollowerTakesOver(c: Codec, maxBytes: int, moves: seq<Streaming.Move>, cut: nat, maxBytes': int)
    returns (n: nat)
    requires Faithful(c) && Streaming.CanMove(c, Streaming.Quiet(c, maxBytes), moves)
    requires var side := Streaming.Moved(c, Streaming.Quiet(c, maxBytes), moves).side;
      side.Running? && CanCrash(side.follower.wal, cut)
    ensures var net := Streaming.Moved(c, Streaming.Quiet(c, maxBytes), moves); var f := net.side.follower;
      && TakesOver(c, CutLast(f.wal.dir, cut), ReadAll(c, net.primary.dir).0, n, maxBytes')
      && f.position <= n && (!net.side.failed ==> n == f.position)
  {
    hide Streaming.CanMove, Streaming.Moved, Streaming.Quiet, ReadAll, PrimaryOk, Stored, TakesOver, FollowerOk,
         OpenWriter;
    var at := NetStands(c, maxBytes, moves);
    var net := Streaming.Moved(c, Streaming.Quiet(c, maxBytes), moves);
    var f, log := net.side.follower, ReadAll(c, net.primary.dir).0;
    FollowerCrashes(c, f, at.parts, at.written, log, net.side.failed, cut);
    var dir := CutLast(f.wal.dir, cut);
    n := StoppedHolds(c, f, at, log, net.side.failed, cut, maxBytes');
    var m := DirectoryTakesOver(c, dir, Layout(at.parts, cut - WAL_HEADER_SIZE), log, maxBytes');
  }
}
