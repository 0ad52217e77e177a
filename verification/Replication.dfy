/**
 * A follower of one symbol: records from the primary are appended to its own log
 * and synced before they touch its book. Over any run of streaming, resends,
 * disconnects and crashes, its log is a prefix of the primary's, its book the
 * replay of it, and its position the end of it unless an apply has just failed.
 */
module Replication {
  import opened Types
  import opened Matching
  import opened Guards
  import opened Commit
  import opened Framing
  import opened Wal

  /** A running follower's book, log and highest applied position. */
  datatype Follower = Follower(book: BookState, wal: Log, position: int)

  /** Append these records one by one, stopping at the first failure. */
  function AppendAll(c: Codec, w: Log, rs: seq<Record>, faults: seq<Fault>): (Log, bool)
    requires |faults| == |rs| && forall i :: 0 <= i < |rs| ==> IsInt64(rs[i].seqNo) && IsInt64(rs[i].ts)
    decreases |rs|
  {
    if rs == [] then (w, true)
    else
      var (w1, ok) := Append(c, w, rs[0], faults[0]);
      if !ok then (w1, false) else AppendAll(c, w1, rs[1..], faults[1..])
  }

  predicate AllInt64(rs: seq<Record>) {
    forall i :: 0 <= i < |rs| ==> IsInt64(rs[i].seqNo) && IsInt64(rs[i].ts)
  }

  lemma {:induction false} AboveIsInt64(rs: seq<Record>, position: int)
    requires AllInt64(rs)
    ensures AllInt64(Above(rs, position)) && |Above(rs, position)| <= |rs|
  {
    if rs != [] { AboveIsInt64(rs[..|rs| - 1], position); }
  }

  /** Make a batch durable, then replay it: the new follower and whether all went well. */
  function ApplyBatch(c: Codec, f: Follower, records: seq<Record>, faults: seq<Fault>, syncOk: bool): (Follower, bool)
    requires AllInt64(records) && |faults| == |Above(records, f.position)|
  {
    var news := Above(records, f.position);
    AboveIsInt64(records, f.position);
    if news == [] then (f, true)
    else
      var (w1, appended) := AppendAll(c, f.wal, news, faults);
      if !appended then (f.(wal := w1), false)
      else
        var (w2, synced) := Sync(w1, syncOk);
        if !synced then (f.(wal := w2), false)
        else (Follower(Replay(f.book, news), w2, news[|news| - 1].seqNo), true)
  }

  /** Prepare a symbol from the follower's own log; None when it is damaged. */
  function OpenSymbol(c: Codec, dir: Dir, maxBytes: int): Option<Follower> {
    var (rs, clean) := ReadAll(c, dir);
    var w := OpenWriter(c, dir, maxBytes);
    if !clean || w.None? then None else Some(Follower(Replay(EmptyBook, rs), w.value, MaxSeq(rs)))
  }

  // --- What applying a batch does ------------------------------------------------------------------

  /** Appending records that continue the log adds a prefix of them: all of them unless an append failed. */
  lemma {:induction false} AppendAllEffect(c: Codec, w: Log, p: Parts, rs: seq<Record>, faults: seq<Fault>)
    returns (p': Parts, k: nat, j: nat)
    requires Good(c, w, p) && AllInt64(rs) && |faults| == |rs| && Dense(rs, w.lastSeq)
    ensures var (w', ok) := AppendAll(c, w, rs, faults);
      && Durable(c, w', p', k) && AllWritable(c, p'.current)
      && Kept(c, w', p') >= Kept(c, w, p)
      && j <= |rs| && p'.All() == p.All() + rs[..j]
      && (ok ==> j == |rs| && Good(c, w', p'))
    decreases |rs|
  {
    hide Append, Kept, Durable, AllWritable;
    GoodFacts(c, w, p);
    if rs == [] {
      p', k, j := p, |Frames(c, p.current)|, 0;
      assert p.All() + [] == p.All();
    } else {
      assert rs[0].seqNo == w.lastSeq + 1;
      var (w1, ok1) := Append(c, w, rs[0], faults[0]);
      var p1, k1 := AppendEffect(c, w, p, rs[0], faults[0]);
      assert rs[..0] == [] && rs[..1] == [rs[0]] && p.All() + [] == p.All();
      if !ok1 {
        p', k := p1, k1;
        j := if p1.All() == p.All() then 0 else 1;
      } else {
        GoodFacts(c, w1, p1);
        var j1;
        p', k, j1 := AppendAllEffect(c, w1, p1, rs[1..], faults[1..]);
        j := j1 + 1;
        assert rs[..j] == [rs[0]] + rs[1..][..j1];
        assert p.All() + [rs[0]] + rs[1..][..j1] == p.All() + rs[..j];
      }
    }
  }

  lemma GoodFacts(c: Codec, w: Log, p: Parts)
    requires Good(c, w, p)
    ensures w.lastSeq == |p.All()| && AllWritable(c, p.current) && Durable(c, w, p, |Frames(c, p.current)|)
    ensures w.synced >= WAL_HEADER_SIZE
  {
  }

  /** A batch with nothing new is applied by doing nothing, on a failed log as well. */
  lemma NothingNewSucceeds(c: Codec, f: Follower, records: seq<Record>, syncOk: bool)
    requires AllInt64(records) && Above(records, f.position) == []
    ensures ApplyBatch(c, f, records, [], syncOk) == (f, true)
  {
  }

  /** Appending fails at the first record that is too large or whose append fails, and only then. */
  lemma {:induction false} AppendAllSucceeds(c: Codec, w: Log, rs: seq<Record>, faults: seq<Fault>)
    requires AllInt64(rs) && |faults| == |rs| && AllWritable(c, rs) && forall i :: 0 <= i < |rs| ==> faults[i].NoFault?
    ensures AppendAll(c, w, rs, faults).1
    decreases |rs|
  {
    hide Append, Overfills;
    if rs != [] {
      AppendSucceedsIff(c, w, rs[0], faults[0]);
      AppendAllSucceeds(c, Append(c, w, rs[0], faults[0]).0, rs[1..], faults[1..]);
    }
  }

  /** Without faults an apply of writable records succeeds, unless there is anything new and its sync fails. */
  lemma ApplySucceedsIff(c: Codec, f: Follower, records: seq<Record>, faults: seq<Fault>, syncOk: bool)
    requires AllInt64(records) && |faults| == |Above(records, f.position)|
    requires AllWritable(c, Above(records, f.position)) && forall i :: 0 <= i < |faults| ==> faults[i].NoFault?
    ensures var (f', ok) := ApplyBatch(c, f, records, faults, syncOk);
      && (ok <==> syncOk || Above(records, f.position) == [])
      && (!ok ==> f'.book == f.book && f'.position == f.position)
  {
    hide Append, Above, Replay;
    AboveIsInt64(records, f.position);
    AppendAllSucceeds(c, f.wal, Above(records, f.position), faults);
  }

  /** A log with a damaged record anywhere is not opened. */
  lemma DamagedIsNotOpened(c: Codec, dir: Dir, i: nat, before: seq<Record>, rs: seq<Record>, tail: Bytes, maxBytes: int)
    requires Faithful(c) && i < |dir| && ReadAll(c, dir[..i]) == (before, true) && AllWritable(c, rs)
    requires dir[i].data == HEADER + Frames(c, rs) + tail && Parse(c, tail) == Corrupt
    ensures OpenSymbol(c, dir, maxBytes) == None
  {
    hide Frames, Parse, ReadAll, Replay, OpenWriter, MaxSeq;
    DamageEndsReplay(c, dir, i, before, rs, tail);
  }

  // --- The follower's invariant ----------------------------------------------------------------------

  /**
   * The follower's log holds the primary's records under the primary's positions, with
   * nothing missing before the last; the book is the replay of what has been applied.
   */
  ghost predicate FollowerOk(c: Codec, f: Follower, p: Parts, k: nat, primary: seq<Record>, failed: bool) {
    && Durable(c, f.wal, p, k) && AllWritable(c, p.current)
    && WholeParts(c, p, k).All() <= primary
    && 0 <= f.position <= Kept(c, f.wal, p) && f.position <= |WholeParts(c, p, k).All()|
    && f.book == Replay(EmptyBook, primary[..f.position])
    && (!failed ==> Good(c, f.wal, p) && f.position == |p.All()|)
  }

  /** A primary's log: positions from 1 without a gap, replayable, within 64 bits. */
  ghost predicate PrimaryOk(primary: seq<Record>) {
    Dense(primary, 0) && AllInt64(primary) && Replayable(EmptyBook, primary)
  }

  lemma StretchOfPrimary(primary: seq<Record>, x: nat, y: nat)
    requires Dense(primary, 0) && AllInt64(primary) && x <= y <= |primary|
    ensures Dense(primary[x..y], x) && AllInt64(primary[x..y])
    ensures x < y ==> primary[x..y][y - x - 1].seqNo == y
  {
  }

  lemma TailOfStretch(s: seq<Record>, x: nat, y: nat, p: nat)
    requires x <= p <= y <= |s|
    ensures s[x..y][p - x..] == s[p..y]
  {
    var a, b := s[x..y][p - x..], s[p..y];
    forall i | 0 <= i < |a| ensures a[i] == b[i] {
      assert a[i] == s[x..y][p - x + i] == s[p + i];
    }
  }

  lemma NextOfPrimary(primary: seq<Record>, x: nat, y: nat, position: nat)
    requires Dense(primary, 0) && AllInt64(primary) && x <= y <= |primary| && x <= position <= |primary|
    ensures var news := Above(primary[x..y], position);
      && news == (if position < y then primary[position..y] else [])
      && AllInt64(primary[x..y]) && AllInt64(news) && Dense(news, position)
      && (news != [] ==> news[|news| - 1].seqNo == y)
  {
    hide Above, AllInt64, Dense;
    StretchOfPrimary(primary, x, y);
    AboveOfDense(primary[x..y], x, position);
    if position < y {
      TailOfStretch(primary, x, y, position);
      StretchOfPrimary(primary, position, y);
    } else {
      NothingNew(position);
    }
  }

  lemma NothingNew(position: nat)
    ensures AllInt64([]) && Dense([], position)
  {
  }

  /** At the end of a whole log, all of it is whole. */
  lemma GoodIsAll(c: Codec, w: Log, p: Parts, k: nat)
    requires Good(c, w, p) && Durable(c, w, p, k)
    ensures k == |Frames(c, p.current)| && WholeParts(c, p, k) == p
  {
    hide Frames, WholeWithin, Flat, SegmentWhole;
    assert Last(w.dir).data == HEADER + Frames(c, p.current)[..k];
    AllWhole(c, p.current);
    assert p.current[..|p.current|] == p.current;
  }

  lemma KeptIsAtMostAll(c: Codec, w: Log, p: Parts)
    requires AllWritable(c, p.current) && w.synced >= WAL_HEADER_SIZE
    ensures Kept(c, w, p) <= |p.All()|
  {
  }

  /**
   * Applying any batch that overlaps or continues what has been applied: the log stays a
   * prefix of the primary's, and after success it reaches exactly to the batch's end.
   */
  lemma ApplyKeepsFollower(c: Codec, f: Follower, p: Parts, k: nat, primary: seq<Record>, x: nat, y: nat,
                           faults: seq<Fault>, syncOk: bool)
    returns (p': Parts, k': nat)
    requires FollowerOk(c, f, p, k, primary, false) && PrimaryOk(primary) && x <= y <= |primary| && x <= f.position
    requires AllInt64(primary[x..y]) && |faults| == |Above(primary[x..y], f.position)|
    ensures var (f', ok) := ApplyBatch(c, f, primary[x..y], faults, syncOk);
      && FollowerOk(c, f', p', k', primary, !ok)
      && f'.position == (if ok then Max(f.position, y) else f.position)
  {
    hide Append, Kept, Durable, Good, Replay, Replayable, Above, AppendAll, WholeParts, Parts.All;
    NextOfPrimary(primary, x, y, f.position);
    var news := Above(primary[x..y], f.position);
    p', k' := p, k;
    GoodIsAll(c, f.wal, p, k);
    if news != [] {
      GoodFacts(c, f.wal, p);
      var j;
      p', k', j := AppendAllEffect(c, f.wal, p, news, faults);
      assert p.All() == primary[..f.position];
      assert p'.All() == primary[..f.position + j];
      WholeIsPrefix(c, p', k');
      SyncedAreWhole(c, AppendAll(c, f.wal, news, faults).0, p', k');
      var (w1, appended) := AppendAll(c, f.wal, news, faults);
      if appended {
        GoodFacts(c, w1, p');
        k' := |Frames(c, p'.current)|;
        GoodIsAll(c, w1, p', k');
        if syncOk {
          SyncEffect(c, w1, p');
          GoodFacts(c, Sync(w1, true).0, p');
          ReplayJoin(EmptyBook, primary[..f.position], news);
          assert primary[..f.position] + news == primary[..y];
        }
      }
    }
  }

  // --- Runs ------------------------------------------------------------------------------------------------

  /** Both sides: the primary's log, and the follower running, failed, or stopped; a stream sends from a position on. */
  datatype Side =
    | Running(follower: Follower, failed: bool, stream: Option<nat>)
    | Stopped(dir: Dir)

  datatype System = System(primary: seq<Record>, side: Side)

  datatype Step =
    | PrimaryLogs(rs: seq<Record>)
    | OpenStream(after: nat)
    | Deliver(count: nat, faults: seq<Fault>, syncOk: bool)
    | Disconnect
    | FollowerCrash(cut: nat)
    | FollowerStart(maxBytes: int)

  /** The batch a delivery carries. */
  function Batch(s: System, count: nat): seq<Record>
    requires s.side.Running? && s.side.stream.Some? && s.side.stream.value + count <= |s.primary|
  {
    s.primary[s.side.stream.value..s.side.stream.value + count]
  }

  ghost predicate Enabled(c: Codec, s: System, step: Step) {
    match step
    case PrimaryLogs(rs) => PrimaryOk(s.primary + rs)
    case OpenStream(after) => s.side.Running? && !s.side.failed && after <= s.side.follower.position
    case Deliver(count, faults, _) =>
      && s.side.Running? && s.side.stream.Some? && s.side.stream.value + count <= |s.primary|
      && AllInt64(Batch(s, count)) && |faults| == |Above(Batch(s, count), s.side.follower.position)|
    case Disconnect => s.side.Running?
    case FollowerCrash(cut) => s.side.Running? && CanCrash(s.side.follower.wal, cut)
    case FollowerStart(_) => s.side.Stopped?
  }

  /** A failed apply ends the stream; the follower then applies nothing more until it is restarted. */
  function Do(c: Codec, s: System, step: Step): System
    requires Enabled(c, s, step)
  {
    match step
    case PrimaryLogs(rs) => s.(primary := s.primary + rs)
    case OpenStream(after) => s.(side := s.side.(stream := Some(after)))
    case Deliver(count, faults, syncOk) =>
      var (f, ok) := ApplyBatch(c, s.side.follower, Batch(s, count), faults, syncOk);
      s.(side := Running(f, !ok, if ok then Some(s.side.stream.value + count) else None))
    case Disconnect => s.(side := s.side.(stream := None))
    case FollowerCrash(cut) => s.(side := Stopped(CutLast(s.side.follower.wal.dir, cut)))
    case FollowerStart(maxBytes) =>
      match OpenSymbol(c, s.side.dir, maxBytes)
      case None => s
      case Some(f) => s.(side := Running(f, false, None))
  }

  datatype Layout = Layout(parts: Parts, written: nat)

  /** What can be read of this directory is some first records of the primary's log. */
  ghost predicate Stored(c: Codec, dir: Dir, at: Layout, primary: seq<Record>) {
    && OnDisk(c, dir, at.parts, at.written) && AllWritable(c, at.parts.current)
    && WholeParts(c, at.parts, at.written).All() <= primary
  }

  ghost predicate SystemOk(c: Codec, s: System, at: Layout) {
    && PrimaryOk(s.primary)
    && match s.side
       case Running(f, failed, stream) =>
         && FollowerOk(c, f, at.parts, at.written, s.primary, failed)
         && (stream.Some? ==> !failed && stream.value <= f.position)
       case Stopped(dir) => dir == [] || Stored(c, dir, at, s.primary)
  }

  lemma PrimaryGrows(c: Codec, f: Follower, p: Parts, k: nat, primary: seq<Record>, rs: seq<Record>, failed: bool)
    requires FollowerOk(c, f, p, k, primary, failed)
    ensures FollowerOk(c, f, p, k, primary + rs, failed)
  {
    hide Durable, Good, Kept, Replay;
    assert (primary + rs)[..f.position] == primary[..f.position];
  }

  /** Opening a symbol resumes at the last position of the follower's own log, with the book it replays to. */
  lemma StartKeeps(c: Codec, dir: Dir, at: Layout, primary: seq<Record>, maxBytes: int) returns (at': Layout)
    requires Faithful(c) && PrimaryOk(primary)
    requires dir == [] || Stored(c, dir, at, primary)
    ensures var r := OpenSymbol(c, dir, maxBytes);
      r.Some? && FollowerOk(c, r.value, at'.parts, at'.written, primary, false)
  {
    hide OnDisk, ReadAll, OpenWriter, Replay, Replayable, Kept, Good, Durable, MaxSeq, Dense;
    if dir == [] {
      at' := Layout(Parts([], []), 0);
      FreshStart(c, primary, maxBytes);
    } else {
      var p, k := at.parts, at.written;
      DiskIsWritable(c, dir, p, k);
      ReopenIsExact(c, dir, p, k, maxBytes);
      var q := WholeParts(c, p, k);
      at' := Layout(q, |Frames(c, q.current)|);
      var w := OpenWriter(c, dir, maxBytes).value;
      GoodFacts(c, w, q);
      KeptIsAtMostAll(c, w, q);
      GoodIsAll(c, w, q, |Frames(c, q.current)|);
      assert q.All() == primary[..|q.All()|];
    }
  }

  lemma WholeIsPrefix(c: Codec, p: Parts, k: nat)
    requires AllWritable(c, p.current)
    ensures WholeParts(c, p, k).All() <= p.All()
  {
    hide Flat, WholeWithin;
    var m := WholeWithin(c, p.current, k);
    assert p.All() == Flat(p.closed) + p.current[..m] + p.current[m..];
  }

  lemma DiskIsWritable(c: Codec, dir: Dir, p: Parts, k: nat)
    requires OnDisk(c, dir, p, k)
    ensures AllWritable(c, p.current)
  {
  }

  lemma FreshStart(c: Codec, primary: seq<Record>, maxBytes: int)
    ensures var r := OpenSymbol(c, [], maxBytes);
      r.Some? && FollowerOk(c, r.value, Parts([], []), 0, primary, false)
  {
    FirstOpen(c, maxBytes);
    EmptyFrames(c);
    hide OpenWriter;
    GoodFacts(c, OpenWriter(c, [], maxBytes).value, Parts([], []));
  }

  /** Every step keeps the follower's log a prefix of the primary's and its book the replay of it. */
  lemma StepKeepsSystem(c: Codec, s: System, at: Layout, step: Step) returns (at': Layout)
    requires Faithful(c) && SystemOk(c, s, at) && Enabled(c, s, step)
    ensures SystemOk(c, Do(c, s, step), at')
  {
    hide FollowerOk, PrimaryOk, OnDisk, ApplyBatch, OpenSymbol, Above, CanCrash;
    at' := at;
    match step
    case PrimaryLogs(rs) =>
      if s.side.Running? {
        PrimaryGrows(c, s.side.follower, at.parts, at.written, s.primary, rs, s.side.failed);
      }
    case OpenStream(after) =>
    case Deliver(count, faults, syncOk) =>
      var x := s.side.stream.value;
      FollowerPosition(c, s.side.follower, at.parts, at.written, s.primary, s.side.failed);
      var p', k' := ApplyKeepsFollower(c, s.side.follower, at.parts, at.written, s.primary, x, x + count, faults,
          syncOk);
      at' := Layout(p', k');
    case Disconnect =>
    case FollowerCrash(cut) =>
      var f := s.side.follower;
      FollowerCrashes(c, f, at.parts, at.written, s.primary, s.side.failed, cut);
      at' := at.(written := cut - WAL_HEADER_SIZE);
    case FollowerStart(maxBytes) => at' := StartKeeps(c, s.side.dir, at, s.primary, maxBytes);
  }

  lemma FollowerPosition(c: Codec, f: Follower, p: Parts, k: nat, primary: seq<Record>, failed: bool)
    requires FollowerOk(c, f, p, k, primary, failed)
    ensures 0 <= f.position <= |primary|
  {
  }

  lemma FollowerCrashes(c: Codec, f: Follower, p: Parts, k: nat, primary: seq<Record>, failed: bool, cut: nat)
    requires FollowerOk(c, f, p, k, primary, failed) && CanCrash(f.wal, cut)
    ensures f.wal.dir != [] && WAL_HEADER_SIZE <= cut <= |Last(f.wal.dir).data|
    ensures Stored(c, CutLast(f.wal.dir, cut), Layout(p, cut - WAL_HEADER_SIZE), primary)
  {
    hide OnDisk, Good, Kept, Replay, WholeWithin, Flat;
    CutHolds(c, f.wal.dir, p, k, cut);
    CutIsWithin(c, f.wal.dir, p, k, cut);
    SyncedGrows(c, p.current, cut - WAL_HEADER_SIZE, k);
    var m, n := WholeWithin(c, p.current, cut - WAL_HEADER_SIZE), WholeWithin(c, p.current, k);
    assert p.current[..m] == p.current[..n][..m];
  }

  lemma CutIsWithin(c: Codec, dir: Dir, p: Parts, k: nat, cut: nat)
    requires OnDisk(c, dir, p, k) && cut <= |Last(dir).data|
    ensures cut <= WAL_HEADER_SIZE + k
  {
  }

  ghost predicate CanRun(c: Codec, s: System, steps: seq<Step>)
    decreases |steps|
  {
    steps == [] || (Enabled(c, s, steps[0]) && CanRun(c, Do(c, s, steps[0]), steps[1..]))
  }

  function Ran(c: Codec, s: System, steps: seq<Step>): System
    requires CanRun(c, s, steps)
    decreases |steps|
  {
    if steps == [] then s else Ran(c, Do(c, s, steps[0]), steps[1..])
  }

  lemma {:induction false} RunKeepsSystem(c: Codec, s: System, at: Layout, steps: seq<Step>) returns (at': Layout)
    requires Faithful(c) && SystemOk(c, s, at) && CanRun(c, s, steps)
    ensures SystemOk(c, Ran(c, s, steps), at')
    decreases |steps|
  {
    hide SystemOk, Enabled, Do;
    at' := at;
    if steps != [] {
      at' := StepKeepsSystem(c, s, at, steps[0]);
      at' := RunKeepsSystem(c, Do(c, s, steps[0]), at', steps[1..]);
    }
  }

  /**
   * From nothing, over any run: whenever the follower runs, its log replays cleanly to a
   * prefix of the primary's log, its book is the replay of that log up to `position`, and,
   * unless an apply has failed, `position` is the last position of both.
   */
  lemma FollowerIsPrefix(c: Codec, steps: seq<Step>)
    requires Faithful(c) && CanRun(c, System([], Stopped([])), steps)
    ensures var s := Ran(c, System([], Stopped([])), steps);
      s.side.Running? ==>
        var f := s.side.follower; var (rs, clean) := ReadAll(c, f.wal.dir);
        && clean && rs <= s.primary
        && 0 <= f.position <= |rs|
        && f.book == Replay(EmptyBook, rs[..f.position])
        && (!s.side.failed ==> f.position == |rs| == f.wal.lastSeq)
  {
    hide Enabled, Do, FollowerOk, Replay;
    assert SystemOk(c, System([], Stopped([])), Layout(Parts([], []), 0));
    var at := RunKeepsSystem(c, System([], Stopped([])), Layout(Parts([], []), 0), steps);
    var s := Ran(c, System([], Stopped([])), steps);
    if s.side.Running? { FollowerReads(c, s.side.follower, at.parts, at.written, s.primary, s.side.failed); }
  }

  lemma FollowerReads(c: Codec, f: Follower, p: Parts, k: nat, primary: seq<Record>, failed: bool)
    requires Faithful(c) && FollowerOk(c, f, p, k, primary, failed)
    ensures var (rs, clean) := ReadAll(c, f.wal.dir);
      && clean && rs <= primary
      && 0 <= f.position <= |rs|
      && f.book == Replay(EmptyBook, rs[..f.position])
      && (!failed ==> f.position == |rs| == f.wal.lastSeq)
  {
    hide OnDisk, ReadAll, Replay, Flat, WholeWithin, Frames;
    ReplayIsExact(c, f.wal.dir, p, k);
    var rs := ReadAll(c, f.wal.dir).0;
    assert rs == WholeParts(c, p, k).All();
    assert rs[..f.position] == primary[..f.position];
    if !failed {
      AllWhole(c, p.current);
      GoodEnds(c, f.wal, p, k);
    }
  }

  lemma SyncedAreWhole(c: Codec, w: Log, p: Parts, k: nat)
    requires Durable(c, w, p, k) && AllWritable(c, p.current)
    ensures Kept(c, w, p) <= |WholeParts(c, p, k).All()|
  {
    hide OnDisk, Flat, Frames;
    SyncedGrows(c, p.current, w.synced - WAL_HEADER_SIZE, k);
  }

  /** What is on disk fixes how much of it is whole. */
  lemma GoodEnds(c: Codec, w: Log, p: Parts, k: nat)
    requires Faithful(c) && Good(c, w, p) && OnDisk(c, w.dir, p, k)
    ensures |WholeParts(c, p, k).All()| == |p.All()| == w.lastSeq
  {
    hide OnDisk, Flat, WholeWithin;
    AllWhole(c, p.current);
    GoodIsWhole(c, w, p);
    ReplayIsExact(c, w.dir, p, k);
    ReplayIsExact(c, w.dir, p, |Frames(c, p.current)|);
  }

  lemma GoodIsWhole(c: Codec, w: Log, p: Parts)
    requires Good(c, w, p)
    ensures AllWritable(c, p.current) && OnDisk(c, w.dir, p, |Frames(c, p.current)|) && w.lastSeq == |p.All()|
  {
  }
}
