/**
 * The segmented log on disk: appending with rotation, syncing, crashing anywhere,
 * reopening and replaying. The `Writer` and `Reader` classes are proved against
 * these functions; the lemmas prove what survives and what is read back.
 */
module Wal {
  import opened Types
  import opened Guards
  import opened Commit
  import opened Framing

  /** A segment file. Its name is its first position; a directory lists segments in name order. */
  datatype Segment = Segment(first: int, data: Bytes)
  type Dir = seq<Segment>

  // --- Directory operations ------------------------------------------------------------------

  /** Create a segment holding only a header, truncating one of the same name if there is one. */
  function Create(dir: Dir, first: int): Dir {
    if dir == [] || first < dir[0].first then [Segment(first, HEADER)] + dir
    else if first == dir[0].first then [Segment(first, HEADER)] + dir[1..]
    else [dir[0]] + Create(dir[1..], first)
  }

  function WriteTo(dir: Dir, first: int, b: Bytes): Dir {
    seq(|dir|, i requires 0 <= i < |dir| =>
      if dir[i].first == first then dir[i].(data := dir[i].data + b) else dir[i])
  }

  function Last(dir: Dir): Segment
    requires dir != []
  {
    dir[|dir| - 1]
  }

  /** The newest segment with only its first size bytes. */
  function CutLast(dir: Dir, size: nat): Dir
    requires dir != [] && size <= |Last(dir).data|
  {
    dir[..|dir| - 1] + [Last(dir).(data := Last(dir).data[..size])]
  }

  // --- The writer ----------------------------------------------------------------------------------

  /**
   * The writer and the directory it owns. An fsync has covered the first synced
   * bytes of the current segment; later bytes may or may not be on disk yet.
   */
  datatype Log = Log(dir: Dir, open: bool, current: int, synced: nat, segBytes: int, lastSeq: int, maxBytes: int)

  /** Which step of an append fails, if any; a failing write may leave part of the record behind. */
  datatype Fault = NoFault | CloseFails | CreateFails | WriteFails(written: nat)

  function OpenSegment(w: Log, first: int): Log {
    w.(dir := Create(w.dir, first), open := true, current := first, synced := WAL_HEADER_SIZE,
        segBytes := WAL_HEADER_SIZE)
  }

  predicate NeedsRotation(w: Log, total: int) {
    w.segBytes + total > w.maxBytes && w.segBytes > WAL_HEADER_SIZE
  }

  function Rotated(w: Log, r: Record, total: int): Log {
    if NeedsRotation(w, total) then OpenSegment(w, r.seqNo) else w
  }

  function Append(c: Codec, w: Log, r: Record, fault: Fault): (Log, bool)
    requires IsInt64(r.seqNo) && IsInt64(r.ts)
  {
    if |c.encode(r.op)| > MAX_RECORD_PAYLOAD then (w, false)
    else
      var frame := Frame(c, r);
      var rotate := NeedsRotation(w, |frame|);
      if rotate && fault.CloseFails? then (w.(open := false), false)
      else if rotate && fault.CreateFails? then (w.(open := false, synced := w.segBytes), false)
      else
        var w1 := Rotated(w, r, |frame|);
        if fault.WriteFails? then
          (w1.(dir := WriteTo(w1.dir, w1.current, frame[..Min(fault.written, |frame|)])), false)
        else
          (w1.(dir := WriteTo(w1.dir, w1.current, frame), segBytes := w1.segBytes + |frame|,
               lastSeq := Max(w1.lastSeq, r.seqNo)), true)
  }

  function Sync(w: Log, ok: bool): (Log, bool) {
    if ok then (w.(synced := if w.segBytes < 0 then 0 else w.segBytes), true) else (w, false)
  }

  // --- Reading ---------------------------------------------------------------------------------------

  function ReadSegment(c: Codec, data: Bytes): (s: Scan)
    ensures s.clean ==> s.good <= |data|
  {
    if |data| < WAL_HEADER_SIZE || data[..WAL_HEADER_SIZE] != HEADER then Scan([], 0, false)
    else
      var s := ScanBytes(c, data[WAL_HEADER_SIZE..]);
      s.(good := WAL_HEADER_SIZE + s.good)
  }

  /** Every segment's records in order, stopping at the first error. */
  function ReadAll(c: Codec, dir: Dir): (seq<Record>, bool) {
    if dir == [] then ([], true)
    else
      var (rs, clean) := ReadAll(c, dir[..|dir| - 1]);
      if !clean then (rs, false)
      else
        var s := ReadSegment(c, Last(dir).data);
        (rs + s.records, s.clean)
  }

  /** The highest position among these records, or 0. */
  function MaxSeq(rs: seq<Record>): int {
    if rs == [] then 0 else Max(MaxSeq(rs[..|rs| - 1]), rs[|rs| - 1].seqNo)
  }

  function OpenWriter(c: Codec, dir: Dir, maxBytes: int): Option<Log> {
    if dir == [] then Some(OpenSegment(Log([], true, 1, 0, 0, 0, maxBytes), 1))
    else
      var last := Last(dir);
      var s := ReadSegment(c, last.data);
      if !s.clean then None
      else
        Some(Log(CutLast(dir, s.good), true, last.first, s.good, s.good, Max(MaxSeq(s.records), last.first - 1),
            maxBytes))
  }

  // --- What is on disk --------------------------------------------------------------------------------

  function Flat(parts: seq<seq<Record>>): seq<Record> {
    if parts == [] then [] else Flat(parts[..|parts| - 1]) + parts[|parts| - 1]
  }

  /** Positions run on from `from`, one by one. */
  predicate Dense(rs: seq<Record>, from: int) {
    forall i :: 0 <= i < |rs| ==> rs[i].seqNo == from + 1 + i
  }

  /** The segment holds the first k bytes of these records' frames, and is named for the position after `from`. */
  predicate SegmentHolds(c: Codec, s: Segment, rs: seq<Record>, from: int, k: nat) {
    && AllWritable(c, rs) && Dense(rs, from)
    && s.first == from + 1
    && k <= |Frames(c, rs)|
    && s.data == HEADER + Frames(c, rs)[..k]
  }

  predicate SegmentWhole(c: Codec, s: Segment, rs: seq<Record>, from: int) {
    AllWritable(c, rs) && SegmentHolds(c, s, rs, from, |Frames(c, rs)|)
  }

  /** How the records are laid out: full segments, then the newest one. */
  datatype Parts = Parts(closed: seq<seq<Record>>, current: seq<Record>)
  {
    function All(): seq<Record> {
      Flat(closed) + current
    }
  }

  /** Every closed segment is whole and non-empty; the newest holds the first k bytes of its frames. */
  ghost predicate OnDisk(c: Codec, dir: Dir, p: Parts, k: nat) {
    && |dir| == |p.closed| + 1
    && (forall i :: 0 <= i < |p.closed| ==>
          p.closed[i] != [] && SegmentWhole(c, dir[i], p.closed[i], |Flat(p.closed[..i])|))
    && SegmentHolds(c, Last(dir), p.current, |Flat(p.closed)|, k)
  }

  /** On disk up to k bytes of the newest segment, of which an fsync has covered some. */
  ghost predicate Durable(c: Codec, w: Log, p: Parts, k: nat) {
    OnDisk(c, w.dir, p, k) && WAL_HEADER_SIZE <= w.synced <= WAL_HEADER_SIZE + k
  }

  /** An open writer at the end of a whole log. */
  ghost predicate Good(c: Codec, w: Log, p: Parts) {
    && AllWritable(c, p.current)
    && Durable(c, w, p, |Frames(c, p.current)|)
    && w.open && w.current == Last(w.dir).first
    && w.segBytes == |Last(w.dir).data|
    && w.lastSeq == |p.All()|
  }

  /** How many records an fsync has covered. */
  function Kept(c: Codec, w: Log, p: Parts): int
    requires AllWritable(c, p.current) && w.synced >= WAL_HEADER_SIZE
  {
    |Flat(p.closed)| + WholeWithin(c, p.current, w.synced - WAL_HEADER_SIZE)
  }

  // --- Names ----------------------------------------------------------------------------------------

  lemma {:induction false} FlatGrows(parts: seq<seq<Record>>, i: nat, j: nat)
    requires i <= j <= |parts|
    ensures |Flat(parts[..i])| <= |Flat(parts[..j])|
    ensures i < j && parts[i] != [] ==> |Flat(parts[..i])| < |Flat(parts[..j])|
    decreases j
  {
    if i < j {
      assert parts[..j][..j - 1] == parts[..j - 1];
      FlatGrows(parts, i, j - 1);
    }
  }

  /** A segment is named for the position after everything in the segments before it. */
  lemma NameOf(c: Codec, dir: Dir, p: Parts, k: nat, i: nat)
    requires OnDisk(c, dir, p, k) && i < |dir|
    ensures dir[i].first == |Flat(p.closed[..i])| + 1
  {
    hide Frames, Writable, Flat;
    if i < |p.closed| {
      assert SegmentWhole(c, dir[i], p.closed[i], |Flat(p.closed[..i])|);
    } else {
      assert p.closed[..i] == p.closed;
    }
  }

  /** Segment names strictly increase. */
  lemma NamesIncrease(c: Codec, dir: Dir, p: Parts, k: nat)
    requires OnDisk(c, dir, p, k)
    ensures forall i, j :: 0 <= i < j < |dir| ==> dir[i].first < dir[j].first
  {
    hide Frames, Writable, Flat, SegmentHolds, SegmentWhole;
    forall i, j | 0 <= i < j < |dir| ensures dir[i].first < dir[j].first {
      NameOf(c, dir, p, k, i);
      NameOf(c, dir, p, k, j);
      FlatGrows(p.closed, i, j);
    }
  }

  lemma {:induction false} CreateAtEnd(dir: Dir, first: int)
    requires forall i :: 0 <= i < |dir| ==> dir[i].first < first
    ensures Create(dir, first) == dir + [Segment(first, HEADER)]
  {
    if dir != [] { CreateAtEnd(dir[1..], first); }
  }

  lemma WriteAtEnd(dir: Dir, b: Bytes)
    requires dir != [] && forall i, j :: 0 <= i < j < |dir| ==> dir[i].first < dir[j].first
    ensures WriteTo(dir, Last(dir).first, b)
         == dir[..|dir| - 1] + [Last(dir).(data := Last(dir).data + b)]
  {
  }

  // --- Replay reads back what is there ------------------------------------------------------------------

  lemma ReadWhole(c: Codec, s: Segment, rs: seq<Record>, from: int, k: nat)
    requires Faithful(c) && SegmentHolds(c, s, rs, from, k)
    ensures var m := WholeWithin(c, rs, k);
      ReadSegment(c, s.data) == Scan(rs[..m], WAL_HEADER_SIZE + |Frames(c, rs[..m])|, true)
  {
    TornTail(c, rs, k);
    hide ScanBytes, Frames, WholeWithin;
    assert s.data[WAL_HEADER_SIZE..] == Frames(c, rs)[..k];
  }

  lemma AllWhole(c: Codec, rs: seq<Record>)
    requires AllWritable(c, rs)
    ensures WholeWithin(c, rs, |Frames(c, rs)|) == |rs|
  {
    assert rs[..|rs|] == rs;
    WholeIsMonotone(c, rs, |rs|, |Frames(c, rs)|);
  }

  lemma {:induction false} ReadClosed(c: Codec, dir: Dir, p: Parts, k: nat, i: nat)
    requires Faithful(c) && OnDisk(c, dir, p, k) && i <= |p.closed|
    ensures ReadAll(c, dir[..i]) == (Flat(p.closed[..i]), true)
  {
    hide Frames, ReadSegment, WholeWithin;
    if i > 0 {
      ReadClosed(c, dir, p, k, i - 1);
      var j := i - 1;
      assert SegmentWhole(c, dir[j], p.closed[j], |Flat(p.closed[..j])|);
      ReadWhole(c, dir[j], p.closed[j], |Flat(p.closed[..j])|, |Frames(c, p.closed[j])|);
      AllWhole(c, p.closed[j]);
      assert p.closed[j][..|p.closed[j]|] == p.closed[j];
      assert dir[..i][..i - 1] == dir[..j] && p.closed[..i][..i - 1] == p.closed[..j];
    }
  }

  /** Replay finds every record of the closed segments and the whole records of the newest, with no error. */
  lemma ReplayIsExact(c: Codec, dir: Dir, p: Parts, k: nat)
    requires Faithful(c) && OnDisk(c, dir, p, k)
    ensures ReadAll(c, dir) == (Flat(p.closed) + p.current[..WholeWithin(c, p.current, k)], true)
  {
    hide Frames, ReadSegment, WholeWithin, SegmentWhole;
    ReadClosed(c, dir, p, k, |p.closed|);
    assert p.closed[..|p.closed|] == p.closed;
    ReadWhole(c, Last(dir), p.current, |Flat(p.closed)|, k);
  }

  // --- Appending -----------------------------------------------------------------------------------------

  lemma FlatSnoc(parts: seq<seq<Record>>, rs: seq<Record>)
    ensures Flat(parts + [rs]) == Flat(parts) + rs
  {
    assert (parts + [rs])[..|parts|] == parts;
  }

  lemma DenseSnoc(rs: seq<Record>, from: int, r: Record)
    requires Dense(rs, from) && r.seqNo == from + 1 + |rs|
    ensures Dense(rs + [r], from)
  {
  }

  lemma FramesSnoc(c: Codec, rs: seq<Record>, r: Record)
    requires AllWritable(c, rs) && Writable(c, r)
    ensures AllWritable(c, rs + [r]) && Frames(c, rs + [r]) == Frames(c, rs) + Frame(c, r)
  {
    hide Frame, Writable;
    FramesJoin(c, rs, [r]);
    assert Frames(c, [r]) == Frame(c, r) + Frames(c, []);
  }

  /** Writing n bytes of the next record's frame at the end of a whole log. */
  lemma WriteExtends(c: Codec, dir: Dir, p: Parts, r: Record, n: nat)
    requires AllWritable(c, p.current) && OnDisk(c, dir, p, |Frames(c, p.current)|)
    requires Writable(c, r) && r.seqNo == |p.All()| + 1 && n <= |Frame(c, r)|
    ensures AllWritable(c, p.current + [r])
    ensures var p' := p.(current := p.current + [r]); var k := |Frames(c, p.current)| + n;
      var dir' := WriteTo(dir, Last(dir).first, Frame(c, r)[..n]);
      && OnDisk(c, dir', p', k)
      && |dir'| == |dir| && Last(dir').first == Last(dir).first
      && p'.All() == p.All() + [r]
  {
    hide Frame, Writable, Frames;
    NamesIncrease(c, dir, p, |Frames(c, p.current)|);
    WriteAtEnd(dir, Frame(c, r)[..n]);
    FramesSnoc(c, p.current, r);
    DenseSnoc(p.current, |Flat(p.closed)|, r);
    var k := |Frames(c, p.current)| + n;
    assert Frames(c, p.current)[..|Frames(c, p.current)|] == Frames(c, p.current);
    assert Frames(c, p.current + [r])[..k] == Frames(c, p.current) + Frame(c, r)[..n];
    assert Flat(p.closed) + (p.current + [r]) == Flat(p.closed) + p.current + [r];
  }

  lemma ClosedStaysWhole(c: Codec, dir: Dir, p: Parts, next: Segment)
    requires AllWritable(c, p.current) && OnDisk(c, dir, p, |Frames(c, p.current)|) && p.current != []
    ensures var closed := p.closed + [p.current]; var dir' := dir + [next];
      forall i :: 0 <= i < |closed| ==> closed[i] != [] && SegmentWhole(c, dir'[i], closed[i], |Flat(closed[..i])|)
  {
    hide Frame, Writable, Frames, Flat, SegmentHolds;
    var closed, dir' := p.closed + [p.current], dir + [next];
    forall i | 0 <= i < |closed| ensures closed[i] != [] && SegmentWhole(c, dir'[i], closed[i], |Flat(closed[..i])|) {
      if i < |p.closed| {
        assert closed[..i] == p.closed[..i];
        assert SegmentWhole(c, dir[i], p.closed[i], |Flat(p.closed[..i])|);
      } else {
        assert closed[..i] == p.closed;
      }
    }
  }

  /** Rotating closes a whole, non-empty segment and starts an empty one behind it, truncating nothing. */
  lemma RotateExtends(c: Codec, w: Log, p: Parts, first: int)
    requires Good(c, w, p) && p.current != [] && first == |p.All()| + 1
    ensures var p' := Parts(p.closed + [p.current], []); var w' := OpenSegment(w, first);
      && Good(c, w', p') && p'.All() == p.All()
      && |w'.dir| == |w.dir| + 1 && w'.dir[..|w.dir|] == w.dir
  {
    hide Frame, Writable, Frames, Flat, SegmentWhole;
    NamesIncrease(c, w.dir, p, |Frames(c, p.current)|);
    FlatSnoc(p.closed, p.current);
    assert Last(w.dir).first <= first - 1;
    CreateAtEnd(w.dir, first);
    EmptyFrames(c);
    ClosedStaysWhole(c, w.dir, p, Segment(first, HEADER));
  }

  lemma EmptyFrames(c: Codec)
    ensures AllWritable(c, []) && Frames(c, []) == []
  {
  }

  lemma NonEmptySegment(c: Codec, w: Log, p: Parts)
    requires Good(c, w, p)
    ensures w.segBytes == WAL_HEADER_SIZE + |Frames(c, p.current)|
    ensures w.segBytes > WAL_HEADER_SIZE ==> p.current != []
  {
  }

  /** What an append that got past rotation leaves on disk, whole or torn. */
  lemma AppendWrites(c: Codec, w: Log, p: Parts, r: Record, n: nat)
    requires Good(c, w, p) && Writable(c, r) && r.seqNo == w.lastSeq + 1 && n <= |Frame(c, r)|
    ensures AllWritable(c, p.current + [r])
    ensures var p' := p.(current := p.current + [r]);
      var w' := w.(dir := WriteTo(w.dir, w.current, Frame(c, r)[..n]));
      && Durable(c, w', p', |Frames(c, p.current)| + n)
      && p'.All() == p.All() + [r]
      && Kept(c, w', p') >= Kept(c, w, p)
      && (n == |Frame(c, r)| ==> Good(c, w'.(segBytes := w.segBytes + n, lastSeq := r.seqNo), p'))
  {
    hide Frame, Writable, Frames, WholeWithin;
    WriteExtends(c, w.dir, p, r, n);
    FramesSnoc(c, p.current, r);
    NonEmptySegment(c, w, p);
    KeptGrows(c, p.current, r, w.synced - WAL_HEADER_SIZE);
  }

  lemma KeptGrows(c: Codec, rs: seq<Record>, r: Record, k: nat)
    requires AllWritable(c, rs) && Writable(c, r) && k <= |Frames(c, rs)|
    ensures AllWritable(c, rs + [r]) && WholeWithin(c, rs, k) <= WholeWithin(c, rs + [r], k)
  {
    hide Frame, Writable;
    FramesSnoc(c, rs, r);
    var m := WholeWithin(c, rs, k);
    WholeFits(c, rs, k);
    assert (rs + [r])[..m] == rs[..m];
    WholeIsMonotone(c, rs + [r], m, k);
  }

  lemma {:induction false} WholeFits(c: Codec, rs: seq<Record>, k: nat)
    requires AllWritable(c, rs)
    ensures |Frames(c, rs[..WholeWithin(c, rs, k)])| <= k
  {
    hide Frame, Writable;
    if rs != [] && |Frame(c, rs[0])| <= k {
      WholeFits(c, rs[1..], k - |Frame(c, rs[0])|);
      FramesTake(c, rs, WholeWithin(c, rs[1..], k - |Frame(c, rs[0])|));
    }
  }

  /**
   * Any append to a whole log: success adds the record at the end; failure leaves the
   * log as it was or with part of the record behind it. Nothing an fsync covered is lost.
   */
  lemma AppendEffect(c: Codec, w: Log, p: Parts, r: Record, fault: Fault) returns (p': Parts, k: nat)
    requires Good(c, w, p) && IsInt64(r.seqNo) && IsInt64(r.ts) && r.seqNo == w.lastSeq + 1
    ensures var (w', ok) := Append(c, w, r, fault);
      && Durable(c, w', p', k) && AllWritable(c, p'.current)
      && Kept(c, w', p') >= Kept(c, w, p)
      && (ok ==> Good(c, w', p') && p'.All() == p.All() + [r])
      && (!ok ==> p'.All() == p.All() || p'.All() == p.All() + [r])
      && w'.maxBytes == w.maxBytes
  {
    hide Frame, Frames, WholeWithin, Create, WriteTo, OnDisk, HEADER;
    p', k := p, |Frames(c, p.current)|;
    NonEmptySegment(c, w, p);
    if |c.encode(r.op)| <= MAX_RECORD_PAYLOAD {
      var frame := Frame(c, r);
      var rotate := NeedsRotation(w, |frame|);
      if rotate && fault.CloseFails? {
      } else if rotate && fault.CreateFails? {
        SyncedGrows(c, p.current, w.synced - WAL_HEADER_SIZE, k);
      } else {
        var w1 := Rotated(w, r, |frame|);
        var p1 := p;
        if rotate {
          RotateExtends(c, w, p, r.seqNo);
          p1 := Parts(p.closed + [p.current], []);
          RotatedKeepsAll(c, w, p, w1, p1);
        }
        var n := if fault.WriteFails? then Min(fault.written, |frame|) else |frame|;
        assert frame[..|frame|] == frame;
        AppendWrites(c, w1, p1, r, n);
        p', k := p1.(current := p1.current + [r]), |Frames(c, p1.current)| + n;
      }
    }
  }

  lemma RotatedKeepsAll(c: Codec, w: Log, p: Parts, w1: Log, p1: Parts)
    requires Good(c, w, p) && Good(c, w1, p1)
    requires p1 == Parts(p.closed + [p.current], [])
    ensures Kept(c, w1, p1) >= Kept(c, w, p)
  {
    FlatSnoc(p.closed, p.current);
  }

  lemma SyncedGrows(c: Codec, rs: seq<Record>, a: nat, b: nat)
    requires AllWritable(c, rs) && a <= b
    ensures WholeWithin(c, rs, a) <= WholeWithin(c, rs, b)
  {
    WholeFits(c, rs, a);
    WholeIsMonotone(c, rs, WholeWithin(c, rs, a), b);
  }

  /** A successful sync covers every record appended so far. */
  lemma SyncEffect(c: Codec, w: Log, p: Parts)
    requires Good(c, w, p)
    ensures var w' := Sync(w, true).0; Good(c, w', p) && Kept(c, w', p) == |p.All()|
  {
    hide Frame, Frames, WholeWithin;
    NonEmptySegment(c, w, p);
    AllWhole(c, p.current);
  }

  // --- Crashing and reopening ------------------------------------------------------------------------------

  /** A crash keeps what an fsync covered and any prefix of what was written after it. */
  predicate CanCrash(w: Log, cut: nat) {
    w.dir != [] && w.synced <= cut <= |Last(w.dir).data|
  }

  lemma CutHolds(c: Codec, dir: Dir, p: Parts, k: nat, cut: nat)
    requires OnDisk(c, dir, p, k) && WAL_HEADER_SIZE <= cut <= |Last(dir).data|
    ensures OnDisk(c, CutLast(dir, cut), p, cut - WAL_HEADER_SIZE)
  {
    hide Frame, Frames, SegmentWhole;
    assert Last(dir).data[..cut] == HEADER + Frames(c, p.current)[..cut - WAL_HEADER_SIZE];
  }

  /** After a crash, replay finds every record an fsync covered, then some of those that followed, in order. */
  lemma CrashKeepsSynced(c: Codec, w: Log, p: Parts, k: nat, cut: nat) returns (n: nat)
    requires Faithful(c) && Durable(c, w, p, k) && CanCrash(w, cut)
    ensures OnDisk(c, CutLast(w.dir, cut), p, cut - WAL_HEADER_SIZE)
    ensures AllWritable(c, p.current) && Kept(c, w, p) <= n <= |p.All()|
    ensures n == |Flat(p.closed)| + WholeWithin(c, p.current, cut - WAL_HEADER_SIZE)
    ensures ReadAll(c, CutLast(w.dir, cut)) == (p.All()[..n], true)
  {
    hide Frame, Frames, WholeWithin, SegmentWhole, ReadAll;
    CutHolds(c, w.dir, p, k, cut);
    SyncedGrows(c, p.current, w.synced - WAL_HEADER_SIZE, cut - WAL_HEADER_SIZE);
    ReplayIsExact(c, CutLast(w.dir, cut), p, cut - WAL_HEADER_SIZE);
    var m := WholeWithin(c, p.current, cut - WAL_HEADER_SIZE);
    n := |Flat(p.closed)| + m;
    assert p.All()[..n] == Flat(p.closed) + p.current[..m];
  }

  lemma {:induction false} MaxOfDense(rs: seq<Record>, from: int)
    requires Dense(rs, from) && from >= 0
    ensures MaxSeq(rs) == if rs == [] then 0 else from + |rs|
  {
    if rs != [] { MaxOfDense(rs[..|rs| - 1], from); }
  }

  /** The parts with only the whole records of the newest segment. */
  function WholeParts(c: Codec, p: Parts, k: nat): Parts
    requires AllWritable(c, p.current)
  {
    p.(current := p.current[..WholeWithin(c, p.current, k)])
  }

  lemma TruncatedHolds(c: Codec, dir: Dir, p: Parts, k: nat)
    requires Faithful(c) && OnDisk(c, dir, p, k)
    ensures var m := WholeWithin(c, p.current, k); var good := WAL_HEADER_SIZE + |Frames(c, p.current[..m])|;
      && good <= |Last(dir).data|
      && ReadSegment(c, Last(dir).data) == Scan(p.current[..m], good, true)
      && OnDisk(c, CutLast(dir, good), WholeParts(c, p, k), |Frames(c, p.current[..m])|)
  {
    hide Frame, WholeWithin, SegmentWhole, ReadSegment, Frames;
    ReadWhole(c, Last(dir), p.current, |Flat(p.closed)|, k);
    var m := WholeWithin(c, p.current, k);
    WholeFits(c, p.current, k);
    var whole := p.current[..m];
    FramesJoin(c, whole, p.current[m..]);
    assert whole + p.current[m..] == p.current;
    var good := WAL_HEADER_SIZE + |Frames(c, whole)|;
    assert Last(dir).data[..good] == HEADER + Frames(c, whole);
    assert Frames(c, whole)[..|Frames(c, whole)|] == Frames(c, whole);
  }

  /**
   * Reopening truncates exactly the torn tail: replay is unchanged, the writer stands at
   * the end of a whole log, and by reading only the newest segment it knows the same last
   * position as a replay of everything.
   */
  lemma ReopenIsExact(c: Codec, dir: Dir, p: Parts, k: nat, maxBytes: int)
    requires Faithful(c) && OnDisk(c, dir, p, k)
    ensures var r := OpenWriter(c, dir, maxBytes);
      && r.Some?
      && Good(c, r.value, WholeParts(c, p, k))
      && Kept(c, r.value, WholeParts(c, p, k)) == |WholeParts(c, p, k).All()|
      && ReadAll(c, r.value.dir) == ReadAll(c, dir) == (WholeParts(c, p, k).All(), true)
      && r.value.lastSeq == MaxSeq(ReadAll(c, dir).0)
  {
    hide Frame, WholeWithin, SegmentWhole, ReadSegment, Frames, ReadAll, MaxSeq;
    TruncatedHolds(c, dir, p, k);
    var q := WholeParts(c, p, k);
    AllWhole(c, q.current);
    ReplayIsExact(c, dir, p, k);
    ReplayIsExact(c, OpenWriter(c, dir, maxBytes).value.dir, q, |Frames(c, q.current)|);
    assert q.current[..|q.current|] == q.current;
    MaxOfDense(q.current, |Flat(p.closed)|);
    LogIsDense(c, OpenWriter(c, dir, maxBytes).value.dir, q, |Frames(c, q.current)|);
    MaxOfDense(q.All(), 0);
  }

  /** Positions across all segments run from 1 without a gap. */
  lemma {:induction false} ClosedIsDense(c: Codec, dir: Dir, p: Parts, k: nat, i: nat)
    requires OnDisk(c, dir, p, k) && i <= |p.closed|
    ensures Dense(Flat(p.closed[..i]), 0)
  {
    hide Frames, Frame, Writable;
    if i > 0 {
      ClosedIsDense(c, dir, p, k, i - 1);
      assert p.closed[..i][..i - 1] == p.closed[..i - 1];
      assert SegmentWhole(c, dir[i - 1], p.closed[i - 1], |Flat(p.closed[..i - 1])|);
    }
  }

  lemma LogIsDense(c: Codec, dir: Dir, p: Parts, k: nat)
    requires OnDisk(c, dir, p, k)
    ensures Dense(p.All(), 0)
  {
    hide Frames, Frame, Writable;
    ClosedIsDense(c, dir, p, k, |p.closed|);
    assert p.closed[..|p.closed|] == p.closed;
  }

  /** A symbol's first writer starts an empty log at position 1. */
  lemma FirstOpen(c: Codec, maxBytes: int)
    ensures var r := OpenWriter(c, [], maxBytes); r.Some? && Good(c, r.value, Parts([], [])) && r.value.lastSeq == 0
    ensures Kept(c, OpenWriter(c, [], maxBytes).value, Parts([], [])) == 0
  {
    EmptyFrames(c);
  }

  // --- Damage ------------------------------------------------------------------------------------------------

  /** Whole records, then something that is not one: reading stops there, cleanly only if it is not all there. */
  lemma SegmentStopsAt(c: Codec, rs: seq<Record>, tail: Bytes)
    requires Faithful(c) && AllWritable(c, rs) && !Parse(c, tail).Got?
    ensures ReadSegment(c, HEADER + Frames(c, rs) + tail)
         == Scan(rs, WAL_HEADER_SIZE + |Frames(c, rs)|, Parse(c, tail).Short?)
  {
    hide Frame, Writable, Parse;
    var data := HEADER + Frames(c, rs) + tail;
    ScanOfFrames(c, rs, tail);
    assert data[..WAL_HEADER_SIZE] == HEADER && data[WAL_HEADER_SIZE..] == Frames(c, rs) + tail;
    assert rs + [] == rs;
  }

  /** Behind segments that read whole, a damaged record ends the replay, with an error. */
  lemma {:induction false} DamageEndsReplay(c: Codec, dir: Dir, i: nat, before: seq<Record>, rs: seq<Record>,
                                            tail: Bytes)
    requires Faithful(c) && i < |dir| && ReadAll(c, dir[..i]) == (before, true) && AllWritable(c, rs)
    requires dir[i].data == HEADER + Frames(c, rs) + tail && Parse(c, tail) == Corrupt
    ensures ReadAll(c, dir) == (before + rs, false)
    decreases |dir|
  {
    hide Frame, Frames, Writable, Parse, ReadSegment;
    SegmentStopsAt(c, rs, tail);
    var n := |dir| - 1;
    if i < n {
      assert dir[..n][..i] == dir[..i];
      DamageEndsReplay(c, dir[..n], i, before, rs, tail);
    }
  }

  /** Damage in the newest segment keeps a writer from opening; a torn tail is cut off and it opens. */
  lemma OpensUnlessDamaged(c: Codec, dir: Dir, rs: seq<Record>, tail: Bytes, maxBytes: int)
    requires Faithful(c) && dir != [] && AllWritable(c, rs) && !Parse(c, tail).Got?
    requires Last(dir).data == HEADER + Frames(c, rs) + tail
    ensures var r := OpenWriter(c, dir, maxBytes);
      && (r.None? <==> Parse(c, tail) == Corrupt)
      && (r.Some? ==>
            && |r.value.dir| == |dir| && r.value.dir[..|dir| - 1] == dir[..|dir| - 1]
            && Last(r.value.dir) == Segment(Last(dir).first, HEADER + Frames(c, rs))
            && r.value.lastSeq == Max(MaxSeq(rs), Last(dir).first - 1))
  {
    hide Frame, Frames, Writable, Parse, ReadSegment, MaxSeq;
    SegmentStopsAt(c, rs, tail);
    assert Last(dir).data[..WAL_HEADER_SIZE + |Frames(c, rs)|] == HEADER + Frames(c, rs);
  }

  /** A segment without the right header is damaged from its first byte. */
  lemma BadHeaderIsDamage(c: Codec, dir: Dir, maxBytes: int)
    requires dir != [] && !(|Last(dir).data| >= WAL_HEADER_SIZE && Last(dir).data[..WAL_HEADER_SIZE] == HEADER)
    ensures OpenWriter(c, dir, maxBytes) == None && !ReadAll(c, dir).1
  {
  }

  // --- When an append succeeds and when it rotates ------------------------------------------------------------

  /** The frame does not fit what the segment may still take, and the segment is not empty. */
  predicate Overfills(c: Codec, w: Log, r: Record) {
    w.segBytes + 24 + |c.encode(r.op)| > w.maxBytes && w.segBytes > WAL_HEADER_SIZE
  }

  /** An append fails exactly when the payload is past the cap or one of its own steps fails. */
  lemma AppendSucceedsIff(c: Codec, w: Log, r: Record, fault: Fault)
    requires IsInt64(r.seqNo) && IsInt64(r.ts)
    ensures Append(c, w, r, fault).1 <==>
      && |c.encode(r.op)| <= MAX_RECORD_PAYLOAD && !fault.WriteFails?
      && (Overfills(c, w, r) ==> fault.NoFault?)
  {
    hide PutLE, Create, WriteTo;
  }

  /** No segment is larger than the limit, unless it holds a single record. */
  predicate WithinLimit(c: Codec, rs: seq<Record>, maxBytes: int) {
    AllWritable(c, rs) && (|rs| <= 1 || WAL_HEADER_SIZE + |Frames(c, rs)| <= maxBytes)
  }

  /** Appending rotates exactly when the record overfills the segment, so none ever grows past the limit. */
  lemma AppendKeepsWithinLimit(c: Codec, w: Log, p: Parts, r: Record)
    requires Good(c, w, p) && Writable(c, r) && r.seqNo == w.lastSeq + 1
    requires WithinLimit(c, p.current, w.maxBytes) && forall rs :: rs in p.closed ==> WithinLimit(c, rs, w.maxBytes)
    ensures var w' := Append(c, w, r, NoFault).0;
      var p' := if Overfills(c, w, r) then Parts(p.closed + [p.current], [r]) else p.(current := p.current + [r]);
      && Good(c, w', p') && w'.maxBytes == w.maxBytes
      && |w'.dir| == |w.dir| + (if Overfills(c, w, r) then 1 else 0)
      && WithinLimit(c, p'.current, w.maxBytes) && forall rs :: rs in p'.closed ==> WithinLimit(c, rs, w.maxBytes)
  {
    hide PutLE, Frames, Create, WriteTo, OnDisk, HEADER, RecHeader;
    NonEmptySegment(c, w, p);
    var frame := Frame(c, r);
    var rotate := Overfills(c, w, r);
    assert rotate <==> NeedsRotation(w, |frame|);
    var w1, p1 := Rotated(w, r, |frame|), p;
    if rotate {
      RotateExtends(c, w, p, r.seqNo);
      p1 := Parts(p.closed + [p.current], []);
    }
    assert frame[..|frame|] == frame && [] + [r] == [r];
    AppendWrites(c, w1, p1, r, |frame|);
    WriteKeepsLength(w1.dir, w1.current, frame);
    if !rotate {
      FramesSnoc(c, p.current, r);
      if w.segBytes == WAL_HEADER_SIZE { NothingYet(c, p.current); }
    }
  }

  lemma WriteKeepsLength(dir: Dir, first: int, b: Bytes)
    ensures |WriteTo(dir, first, b)| == |dir|
  {
  }

  lemma NothingYet(c: Codec, rs: seq<Record>)
    requires AllWritable(c, rs) && Frames(c, rs) == []
    ensures rs == []
  {
    hide RecHeader, PutLE;
  }

  // --- The records above a position ----------------------------------------------------------------------

  /** What a reader that has got as far as a position still has to take. */
  function Above(rs: seq<Record>, afterSeq: int): seq<Record> {
    if rs == [] then []
    else Above(rs[..|rs| - 1], afterSeq) + if rs[|rs| - 1].seqNo > afterSeq then [rs[|rs| - 1]] else []
  }

  lemma AboveSnoc(rs: seq<Record>, r: Record, afterSeq: int)
    ensures Above(rs + [r], afterSeq) == Above(rs, afterSeq) + if r.seqNo > afterSeq then [r] else []
    ensures MaxSeq(rs + [r]) == Max(MaxSeq(rs), r.seqNo)
  {
    assert (rs + [r])[..|rs|] == rs;
  }

  /** A whole log is above 0, and of a log whose positions run on from `from`, what lies above a position is a tail. */
  lemma {:induction false} AboveOfDense(rs: seq<Record>, from: int, position: int)
    requires Dense(rs, from)
    ensures Above(rs, position) ==
      if position <= from then rs else if position < from + |rs| then rs[position - from..] else []
  {
    if rs != [] {
      var init, last := rs[..|rs| - 1], rs[|rs| - 1];
      AboveOfDense(init, from, position);
      assert init + [last] == rs;
      if from < position < from + |rs| - 1 { assert init[position - from..] + [last] == rs[position - from..]; }
    }
  }
}
