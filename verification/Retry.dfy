/**
 * A follower that tries a batch again on the same writer after its append or sync
 * failed: what is then in its log, and exactly when that is still a prefix of the primary's.
 */
module Retry {
  import opened Types
  import opened Guards
  import opened Commit
  import opened Framing
  import opened Wal
  import opened Replication

  /** A follower whose log holds everything appended to it, torn nowhere; after a failed create its file is closed. */
  ghost predicate Whole(c: Codec, w: Log, p: Parts) {
    Good(c, w.(open := true), p)
  }

  /** The writer may append: its file is open, or this append opens the next one. */
  predicate MayAppend(c: Codec, w: Log, r: Record) {
    Writable(c, r) && (w.open || NeedsRotation(w, |Frame(c, r)|))
  }

  lemma WritableFits(c: Codec, r: Record)
    requires Writable(c, r)
    ensures |c.encode(r.op)| <= MAX_RECORD_PAYLOAD && IsInt64(r.seqNo) && IsInt64(r.ts)
  {
  }

  function NoFaults(n: nat): seq<Fault> {
    seq(n, _ => NoFault)
  }

  // --- Directories in which positions may repeat ---------------------------------------------------------

  /** A segment's name and the records in it, whatever their positions. */
  datatype Sheaf = Sheaf(first: int, records: seq<Record>)

  function Leaves(s: seq<Sheaf>): seq<Record> {
    if s == [] then [] else s[0].records + Leaves(s[1..])
  }

  predicate Rising(s: seq<Sheaf>) {
    forall i, j :: 0 <= i < j < |s| ==> s[i].first < s[j].first
  }

  predicate FiledAs(c: Codec, seg: Segment, h: Sheaf) {
    seg.first == h.first && AllWritable(c, h.records) && seg.data == HEADER + Frames(c, h.records)
  }

  /** The directory holds exactly these sheaves, in order of name. */
  ghost predicate Filed(c: Codec, dir: Dir, s: seq<Sheaf>) {
    |dir| == |s| && Rising(s) && forall i :: 0 <= i < |s| ==> FiledAs(c, dir[i], s[i])
  }

  lemma {:induction false} LeavesJoin(a: seq<Sheaf>, b: seq<Sheaf>)
    ensures Leaves(a + b) == Leaves(a) + Leaves(b)
  {
    if a == [] {
      assert a + b == b;
    } else {
      LeavesJoin(a[1..], b);
      assert (a + b)[1..] == a[1..] + b && (a + b)[0] == a[0];
      JoinIsAssociative(a[0].records, Leaves(a[1..]), Leaves(b));
    }
  }

  lemma {:induction false} JoinIsAssociative<T>(x: seq<T>, y: seq<T>, z: seq<T>)
    ensures x + (y + z) == x + y + z
  {
  }

  lemma {:induction false} LeavesOfOne(h: Sheaf)
    ensures Leaves([h]) == h.records
  {
    assert h.records + [] == h.records;
  }

  lemma {:induction false} FiledSegmentReads(c: Codec, seg: Segment, h: Sheaf)
    requires Faithful(c) && FiledAs(c, seg, h)
    ensures ReadSegment(c, seg.data).records == h.records && ReadSegment(c, seg.data).clean
  {
    hide Frame, Frames, Writable, ScanBytes;
    ScanOfFrames(c, h.records, []);
    NothingToScan(c);
    assert seg.data[WAL_HEADER_SIZE..] == Frames(c, h.records) + [];
    assert h.records + [] == h.records;
  }

  lemma {:induction false} NothingToScan(c: Codec)
    ensures ScanBytes(c, []) == Scan([], 0, true)
  {
  }

  lemma {:induction false} FiledReads(c: Codec, dir: Dir, s: seq<Sheaf>)
    requires Faithful(c) && Filed(c, dir, s)
    ensures ReadAll(c, dir) == (Leaves(s), true)
    decreases |s|
  {
    hide FiledAs, ReadSegment;
    if s != [] {
      var n := |s| - 1;
      FiledReads(c, dir[..n], s[..n]);
      FiledSegmentReads(c, dir[n], s[n]);
      LeavesJoin(s[..n], [s[n]]);
      LeavesOfOne(s[n]);
      assert s[..n] + [s[n]] == s;
    }
  }

  // --- One append ------------------------------------------------------------------------------------------

  /** The writer stands at the end of the sheaf cur, which others may follow. */
  ghost predicate At(c: Codec, w: Log, front: seq<Sheaf>, cur: Sheaf, back: seq<Sheaf>) {
    && Filed(c, w.dir, front + [cur] + back) && AllWritable(c, cur.records)
    && w.current == cur.first && w.segBytes == WAL_HEADER_SIZE + |Frames(c, cur.records)|
  }

  lemma {:induction false} WriteFiles(c: Codec, dir: Dir, front: seq<Sheaf>, cur: Sheaf, back: seq<Sheaf>, r: Record)
    requires Filed(c, dir, front + [cur] + back) && AllWritable(c, cur.records) && Writable(c, r)
    ensures Filed(c, WriteTo(dir, cur.first, Frame(c, r)), front + [Sheaf(cur.first, cur.records + [r])] + back)
  {
    hide Frame, Frames, Writable;
    var s, s' := front + [cur] + back, front + [Sheaf(cur.first, cur.records + [r])] + back;
    var dir' := WriteTo(dir, cur.first, Frame(c, r));
    FramesSnoc(c, cur.records, r);
    assert forall i :: 0 <= i < |s| ==> s'[i].first == s[i].first;
    forall i | 0 <= i < |s'| ensures FiledAs(c, dir'[i], s'[i]) {
      assert FiledAs(c, dir[i], s[i]);
      if i == |front| {
        assert HEADER + Frames(c, cur.records) + Frame(c, r) == HEADER + Frames(c, cur.records + [r]);
      } else {
        assert s[|front|] == cur && s'[i] == s[i];
      }
    }
  }

  /** Without rotating, a record joins the sheaf the writer stands at. */
  lemma {:induction false} AppendStays(c: Codec, w: Log, front: seq<Sheaf>, cur: Sheaf, back: seq<Sheaf>, r: Record)
    requires At(c, w, front, cur, back) && MayAppend(c, w, r) && !NeedsRotation(w, |Frame(c, r)|)
    ensures IsInt64(r.seqNo) && IsInt64(r.ts)
    ensures var (w', ok) := Append(c, w, r, NoFault);
      && ok && w'.open && w'.maxBytes == w.maxBytes && w'.segBytes == w.segBytes + |Frame(c, r)|
      && At(c, w', front, Sheaf(cur.first, cur.records + [r]), back)
  {
    hide Frame, Frames, Writable, Filed, WriteTo;
    WritableFits(c, r);
    WriteFiles(c, w.dir, front, cur, back, r);
    FramesSnoc(c, cur.records, r);
  }

  lemma {:induction false} CreateShape(lo: Dir, hit: Dir, hi: Dir, q: int)
    requires (forall k :: 0 <= k < |lo| ==> lo[k].first < q) && |hit| <= 1 && (hit != [] ==> hit[0].first == q)
    requires hi != [] ==> q < hi[0].first
    ensures Create(lo + (hit + hi), q) == lo + ([Segment(q, HEADER)] + hi)
    decreases |lo|
  {
    if lo == [] {
      CreateHere(hit, hi, q);
      assert lo + (hit + hi) == hit + hi && lo + ([Segment(q, HEADER)] + hi) == [Segment(q, HEADER)] + hi;
    } else {
      CreateShape(lo[1..], hit, hi, q);
      HeadAndRest(lo, hit + hi);
      HeadAndRest(lo, [Segment(q, HEADER)] + hi);
    }
  }

  lemma {:induction false} CreateHere(hit: Dir, hi: Dir, q: int)
    requires |hit| <= 1 && (hit != [] ==> hit[0].first == q) && (hi != [] ==> q < hi[0].first)
    ensures Create(hit + hi, q) == [Segment(q, HEADER)] + hi
  {
    if hit != [] { HeadAndRest(hit, hi); }
    assert [] + hi == hi;
  }

  lemma {:induction false} HeadAndRest<T>(a: seq<T>, b: seq<T>)
    requires a != []
    ensures (a + b)[0] == a[0] && (a + b)[1..] == a[1..] + b && a + b == [a[0]] + (a[1..] + b)
  {
  }

  /** These sheaves, split at a name: those before it, the one of that name if there is one, those after it. */
  predicate SplitBy(s: seq<Sheaf>, lo: seq<Sheaf>, hit: seq<Sheaf>, hi: seq<Sheaf>, q: int) {
    && s == lo + hit + hi && |hit| <= 1
    && (forall b :: b in lo ==> b.first < q) && (forall b :: b in hit ==> b.first == q)
    && (forall b :: b in hi ==> q < b.first)
  }

  lemma {:induction false} SplitExists(s: seq<Sheaf>, q: int)
    returns (lo: seq<Sheaf>, hit: seq<Sheaf>, hi: seq<Sheaf>)
    requires Rising(s)
    ensures SplitBy(s, lo, hit, hi, q)
  {
    if s == [] {
      lo, hit, hi := [], [], [];
    } else if s[0].first < q {
      lo, hit, hi := SplitExists(s[1..], q);
      lo := [s[0]] + lo;
      assert s == [s[0]] + s[1..];
    } else {
      lo, hit, hi := [], if s[0].first == q then [s[0]] else [], if s[0].first == q then s[1..] else s;
      forall b | b in hi ensures q < b.first {
        var k :| 0 <= k < |s| && s[k] == b && (s[0].first == q ==> k > 0);
      }
    }
  }

  lemma {:induction false} RotatedRises(s: seq<Sheaf>, lo: seq<Sheaf>, hit: seq<Sheaf>, hi: seq<Sheaf>, h: Sheaf)
    requires Rising(s) && SplitBy(s, lo, hit, hi, h.first)
    ensures Rising(lo + [h] + hi)
  {
    var t := lo + [h] + hi;
    var d := |hit|;
    forall i, j | 0 <= i < j < |t| ensures t[i].first < t[j].first {
      assert i < |lo| ==> t[i] in lo && t[i] == s[i];
      assert j > |lo| ==> t[j] in hi && t[j] == s[j - 1 + d];
      assert i > |lo| ==> t[i] == s[i - 1 + d];
      assert j < |lo| ==> t[j] == s[j];
    }
  }

  ghost predicate Pairs(c: Codec, dir: Dir, s: seq<Sheaf>) {
    |dir| == |s| && forall i :: 0 <= i < |s| ==> FiledAs(c, dir[i], s[i])
  }

  lemma {:induction false} PairsSplit(c: Codec, dir: Dir, a: seq<Sheaf>, b: seq<Sheaf>)
    requires Pairs(c, dir, a + b)
    ensures |dir| == |a| + |b| && Pairs(c, dir[..|a|], a) && Pairs(c, dir[|a|..], b) && dir[..|a|] + dir[|a|..] == dir
  {
    hide FiledAs;
    forall i | 0 <= i < |a| ensures FiledAs(c, dir[..|a|][i], a[i]) { assert (a + b)[i] == a[i]; }
    forall i | 0 <= i < |b| ensures FiledAs(c, dir[|a|..][i], b[i]) { assert (a + b)[|a| + i] == b[i]; }
  }

  lemma {:induction false} PairsJoin(c: Codec, x: Dir, y: Dir, a: seq<Sheaf>, b: seq<Sheaf>)
    requires Pairs(c, x, a) && Pairs(c, y, b)
    ensures Pairs(c, x + y, a + b)
  {
    hide FiledAs;
  }

  lemma {:induction false} CreateFiles(c: Codec, dir: Dir, s: seq<Sheaf>, lo: seq<Sheaf>, hit: seq<Sheaf>,
                                       hi: seq<Sheaf>, q: int)
    requires Filed(c, dir, s) && SplitBy(s, lo, hit, hi, q)
    ensures Filed(c, Create(dir, q), lo + [Sheaf(q, [])] + hi)
  {
    hide Create, Frames, Rising, FiledAs, Pairs;
    FiledIsPairs(c, dir, s);
    var x, y, z := CutInThree(c, dir, lo, hit, hi);
    PairedNames(c, x, lo);
    PairedNames(c, y, hit);
    PairedNames(c, z, hi);
    CreateShape(x, y, z, q);
    RotatedRises(s, lo, hit, hi, Sheaf(q, []));
    NewIsPaired(c, q);
    PairsJoin(c, [Segment(q, HEADER)], z, [Sheaf(q, [])], hi);
    PairsJoin(c, x, [Segment(q, HEADER)] + z, lo, [Sheaf(q, [])] + hi);
    JoinIsAssociative(lo, [Sheaf(q, [])], hi);
    FiledIsPairs(c, Create(dir, q), lo + [Sheaf(q, [])] + hi);
  }

  lemma {:induction false} FiledIsPairs(c: Codec, dir: Dir, s: seq<Sheaf>)
    ensures Filed(c, dir, s) <==> Rising(s) && Pairs(c, dir, s)
  {
    hide FiledAs, Rising;
  }

  lemma {:induction false} CutInThree(c: Codec, dir: Dir, lo: seq<Sheaf>, hit: seq<Sheaf>, hi: seq<Sheaf>)
    returns (x: Dir, y: Dir, z: Dir)
    requires Pairs(c, dir, lo + hit + hi)
    ensures dir == x + (y + z) && Pairs(c, x, lo) && Pairs(c, y, hit) && Pairs(c, z, hi)
  {
    hide Pairs;
    JoinIsAssociative(lo, hit, hi);
    PairsSplit(c, dir, lo, hit + hi);
    var yz := dir[|lo|..];
    PairsSplit(c, yz, hit, hi);
    x, y, z := dir[..|lo|], yz[..|hit|], yz[|hit|..];
  }

  lemma {:induction false} PairedNames(c: Codec, dir: Dir, s: seq<Sheaf>)
    requires Pairs(c, dir, s)
    ensures |dir| == |s| && forall i :: 0 <= i < |dir| ==> dir[i].first == s[i].first && s[i] in s
  {
    hide Frames;
    forall i | 0 <= i < |dir| ensures dir[i].first == s[i].first { assert FiledAs(c, dir[i], s[i]); }
  }

  lemma {:induction false} NewIsPaired(c: Codec, q: int)
    ensures Pairs(c, [Segment(q, HEADER)], [Sheaf(q, [])])
  {
    EmptyFrames(c);
    assert HEADER + [] == HEADER;
  }

  /** Rotating opens a sheaf of the record's own position, truncating one of that name, wherever that stands. */
  lemma {:induction false} AppendRotates(c: Codec, w: Log, s: seq<Sheaf>, lo: seq<Sheaf>, hit: seq<Sheaf>,
                                         hi: seq<Sheaf>, r: Record)
    requires Filed(c, w.dir, s) && SplitBy(s, lo, hit, hi, r.seqNo)
    requires Writable(c, r) && NeedsRotation(w, |Frame(c, r)|)
    ensures IsInt64(r.seqNo) && IsInt64(r.ts)
    ensures var (w', ok) := Append(c, w, r, NoFault);
      && ok && w'.open && w'.maxBytes == w.maxBytes && w'.segBytes == WAL_HEADER_SIZE + |Frame(c, r)|
      && At(c, w', lo, Sheaf(r.seqNo, [r]), hi)
  {
    hide Frame, Frames, Writable, Filed, WriteTo, Create;
    WritableFits(c, r);
    CreateFiles(c, w.dir, s, lo, hit, hi, r.seqNo);
    EmptyFrames(c);
    WriteFiles(c, Create(w.dir, r.seqNo), lo, Sheaf(r.seqNo, []), hi, r);
    FramesSnoc(c, [], r);
    assert [] + [r] == [r] && [] + Frame(c, r) == Frame(c, r);
  }

  /** A faultless append first, then the rest. */
  lemma {:induction false} AppendsFirst(c: Codec, w: Log, rs: seq<Record>)
    requires AllInt64(rs) && rs != [] && Append(c, w, rs[0], NoFault).1
    ensures AllInt64(rs[1..])
    ensures AppendAll(c, w, rs, NoFaults(|rs|))
         == AppendAll(c, Append(c, w, rs[0], NoFault).0, rs[1..], NoFaults(|rs[1..]|))
  {
    hide Append;
    assert NoFaults(|rs|)[0] == NoFault && NoFaults(|rs|)[1..] == NoFaults(|rs[1..]|);
  }

  lemma {:induction false} AppendsNone(c: Codec, w: Log)
    ensures AllInt64([]) && AppendAll(c, w, [], NoFaults(0)) == (w, true)
  {
  }

  // --- Where a retry rotates -------------------------------------------------------------------------------

  /** The positions at which appending these records to a segment of this size opens others. */
  function Rotations(c: Codec, size: int, max: int, rs: seq<Record>): set<int>
    requires AllWritable(c, rs)
    decreases |rs|
  {
    if rs == [] then {}
    else
      var n := |Frame(c, rs[0])|;
      if size + n > max && size > WAL_HEADER_SIZE
      then {rs[0].seqNo} + Rotations(c, WAL_HEADER_SIZE + n, max, rs[1..])
      else Rotations(c, size + n, max, rs[1..])
  }

  /** The first of them. */
  function FirstRotation(c: Codec, size: int, max: int, rs: seq<Record>): Option<int>
    requires AllWritable(c, rs)
    decreases |rs|
  {
    if rs == [] then None
    else
      var n := |Frame(c, rs[0])|;
      if size + n > max && size > WAL_HEADER_SIZE then Some(rs[0].seqNo)
      else FirstRotation(c, size + n, max, rs[1..])
  }

  lemma {:induction false} RotationsWithin(c: Codec, size: int, max: int, rs: seq<Record>, from: int)
    requires AllWritable(c, rs) && Dense(rs, from)
    ensures forall q :: q in Rotations(c, size, max, rs) ==> from < q <= from + |rs|
    decreases |rs|
  {
    hide Frame;
    if rs != [] {
      assert rs[0].seqNo == from + 1;
      var n := |Frame(c, rs[0])|;
      RotationsWithin(c, WAL_HEADER_SIZE + n, max, rs[1..], from + 1);
      RotationsWithin(c, size + n, max, rs[1..], from + 1);
    }
  }

  // --- From the first rotation on ------------------------------------------------------------------------

  /** From each of these sheaves on, they hold the primary's records from its name up to e. */
  predicate Chained(back: seq<Sheaf>, primary: seq<Record>, e: nat) {
    back == []
    || (1 <= back[0].first <= e <= |primary| && Leaves(back) == primary[back[0].first - 1..e]
        && Chained(back[1..], primary, e))
  }

  /** The last of these sheaves holds a record a retry up to y appends again. */
  predicate Spoilt(back: seq<Sheaf>, y: nat) {
    back != [] ==> exists r :: r in back[|back| - 1].records && r.seqNo <= y
  }

  predicate NoneEmpty(back: seq<Sheaf>) {
    forall b :: b in back ==> b.records != []
  }

  /** The sheaves a retry up to y has not reached: the primary's records up to e, or spoilt already. */
  predicate Unreached(back: seq<Sheaf>, primary: seq<Record>, y: nat, e: nat, clean: bool) {
    NoneEmpty(back) && if clean then Chained(back, primary, e) else Spoilt(back, y)
  }

  /** What of the old sheaves behind is left to truncate, or follows on, once those up to y have been. */
  predicate Clears(back: seq<Sheaf>, rotations: set<int>, y: int, clean: bool) {
    && (forall b :: b in back && b.first <= y ==> b.first in rotations)
    && (back != [] && back[|back| - 1].first > y ==> clean && exists b :: b in back && b.first == y + 1)
  }

  /** What is in front is right, no old sheaf up to y is left, and what follows y, if anything, follows on. */
  predicate Lands(front: seq<Sheaf>, cur: int, back: seq<Sheaf>, rotations: set<int>, primary: seq<Record>, y: nat,
                  clean: bool)
  {
    1 <= cur <= |primary| && Leaves(front) == primary[..cur - 1] && Clears(back, rotations, y, clean)
  }

  lemma {:induction false} PrefixIsDense(log: seq<Record>, primary: seq<Record>)
    requires log <= primary && Dense(primary, 0)
    ensures forall i :: 0 <= i < |log| ==> log[i].seqNo == i + 1
  {
    assert forall i :: 0 <= i < |log| ==> log[i] == primary[i];
  }

  lemma {:induction false} LastLeaves(back: seq<Sheaf>)
    requires back != []
    ensures forall r :: r in back[|back| - 1].records ==> r in Leaves(back)
  {
    var n := |back| - 1;
    LeavesJoin(back[..n], [back[n]]);
    LeavesOfOne(back[n]);
    assert back[..n] + [back[n]] == back;
  }

  /** A log in which cur's records stand is a prefix only if exactly what precedes them is in front. */
  lemma {:induction false} FrontIsExact(front: seq<Record>, cur: seq<Record>, rest: seq<Record>,
                                        primary: seq<Record>, first: int)
    requires Dense(primary, 0) && 1 <= first <= |primary| && cur != [] && cur[0] == primary[first - 1]
    requires front + cur + rest <= primary
    ensures front == primary[..first - 1]
  {
    var log := front + cur + rest;
    PrefixIsDense(log, primary);
    assert log[|front|] == cur[0];
    assert log[..|front|] == front;
  }

  lemma {:induction false} NextFollows(log: seq<Record>, back: seq<Sheaf>, primary: seq<Record>, y: nat, e: nat)
    requires Dense(primary, 0) && y <= |log| && log[y..] == Leaves(back) && log <= primary
    requires Unreached(back, primary, y, e, true) && Rising(back) && back != [] && Leaves(back) != []
    ensures back[0].first == y + 1 && forall b :: b in back ==> b.first > y
  {
    hide Leaves, Dense;
    SamePlace(log, primary, y, back[0].first - 1, e);
    forall b | b in back ensures b.first > y {
      var k :| 0 <= k < |back| && back[k] == b;
    }
  }

  lemma {:induction false} SamePlace(log: seq<Record>, primary: seq<Record>, y: nat, x: nat, e: nat)
    requires Dense(primary, 0) && y <= |log| && log <= primary && x <= e <= |primary|
    requires log[y..] == primary[x..e] != []
    ensures x == y
  {
    assert log[y..][0] == log[y] && primary[x..e][0] == primary[x];
    assert log[y] == primary[y];
  }

  lemma {:induction false} AppendedTwice(log: seq<Record>, back: seq<Sheaf>, primary: seq<Record>, y: nat, e: nat)
    requires Dense(primary, 0) && y <= |log| && log[y..] == Leaves(back)
    requires Unreached(back, primary, y, e, false) && back != []
    ensures !(log <= primary)
  {
    LastLeaves(back);
    var r :| r in back[|back| - 1].records && r.seqNo <= y;
    assert r in Leaves(back);
    var k :| 0 <= k < |Leaves(back)| && Leaves(back)[k] == r;
    assert log[y + k] == log[y..][k];
    WrongPosition(log, primary, y + k);
  }

  lemma {:induction false} WrongPosition(log: seq<Record>, primary: seq<Record>, i: nat)
    requires Dense(primary, 0) && i < |log| && log[i].seqNo != i + 1
    ensures !(log <= primary)
  {
  }

  /** The records behind y follow on from it. */
  predicate FollowsOn(back: seq<Sheaf>, y: int, clean: bool) {
    && (forall b :: b in back ==> b.first > y)
    && (back != [] ==> clean && exists b :: b in back && b.first == y + 1)
  }

  lemma {:induction false} LastIsOne(back: seq<Sheaf>)
    ensures back != [] ==> back[|back| - 1] in back
  {
  }

  lemma {:induction false} LandsWhenDone(front: seq<Sheaf>, cur: int, back: seq<Sheaf>, primary: seq<Record>, y: nat,
                                         clean: bool)
    ensures Lands(front, cur, back, {}, primary, y, clean)
       <==> 1 <= cur <= |primary| && Leaves(front) == primary[..cur - 1] && FollowsOn(back, y, clean)
  {
    hide Leaves;
    LastIsOne(back);
  }

  lemma {:induction false} FollowsOnJoins(back: seq<Sheaf>, primary: seq<Record>, y: nat, e: nat, clean: bool)
    requires Unreached(back, primary, y, e, clean) && Rising(back) && FollowsOn(back, y, clean) && y <= |primary|
    ensures primary[..y] + Leaves(back) <= primary
  {
    hide Leaves;
    if back != [] {
      FirstIsNext(back, y, clean);
      SlicesJoin(primary, y, e);
    } else {
      NoLeaves();
    }
  }

  lemma {:induction false} SlicesJoin<T>(s: seq<T>, x: nat, y: nat)
    requires x <= y <= |s|
    ensures s[..x] + s[x..y] == s[..y]
  {
  }

  lemma {:induction false} NoLeaves()
    ensures Leaves([]) == []
  {
  }

  lemma {:induction false} FirstIsNext(back: seq<Sheaf>, y: int, clean: bool)
    requires Rising(back) && FollowsOn(back, y, clean) && back != []
    ensures back[0].first == y + 1
  {
    var k :| 0 <= k < |back| && back[k].first == y + 1;
    assert back[0] in back;
  }

  lemma {:induction false} PrefixFollowsOn(back: seq<Sheaf>, primary: seq<Record>, y: nat, e: nat, clean: bool)
    requires Dense(primary, 0) && y <= |primary| && primary[..y] + Leaves(back) <= primary
    requires Unreached(back, primary, y, e, clean) && Rising(back)
    ensures FollowsOn(back, y, clean)
  {
    var log := primary[..y] + Leaves(back);
    if back != [] {
      LeavesOfNone(back);
      if clean { NextFollows(log, back, primary, y, e); } else { AppendedTwice(log, back, primary, y, e); }
    }
  }

  /** With nothing left to append, the log is a prefix exactly when it has landed. */
  lemma {:induction false} LandedIff(front: seq<Sheaf>, cur: Sheaf, back: seq<Sheaf>, primary: seq<Record>, y: nat,
                                     e: nat, clean: bool)
    requires Dense(primary, 0) && 1 <= cur.first <= y <= |primary| && cur.records == primary[cur.first - 1..y]
    requires Unreached(back, primary, y, e, clean) && Rising(back)
    ensures var log := Leaves(front) + cur.records + Leaves(back);
      && (log <= primary <==> Lands(front, cur.first, back, {}, primary, y, clean))
      && (log <= primary ==> y <= |log|)
  {
    hide Leaves, Unreached, Dense, FollowsOn, Rising, Lands;
    var f := Leaves(front);
    LandsWhenDone(front, cur.first, back, primary, y, clean);
    if f + cur.records + Leaves(back) <= primary {
      FrontIsExact(f, cur.records, Leaves(back), primary, cur.first);
    }
    if f == primary[..cur.first - 1] {
      assert f + cur.records == primary[..y];
      if primary[..y] + Leaves(back) <= primary { PrefixFollowsOn(back, primary, y, e, clean); }
      if FollowsOn(back, y, clean) { FollowsOnJoins(back, primary, y, e, clean); }
    }
  }

  lemma {:induction false} LeavesOfNone(s: seq<Sheaf>)
    requires forall b :: b in s ==> b.records != []
    ensures Leaves(s) == [] ==> s == []
  {
    if s != [] { assert s[0] in s; }
  }

  lemma {:induction false} HiIsUnreached(back: seq<Sheaf>, lo: seq<Sheaf>, hit: seq<Sheaf>, hi: seq<Sheaf>, q: int,
                                         primary: seq<Record>, y: nat, e: nat, clean: bool)
    requires Unreached(back, primary, y, e, clean) && SplitBy(back, lo, hit, hi, q)
    ensures Unreached(hi, primary, y, e, clean)
  {
    hide Chained;
    MembersOf(lo, hit, hi);
    LastOfJoin(lo + hit, hi);
    if clean { ChainedTail(lo + hit, hi, primary, e); }
  }

  lemma {:induction false} ChainedTail(a: seq<Sheaf>, b: seq<Sheaf>, primary: seq<Record>, e: nat)
    requires Chained(a + b, primary, e)
    ensures Chained(b, primary, e)
    decreases |a|
  {
    if a == [] {
      assert a + b == b;
    } else {
      assert (a + b)[1..] == a[1..] + b;
      ChainedTail(a[1..], b, primary, e);
    }
  }

  lemma {:induction false} FrontGrows(front: seq<Sheaf>, cur: Sheaf, lo: seq<Sheaf>, primary: seq<Record>, q: int)
    requires Dense(primary, 0) && 1 <= cur.first < q <= |primary| && cur.records == primary[cur.first - 1..q - 1]
    requires forall b :: b in lo ==> b.records != []
    ensures Leaves(front + [cur] + lo) == primary[..q - 1] <==> Leaves(front) == primary[..cur.first - 1] && lo == []
  {
    hide Dense, Leaves;
    LeavesJoin(front + [cur], lo);
    LeavesJoin(front, [cur]);
    LeavesOfOne(cur);
    LeavesOfNone(lo);
    NoLeaves();
    var f := Leaves(front);
    if f + cur.records + Leaves(lo) == primary[..q - 1] {
      FrontIsExact(f, cur.records, Leaves(lo), primary, cur.first);
      assert |f + cur.records| == q - 1;
    }
    if f == primary[..cur.first - 1] { assert f + cur.records == primary[..q - 1]; }
  }

  /** Opening a sheaf at q passes over old ones, which must then be none, or truncates the one of that name. */
  lemma {:induction false} ClearsIff(back: seq<Sheaf>, lo: seq<Sheaf>, hit: seq<Sheaf>, hi: seq<Sheaf>, q: int,
                                     rotations: set<int>,
                  y: int, clean: bool)
    requires SplitBy(back, lo, hit, hi, q) && q <= y && forall p :: p in rotations ==> q < p
    ensures Clears(back, {q} + rotations, y, clean) <==> lo == [] && Clears(hi, rotations, y, clean)
  {
    MembersOf(lo, hit, hi);
    LastIsOne(back);
    LastIsOne(hi);
    assert hi != [] ==> back[|back| - 1] == hi[|hi| - 1];
    if lo != [] { assert lo[0] in lo && lo[0] in back; }
  }

  lemma {:induction false} RotatedLandsIff(front: seq<Sheaf>, cur: Sheaf, back: seq<Sheaf>, lo: seq<Sheaf>,
                                           hit: seq<Sheaf>, hi: seq<Sheaf>, q: int, rotations: set<int>,
                                           primary: seq<Record>, y: nat, e: nat, clean: bool)
    requires Dense(primary, 0) && 1 <= cur.first < q <= y <= |primary| && cur.records == primary[cur.first - 1..q - 1]
    requires SplitBy(back, lo, hit, hi, q) && Unreached(back, primary, y, e, clean)
    requires forall p :: p in rotations ==> q < p
    ensures Lands(front, cur.first, back, {q} + rotations, primary, y, clean)
       <==> Lands(front + [cur] + lo, q, hi, rotations, primary, y, clean)
    ensures back == [] ==>
      hi == [] && Leaves(front + [cur] + lo) + primary[q - 1..y] == Leaves(front) + primary[cur.first - 1..y]
  {
    hide Leaves, Clears, Dense;
    MembersOf(lo, hit, hi);
    FrontGrows(front, cur, lo, primary, q);
    ClearsIff(back, lo, hit, hi, q, rotations, y, clean);
    if back == [] {
      LeavesJoin(front, [cur]);
      LeavesOfOne(cur);
      assert front + [cur] + [] == front + [cur];
      assert cur.records + primary[q - 1..y] == primary[cur.first - 1..y];
    }
  }

  lemma {:induction false} MembersOf<T>(a: seq<T>, b: seq<T>, d: seq<T>)
    ensures forall x :: x in a + b + d <==> x in a || x in b || x in d
  {
  }
  /** From its first rotation on, a retry ends in a prefix of the primary's log exactly when it lands. */
  lemma {:induction false} RetryLands(c: Codec, w: Log, front: seq<Sheaf>, cur: Sheaf, back: seq<Sheaf>,
                                      rs: seq<Record>, primary: seq<Record>, y: nat, e: nat, clean: bool)
    requires Faithful(c) && At(c, w, front, cur, back) && w.open && AllWritable(c, rs) && AllInt64(rs)
    requires Dense(primary, 0) && |rs| <= y <= |primary| && rs == primary[y - |rs|..y]
    requires cur.records != [] && 1 <= cur.first <= y - |rs| && cur.records == primary[cur.first - 1..y - |rs|]
    requires Unreached(back, primary, y, e, clean)
    ensures var (w', ok) := AppendAll(c, w, rs, NoFaults(|rs|)); var (log, whole) := ReadAll(c, w'.dir);
      && ok && whole
      && (log <= primary)
           == Lands(front, cur.first, back, Rotations(c, w.segBytes, w.maxBytes, rs), primary, y, clean)
      && (log <= primary ==> y <= |log|)
      && (back == [] ==> log == Leaves(front) + primary[cur.first - 1..y])
    decreases |rs|
  {
    hide Append, AppendAll, NoFaults, Frame, Frames, Writable, Filed, Lands, Leaves, Unreached, ReadAll, Dense,
         SplitBy, Rising;
    if rs == [] {
      AppendsNone(c, w);
      AllLanded(c, w, front, cur, back, primary, y, e, clean);
    } else {
      var r, rest := rs[0], rs[1..];
      RestOf(rs, primary, y);
      var w1 := Append(c, w, r, NoFault).0;
      if NeedsRotation(w, |Frame(c, r)|) {
        RisingBack(c, w.dir, front, cur, back);
        var lo, hit, hi := SplitExists(back, r.seqNo);
        SplitWider(front, cur, back, lo, hit, hi, r.seqNo);
        AppendRotates(c, w, front + [cur] + back, front + [cur] + lo, hit, hi, r);
        AppendsFirst(c, w, rs);
        HiIsUnreached(back, lo, hit, hi, r.seqNo, primary, y, e, clean);
        RetryLands(c, w1, front + [cur] + lo, Sheaf(r.seqNo, [r]), hi, rest, primary, y, e, clean);
        RotationsWithin(c, w1.segBytes, w1.maxBytes, rest, r.seqNo);
        RotatedLandsIff(front, cur, back, lo, hit, hi, r.seqNo, Rotations(c, w1.segBytes, w1.maxBytes, rest), primary,
                        y, e, clean);
      } else {
        AppendStays(c, w, front, cur, back, r);
        AppendsFirst(c, w, rs);
        assert primary[cur.first - 1..y - |rs|] + [r] == primary[cur.first - 1..y - |rest|];
        RetryLands(c, w1, front, Sheaf(cur.first, cur.records + [r]), back, rest, primary, y, e, clean);
      }
    }
  }

  lemma {:induction false} AllLanded(c: Codec, w: Log, front: seq<Sheaf>, cur: Sheaf, back: seq<Sheaf>,
                                     primary: seq<Record>, y: nat,
                  e: nat, clean: bool)
    requires Faithful(c) && At(c, w, front, cur, back)
    requires Dense(primary, 0) && 1 <= cur.first <= y <= |primary| && cur.records == primary[cur.first - 1..y]
    requires Unreached(back, primary, y, e, clean)
    ensures var (log, whole) := ReadAll(c, w.dir);
      && whole && (log <= primary <==> Lands(front, cur.first, back, {}, primary, y, clean))
      && (log <= primary ==> y <= |log|)
      && (back == [] ==> log == Leaves(front) + primary[cur.first - 1..y])
  {
    hide Filed, Lands, Leaves, Unreached, ReadAll, Dense, Frames, Writable;
    RisingBack(c, w.dir, front, cur, back);
    FiledReads(c, w.dir, front + [cur] + back);
    LeavesJoin(front + [cur], back);
    LeavesJoin(front, [cur]);
    LeavesOfOne(cur);
    NoLeaves();
    LandedIff(front, cur, back, primary, y, e, clean);
  }

  lemma {:induction false} RisingBack(c: Codec, dir: Dir, front: seq<Sheaf>, cur: Sheaf, back: seq<Sheaf>)
    requires Filed(c, dir, front + [cur] + back)
    ensures Rising(back) && forall b :: b in back ==> b.first > cur.first
    ensures forall b :: b in front ==> b.first < cur.first
  {
    var s := front + [cur] + back;
    assert s[|front|] == cur;
    forall b | b in back ensures b.first > cur.first {
      var k :| 0 <= k < |back| && back[k] == b;
      assert s[|front| + 1 + k] == b;
    }
    forall b | b in front ensures b.first < cur.first {
      var k :| 0 <= k < |front| && front[k] == b;
      assert s[k] == b;
    }
    forall i, j | 0 <= i < j < |back| ensures back[i].first < back[j].first {
      assert s[|front| + 1 + i] == back[i] && s[|front| + 1 + j] == back[j];
    }
  }

  lemma {:induction false} SplitWider(front: seq<Sheaf>, cur: Sheaf, back: seq<Sheaf>, lo: seq<Sheaf>,
                                      hit: seq<Sheaf>, hi: seq<Sheaf>,
                   q: int)
    requires SplitBy(back, lo, hit, hi, q) && cur.first < q && forall b :: b in front ==> b.first < cur.first
    ensures SplitBy(front + [cur] + back, front + [cur] + lo, hit, hi, q)
  {
    assert front + [cur] + (lo + hit + hi) == front + [cur] + lo + hit + hi;
  }

  lemma {:induction false} RestOf(rs: seq<Record>, primary: seq<Record>, y: nat)
    requires Dense(primary, 0) && 0 < |rs| <= y <= |primary| && rs == primary[y - |rs|..y]
    ensures rs[0].seqNo == y - |rs| + 1 && rs[1..] == primary[y - |rs[1..]|..y] && rs[0] == primary[y - |rs|]
    ensures Dense(rs[1..], rs[0].seqNo) && [rs[0]] == primary[y - |rs|..y - |rs[1..]|]
  {
  }

  // --- The exact condition -------------------------------------------------------------------------------

  function NamesOf(s: seq<Sheaf>): set<int> {
    set b | b in s :: b.first
  }

  /**
   * The retry starts over: its first rotation truncates a segment, and so do others up to y each
   * segment after that one. If some lie past y, the first of them is right behind y and nothing of
   * the retry went to where the writer stood.
   */
  predicate StartsOver(names: set<int>, first: Option<int>, rotations: set<int>, position: int, y: int) {
    && first.Some? && first.value in names
    && (forall n :: n in names && first.value < n <= y ==> n in rotations)
    && ((exists n :: n in names && n > y) ==> y + 1 in names && first.value == position + 1)
  }

  /** The primary's first n records lie in these sheaves, each named for its first one; none in front is empty. */
  predicate Laid(front: seq<Sheaf>, first: int, last: seq<Record>, primary: seq<Record>, n: nat) {
    && n <= |primary| && Leaves(front) + last == primary[..n] && first == |Leaves(front)| + 1
    && (forall i :: 0 <= i < |front| ==> front[i].records != [] && front[i].first == |Leaves(front[..i])| + 1)
  }

  /** What is in front of a sheaf ends where its name says. */
  lemma {:induction false} LaidUpTo(front: seq<Sheaf>, cur: Sheaf, last: seq<Record>, primary: seq<Record>, n: nat,
                                    k: nat)
    requires Laid(front, cur.first, last, primary, n) && k <= |front|
    ensures var s := front + [cur];
      1 <= s[k].first <= n + 1 && s[k].first <= |primary| + 1 && Leaves(s[..k]) == primary[..s[k].first - 1]
  {
    var s := front + [cur];
    assert s[..k] == front[..k];
    assert front[..|front|] == front;
    LeavesJoin(front[..k], front[k..]);
    assert front[..k] + front[k..] == front;
    hide Leaves;
    var a := Leaves(front[..k]);
    assert a + Leaves(front[k..]) + last == primary[..n];
    assert primary[..n][..|a|] == a;
  }

  lemma {:induction false} SplitIsCut(s: seq<Sheaf>, lo: seq<Sheaf>, hit: seq<Sheaf>, hi: seq<Sheaf>, q: int)
    requires SplitBy(s, lo, hit, hi, q)
    ensures lo == s[..|lo|] && |lo| + |hit| + |hi| == |s|
    ensures hit != [] ==> s[|lo|].first == q
    ensures hit == [] && hi != [] ==> s[|lo|].first > q
    ensures q in NamesOf(s) <==> hit != []
    ensures forall n :: n in NamesOf(s) && n > q <==> n in NamesOf(hi)
  {
    MembersOf(lo, hit, hi);
    if hit != [] { assert hit[0] in hit && s[|lo|] == hit[0]; }
    if hi != [] { assert hi[0] in hi && s[|lo| + |hit|] == hi[0]; }
  }

  /** What precedes the first rotation is right if nothing was left behind, or the rotation truncates a segment. */
  lemma {:induction false} LeadsIff(front: seq<Sheaf>, cur: Sheaf, last: seq<Record>, chunk: seq<Record>,
                                    lo: seq<Sheaf>, hit: seq<Sheaf>, hi: seq<Sheaf>, q: int,
                                    primary: seq<Record>, position: nat, j: nat)
    requires Laid(front, cur.first, last, primary, position + j) && cur.records == last + chunk
    requires q == position + |chunk| + 1 <= |primary| && chunk == primary[position..q - 1]
    requires SplitBy(front + [cur], lo, hit, hi, q)
    ensures Leaves(lo) == primary[..q - 1] <==> j == 0 || q in NamesOf(front + [cur])
    ensures j == 0 ==> hi == []
  {
    var s := front + [cur];
    SplitIsCut(s, lo, hit, hi, q);
    hide SplitBy, NamesOf, Leaves;
    if |lo| < |s| {
      LaidUpTo(front, cur, last, primary, position + j, |lo|);
      assert s[|lo|].first == q <==> Leaves(lo) == primary[..q - 1] by {
        assert |Leaves(lo)| == s[|lo|].first - 1;
      }
      if hi != [] && hit != [] { HiIsHigher(front, cur, last, lo, hit, hi, q, primary, position + j); }
    } else {
      assert lo == s;
      LeavesJoin(front, [cur]);
      LeavesOfOne(cur);
      assert Leaves(lo) == primary[..position + j] + chunk;
      if j == 0 { SlicesJoin(primary, position, q - 1); }
    }
  }

  lemma {:induction false} HiIsHigher(front: seq<Sheaf>, cur: Sheaf, last: seq<Record>, lo: seq<Sheaf>, hit: seq<Sheaf>,
                                      hi: seq<Sheaf>, q: int, primary: seq<Record>, n: nat)
    requires Laid(front, cur.first, last, primary, n) && SplitBy(front + [cur], lo, hit, hi, q) && hi != []
    ensures q <= n
  {
    var s := front + [cur];
    var k := |lo| + |hit|;
    assert s[k] == hi[0] && hi[0] in hi;
    LaidUpTo(front, cur, last, primary, n, k);
  }

  lemma {:induction false} LastIsHighest(hi: seq<Sheaf>)
    requires Rising(hi)
    ensures forall b :: b in hi ==> b.first <= hi[|hi| - 1].first
  {
    forall b | b in hi ensures b.first <= hi[|hi| - 1].first {
      var k :| 0 <= k < |hi| && hi[k] == b;
    }
  }

  lemma {:induction false} ClearsIsOver(names: set<int>, hi: seq<Sheaf>, q: int, rotations: set<int>, position: nat,
                                        y: int)
    requires Rising(hi) && (forall n :: n in names && n > q <==> n in NamesOf(hi)) && q in names && q <= y
    requires forall p :: p in rotations ==> q < p
    ensures Clears(hi, rotations, y, q == position + 1) <==> StartsOver(names, Some(q), {q} + rotations, position, y)
  {
    LastIsHighest(hi);
    LastIsOne(hi);
    forall b | b in hi ensures b.first in names && b.first > q {
      assert b.first in NamesOf(hi);
    }
    if Clears(hi, rotations, y, q == position + 1) {
      forall n | n in names && q < n <= y ensures n in rotations {
        var b :| b in hi && b.first == n;
      }
      if n :| n in names && n > y {
        var b :| b in hi && b.first == n;
        assert hi[|hi| - 1].first > y;
      }
    }
    if StartsOver(names, Some(q), {q} + rotations, position, y) {
      if hi != [] && hi[|hi| - 1].first > y {
        var b :| b in hi && b.first == y + 1;
      }
    }
  }

  /** At its first rotation, what is laid out behind is either the primary's or is spoilt by what was appended again. */
  lemma {:induction false} LaidIsUnreached(front: seq<Sheaf>, cur: Sheaf, last: seq<Record>, chunk: seq<Record>,
                                           lo: seq<Sheaf>, hit: seq<Sheaf>, hi: seq<Sheaf>, q: int,
                                           primary: seq<Record>, n: nat, y: nat)
    requires Laid(front, cur.first, last, primary, n) && cur.records == last + chunk != []
    requires SplitBy(front + [cur], lo, hit, hi, q) && (chunk != [] ==> chunk[0].seqNo <= y)
    ensures Unreached(hi, primary, y, n, chunk == [])
  {
    hide Leaves, Chained;
    MembersOf(lo, hit, hi);
    LastOfJoin(lo + hit, hi);
    forall b | b in hi ensures b.records != [] {
      assert b in front + [cur];
    }
    if chunk == [] {
      LaidIsChained(front, cur, primary, n, 0);
      assert (front + [cur])[0..] == front + [cur];
      ChainedTail(lo + hit, hi, primary, n);
    } else if hi != [] {
      assert (front + [cur])[|front|] == cur;
      assert chunk[0] in cur.records;
    }
  }

  lemma {:induction false} LaidIsChained(front: seq<Sheaf>, cur: Sheaf, primary: seq<Record>, n: nat, k: nat)
    requires Laid(front, cur.first, cur.records, primary, n) && k <= |front| + 1 && cur.records != []
    ensures Chained((front + [cur])[k..], primary, n)
    decreases |front| + 1 - k
  {
    hide Leaves;
    var s := front + [cur];
    if k <= |front| {
      LaidFrom(front, cur, primary, n, k);
      LaidIsChained(front, cur, primary, n, k + 1);
      assert s[k..][1..] == s[k + 1..] && s[k..][0] == s[k];
    }
  }

  lemma {:induction false} LaidFrom(front: seq<Sheaf>, cur: Sheaf, primary: seq<Record>, n: nat, k: nat)
    requires Laid(front, cur.first, cur.records, primary, n) && k <= |front| && cur.records != []
    ensures var s := front + [cur];
      1 <= s[k].first <= n && Leaves(s[k..]) == primary[s[k].first - 1..n]
  {
    var s := front + [cur];
    LaidUpTo(front, cur, cur.records, primary, n, k);
    LeavesJoin(s[..k], s[k..]);
    LeavesJoin(front, [cur]);
    LeavesOfOne(cur);
    assert s[..k] + s[k..] == s;
    assert Leaves(s[k..]) == s[k].records + Leaves(s[k..][1..]);
    assert s[k].records != [];
    hide Leaves;
    var x := s[k].first - 1;
    assert primary[..x] + Leaves(s[k..]) == primary[..n];
    assert primary[..n][x..] == primary[x..n];
  }

  /** A retry whose first record makes the writer rotate. */
  lemma {:induction false} RotatesFirst(c: Codec, w: Log, front: seq<Sheaf>, cur: Sheaf, last: seq<Record>,
                                        chunk: seq<Record>, rs: seq<Record>, primary: seq<Record>, position: nat,
                                        j: nat, y: nat)
    requires Faithful(c) && Filed(c, w.dir, front + [cur]) && AllWritable(c, rs) && AllInt64(rs) && rs != []
    requires NeedsRotation(w, |Frame(c, rs[0])|) && cur.records == last + chunk != []
    requires Dense(primary, 0) && Laid(front, cur.first, last, primary, position + j) && y <= |primary|
    requires position + |chunk| + |rs| == y && rs == primary[y - |rs|..y] && chunk == primary[position..y - |rs|]
    ensures var (w', ok) := AppendAll(c, w, rs, NoFaults(|rs|)); var (log, whole) := ReadAll(c, w'.dir);
      var over := StartsOver(NamesOf(front + [cur]), FirstRotation(c, w.segBytes, w.maxBytes, rs),
                             Rotations(c, w.segBytes, w.maxBytes, rs), position, y);
      && ok && whole && (log <= primary <==> j == 0 || over) && (log <= primary ==> y <= |log|)
      && (cur.first <= position + 1 && !over ==> log == primary[..position + j] + primary[position..y])
  {
    hide Append, AppendAll, NoFaults, Frame, Frames, Writable, Filed, Leaves, Unreached, ReadAll, Dense, SplitBy,
         Rising, Laid, StartsOver, Lands, At, NamesOf;
    var r, rest := rs[0], rs[1..];
    var q, s := r.seqNo, front + [cur];
    RestOf(rs, primary, y);
    FiledRises(c, w.dir, s);
    var lo, hit, hi := SplitExists(s, q);
    AppendRotates(c, w, s, lo, hit, hi, r);
    var w1 := Append(c, w, r, NoFault).0;
    AppendsFirst(c, w, rs);
    ChunkStarts(primary, position, y - |rs|);
    LaidIsUnreached(front, cur, last, chunk, lo, hit, hi, q, primary, position + j, y);
    RetryLands(c, w1, lo, Sheaf(q, [r]), hi, rest, primary, y, position + j, chunk == []);
    RotationsWithin(c, w1.segBytes, w1.maxBytes, rest, q);
    FirstLandsIff(front, cur, last, chunk, lo, hit, hi, q, Rotations(c, w1.segBytes, w1.maxBytes, rest), primary,
                  position, j, y);
  }

  /** The first rotation, seen from the segments a failed batch left. */
  lemma {:induction false} FirstLandsIff(front: seq<Sheaf>, cur: Sheaf, last: seq<Record>, chunk: seq<Record>,
                                         lo: seq<Sheaf>, hit: seq<Sheaf>, hi: seq<Sheaf>, q: int,
                                         rotations: set<int>, primary: seq<Record>, position: nat, j: nat, y: nat)
    requires Laid(front, cur.first, last, primary, position + j) && cur.records == last + chunk
    requires q == position + |chunk| + 1 <= y <= |primary| && chunk == primary[position..q - 1]
    requires Rising(front + [cur]) && SplitBy(front + [cur], lo, hit, hi, q) && forall p :: p in rotations ==> q < p
    ensures var over := StartsOver(NamesOf(front + [cur]), Some(q), {q} + rotations, position, y);
      && (Lands(lo, q, hi, rotations, primary, y, chunk == []) <==> j == 0 || over)
      && (cur.first <= position + 1 && !over ==>
            hi == [] && Leaves(lo) + primary[q - 1..y] == primary[..position + j] + primary[position..y])
  {
    hide Laid, Leaves, StartsOver, Clears, Rising, SplitBy, NamesOf;
    var s := front + [cur];
    LeadsIff(front, cur, last, chunk, lo, hit, hi, q, primary, position, j);
    SplitIsCut(s, lo, hit, hi, q);
    RisingHi(s, lo, hit, hi, q);
    if q in NamesOf(s) { ClearsIsOver(NamesOf(s), hi, q, rotations, position, y); }
    NotOver(NamesOf(s), q, {q} + rotations, position, y);
    NothingClears(rotations, y, chunk == []);
    NothingClears(rotations, y, q == position + 1);
    if cur.first <= position + 1 {
      NothingBehind(front, cur, lo, hit, hi, q);
      if hit == [] { LogOfBoth(front, cur, last, chunk, lo, q, primary, position, j, y); }
    }
  }

  lemma {:induction false} NothingBehind(front: seq<Sheaf>, cur: Sheaf, lo: seq<Sheaf>, hit: seq<Sheaf>, hi: seq<Sheaf>,
                                         q: int)
    requires SplitBy(front + [cur], lo, hit, hi, q) && cur.first <= q
    ensures hi == [] && (hit == [] ==> lo == front + [cur])
  {
    LastOfJoin(lo + hit, hi);
    assert (front + [cur])[|front|] == cur;
  }

  lemma {:induction false} LastOfJoin<T>(a: seq<T>, b: seq<T>)
    ensures b != [] ==> (a + b)[|a| + |b| - 1] == b[|b| - 1] && b[|b| - 1] in b
  {
  }

  lemma {:induction false} LogOfBoth(front: seq<Sheaf>, cur: Sheaf, last: seq<Record>, chunk: seq<Record>,
                                     lo: seq<Sheaf>, q: int, primary: seq<Record>, position: nat, j: nat, y: nat)
    requires Laid(front, cur.first, last, primary, position + j) && cur.records == last + chunk
    requires lo == front + [cur] && position < q <= y <= |primary| && chunk == primary[position..q - 1]
    ensures Leaves(lo) + primary[q - 1..y] == primary[..position + j] + primary[position..y]
  {
    hide Leaves;
    LeavesJoin(front, [cur]);
    LeavesOfOne(cur);
    assert chunk + primary[q - 1..y] == primary[position..y];
  }

  lemma {:induction false} FiledRises(c: Codec, dir: Dir, s: seq<Sheaf>)
    requires Filed(c, dir, s)
    ensures Rising(s)
  {
  }

  lemma {:induction false} NeverOver(names: set<int>, rotations: set<int>, position: int, y: int)
    ensures !StartsOver(names, None, rotations, position, y)
  {
  }

  lemma {:induction false} NotOver(names: set<int>, q: int, rotations: set<int>, position: int, y: int)
    ensures StartsOver(names, Some(q), rotations, position, y) ==> q in names
  {
  }

  lemma {:induction false} NothingClears(rotations: set<int>, y: int, clean: bool)
    ensures Clears([], rotations, y, clean)
  {
  }

  lemma {:induction false} ChunkStarts(primary: seq<Record>, x: nat, y: nat)
    requires Dense(primary, 0) && x <= y <= |primary|
    ensures primary[x..y] != [] ==> primary[x..y][0].seqNo == x + 1
  {
  }

  lemma {:induction false} RisingHi(s: seq<Sheaf>, lo: seq<Sheaf>, hit: seq<Sheaf>, hi: seq<Sheaf>, q: int)
    requires Rising(s) && SplitBy(s, lo, hit, hi, q)
    ensures Rising(hi)
  {
    var d := |lo| + |hit|;
    forall i, k | 0 <= i < k < |hi| ensures hi[i].first < hi[k].first {
      assert hi[i] == s[d + i] && hi[k] == s[d + k];
    }
  }

  /** A retry from any point of it before its first rotation. */
  lemma {:induction false} RetryBegins(c: Codec, w: Log, front: seq<Sheaf>, cur: Sheaf, last: seq<Record>,
                                       chunk: seq<Record>, rs: seq<Record>, primary: seq<Record>, position: nat,
                                       j: nat, y: nat)
    requires Faithful(c) && At(c, w, front, cur, []) && AllWritable(c, rs) && AllInt64(rs)
    requires (rs != [] ==> MayAppend(c, w, rs[0])) && cur.records == last + chunk
    requires PrimaryOk(primary) && Laid(front, cur.first, last, primary, position + j) && position < y <= |primary|
    requires position + |chunk| + |rs| == y && rs == primary[y - |rs|..y] && chunk == primary[position..y - |rs|]
    ensures var (w', ok) := AppendAll(c, w, rs, NoFaults(|rs|)); var (log, whole) := ReadAll(c, w'.dir);
      var over := StartsOver(NamesOf(front + [cur]), FirstRotation(c, w.segBytes, w.maxBytes, rs),
                             Rotations(c, w.segBytes, w.maxBytes, rs), position, y);
      && ok && whole && (log <= primary <==> j == 0 || over) && (log <= primary ==> y <= |log|)
      && (cur.first <= position + 1 && !over ==> log == primary[..position + j] + primary[position..y])
    decreases |rs|
  {
    hide Append, Frame, Frames, Writable, Filed, Leaves, ReadAll, Dense, Laid, StartsOver, NamesOf, Replayable,
         AllInt64;
    assert front + [cur] + [] == front + [cur];
    if rs == [] {
      NeverOver(NamesOf(front + [cur]), Rotations(c, w.segBytes, w.maxBytes, rs), position, y);
      NeverRotates(c, w, front, cur, last, chunk, primary, position, j, y);
    } else if NeedsRotation(w, |Frame(c, rs[0])|) {
      NotEmptyAt(c, w, front, cur);
      RotatesFirst(c, w, front, cur, last, chunk, rs, primary, position, j, y);
    } else {
      var r, rest := rs[0], rs[1..];
      assert NoFaults(|rs|)[0] == NoFault && NoFaults(|rs|)[1..] == NoFaults(|rest|);
      RestOf(rs, primary, y);
      TailIsInt64(rs);
      AppendStays(c, w, front, cur, [], r);
      var cur' := Sheaf(cur.first, cur.records + [r]);
      assert cur.records + [r] == last + (chunk + [r]);
      assert primary[position..y - |rs|] + [r] == primary[position..y - |rest|];
      SameNames(front, cur, cur');
      RetryBegins(c, Append(c, w, r, NoFault).0, front, cur', last, chunk + [r], rest, primary, position, j, y);
    }
  }

  lemma {:induction false} TailIsInt64(rs: seq<Record>)
    requires AllInt64(rs) && rs != []
    ensures AllInt64(rs[1..])
  {
  }

  lemma {:induction false} SameNames(front: seq<Sheaf>, a: Sheaf, b: Sheaf)
    requires a.first == b.first
    ensures NamesOf(front + [a]) == NamesOf(front + [b])
  {
    MembersOf(front, [a], []);
    MembersOf(front, [b], []);
    assert front + [a] + [] == front + [a] && front + [b] + [] == front + [b];
    assert a in [a] && b in [b];
  }

  lemma {:induction false} NotEmptyAt(c: Codec, w: Log, front: seq<Sheaf>, cur: Sheaf)
    requires At(c, w, front, cur, []) && w.segBytes > WAL_HEADER_SIZE
    ensures cur.records != []
  {
    EmptyFrames(c);
  }

  /** Without any rotation the retried records go behind what the failed attempt left. */
  lemma {:induction false} NeverRotates(c: Codec, w: Log, front: seq<Sheaf>, cur: Sheaf, last: seq<Record>,
                                        chunk: seq<Record>, primary: seq<Record>, position: nat, j: nat, y: nat)
    requires Faithful(c) && At(c, w, front, cur, []) && cur.records == last + chunk
    requires PrimaryOk(primary) && Laid(front, cur.first, last, primary, position + j) && position < y <= |primary|
    requires chunk == primary[position..y]
    ensures var (log, whole) := ReadAll(c, w.dir);
      && whole && (log <= primary <==> j == 0) && (log <= primary ==> y <= |log|)
      && log == primary[..position + j] + primary[position..y]
  {
    hide Leaves, ReadAll, Frames, Filed, Replayable, AllInt64;
    assert front + [cur] + [] == front + [cur];
    FiledReads(c, w.dir, front + [cur]);
    LeavesJoin(front, [cur]);
    LeavesOfOne(cur);
    PrefixIff(primary, position, position + j, y);
  }

  lemma {:induction false} PrefixIff(primary: seq<Record>, x: nat, base: nat, y: nat)
    requires Dense(primary, 0) && x <= base <= |primary| && x < y <= |primary|
    ensures primary[..base] + primary[x..y] <= primary <==> base == x
  {
    var log := primary[..base] + primary[x..y];
    if base == x {
      assert log == primary[..y];
    } else {
      assert log[base] == primary[x] && primary[x].seqNo == x + 1;
      assert base < |primary| ==> primary[base].seqNo == base + 1;
    }
  }

  // --- What a failed batch left -----------------------------------------------------------------------------

  /** The segments of a whole log, as sheaves. */
  function Sheaves(dir: Dir, parts: seq<seq<Record>>): seq<Sheaf>
    requires |dir| >= |parts|
  {
    seq(|parts|, i requires 0 <= i < |parts| => Sheaf(dir[i].first, parts[i]))
  }

  lemma {:induction false} LeavesAreFlat(dir: Dir, parts: seq<seq<Record>>, i: nat)
    requires i <= |parts| <= |dir|
    ensures Leaves(Sheaves(dir, parts)[..i]) == Flat(parts[..i])
  {
    var s := Sheaves(dir, parts);
    if i > 0 {
      LeavesAreFlat(dir, parts, i - 1);
      LeavesJoin(s[..i - 1], [s[i - 1]]);
      LeavesOfOne(s[i - 1]);
      assert s[..i - 1] + [s[i - 1]] == s[..i];
      assert parts[..i][..i - 1] == parts[..i - 1];
    }
  }

  /** A whole log is filed, and laid out segment by segment. */
  lemma {:induction false} WholeIsLaid(c: Codec, w: Log, p: Parts, primary: seq<Record>, n: nat)
    requires Whole(c, w, p) && n <= |primary| && p.All() == primary[..n]
    ensures |w.dir| == |p.closed| + 1 && w.dir != [] && AllWritable(c, p.current)
    ensures var front, cur := Sheaves(w.dir, p.closed), Sheaf(Last(w.dir).first, p.current);
      && At(c, w, front, cur, []) && Laid(front, cur.first, p.current, primary, n)
      && NamesOf(front + [cur]) == Names(w.dir)
  {
    hide Frame, Frames, Writable, Flat, Leaves;
    var k := |Frames(c, p.current)|;
    var front, cur := Sheaves(w.dir, p.closed), Sheaf(Last(w.dir).first, p.current);
    var s := front + [cur];
    assert s + [] == s && p.closed[..|p.closed|] == p.closed && front[..|front|] == front;
    NamesIncrease(c, w.dir, p, k);
    LeavesAreFlat(w.dir, p.closed, |p.closed|);
    NameOf(c, w.dir, p, k, |p.closed|);
    forall i | 0 <= i < |s| ensures FiledAs(c, w.dir[i], s[i]) && s[i].first == w.dir[i].first {
      if i < |p.closed| {
        var all := Frames(c, p.closed[i]);
        assert SegmentWhole(c, w.dir[i], p.closed[i], |Flat(p.closed[..i])|);
        assert all[..|all|] == all;
      } else {
        assert Frames(c, p.current)[..k] == Frames(c, p.current);
      }
    }
    forall i | 0 <= i < |front| ensures front[i].records != [] && front[i].first == |Leaves(front[..i])| + 1 {
      LeavesAreFlat(w.dir, p.closed, i);
      NameOf(c, w.dir, p, k, i);
    }
    NamesAgree(w.dir, s);
  }

  function Names(dir: Dir): set<int> {
    set seg | seg in dir :: seg.first
  }

  lemma {:induction false} NamesAgree(dir: Dir, s: seq<Sheaf>)
    requires |dir| == |s| && forall i :: 0 <= i < |s| ==> s[i].first == dir[i].first
    ensures NamesOf(s) == Names(dir)
  {
    forall x | x in NamesOf(s) ensures x in Names(dir) {
      var i :| 0 <= i < |s| && s[i].first == x;
      assert dir[i] in dir;
    }
    forall x | x in Names(dir) ensures x in NamesOf(s) {
      var i :| 0 <= i < |dir| && dir[i].first == x;
      assert s[i] in s;
    }
  }

  /**
   * A failed batch left j records of the primary's log behind the position. Retrying from that
   * position on the same writer succeeds, and the book moves on as if nothing had happened. The log
   * is still a prefix of the primary's, and holds all that was applied, if and only if nothing had
   * been left or the retry starts over. When it neither starts over nor had been rotated past its
   * first record, the log holds what was left and then all of the retry.
   */
  lemma RetryKeepsPrefixIff(c: Codec, f: Follower, p: Parts, primary: seq<Record>, j: nat, x: nat, y: nat)
    requires Faithful(c) && PrimaryOk(primary) && Whole(c, f.wal, p)
    requires 0 <= f.position && f.position + j <= |primary| && p.All() == primary[..f.position + j]
    requires x <= f.position < y <= |primary| && AllWritable(c, primary[f.position..y])
    requires MayAppend(c, f.wal, primary[f.position])
    ensures AllInt64(primary[x..y]) && |Above(primary[x..y], f.position)| == y - f.position && f.wal.dir != []
    ensures var news := primary[f.position..y]; var w := f.wal;
      var (f', ok) := ApplyBatch(c, f, primary[x..y], NoFaults(y - f.position), true);
      var over := StartsOver(Names(w.dir), FirstRotation(c, w.segBytes, w.maxBytes, news),
                             Rotations(c, w.segBytes, w.maxBytes, news), f.position, y);
      var (log, whole) := ReadAll(c, f'.wal.dir);
      && ok && whole && f'.position == y && f'.book == Replay(f.book, news)
      && (log <= primary <==> j == 0 || over) && (log <= primary ==> y <= |log|)
      && (Last(w.dir).first <= f.position + 1 && !over ==> log == primary[..f.position + j] + news)
  {
    hide Append, Frame, Frames, Writable, Replay, Replayable, ReadAll, Above, Whole, MayAppend, NeedsRotation,
         AppendAll, Rotations, FirstRotation, StartsOver, Leaves, Flat, Dense, At, Laid, NamesOf;
    NextOfPrimary(primary, x, y, f.position);
    var news := primary[f.position..y];
    assert news[0] == primary[f.position] && primary[y - |news|..y] == news;
    WholeIsLaid(c, f.wal, p, primary, f.position + j);
    var front, cur := Sheaves(f.wal.dir, p.closed), Sheaf(Last(f.wal.dir).first, p.current);
    assert p.current + [] == p.current && primary[f.position..f.position] == [];
    RetryBegins(c, f.wal, front, cur, p.current, [], news, primary, f.position, j, y);
  }

  // --- Batches of at most half a segment ----------------------------------------------------------------

  /** The first retried record opens a segment under the newest one's name, wiping what the failed batch left in it. */
  predicate RotatesBack(c: Codec, w: Log, r: Record)
    requires w.dir != [] && Writable(c, r)
  {
    Last(w.dir).first == r.seqNo && NeedsRotation(w, |Frame(c, r)|)
  }

  /**
   * With a batch of at most half a segment, either the failed attempt never rotated past its first
   * record, or the retry fits the newest segment.
   */
  lemma SmallBatchFits(c: Codec, f: Follower, p: Parts, primary: seq<Record>, j: nat, y: nat)
    requires Whole(c, f.wal, p) && 0 <= f.position < y <= |primary| && f.position + j <= y
    requires p.All() == primary[..f.position + j] && AllWritable(c, primary[f.position..y])
    requires MayAppend(c, f.wal, primary[f.position])
    requires WAL_HEADER_SIZE + 2 * |Frames(c, primary[f.position..y])| <= f.wal.maxBytes
    ensures f.wal.dir != []
    ensures Last(f.wal.dir).first <= f.position + 1
         || (f.wal.open && f.wal.segBytes + |Frames(c, primary[f.position..y])| <= f.wal.maxBytes)
  {
    hide Frame, Frames, Writable, Flat;
    NonEmptySegment(c, f.wal.(open := true), p);
    var n := |Flat(p.closed)|;
    if n > f.position {
      var news := primary[f.position..y];
      var a, b := n - f.position, j;
      CurrentIsSlice(primary, Flat(p.closed), p.current, f.position, j, y);
      FramesOfSlice(c, news, a, b);
      FramesOfSlice(c, news, 0, 1);
      assert news[0..1] == [news[0]];
      OneFrame(c, news[0]);
    }
  }

  lemma CurrentIsSlice(primary: seq<Record>, closed: seq<Record>, current: seq<Record>, x: nat, j: nat, y: nat)
    requires x < |closed| && x + j <= y <= |primary| && closed + current == primary[..x + j]
    ensures |closed| - x <= j && current == primary[x..y][|closed| - x..j]
  {
    var news := primary[x..y];
    assert |closed + current| == x + j;
    forall i | 0 <= i < |current| ensures current[i] == news[|closed| - x + i] {
      assert current[i] == (closed + current)[|closed| + i] == primary[|closed| + i];
    }
  }

  lemma FramesOfSlice(c: Codec, rs: seq<Record>, a: nat, b: nat)
    requires AllWritable(c, rs) && a <= b <= |rs|
    ensures AllWritable(c, rs[a..b]) && |Frames(c, rs[a..b])| <= |Frames(c, rs)|
  {
    hide Frame, Frames, Writable;
    FramesJoin(c, rs[..a], rs[a..]);
    FramesJoin(c, rs[a..b], rs[b..]);
    assert rs[..a] + rs[a..] == rs && rs[a..b] + rs[b..] == rs[a..];
  }

  lemma OneFrame(c: Codec, r: Record)
    requires Writable(c, r)
    ensures Frames(c, [r]) == Frame(c, r)
  {
    hide Frame;
    assert Frame(c, r) + [] == Frame(c, r);
  }

  lemma {:induction false} FitsNeverRotates(c: Codec, size: int, max: int, rs: seq<Record>)
    requires AllWritable(c, rs) && size + |Frames(c, rs)| <= max
    ensures FirstRotation(c, size, max, rs) == None
    decreases |rs|
  {
    hide Frame;
    if rs != [] { FitsNeverRotates(c, size + |Frame(c, rs[0])|, max, rs[1..]); }
  }

  lemma {:induction false} FirstIsWithin(c: Codec, size: int, max: int, rs: seq<Record>, from: int)
    requires AllWritable(c, rs) && Dense(rs, from)
    ensures var first := FirstRotation(c, size, max, rs);
      && (first.Some? ==> from < first.value && rs != [])
      && (first == Some(from + 1) ==> size + |Frame(c, rs[0])| > max && size > WAL_HEADER_SIZE)
    decreases |rs|
  {
    hide Frame;
    if rs != [] {
      assert rs[0].seqNo == from + 1;
      FirstIsWithin(c, size + |Frame(c, rs[0])|, max, rs[1..], from + 1);
    }
  }

  /** Such a batch starts over exactly when its first record truncates the newest segment. */
  lemma SmallBatchStartsOverIff(c: Codec, f: Follower, p: Parts, primary: seq<Record>, j: nat, y: nat)
    requires Whole(c, f.wal, p) && 0 <= f.position < y <= |primary| && f.position + j <= y && Dense(primary, 0)
    requires p.All() == primary[..f.position + j] && AllWritable(c, primary[f.position..y])
    requires MayAppend(c, f.wal, primary[f.position])
    requires WAL_HEADER_SIZE + 2 * |Frames(c, primary[f.position..y])| <= f.wal.maxBytes
    ensures f.wal.dir != []
    ensures var news := primary[f.position..y]; var w := f.wal;
      StartsOver(Names(w.dir), FirstRotation(c, w.segBytes, w.maxBytes, news),
                 Rotations(c, w.segBytes, w.maxBytes, news), f.position, y)
      <==> RotatesBack(c, w, primary[f.position])
  {
    hide Frame, Frames, Writable, Flat, Rotations, FirstRotation, Dense, Whole;
    var news, w := primary[f.position..y], f.wal;
    SmallBatchFits(c, f, p, primary, j, y);
    NewsAreDense(primary, f.position, y);
    LastNameIsHighest(c, w, p);
    FirstIsWithin(c, w.segBytes, w.maxBytes, news, f.position);
    FirstRecordRotates(c, w.segBytes, w.maxBytes, news);
    FramesOfSlice(c, news, 0, 1);
    OneFrame(c, news[0]);
    assert news[0..1] == [news[0]];
    if w.segBytes + |Frames(c, news)| <= w.maxBytes { FitsNeverRotates(c, w.segBytes, w.maxBytes, news); }
  }

  lemma NewsAreDense(primary: seq<Record>, x: nat, y: nat)
    requires Dense(primary, 0) && x < y <= |primary|
    ensures Dense(primary[x..y], x) && primary[x..y][0] == primary[x] && primary[x].seqNo == x + 1
  {
  }

  lemma FirstRecordRotates(c: Codec, size: int, max: int, rs: seq<Record>)
    requires AllWritable(c, rs) && rs != []
    ensures size + |Frame(c, rs[0])| > max && size > WAL_HEADER_SIZE ==>
      FirstRotation(c, size, max, rs) == Some(rs[0].seqNo)
  {
  }

  lemma LastNameIsHighest(c: Codec, w: Log, p: Parts)
    requires Whole(c, w, p)
    ensures w.dir != [] && Last(w.dir).first in Names(w.dir)
    ensures forall n :: n in Names(w.dir) ==> n <= Last(w.dir).first
  {
    hide Frame, Frames, Writable, Flat;
    NamesIncrease(c, w.dir, p, |Frames(c, p.current)|);
    forall n | n in Names(w.dir) ensures n <= Last(w.dir).first {
      var i :| 0 <= i < |w.dir| && w.dir[i].first == n;
    }
  }

  /** A retry cannot start over if every segment starts at or before the position. */
  lemma PastEveryName(c: Codec, w: Log, p: Parts, news: seq<Record>, position: nat, y: nat)
    requires Whole(c, w, p) && AllWritable(c, news) && Dense(news, position)
    requires |w.dir| > 0 && Last(w.dir).first <= position
    ensures !StartsOver(Names(w.dir), FirstRotation(c, w.segBytes, w.maxBytes, news),
                        Rotations(c, w.segBytes, w.maxBytes, news), position, y)
  {
    hide Whole, Rotations, FirstRotation, Dense, Frame, Frames, Writable;
    LastNameIsHighest(c, w, p);
    FirstIsWithin(c, w.segBytes, w.maxBytes, news, position);
  }

  // --- Two ways to get there --------------------------------------------------------------------------------

  /**
   * An append that fails part-way through a batch, here because the next segment could not be
   * created, leaves the earlier records in the log with the position unmoved.
   */
  lemma FailedAppendLeavesRecords(c: Codec, f: Follower, p: Parts, r1: Record, r2: Record) returns (p': Parts)
    requires Good(c, f.wal, p) && f.position == |p.All()| && r1.seqNo == f.position + 1 && r2.seqNo == f.position + 2
    requires Writable(c, r1) && Writable(c, r2) && f.wal.segBytes > WAL_HEADER_SIZE
    requires f.wal.segBytes + |Frame(c, r1)| <= f.wal.maxBytes < f.wal.segBytes + |Frame(c, r1)| + |Frame(c, r2)|
    ensures AllInt64([r1, r2]) && |Above([r1, r2], f.position)| == 2
    ensures var (f', ok) := ApplyBatch(c, f, [r1, r2], [NoFault, CreateFails], true);
      && !ok && f'.position == f.position && f'.book == f.book && f'.wal.lastSeq == f.position + 1
      && Whole(c, f'.wal, p') && p'.All() == p.All() + [r1] && Last(f'.wal.dir).first <= f.position
      && f'.wal.segBytes == f.wal.segBytes + |Frame(c, r1)| && f'.wal.maxBytes == f.wal.maxBytes
  {
    hide Append, Frame, Frames, Flat, Good, ReadAll, Writable;
    WritableFits(c, r1);
    WritableFits(c, r2);
    AboveOfDense([r1, r2], f.position, f.position);
    GoodFacts(c, f.wal, p);
    var k;
    p', k := AppendEffect(c, f.wal, p, r1, NoFault);
    FirstFits(c, f.wal, p, r1);
    var w1 := Append(c, f.wal, r1, NoFault).0;
    SecondFails(c, w1, p', r2);
    assert [r1, r2][1..] == [r2] && [NoFault, CreateFails][1..] == [CreateFails];
  }

  /** A failed sync leaves the whole batch in the log, torn nowhere, with the position unmoved. */
  lemma FailedSyncLeavesRecords(c: Codec, f: Follower, p: Parts, k: nat, primary: seq<Record>, x: nat, y: nat,
                                faults: seq<Fault>)
    returns (p': Parts)
    requires FollowerOk(c, f, p, k, primary, false) && PrimaryOk(primary) && x <= f.position <= y <= |primary|
    requires AllInt64(primary[x..y]) && |faults| == |Above(primary[x..y], f.position)|
    requires AllInt64(Above(primary[x..y], f.position))
    requires AppendAll(c, f.wal, Above(primary[x..y], f.position), faults).1 && Above(primary[x..y], f.position) != []
    ensures var (f', ok) := ApplyBatch(c, f, primary[x..y], faults, false);
      && !ok && f'.position == f.position && f'.book == f.book
      && Whole(c, f'.wal, p') && p'.All() == primary[..y]
  {
    hide Append, Kept, Durable, Good, Replay, Replayable, Above, AppendAll;
    NextOfPrimary(primary, x, y, f.position);
    var news := Above(primary[x..y], f.position);
    GoodFacts(c, f.wal, p);
    var k', j;
    p', k', j := AppendAllEffect(c, f.wal, p, news, faults);
    assert p.All() == primary[..f.position] && news[..j] == news;
    assert primary[..f.position] + news == primary[..y];
    GoodIsOpen(c, AppendAll(c, f.wal, news, faults).0, p');
  }

  lemma GoodIsOpen(c: Codec, w: Log, p: Parts)
    requires Good(c, w, p)
    ensures Whole(c, w, p)
  {
    assert w.(open := true) == w;
  }

  lemma FirstFits(c: Codec, w: Log, p: Parts, r: Record)
    requires Good(c, w, p) && Writable(c, r) && r.seqNo == |p.All()| + 1
    requires WAL_HEADER_SIZE < w.segBytes && w.segBytes + |Frame(c, r)| <= w.maxBytes
    ensures var (w', ok) := Append(c, w, r, NoFault);
      && ok && w'.segBytes == w.segBytes + |Frame(c, r)| && w'.lastSeq == r.seqNo && w'.maxBytes == w.maxBytes
      && w'.dir != [] && Last(w'.dir).first <= |p.All()|
  {
    hide Frame, Frames, Flat;
    NonEmptySegment(c, w, p);
    NamesIncrease(c, w.dir, p, |Frames(c, p.current)|);
    WriteAtEnd(w.dir, Frame(c, r));
  }

  lemma SecondFails(c: Codec, w: Log, p: Parts, r: Record)
    requires Good(c, w, p) && Writable(c, r) && NeedsRotation(w, |Frame(c, r)|)
    ensures var (w', ok) := Append(c, w, r, CreateFails);
      && !ok && Whole(c, w', p) && w'.dir == w.dir && w'.lastSeq == w.lastSeq && w'.segBytes == w.segBytes
      && w'.maxBytes == w.maxBytes && AppendAll(c, w, [r], [CreateFails]) == (w', ok)
  {
    hide Frame, Frames, Flat;
    NonEmptySegment(c, w, p);
  }

  /** Retrying such a batch logs its first record twice: recovery replays it twice, where the book applied it once. */
  lemma RetryLogsTwice(c: Codec, f: Follower, p: Parts, r1: Record, r2: Record)
    requires Faithful(c) && Good(c, f.wal, p) && f.position == |p.All()| && PrimaryOk(p.All() + [r1, r2])
    requires Writable(c, r1) && Writable(c, r2) && f.wal.segBytes > WAL_HEADER_SIZE
    requires f.wal.segBytes + |Frame(c, r1)| <= f.wal.maxBytes < f.wal.segBytes + |Frame(c, r1)| + |Frame(c, r2)|
    requires f.wal.maxBytes < f.wal.segBytes + 2 * |Frame(c, r1)|
    ensures AllInt64([r1, r2]) && |Above([r1, r2], f.position)| == 2
    ensures var (f1, ok1) := ApplyBatch(c, f, [r1, r2], [NoFault, CreateFails], true);
      && !ok1 && f1.position == f.position && f1.book == f.book
      && var (f2, ok2) := ApplyBatch(c, f1, [r1, r2], NoFaults(2), true);
      && ok2 && f2.book == Replay(f.book, [r1, r2])
      && ReadAll(c, f2.wal.dir) == (p.All() + [r1] + [r1, r2], true)
  {
    hide Append, Frame, Frames, Flat, Replay, Replayable, ReadAll, Above, AppendAll, Whole;
    var primary := p.All() + [r1, r2];
    assert primary[f.position] == r1 && primary[f.position + 1] == r2;
    var p' := FailedAppendLeavesRecords(c, f, p, r1, r2);
    var f1 := ApplyBatch(c, f, [r1, r2], [NoFault, CreateFails], true).0;
    assert primary[f.position..f.position + 2] == [r1, r2];
    assert p'.All() == primary[..f.position + 1];
    NewsAreDense(primary, f.position, f.position + 2);
    LastNameIsHighest(c, f1.wal, p');
    PastEveryName(c, f1.wal, p', [r1, r2], f.position, f.position + 2);
    RetryKeepsPrefixIff(c, f1, p', primary, 1, f.position, f.position + 2);
  }
}
