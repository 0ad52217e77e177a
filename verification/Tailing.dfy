/**
 * Reading a log that is still being written. Each pass looks at the directory as it is
 * then. What is yielded is the log above the start, each record once, in order.
 */
module Tailing {
  import opened Types
  import opened Commit
  import opened Framing
  import opened Wal

  /** The highest position yielded, and where reading continues: a segment's name and a byte offset in it. */
  datatype Tail = Tail(afterSeq: int, segment: Option<int>, offset: nat)

  /** The last of these segments whose first position is at or below the one wanted, else the one given. */
  function Choose(dir: Dir, want: int, chosen: int): int {
    if dir == [] || dir[0].first > want then chosen else Choose(dir[1..], want, dir[0].first)
  }

  /** Pick the segment that contains the next record to read; none while the log has no segments. */
  function Locate(dir: Dir, t: Tail): Tail {
    if dir == [] then t
    else t.(segment := Some(Choose(dir, t.afterSeq + 1, dir[0].first)), offset := WAL_HEADER_SIZE)
  }

  function Lookup(dir: Dir, first: int): Option<Bytes> {
    if dir == [] then None
    else if dir[0].first == first then Some(dir[0].data)
    else Lookup(dir[1..], first)
  }

  /** What reading forward found: new records, bytes passed, the highest position now, and whether all was well. */
  datatype Found = Found(records: seq<Record>, passed: nat, afterSeq: int, clean: bool)

  /** Read records until max new ones are found or no whole record is left; those at or below afterSeq are skipped. */
  function Collect(c: Codec, b: Bytes, afterSeq: int, max: int): (f: Found)
    ensures f.passed <= |b|
    decreases |b|
  {
    match Parse(c, b)
    case Short => Found([], 0, afterSeq, true)
    case Corrupt => Found([], 0, afterSeq, false)
    case Got(r, size) =>
      if r.seqNo <= afterSeq then
        var f := Collect(c, b[size..], afterSeq, max);
        f.(passed := size + f.passed)
      else if max <= 1 then Found([r], size, r.seqNo, true)
      else
        var f := Collect(c, b[size..], r.seqNo, max - 1);
        f.(records := [r] + f.records, passed := size + f.passed)
  }

  /** Reopen the current segment at the saved offset and read up to max records from it. */
  function ReadTail(c: Codec, dir: Dir, t: Tail, max: int): (Tail, seq<Record>, bool)
    requires t.segment.Some?
  {
    match Lookup(dir, t.segment.value)
    case None => (t, [], false)
    case Some(data) =>
      if t.offset < WAL_HEADER_SIZE || |data| < WAL_HEADER_SIZE || data[..WAL_HEADER_SIZE] != HEADER then (t, [], false)
      else
        var f := Collect(c, if t.offset <= |data| then data[t.offset..] else [], t.afterSeq, max);
        (t.(afterSeq := f.afterSeq, offset := t.offset + f.passed), f.records, f.clean)
  }

  /** The segment after this one, if there is one. */
  function NextSegment(dir: Dir, first: int): Option<int> {
    if |dir| < 2 then None
    else if dir[0].first == first then Some(dir[1].first)
    else NextSegment(dir[1..], first)
  }

  datatype Pass = Yielded | Moved | CaughtUp | NoLog | Failed

  /**
   * One pass of the poll loop; it looks at the directory to locate, later to read, and again to move on.
   * A damaged record loses those read before it in the same pass.
   */
  function OnePass(c: Codec, seen: Dir, dir: Dir, listed: Dir, t: Tail, max: int): (Tail, seq<Record>, Pass) {
    var t1 := if t.segment.None? then Locate(seen, t) else t;
    if t1.segment.None? then (t1, [], NoLog)
    else
      var (t2, rs, ok) := ReadTail(c, dir, t1, max);
      if !ok then (t2, [], Failed)
      else if rs != [] then (t2, rs, Yielded)
      else
        match NextSegment(listed, t2.segment.value)
        case None => (t2, [], CaughtUp)
        case Some(n) => (t2.(segment := Some(n), offset := WAL_HEADER_SIZE), [], Moved)
  }

  /** The pass moved to a segment that starts beyond the next record wanted. */
  predicate Skips(c: Codec, seen: Dir, dir: Dir, listed: Dir, t: Tail, max: int) {
    var (t', _, pass) := OnePass(c, seen, dir, listed, t, max);
    pass.Moved? && t'.segment.Some? && t'.segment.value > t'.afterSeq + 1
  }

  /** When the pass moved, one more read of the segment it left would have found a record. */
  predicate LeavesSome(c: Codec, seen: Dir, dir: Dir, listed: Dir, t: Tail, max: int) {
    var t1 := if t.segment.None? then Locate(seen, t) else t;
    && OnePass(c, seen, dir, listed, t, max).2.Moved?
    && t1.segment.Some?
    && ReadTail(c, listed, ReadTail(c, dir, t1, max).0, 1).1 != []
  }

  // --- Where a tail stands in the log -------------------------------------------------------------

  function PartOf(p: Parts, i: nat): seq<Record>
    requires i <= |p.closed|
  {
    if i < |p.closed| then p.closed[i] else p.current
  }

  function Before(p: Parts, i: nat): nat
    requires i <= |p.closed|
  {
    |Flat(p.closed[..i])|
  }

  /** How many of a part's records are wholly on disk. */
  function Whole(c: Codec, p: Parts, k: nat, i: nat): nat
    requires i <= |p.closed| && AllWritable(c, p.current)
  {
    if i < |p.closed| then |p.closed[i]| else WholeWithin(c, p.current, k)
  }

  /**
   * The tail has passed everything before segment i and that segment's first m records,
   * and of those has yielded exactly the ones above start.
   */
  ghost predicate TailAt(c: Codec, p: Parts, k: nat, t: Tail, start: int, i: nat, m: nat) {
    && i <= |p.closed| && AllWritable(c, p.current) && AllWritable(c, PartOf(p, i))
    && m <= Whole(c, p, k, i) <= |PartOf(p, i)|
    && t.segment == Some(Before(p, i) + 1)
    && t.offset == WAL_HEADER_SIZE + |Frames(c, PartOf(p, i)[..m])|
    && t.afterSeq == Max(start, Before(p, i) + m)
  }

  /** The records of the log at positions a+1 to b. */
  function Slice(log: seq<Record>, a: int, b: int): seq<Record> {
    if 0 <= a <= b <= |log| then log[a..b] else []
  }

  // --- The directory, segment by segment ------------------------------------------------------------

  lemma {:induction false} LookupFinds(dir: Dir, i: nat)
    requires i < |dir| && forall a, b :: 0 <= a < b < |dir| ==> dir[a].first < dir[b].first
    ensures Lookup(dir, dir[i].first) == Some(dir[i].data)
  {
    if i > 0 { LookupFinds(dir[1..], i - 1); }
  }

  lemma {:induction false} NextFinds(dir: Dir, i: nat)
    requires i < |dir| && forall a, b :: 0 <= a < b < |dir| ==> dir[a].first < dir[b].first
    ensures NextSegment(dir, dir[i].first) == if i + 1 < |dir| then Some(dir[i + 1].first) else None
    decreases |dir|
  {
    if |dir| >= 2 && i > 0 { NextFinds(dir[1..], i - 1); }
  }

  /** Choosing never skips past the wanted position, and never starts before the last segment that may hold it. */
  lemma {:induction false} ChooseFinds(dir: Dir, want: int, chosen: int) returns (i: nat)
    requires forall a, b :: 0 <= a < b < |dir| ==> dir[a].first < dir[b].first
    ensures i <= |dir|
    ensures Choose(dir, want, chosen) == if i == 0 then chosen else dir[i - 1].first
    ensures i > 0 ==> dir[i - 1].first <= want
    ensures i < |dir| ==> dir[i].first > want
    decreases |dir|
  {
    if dir == [] || dir[0].first > want {
      i := 0;
    } else {
      var j := ChooseFinds(dir[1..], want, dir[0].first);
      i := j + 1;
    }
  }

  /** A segment's bytes from past its first m records: whole frames, then bytes no record can be read from. */
  ghost predicate From(c: Codec, data: Bytes, part: seq<Record>, m: nat, w: nat, torn: Bytes)
    requires AllWritable(c, part) && m <= w <= |part|
  {
    && AllWritable(c, part[..m]) && AllWritable(c, part[m..w])
    && WAL_HEADER_SIZE + |Frames(c, part[..m])| <= |data| && data[..WAL_HEADER_SIZE] == HEADER
    && data[WAL_HEADER_SIZE + |Frames(c, part[..m])|..] == Frames(c, part[m..w]) + torn
    && Parse(c, torn) == Short
  }

  lemma ClosedFrom(c: Codec, data: Bytes, part: seq<Record>, m: nat)
    requires AllWritable(c, part) && m <= |part| && data == HEADER + Frames(c, part)
    ensures From(c, data, part, m, |part|, [])
  {
    hide Frame, Frames, Parse, Writable;
    SplitFrames(c, part, m, |part|);
    assert part[..|part|] == part;
    NothingIsShort(c);
    assert data == (HEADER + Frames(c, part[..m])) + Frames(c, part[m..|part|]);
    assert data[WAL_HEADER_SIZE + |Frames(c, part[..m])|..] == Frames(c, part[m..|part|]) + [];
  }

  lemma CurrentFrom(c: Codec, data: Bytes, part: seq<Record>, k: nat, m: nat) returns (torn: Bytes)
    requires Faithful(c) && AllWritable(c, part) && k <= |Frames(c, part)| && data == HEADER + Frames(c, part)[..k]
    requires m <= WholeWithin(c, part, k)
    ensures From(c, data, part, m, WholeWithin(c, part, k), torn)
  {
    hide Frame, Frames, Parse, ScanBytes, Writable, WholeWithin;
    var w := WholeWithin(c, part, k);
    TornRest(c, part, k);
    torn := Frames(c, part)[..k][|Frames(c, part[..w])|..];
    SplitFrames(c, part, m, w);
    assert Frames(c, part)[..k] == Frames(c, part[..w]) + torn;
    assert data == (HEADER + Frames(c, part[..m])) + (Frames(c, part[m..w]) + torn);
  }

  lemma SegmentFrom(c: Codec, dir: Dir, p: Parts, k: nat, i: nat, m: nat) returns (torn: Bytes)
    requires Faithful(c) && OnDisk(c, dir, p, k) && i <= |p.closed| && AllWritable(c, p.current)
    requires m <= Whole(c, p, k, i)
    ensures i < |dir| && AllWritable(c, PartOf(p, i)) && Whole(c, p, k, i) <= |PartOf(p, i)|
    ensures dir[i].first == Before(p, i) + 1 && Dense(PartOf(p, i), Before(p, i))
    ensures From(c, dir[i].data, PartOf(p, i), m, Whole(c, p, k, i), torn)
  {
    hide Frame, Frames, Parse, ScanBytes, Writable, Flat, From, WholeWithin, Dense;
    if i < |p.closed| {
      assert SegmentWhole(c, dir[i], p.closed[i], |Flat(p.closed[..i])|);
      var all := Frames(c, p.closed[i]);
      assert all[..|all|] == all;
      torn := [];
      ClosedFrom(c, dir[i].data, p.closed[i], m);
    } else {
      assert p.closed[..i] == p.closed;
      torn := CurrentFrom(c, dir[i].data, p.current, k, m);
    }
  }

  lemma NothingIsShort(c: Codec)
    ensures Parse(c, []) == Short
  {
  }

  lemma SplitFrames(c: Codec, rs: seq<Record>, m: nat, w: nat)
    requires AllWritable(c, rs) && m <= w <= |rs|
    ensures AllWritable(c, rs[..m]) && AllWritable(c, rs[m..w]) && AllWritable(c, rs[..w])
    ensures Frames(c, rs[..w]) == Frames(c, rs[..m]) + Frames(c, rs[m..w])
  {
    hide Frame, Writable, Frames;
    FramesJoin(c, rs[..m], rs[m..w]);
    assert rs[..m] + rs[m..w] == rs[..w];
  }

  /** After the whole records of a cut, what is left of the next one cannot be read. */
  lemma TornRest(c: Codec, rs: seq<Record>, k: nat)
    requires Faithful(c) && AllWritable(c, rs) && k <= |Frames(c, rs)|
    ensures var w := WholeWithin(c, rs, k);
      && AllWritable(c, rs[..w]) && |Frames(c, rs[..w])| <= k
      && Frames(c, rs)[..k][..|Frames(c, rs[..w])|] == Frames(c, rs[..w])
      && Parse(c, Frames(c, rs)[..k][|Frames(c, rs[..w])|..]) == Short
  {
    hide Frame, Parse, ScanBytes, Writable;
    TornTail(c, rs, k);
    var w := WholeWithin(c, rs, k);
    SplitFrames(c, rs, w, |rs|);
    assert rs[..|rs|] == rs && rs[w..|rs|] == rs[w..];
    var used := |Frames(c, rs[..w])|;
    assert Frames(c, rs)[..k][used..] == Frames(c, rs[w..])[..k - used];
    if w < |rs| { FramesTakeOne(c, rs, w); }
    CutIsShort(c, rs[w..], k - used);
  }

  /** A cut inside the first of these frames, or of none, leaves nothing that can be read. */
  lemma CutIsShort(c: Codec, rs: seq<Record>, k: nat)
    requires AllWritable(c, rs) && k <= |Frames(c, rs)| && (rs != [] ==> k < |Frame(c, rs[0])|)
    ensures Parse(c, Frames(c, rs)[..k]) == Short
  {
    hide Frame, Parse, Writable;
    if rs == [] {
      assert Frames(c, rs)[..k] == [];
      NothingIsShort(c);
    } else {
      assert Frames(c, rs)[..k] == Frame(c, rs[0])[..k];
      TornFrameIsShort(c, rs[0], k);
    }
  }

  lemma FramesTakeOne(c: Codec, rs: seq<Record>, w: nat)
    requires AllWritable(c, rs) && w < |rs|
    ensures Frames(c, rs[w..]) == Frame(c, rs[w]) + Frames(c, rs[w + 1..])
    ensures |Frames(c, rs[..w + 1])| == |Frames(c, rs[..w])| + |Frame(c, rs[w])|
  {
    hide Frame, Writable;
    SplitFrames(c, rs, w, w + 1);
    assert rs[w..w + 1] == [rs[w]] && rs[w..][1..] == rs[w + 1..];
    assert Frames(c, [rs[w]]) == Frame(c, rs[w]) + Frames(c, []);
  }

  // --- Reading forward ---------------------------------------------------------------------------------

  /** Of the first n of these records, those above afterSeq. */
  function NewOnes(rs: seq<Record>, from: int, afterSeq: int, n: nat): seq<Record> {
    if from <= afterSeq < from + n <= from + |rs| then rs[afterSeq - from..n] else []
  }

  /** Reading n of these records has yielded those of them above afterSeq. */
  ghost predicate Collected(c: Codec, rs: seq<Record>, from: int, afterSeq: int, max: int, f: Found, n: nat) {
    && n <= |rs| && AllWritable(c, rs[..n])
    && f.clean && f.passed == |Frames(c, rs[..n])|
    && f.afterSeq == Max(afterSeq, from + n)
    && f.records == NewOnes(rs, from, afterSeq, n)
    && |f.records| <= max && (f.records == [] ==> n == |rs|)
    && (n < |rs| ==> |f.records| == max)
  }

  lemma CollectOne(c: Codec, r: Record, rest: Bytes, afterSeq: int, max: int)
    requires Faithful(c) && Writable(c, r)
    ensures var size := |Frame(c, r)|; var b := Frame(c, r) + rest;
      Collect(c, b, afterSeq, max) ==
        if r.seqNo <= afterSeq then
          var f := Collect(c, rest, afterSeq, max); f.(passed := size + f.passed)
        else if max <= 1 then Found([r], size, r.seqNo, true)
        else
          var f := Collect(c, rest, r.seqNo, max - 1);
          f.(records := [r] + f.records, passed := size + f.passed)
  {
    hide Frame, Parse, Writable;
    FrameRoundTrip(c, r, rest);
    assert (Frame(c, r) + rest)[|Frame(c, r)|..] == rest;
  }

  lemma NewOnesCons(rs: seq<Record>, from: int, afterSeq: int, n: nat)
    requires rs != [] && from <= afterSeq && n < |rs|
    ensures NewOnes(rs, from, afterSeq, n + 1) ==
      if from + 1 <= afterSeq then NewOnes(rs[1..], from + 1, afterSeq, n)
      else [rs[0]] + NewOnes(rs[1..], from + 1, from + 1, n)
  {
    if from + 1 <= afterSeq < from + 1 + n {
      assert rs[afterSeq - from..n + 1] == rs[1..][afterSeq - from - 1..n];
    } else if afterSeq == from {
      assert rs[0..n + 1] == [rs[0]] + rs[1..][0..n];
    }
  }

  lemma CollectedSkip(c: Codec, rs: seq<Record>, from: int, afterSeq: int, max: int, f: Found, n: nat)
    requires rs != [] && AllWritable(c, rs) && from + 1 <= afterSeq && max >= 1
    requires Collected(c, rs[1..], from + 1, afterSeq, max, f, n)
    ensures Collected(c, rs, from, afterSeq, max, f.(passed := |Frame(c, rs[0])| + f.passed), n + 1)
  {
    hide Frame, Writable, NewOnes;
    FramesTake(c, rs, n);
    NewOnesCons(rs, from, afterSeq, n);
  }

  lemma CollectedTake(c: Codec, rs: seq<Record>, from: int, max: int, f: Found, n: nat)
    requires rs != [] && AllWritable(c, rs) && Dense(rs, from) && max > 1
    requires Collected(c, rs[1..], from + 1, from + 1, max - 1, f, n)
    ensures var f' := f.(records := [rs[0]] + f.records, passed := |Frame(c, rs[0])| + f.passed);
      Collected(c, rs, from, from, max, f', n + 1)
  {
    hide Frame, Writable, NewOnes;
    FramesTake(c, rs, n);
    NewOnesCons(rs, from, from, n);
  }

  lemma {:induction false} CollectFrames(c: Codec, rs: seq<Record>, torn: Bytes, from: int, afterSeq: int, max: int)
    returns (n: nat)
    requires Faithful(c) && AllWritable(c, rs) && Dense(rs, from) && Parse(c, torn) == Short
    requires from <= afterSeq && max >= 1
    ensures Collected(c, rs, from, afterSeq, max, Collect(c, Frames(c, rs) + torn, afterSeq, max), n)
    decreases |rs|
  {
    hide Frame, Writable, Collect, Parse, Collected;
    if rs == [] {
      n := 0;
      NothingCollected(c, torn, from, afterSeq, max);
    } else {
      var r, rest := rs[0], Frames(c, rs[1..]) + torn;
      assert Frames(c, rs) + torn == Frame(c, r) + rest;
      CollectOne(c, r, rest, afterSeq, max);
      assert r.seqNo == from + 1;
      if r.seqNo <= afterSeq {
        var j := CollectFrames(c, rs[1..], torn, from + 1, afterSeq, max);
        CollectedSkip(c, rs, from, afterSeq, max, Collect(c, rest, afterSeq, max), j);
        n := j + 1;
      } else if max <= 1 {
        CollectedOne(c, rs, from, afterSeq);
        n := 1;
      } else {
        var j := CollectFrames(c, rs[1..], torn, from + 1, r.seqNo, max - 1);
        CollectedTake(c, rs, from, max, Collect(c, rest, r.seqNo, max - 1), j);
        n := j + 1;
      }
    }
  }

  lemma NothingCollected(c: Codec, torn: Bytes, from: int, afterSeq: int, max: int)
    requires Parse(c, torn) == Short && from <= afterSeq && max >= 1
    ensures Frames(c, []) + torn == torn
    ensures Collected(c, [], from, afterSeq, max, Collect(c, Frames(c, []) + torn, afterSeq, max), 0)
  {
    assert Frames(c, []) + torn == torn;
  }

  lemma CollectedOne(c: Codec, rs: seq<Record>, from: int, afterSeq: int)
    requires rs != [] && AllWritable(c, rs) && Dense(rs, from) && afterSeq == from
    ensures Collected(c, rs, from, afterSeq, 1, Found([rs[0]], |Frame(c, rs[0])|, rs[0].seqNo, true), 1)
  {
    hide Frame, Writable;
    FramesTake(c, rs, 0);
    assert rs[..1] == [rs[0]] && rs[0..1] == [rs[0]];
  }

  // --- One pass ------------------------------------------------------------------------------------------

  lemma {:induction false} FlatSplit(parts: seq<seq<Record>>, i: nat)
    requires i < |parts|
    ensures Flat(parts[..i + 1]) == Flat(parts[..i]) + parts[i]
    ensures Flat(parts[..i + 1]) <= Flat(parts)
    decreases |parts|
  {
    assert parts[..i + 1][..i] == parts[..i];
    if i + 1 < |parts| {
      var init := parts[..|parts| - 1];
      FlatSplit(init, i);
      assert init[..i + 1] == parts[..i + 1] && init[..i] == parts[..i];
    } else {
      assert parts[..i + 1] == parts;
    }
  }

  /** A part's records stand in the whole log after everything before it. */
  lemma PartInLog(p: Parts, i: nat)
    requires i <= |p.closed|
    ensures Before(p, i) + |PartOf(p, i)| <= |p.All()|
    ensures p.All()[Before(p, i)..Before(p, i) + |PartOf(p, i)|] == PartOf(p, i)
    ensures i < |p.closed| ==> Before(p, i + 1) == Before(p, i) + |PartOf(p, i)|
  {
    hide Flat;
    if i < |p.closed| {
      FlatSplit(p.closed, i);
    } else {
      assert p.closed[..i] == p.closed;
    }
  }

  lemma SliceOfSlice<T>(s: seq<T>, x: nat, y: nat, u: nat, v: nat)
    requires x <= y <= |s| && u <= v <= y - x
    ensures s[x..y][u..v] == s[x + u..x + v]
  {
    var a, b := s[x..y][u..v], s[x + u..x + v];
    forall j | 0 <= j < |a| ensures a[j] == b[j] {
      assert a[j] == s[x..y][u + j];
    }
    assert a == b;
  }

  lemma SliceOfPart(p: Parts, i: nat, m: nat, w: nat, n: nat, a: int)
    requires i <= |p.closed| && m <= n <= w <= |PartOf(p, i)| && Before(p, i) + m <= a
    ensures NewOnes(PartOf(p, i)[m..w], Before(p, i) + m, a, n - m) == Slice(p.All(), a, Max(a, Before(p, i) + n))
  {
    hide Flat, PartOf, Before, Parts.All;
    PartInLog(p, i);
    NewOnesAreSlice(p.All(), Before(p, i), PartOf(p, i), m, w, n, a);
  }

  lemma NewOnesAreSlice(log: seq<Record>, b: nat, part: seq<Record>, m: nat, w: nat, n: nat, a: int)
    requires m <= n <= w <= |part| && b + m <= a && b + |part| <= |log| && log[b..b + |part|] == part
    ensures NewOnes(part[m..w], b + m, a, n - m) == Slice(log, a, Max(a, b + n))
  {
    if b + n > a {
      SliceOfSlice(part, m, w, a - b - m, n - m);
      SliceOfSlice(log, b, b + |part|, a - b, n);
    } else {
      assert Slice(log, a, a) == [];
    }
  }

  /** The read is a collection over the whole records from where the tail stands. */
  lemma ReadCollects(c: Codec, dir: Dir, p: Parts, k: nat, t: Tail, start: int, i: nat, m: nat, max: int)
    returns (f: Found, n: nat)
    requires Faithful(c) && OnDisk(c, dir, p, k) && TailAt(c, p, k, t, start, i, m) && max >= 1
    ensures i <= |p.closed| && m <= n && AllWritable(c, p.current) && m <= Whole(c, p, k, i) <= |PartOf(p, i)|
    ensures Collected(c, PartOf(p, i)[m..Whole(c, p, k, i)], Before(p, i) + m, t.afterSeq, max, f, n - m)
    ensures ReadTail(c, dir, t, max) == (t.(afterSeq := f.afterSeq, offset := t.offset + f.passed), f.records, f.clean)
  {
    hide Collect, Frames, Writable, Flat, Whole, Dense, Collected;
    var part, w := PartOf(p, i), Whole(c, p, k, i);
    var torn := SegmentFrom(c, dir, p, k, i, m);
    NamesIncrease(c, dir, p, k);
    LookupFinds(dir, i);
    DensePart(part, Before(p, i), m, w);
    var j := CollectFrames(c, part[m..w], torn, Before(p, i) + m, t.afterSeq, max);
    n := m + j;
    f := Collect(c, dir[i].data[t.offset..], t.afterSeq, max);
  }

  /** Where the tail stands after a collection, and what it yielded. */
  lemma CollectedMovesTail(c: Codec, p: Parts, k: nat, t: Tail, start: int, i: nat, m: nat, max: int, f: Found, n: nat)
    requires TailAt(c, p, k, t, start, i, m) && m <= n && max >= 1
    requires Collected(c, PartOf(p, i)[m..Whole(c, p, k, i)], Before(p, i) + m, t.afterSeq, max, f, n - m)
    ensures var t' := t.(afterSeq := f.afterSeq, offset := t.offset + f.passed);
      && TailAt(c, p, k, t', start, i, n)
      && f.records == Slice(p.All(), t.afterSeq, t'.afterSeq) && t.afterSeq <= t'.afterSeq
      && |f.records| <= max && (f.records == [] ==> n == Whole(c, p, k, i) && t'.afterSeq == t.afterSeq)
      && (|f.records| < max ==> n == Whole(c, p, k, i))
  {
    hide Frames, Writable, Flat, Whole, NewOnes;
    var part, w := PartOf(p, i), Whole(c, p, k, i);
    SplitFrames(c, part, m, n);
    assert part[m..w][..n - m] == part[m..n];
    SliceOfPart(p, i, m, w, n, t.afterSeq);
    PartInLog(p, i);
    if f.afterSeq > t.afterSeq { SliceLength(p.All(), t.afterSeq, f.afterSeq); }
  }

  lemma SliceLength(log: seq<Record>, a: int, b: int)
    requires 0 <= a <= b <= |log|
    ensures |Slice(log, a, b)| == b - a
  {
  }

  /** Reading from where the tail stands yields exactly the next records above what it has yielded. */
  lemma ReadYields(c: Codec, dir: Dir, p: Parts, k: nat, t: Tail, start: int, i: nat, m: nat, max: int) returns (n: nat)
    requires Faithful(c) && OnDisk(c, dir, p, k) && TailAt(c, p, k, t, start, i, m) && max >= 1
    ensures i <= |p.closed| && AllWritable(c, p.current)
    ensures var (t', rs, ok) := ReadTail(c, dir, t, max);
      && ok && TailAt(c, p, k, t', start, i, n) && t'.segment == t.segment
      && rs == Slice(p.All(), t.afterSeq, t'.afterSeq) && t.afterSeq <= t'.afterSeq
      && |rs| <= max && (rs == [] ==> n == Whole(c, p, k, i) && t'.afterSeq == t.afterSeq)
      && (|rs| < max ==> n == Whole(c, p, k, i))
  {
    hide Collect, Frames, Writable, Flat, Whole, Dense, NewOnes, OnDisk;
    var f;
    f, n := ReadCollects(c, dir, p, k, t, start, i, m, max);
    CollectedMovesTail(c, p, k, t, start, i, m, max, f, n);
  }

  lemma DensePart(rs: seq<Record>, from: int, m: nat, w: nat)
    requires Dense(rs, from) && m <= w <= |rs|
    ensures Dense(rs[m..w], from + m)
  {
  }

  /** Locating starts at a segment from which nothing above the starting position is skipped. */
  lemma LocateStarts(c: Codec, dir: Dir, p: Parts, k: nat, t: Tail, start: int) returns (i: nat)
    requires OnDisk(c, dir, p, k) && t.segment.None? && t.afterSeq == start && start >= 0
    ensures AllWritable(c, p.current) && TailAt(c, p, k, Locate(dir, t), start, i, 0)
    ensures Before(p, i) <= start && (i < |p.closed| ==> start < Before(p, i + 1))
  {
    hide Frames, Writable, Flat, Frame;
    NamesIncrease(c, dir, p, k);
    var j := ChooseFinds(dir, start + 1, dir[0].first);
    i := if j == 0 then 0 else j - 1;
    NameOf(c, dir, p, k, i);
    if i < |p.closed| {
      assert SegmentWhole(c, dir[i], p.closed[i], |Flat(p.closed[..i])|);
      NameOf(c, dir, p, k, i + 1);
    }
    NameOf(c, dir, p, k, 0);
    assert p.closed[..0] == [];
    FlatOfNothing();
    NoFramesYet(c, PartOf(p, i));
  }

  lemma FlatOfNothing()
    ensures Flat([]) == []
  {
  }

  lemma NoFramesYet(c: Codec, rs: seq<Record>)
    ensures AllWritable(c, rs[..0]) && Frames(c, rs[..0]) == []
  {
  }

  /** Moving on is to the next segment, and right exactly when all of this one above the start has been passed. */
  lemma MovesPast(c: Codec, dir: Dir, p: Parts, k: nat, t: Tail, start: int, i: nat, m: nat)
    requires OnDisk(c, dir, p, k) && TailAt(c, p, k, t, start, i, m)
    ensures var next := NextSegment(dir, t.segment.value);
      && (next.None? <==> i == |p.closed|)
      && (next.Some? ==>
            && next.value == Before(p, i + 1) + 1 && Before(p, i + 1) == Before(p, i) + |PartOf(p, i)|
            && TailAt(c, p, k, t.(segment := next, offset := WAL_HEADER_SIZE), start, i + 1, 0)
              == (t.afterSeq == Max(start, Before(p, i + 1))))
  {
    hide Frames, Writable, Flat, Frame;
    NamesIncrease(c, dir, p, k);
    NameOf(c, dir, p, k, i);
    NextFinds(dir, i);
    if i < |p.closed| {
      NameOf(c, dir, p, k, i + 1);
      PartInLog(p, i);
      NoFramesYet(c, PartOf(p, i + 1));
      if i + 1 < |p.closed| { assert SegmentWhole(c, dir[i + 1], p.closed[i + 1], |Flat(p.closed[..i + 1])|); }
    }
  }

  /** A read finds nothing new exactly when every whole record of the segment above the start has been yielded. */
  lemma FindsNothingIff(c: Codec, dir: Dir, p: Parts, k: nat, t: Tail, start: int, i: nat, m: nat)
    requires Faithful(c) && OnDisk(c, dir, p, k) && TailAt(c, p, k, t, start, i, m)
    ensures ReadTail(c, dir, t, 1).1 == [] <==> t.afterSeq == Max(start, Before(p, i) + Whole(c, p, k, i))
  {
    hide Collect, Frames, Writable, Flat, Whole, OnDisk, ReadTail;
    var n := ReadYields(c, dir, p, k, t, start, i, m, 1);
    assert Slice(p.All(), t.afterSeq, t.afterSeq) == [];
  }

  // --- Growth between passes -----------------------------------------------------------------------------

  /** The log grew: the newest segment got longer, or was closed and others followed it. */
  ghost predicate Extends(p: Parts, k: nat, p': Parts, k': nat) {
    || (p'.closed == p.closed && p.current <= p'.current && k <= k')
    || (|p.closed| < |p'.closed| && p'.closed[..|p.closed|] == p.closed && p.current <= p'.closed[|p.closed|])
  }

  /** Growth never disturbs where a tail stands. */
  lemma GrowthKeepsTail(c: Codec, dir': Dir, p: Parts, k: nat, p': Parts, k': nat, t: Tail, start: int, i: nat, m: nat)
    requires TailAt(c, p, k, t, start, i, m) && Extends(p, k, p', k') && OnDisk(c, dir', p', k')
    ensures AllWritable(c, p'.current) && TailAt(c, p', k', t, start, i, m)
  {
    hide Frames, Frame, Writable, Flat, Dense;
    assert p'.closed[..i] == p.closed[..i];
    assert PartOf(p, i) <= PartOf(p', i);
    assert PartOf(p', i)[..m] == PartOf(p, i)[..m];
    if i < |p'.closed| {
      assert SegmentWhole(c, dir'[i], p'.closed[i], |Flat(p'.closed[..i])|);
    } else {
      WholeGrows(c, p.current, k, p'.current, k');
    }
  }

  lemma WholeGrows(c: Codec, a: seq<Record>, k: nat, b: seq<Record>, k': nat)
    requires a <= b && k <= k' && AllWritable(c, b)
    ensures AllWritable(c, a) && WholeWithin(c, a, k) <= WholeWithin(c, b, k')
  {
    hide Frame, Writable;
    var m := WholeWithin(c, a, k);
    WholeFits(c, a, k);
    assert b[..m] == a[..m];
    WholeIsMonotone(c, b, m, k');
  }

  /** The log of an extension begins with the log before it. */
  lemma GrowthExtendsLog(p: Parts, k: nat, p': Parts, k': nat)
    requires Extends(p, k, p', k')
    ensures p.All() <= p'.All()
  {
    hide Flat;
    if p'.closed != p.closed {
      var i := |p.closed|;
      FlatSplit(p'.closed, i);
      assert Flat(p'.closed[..i + 1]) == Flat(p.closed) + p'.closed[i];
    }
  }

  /** Reading up to damage notes how far it got, and reports it. */
  lemma {:induction false} CollectMeetsDamage(c: Codec, rs: seq<Record>, tail: Bytes, from: int, max: int)
    requires Faithful(c) && AllWritable(c, rs) && Dense(rs, from) && |rs| < max && Parse(c, tail) == Corrupt
    ensures Collect(c, Frames(c, rs) + tail, from, max) == Found(rs, |Frames(c, rs)|, from + |rs|, false)
    decreases |rs|
  {
    hide Frame, Writable, Parse, Collect;
    if rs == [] {
      assert Frames(c, rs) + tail == tail;
      CollectDamaged(c, tail, from, max);
    } else {
      var r, rest := rs[0], Frames(c, rs[1..]) + tail;
      assert Frames(c, rs) + tail == Frame(c, r) + rest;
      assert r.seqNo == from + 1 && [r] + rs[1..] == rs;
      CollectOne(c, r, rest, from, max);
      CollectMeetsDamage(c, rs[1..], tail, from + 1, max - 1);
    }
  }

  lemma CollectDamaged(c: Codec, b: Bytes, afterSeq: int, max: int)
    requires Parse(c, b) == Corrupt
    ensures Collect(c, b, afterSeq, max) == Found([], 0, afterSeq, false)
  {
  }

  /**
   * With no segments nothing happens. A pass that meets damage fails and yields nothing, not even
   * the records it read before the damage, though it has moved past them.
   */
  lemma PassStops(c: Codec, dir: Dir, listed: Dir, t: Tail, rs: seq<Record>, tail: Bytes, max: int)
    requires Faithful(c) && AllWritable(c, rs) && Dense(rs, t.afterSeq) && |rs| < max && Parse(c, tail) == Corrupt
    ensures t.segment.None? ==> OnePass(c, [], dir, listed, t, max) == (t, [], NoLog)
    ensures t.segment.Some? && Lookup(dir, t.segment.value).Some? ==>
      var data := Lookup(dir, t.segment.value).value;
      WAL_HEADER_SIZE <= t.offset <= |data| && data[..WAL_HEADER_SIZE] == HEADER
      && data[t.offset..] == Frames(c, rs) + tail ==>
        OnePass(c, [], dir, listed, t, max)
          == (t.(afterSeq := t.afterSeq + |rs|, offset := t.offset + |Frames(c, rs)|), [], Failed)
  {
    hide Parse, Collect, Frames, Writable;
    CollectMeetsDamage(c, rs, tail, t.afterSeq, max);
  }

  // --- Any number of passes ---------------------------------------------------------------------------------

  /** Where a tail that may not have located its segment yet stands. */
  ghost predicate Follows(c: Codec, p: Parts, k: nat, t: Tail, start: int, i: nat, m: nat) {
    if t.segment.None? then t.afterSeq == start && AllWritable(c, p.current) else TailAt(c, p, k, t, start, i, m)
  }

  /** What one pass sees: the directory when it locates, when it reads and when it moves on, and its batch cap. */
  datatype Look = Look(seen: Dir, p1: Parts, k1: nat, dir: Dir, p: Parts, k: nat, listed: Dir, p2: Parts, k2: nat,
                       max: int)

  /** The three states are of one log that only grows. */
  ghost predicate LookOk(c: Codec, l: Look) {
    && OnDisk(c, l.seen, l.p1, l.k1) && OnDisk(c, l.dir, l.p, l.k) && OnDisk(c, l.listed, l.p2, l.k2)
    && Extends(l.p1, l.k1, l.p, l.k) && Extends(l.p, l.k, l.p2, l.k2) && l.max >= 1
  }

  function Passed(c: Codec, l: Look, t: Tail): (Tail, seq<Record>, Pass) {
    OnePass(c, l.seen, l.dir, l.listed, t, l.max)
  }

  /** Locating and reading, before anything is listed. */
  lemma PassReads(c: Codec, l: Look, t: Tail, start: int, i: nat, m: nat) returns (i': nat, m': nat)
    requires Faithful(c) && LookOk(c, l) && Follows(c, l.p1, l.k1, t, start, i, m) && start >= 0
    ensures (if t.segment.None? then Locate(l.seen, t) else t).segment.Some?
    ensures var t1 := if t.segment.None? then Locate(l.seen, t) else t;
      var (t2, rs, ok) := ReadTail(c, l.dir, t1, l.max);
      && ok && TailAt(c, l.p, l.k, t2, start, i', m') && TailAt(c, l.p2, l.k2, t2, start, i', m')
      && t.afterSeq <= t2.afterSeq && rs == Slice(l.p.All(), t.afterSeq, t2.afterSeq) && |rs| <= l.max
      && (rs == [] ==> t2.afterSeq == t.afterSeq == Max(start, Before(l.p, i') + Whole(c, l.p, l.k, i')))
      && (t.segment.Some? ==> i' == i)
  {
    hide Collect, Frames, Writable, Flat, WholeWithin, TailAt, ReadTail, OnDisk, Extends, Choose;
    var t1 := if t.segment.None? then Locate(l.seen, t) else t;
    i', m' := i, m;
    DirIsNotEmpty(c, l.seen, l.p1, l.k1);
    if t.segment.None? {
      i' := LocateStarts(c, l.seen, l.p1, l.k1, t, start);
      m' := 0;
    }
    TailHasSegment(c, l.p1, l.k1, t1, start, i', m');
    GrowthKeepsTail(c, l.dir, l.p1, l.k1, l.p, l.k, t1, start, i', m');
    m' := ReadYields(c, l.dir, l.p, l.k, t1, start, i', m', l.max);
    var t2 := ReadTail(c, l.dir, t1, l.max).0;
    TailHasSegment(c, l.p, l.k, t2, start, i', m');
    GrowthKeepsTail(c, l.listed, l.p, l.k, l.p2, l.k2, t2, start, i', m');
  }

  lemma TailHasSegment(c: Codec, p: Parts, k: nat, t: Tail, start: int, i: nat, m: nat)
    requires TailAt(c, p, k, t, start, i, m)
    ensures t.segment.Some? && t.afterSeq == Max(start, Before(p, i) + m)
    ensures i <= |p.closed| && AllWritable(c, p.current)
  {
  }

  /**
   * A pass skips records if and only if the segment it leaves gained a whole record, above the
   * start, after the read that found nothing there and before the next segment was listed.
   */
  lemma SkipsIff(c: Codec, l: Look, t: Tail, start: int, i: nat, m: nat)
    requires Faithful(c) && LookOk(c, l) && Follows(c, l.p1, l.k1, t, start, i, m) && start >= 0
    ensures Skips(c, l.seen, l.dir, l.listed, t, l.max) <==> LeavesSome(c, l.seen, l.dir, l.listed, t, l.max)
  {
    hide Follows, OnDisk, Extends, ReadTail, NextSegment, TailAt, Locate, Flat, WholeWithin;
    var i', m' := PassReads(c, l, t, start, i, m);
    var t1 := if t.segment.None? then Locate(l.seen, t) else t;
    var t2 := ReadTail(c, l.dir, t1, l.max).0;
    TailHasSegment(c, l.p2, l.k2, t2, start, i', m');
    MovesPast(c, l.listed, l.p2, l.k2, t2, start, i', m');
    FindsNothingIff(c, l.listed, l.p2, l.k2, t2, start, i', m');
    YieldedAtMost(c, l.p2, l.k2, t2, start, i', m');
  }

  lemma YieldedAtMost(c: Codec, p: Parts, k: nat, t: Tail, start: int, i: nat, m: nat)
    requires TailAt(c, p, k, t, start, i, m)
    ensures t.afterSeq <= Max(start, Before(p, i) + |PartOf(p, i)|) && start <= t.afterSeq
    ensures i < |p.closed| ==> Whole(c, p, k, i) == |PartOf(p, i)|
  {
  }

  /** When nothing is written between the read and the listing, nothing is left behind. */
  lemma StillLeavesNone(c: Codec, l: Look, t: Tail, start: int, i: nat, m: nat)
    requires Faithful(c) && LookOk(c, l) && Follows(c, l.p1, l.k1, t, start, i, m) && start >= 0
    requires l.listed == l.dir
    ensures !LeavesSome(c, l.seen, l.dir, l.listed, t, l.max)
  {
    hide Follows, OnDisk, Extends, ReadTail, NextSegment, TailAt, Locate, Flat, WholeWithin;
    var i', m' := PassReads(c, l, t, start, i, m);
    var t1 := if t.segment.None? then Locate(l.seen, t) else t;
    FindsNothingIff(c, l.dir, l.p, l.k, ReadTail(c, l.dir, t1, l.max).0, start, i', m');
  }

  /**
   * One pass, with growth before it and between its looks at the directory, that leaves nothing
   * behind: it yields exactly the next records of the log, and never fails. It is caught up only
   * when every record wholly on disk as it read has been yielded.
   */
  lemma PassYields(c: Codec, l: Look, t: Tail, start: int, i: nat, m: nat) returns (i': nat, m': nat)
    requires Faithful(c) && LookOk(c, l) && Follows(c, l.p1, l.k1, t, start, i, m) && start >= 0
    requires !LeavesSome(c, l.seen, l.dir, l.listed, t, l.max)
    ensures var (t', rs, pass) := Passed(c, l, t);
      && Follows(c, l.p2, l.k2, t', start, i', m') && t'.segment.Some?
      && pass != Failed && pass != NoLog
      && t.afterSeq <= t'.afterSeq && rs == Slice(l.p2.All(), t.afterSeq, t'.afterSeq) && |rs| <= l.max
      && (pass.Yielded? <==> rs != [])
      && (rs == [] ==> t'.afterSeq == t.afterSeq)
      && i' <= |l.p2.closed| && (pass.Moved? && t.segment.Some? ==> i' == i + 1)
      && AllWritable(c, l.p.current)
      && (pass.CaughtUp? ==> t'.afterSeq == Max(start, |Flat(l.p.closed)| + WholeWithin(c, l.p.current, l.k)))
  {
    hide OnDisk, ReadTail, NextSegment, TailAt, Locate, Flat, WholeWithin, Parts.All;
    SkipsIff(c, l, t, start, i, m);
    i', m' := PassReads(c, l, t, start, i, m);
    var t1 := if t.segment.None? then Locate(l.seen, t) else t;
    var (t2, rs, _) := ReadTail(c, l.dir, t1, l.max);
    TailHasSegment(c, l.p, l.k, t2, start, i', m');
    TailHasSegment(c, l.p2, l.k2, t2, start, i', m');
    GrowthExtendsLog(l.p, l.k, l.p2, l.k2);
    YieldedFits(c, l.p, l.k, t2, start, i', m');
    SameSlice(l.p.All(), l.p2.All(), t.afterSeq, t2.afterSeq);
    MovesPast(c, l.listed, l.p2, l.k2, t2, start, i', m');
    YieldedAtMost(c, l.p2, l.k2, t2, start, i', m');
    if rs == [] {
      if NextSegment(l.listed, t2.segment.value).Some? {
        i', m' := i' + 1, 0;
      } else {
        CaughtUpAt(c, l.p, l.k, t2, start, i', m');
      }
    }
  }

  lemma SameSlice(a: seq<Record>, b: seq<Record>, x: int, y: int)
    requires a <= b && x <= y && (y <= |a| || x == y)
    ensures Slice(a, x, y) == Slice(b, x, y)
  {
  }

  lemma CaughtUpAt(c: Codec, p: Parts, k: nat, t: Tail, start: int, i: nat, m: nat)
    requires TailAt(c, p, k, t, start, i, m) && i == |p.closed|
    ensures Before(p, i) + Whole(c, p, k, i) == |Flat(p.closed)| + WholeWithin(c, p.current, k)
  {
    assert p.closed[..|p.closed|] == p.closed;
  }

  lemma DirIsNotEmpty(c: Codec, dir: Dir, p: Parts, k: nat)
    requires OnDisk(c, dir, p, k)
    ensures dir != [] && AllWritable(c, p.current)
  {
  }

  // --- Whole runs ---------------------------------------------------------------------------------------------

  /** Successive looks at a log that only grows. */
  ghost predicate Growing(c: Codec, p0: Parts, k0: nat, looks: seq<Look>)
    decreases |looks|
  {
    looks == []
    || (var l := looks[0];
        LookOk(c, l) && Extends(p0, k0, l.p1, l.k1) && Growing(c, l.p2, l.k2, looks[1..]))
  }

  /** No segment gains a record between the read that finds nothing left in it and the listing of the next one. */
  predicate NothingLeft(c: Codec, t: Tail, looks: seq<Look>)
    decreases |looks|
  {
    looks == []
    || (var l := looks[0];
        !LeavesSome(c, l.seen, l.dir, l.listed, t, l.max) && NothingLeft(c, Passed(c, l, t).0, looks[1..]))
  }

  function Passes(c: Codec, t: Tail, looks: seq<Look>): (Tail, seq<Record>)
    decreases |looks|
  {
    if looks == [] then (t, [])
    else
      var (t1, rs, _) := Passed(c, looks[0], t);
      var (t2, more) := Passes(c, t1, looks[1..]);
      (t2, rs + more)
  }

  function FinalLog(p0: Parts, looks: seq<Look>): seq<Record>
    decreases |looks|
  {
    if looks == [] then p0.All() else FinalLog(looks[0].p2, looks[1..])
  }

  lemma UnlocatedGrows(c: Codec, dir: Dir, p: Parts, k: nat, p': Parts, k': nat, t: Tail, start: int, i: nat, m: nat)
    requires Follows(c, p, k, t, start, i, m) && OnDisk(c, dir, p', k') && Extends(p, k, p', k')
    ensures Follows(c, p', k', t, start, i, m)
  {
    if t.segment.Some? { GrowthKeepsTail(c, dir, p, k, p', k', t, start, i, m); }
  }

  lemma YieldedFits(c: Codec, p: Parts, k: nat, t: Tail, start: int, i: nat, m: nat)
    requires TailAt(c, p, k, t, start, i, m)
    ensures t.afterSeq == start || t.afterSeq <= |p.All()|
  {
    PartInLog(p, i);
  }

  /**
   * From any starting position, over any layout, growth and caps: everything yielded is the
   * final log's records above the start up to where the tail has got, each once, in order.
   */
  lemma {:induction false} TailIsFilter(c: Codec, p0: Parts, k0: nat, t: Tail, start: int, i: nat, m: nat,
                                        looks: seq<Look>)
    requires Faithful(c) && Follows(c, p0, k0, t, start, i, m) && start >= 0 && Growing(c, p0, k0, looks)
    requires t.afterSeq == start || t.afterSeq <= |p0.All()|
    requires NothingLeft(c, t, looks)
    ensures var (t', rs) := Passes(c, t, looks); var log := FinalLog(p0, looks);
      && p0.All() <= log && 0 <= t.afterSeq <= t'.afterSeq
      && (t'.afterSeq == start || t'.afterSeq <= |log|)
      && (if t'.afterSeq == t.afterSeq then rs == [] else rs == log[t.afterSeq..t'.afterSeq])
      && (t'.segment.Some? ==> t'.segment.value <= t'.afterSeq + 1)
    decreases |looks|
  {
    hide Passed, LeavesSome, Follows, OnDisk, Extends, TailAt, Parts.All;
    FollowsFrom(c, p0, k0, t, start, i, m);
    if looks != [] {
      var l := looks[0];
      UnlocatedGrows(c, l.seen, p0, k0, l.p1, l.k1, t, start, i, m);
      GrowthExtendsLog(p0, k0, l.p1, l.k1);
      GrowthExtendsLog(l.p1, l.k1, l.p, l.k);
      GrowthExtendsLog(l.p, l.k, l.p2, l.k2);
      var i', m' := PassYields(c, l, t, start, i, m);
      var (t1, rs, pass) := Passed(c, l, t);
      FollowsFits(c, l.p2, l.k2, t1, start, i', m');
      TailIsFilter(c, l.p2, l.k2, t1, start, i', m', looks[1..]);
      var (t2, more) := Passes(c, t1, looks[1..]);
      JoinYields(l.p2.All(), FinalLog(l.p2, looks[1..]), t.afterSeq, t1.afterSeq, t2.afterSeq, rs, more, start);
    }
  }

  lemma FollowsFrom(c: Codec, p: Parts, k: nat, t: Tail, start: int, i: nat, m: nat)
    requires Follows(c, p, k, t, start, i, m) && start >= 0
    ensures t.afterSeq >= start && (t.segment.Some? ==> t.segment.value <= t.afterSeq + 1)
  {
  }

  lemma FollowsFits(c: Codec, p: Parts, k: nat, t: Tail, start: int, i: nat, m: nat)
    requires Follows(c, p, k, t, start, i, m) && t.segment.Some?
    ensures t.afterSeq == start || t.afterSeq <= |p.All()|
  {
    YieldedFits(c, p, k, t, start, i, m);
  }

  lemma JoinYields(a: seq<Record>, b: seq<Record>, x: int, y: int, z: int, rs: seq<Record>, more: seq<Record>,
                   start: int)
    requires a <= b && 0 <= start <= x <= y <= z && (y == start || y <= |a|) && (z == start || z <= |b|)
    requires rs == Slice(a, x, y) && (x == y ==> rs == [])
    requires if z == y then more == [] else more == b[y..z]
    ensures if z == x then rs + more == [] else rs + more == b[x..z]
  {
    if y > x && z > y { assert b[x..z] == b[x..y] + b[y..z]; }
  }

  /** While nothing is written between a read and the listing after it, nothing is left behind. */
  lemma {:induction false} StillLooksLeaveNothing(c: Codec, p0: Parts, k0: nat, t: Tail, start: int, i: nat, m: nat,
                                                  looks: seq<Look>)
    requires Faithful(c) && Follows(c, p0, k0, t, start, i, m) && start >= 0 && Growing(c, p0, k0, looks)
    requires forall j :: 0 <= j < |looks| ==> looks[j].listed == looks[j].dir
    ensures NothingLeft(c, t, looks)
    decreases |looks|
  {
    hide Passed, LeavesSome, Follows, OnDisk, Extends, TailAt, Parts.All;
    if looks != [] {
      var l := looks[0];
      UnlocatedGrows(c, l.seen, p0, k0, l.p1, l.k1, t, start, i, m);
      StillLeavesNone(c, l, t, start, i, m);
      var i', m' := PassYields(c, l, t, start, i, m);
      StillLooksLeaveNothing(c, l.p2, l.k2, Passed(c, l, t).0, start, i', m', looks[1..]);
    }
  }

  // --- What a skipped record costs --------------------------------------------------------------------------

  /** Every position passed was yielded, and reading goes on no further than at the next one. */
  predicate Complete(t: Tail, t': Tail, rs: seq<Record>) {
    |rs| == t'.afterSeq - t.afterSeq && (t'.segment.Some? ==> t'.segment.value <= t'.afterSeq + 1)
  }

  /** No read yields more records than the positions it passes. */
  lemma {:induction false} CollectsAtMost(c: Codec, b: Bytes, afterSeq: int, max: int)
    ensures var f := Collect(c, b, afterSeq, max); |f.records| <= f.afterSeq - afterSeq
    decreases |b|
  {
    var p := Parse(c, b);
    if p.Got? {
      if p.record.seqNo <= afterSeq {
        CollectsAtMost(c, b[p.size..], afterSeq, max);
      } else if max > 1 {
        CollectsAtMost(c, b[p.size..], p.record.seqNo, max - 1);
      }
    }
  }

  lemma PassYieldsAtMost(c: Codec, l: Look, t: Tail)
    ensures |Passed(c, l, t).1| <= Passed(c, l, t).0.afterSeq - t.afterSeq
  {
    hide Collect, Choose, NextSegment;
    var t1 := if t.segment.None? then Locate(l.seen, t) else t;
    if t1.segment.Some? {
      var data := Lookup(l.dir, t1.segment.value);
      if data.Some? {
        var bytes := if t1.offset <= |data.value| then data.value[t1.offset..] else [];
        CollectsAtMost(c, bytes, t1.afterSeq, l.max);
      }
    }
  }

  lemma {:induction false} PassesYieldAtMost(c: Codec, t: Tail, looks: seq<Look>)
    ensures var (t', rs) := Passes(c, t, looks); |rs| <= t'.afterSeq - t.afterSeq
    decreases |looks|
  {
    hide Passed;
    if looks != [] {
      PassYieldsAtMost(c, looks[0], t);
      PassesYieldAtMost(c, Passed(c, looks[0], t).0, looks[1..]);
    }
  }

  /** The tail is at the start of a segment that begins beyond the next record wanted. */
  ghost predicate Ahead(p: Parts, t: Tail, i: nat) {
    i <= |p.closed| && t.segment == Some(Before(p, i) + 1) && t.offset == WAL_HEADER_SIZE && t.afterSeq < Before(p, i)
  }

  lemma AheadGrows(p: Parts, k: nat, p': Parts, k': nat, t: Tail, i: nat)
    requires Ahead(p, t, i) && Extends(p, k, p', k')
    ensures Ahead(p', t, i)
  {
    assert p'.closed[..i] == p.closed[..i];
  }

  /** A read from there yields nothing, or fewer records than the positions it passes. */
  lemma AheadReads(c: Codec, dir: Dir, p: Parts, k: nat, t: Tail, i: nat, max: int)
    requires Faithful(c) && OnDisk(c, dir, p, k) && Ahead(p, t, i)
    ensures var (t', rs, ok) := ReadTail(c, dir, t, max);
      ok && if rs == [] then t' == t else |rs| < t'.afterSeq - t.afterSeq
  {
    hide Collect, Frames, Frame, Writable, Flat, Dense, Parse, WholeWithin;
    DirIsNotEmpty(c, dir, p, k);
    var torn := SegmentFrom(c, dir, p, k, i, 0);
    NamesIncrease(c, dir, p, k);
    LookupFinds(dir, i);
    var part, w := PartOf(p, i), Whole(c, p, k, i);
    NoFramesYet(c, part);
    DensePart(part, Before(p, i), 0, w);
    AheadCollects(c, part[0..w], torn, Before(p, i), t.afterSeq, max);
    assert dir[i].data[t.offset..] == Frames(c, part[0..w]) + torn;
  }

  lemma AheadCollects(c: Codec, rs: seq<Record>, torn: Bytes, from: int, afterSeq: int, max: int)
    requires Faithful(c) && AllWritable(c, rs) && Dense(rs, from) && Parse(c, torn) == Short && afterSeq < from
    ensures var f := Collect(c, Frames(c, rs) + torn, afterSeq, max);
      f.clean && if f.records == [] then f.passed == 0 && f.afterSeq == afterSeq
                 else |f.records| < f.afterSeq - afterSeq
  {
    hide Frame, Writable, Parse, Collect;
    if rs == [] {
      assert Frames(c, rs) + torn == torn;
      CollectShort(c, torn, afterSeq, max);
    } else {
      var r, rest := rs[0], Frames(c, rs[1..]) + torn;
      assert Frames(c, rs) + torn == Frame(c, r) + rest;
      assert r.seqNo == from + 1;
      CollectOne(c, r, rest, afterSeq, max);
      if max > 1 {
        CollectsAtMost(c, rest, r.seqNo, max - 1);
        var n := CollectFrames(c, rs[1..], torn, from + 1, r.seqNo, max - 1);
      }
    }
  }

  lemma CollectShort(c: Codec, b: Bytes, afterSeq: int, max: int)
    requires Parse(c, b) == Short
    ensures Collect(c, b, afterSeq, max) == Found([], 0, afterSeq, true)
  {
  }

  /** A pass from ahead stays ahead, or yields fewer records than the positions it passes. */
  lemma AheadPasses(c: Codec, l: Look, t: Tail, i: nat) returns (i': nat)
    requires Faithful(c) && LookOk(c, l) && Ahead(l.p1, t, i)
    ensures var (t', rs, _) := Passed(c, l, t);
      Ahead(l.p2, t', i') || |rs| < t'.afterSeq - t.afterSeq
  {
    hide OnDisk, Extends, ReadTail, Flat, NextSegment, Before;
    AheadGrows(l.p1, l.k1, l.p, l.k, t, i);
    AheadGrows(l.p, l.k, l.p2, l.k2, t, i);
    AheadReads(c, l.dir, l.p, l.k, t, i, l.max);
    NextIsAhead(c, l.listed, l.p2, l.k2, t, i);
    i' := if NextSegment(l.listed, t.segment.value).Some? then i + 1 else i;
  }

  lemma NextIsAhead(c: Codec, dir: Dir, p: Parts, k: nat, t: Tail, i: nat)
    requires OnDisk(c, dir, p, k) && Ahead(p, t, i)
    ensures var next := NextSegment(dir, t.segment.value);
      next.Some? ==> Ahead(p, t.(segment := next, offset := WAL_HEADER_SIZE), i + 1)
  {
    hide Frames, Writable, Flat, Frame;
    NamesIncrease(c, dir, p, k);
    NameOf(c, dir, p, k, i);
    NextFinds(dir, i);
    if i < |p.closed| {
      NameOf(c, dir, p, k, i + 1);
      PartInLog(p, i);
    }
  }

  lemma {:induction false} AheadIsNeverComplete(c: Codec, p: Parts, k: nat, t: Tail, i: nat, looks: seq<Look>)
    requires Faithful(c) && Growing(c, p, k, looks) && Ahead(p, t, i)
    ensures !Complete(t, Passes(c, t, looks).0, Passes(c, t, looks).1)
    decreases |looks|
  {
    hide Passed, LookOk, Extends, OnDisk;
    if looks != [] {
      var l := looks[0];
      AheadGrows(p, k, l.p1, l.k1, t, i);
      var i' := AheadPasses(c, l, t, i);
      var (t1, rs, _) := Passed(c, l, t);
      PassYieldsAtMost(c, l, t);
      PassesYieldAtMost(c, t1, looks[1..]);
      if Ahead(l.p2, t1, i') { AheadIsNeverComplete(c, l.p2, l.k2, t1, i', looks[1..]); }
    }
  }

  /** A pass that leaves a record behind is ahead from then on, having yielded nothing. */
  lemma SkipIsAhead(c: Codec, l: Look, t: Tail, start: int, i: nat, m: nat) returns (i': nat)
    requires Faithful(c) && LookOk(c, l) && Follows(c, l.p1, l.k1, t, start, i, m) && start >= 0
    requires LeavesSome(c, l.seen, l.dir, l.listed, t, l.max)
    ensures var (t', rs, _) := Passed(c, l, t); rs == [] && t'.afterSeq == t.afterSeq && Ahead(l.p2, t', i')
  {
    hide Follows, OnDisk, Extends, ReadTail, NextSegment, TailAt, Locate, Flat, WholeWithin;
    SkipsIff(c, l, t, start, i, m);
    var j, n := PassReads(c, l, t, start, i, m);
    var t1 := if t.segment.None? then Locate(l.seen, t) else t;
    var t2 := ReadTail(c, l.dir, t1, l.max).0;
    TailHasSegment(c, l.p2, l.k2, t2, start, j, n);
    MovesPast(c, l.listed, l.p2, l.k2, t2, start, j, n);
    i' := j + 1;
  }

  /**
   * Over any growth, positions and caps: the tail has yielded every record it has passed, and has
   * not gone past the next one, if and only if no segment gained a record above the start between
   * the read that found nothing left in it and the listing of the next one. A record skipped is
   * never made up for.
   */
  lemma {:induction false} TailIsCompleteIff(c: Codec, p0: Parts, k0: nat, t: Tail, start: int, i: nat, m: nat,
                                             looks: seq<Look>)
    requires Faithful(c) && Follows(c, p0, k0, t, start, i, m) && start >= 0 && Growing(c, p0, k0, looks)
    requires t.afterSeq == start || t.afterSeq <= |p0.All()|
    ensures var (t', rs) := Passes(c, t, looks); Complete(t, t', rs) <==> NothingLeft(c, t, looks)
    decreases |looks|
  {
    hide Passed, LeavesSome, Follows, OnDisk, Extends, TailAt, Parts.All;
    if NothingLeft(c, t, looks) {
      FollowsFrom(c, p0, k0, t, start, i, m);
      TailIsFilter(c, p0, k0, t, start, i, m, looks);
    } else {
      var l := looks[0];
      UnlocatedGrows(c, l.seen, p0, k0, l.p1, l.k1, t, start, i, m);
      var (t1, rs, _) := Passed(c, l, t);
      PassYieldsAtMost(c, l, t);
      PassesYieldAtMost(c, t1, looks[1..]);
      if LeavesSome(c, l.seen, l.dir, l.listed, t, l.max) {
        var j := SkipIsAhead(c, l, t, start, i, m);
        AheadIsNeverComplete(c, l.p2, l.k2, t1, j, looks[1..]);
      } else {
        var i', m' := PassYields(c, l, t, start, i, m);
        FollowsFits(c, l.p2, l.k2, t1, start, i', m');
        TailIsCompleteIff(c, l.p2, l.k2, t1, start, i', m', looks[1..]);
      }
    }
  }

  // --- A record written between the read and the listing ------------------------------------------------

  /** One record in one segment; then a second beside it, and a third in a segment of its own. */
  function OneRecord(c: Codec, r1: Record): Dir
    requires Writable(c, r1)
  {
    [Segment(1, HEADER + Frames(c, [r1]))]
  }

  function ThreeRecords(c: Codec, r1: Record, r2: Record, r3: Record): Dir
    requires Writable(c, r1) && Writable(c, r2) && Writable(c, r3)
  {
    [Segment(1, HEADER + Frames(c, [r1, r2])), Segment(3, HEADER + Frames(c, [r3]))]
  }

  lemma OneOnDisk(c: Codec, r1: Record)
    requires Writable(c, r1) && r1.seqNo == 1
    ensures OnDisk(c, OneRecord(c, r1), Parts([], [r1]), |Frames(c, [r1])|)
  {
    hide Frame, Writable;
  }

  lemma ThreeOnDisk(c: Codec, r1: Record, r2: Record, r3: Record)
    requires Writable(c, r1) && Writable(c, r2) && Writable(c, r3)
    requires r1.seqNo == 1 && r2.seqNo == 2 && r3.seqNo == 3
    ensures OnDisk(c, ThreeRecords(c, r1, r2, r3), Parts([[r1, r2]], [r3]), |Frames(c, [r3])|)
    ensures Parts([[r1, r2]], [r3]).All() == [r1, r2, r3]
  {
    hide Frame, Frames, Writable;
    var closed := [[r1, r2]];
    assert closed[..0] == [] && closed[..1] == closed;
    assert Frames(c, [r1, r2])[..|Frames(c, [r1, r2])|] == Frames(c, [r1, r2]);
    assert Frames(c, [r3])[..|Frames(c, [r3])|] == Frames(c, [r3]);
  }

  /** A look during which nothing is written. */
  function Still(dir: Dir, p: Parts, k: nat, max: int): Look {
    Look(dir, p, k, dir, p, k, dir, p, k, max)
  }

  /** The first pass yields the first record. */
  lemma YieldsFirst(c: Codec, r1: Record, max: int)
    requires Faithful(c) && Writable(c, r1) && r1.seqNo == 1 && max >= 1
    ensures var k := |Frames(c, [r1])|; var l := Still(OneRecord(c, r1), Parts([], [r1]), k, max);
      && LookOk(c, l) && !LeavesSome(c, l.seen, l.dir, l.listed, Tail(0, None, 0), max)
      && var (t, rs, _) := Passed(c, l, Tail(0, None, 0));
      && rs == [r1] && t.afterSeq == 1 && TailAt(c, Parts([], [r1]), k, t, 0, 0, 1) && t.segment == Some(1)
  {
    hide Frame, Frames, Writable, ReadTail, WholeWithin;
    OneOnDisk(c, r1);
    var p, k := Parts([], [r1]), |Frames(c, [r1])|;
    var l := Still(OneRecord(c, r1), p, k, max);
    var t0 := Tail(0, None, 0);
    SameExtends(p, k);
    StillLeavesNone(c, l, t0, 0, 0, 0);
    var i, m := PassYields(c, l, t0, 0, 0, 0);
    AllWhole(c, [r1]);
    assert Flat([]) == [] && p.All() == [r1] && p.closed[..0] == [];
  }

  /** The second finds nothing more, and lists the directory only once two more records have been written. */
  lemma MovesTooSoon(c: Codec, r1: Record, r2: Record, r3: Record, t: Tail, max: int)
    requires Faithful(c) && Writable(c, r1) && Writable(c, r2) && Writable(c, r3) && r1.seqNo == 1 && max >= 1
    requires TailAt(c, Parts([], [r1]), |Frames(c, [r1])|, t, 0, 0, 1) && t.afterSeq == 1 && t.segment == Some(1)
    ensures var one := OneRecord(c, r1);
      OnePass(c, one, one, ThreeRecords(c, r1, r2, r3), t, max) == (Tail(1, Some(3), WAL_HEADER_SIZE), [], Moved)
  {
    hide Frame, Frames, Writable, ReadTail, WholeWithin;
    OneOnDisk(c, r1);
    var p, k := Parts([], [r1]), |Frames(c, [r1])|;
    var m := ReadYields(c, OneRecord(c, r1), p, k, t, 0, 0, 1, max);
    assert p.closed[..0] == [] && p.All() == [r1];
    assert Slice(p.All(), 1, 1) == [];
    NextFinds(ThreeRecords(c, r1, r2, r3), 0);
  }

  lemma YieldsThird(c: Codec, r1: Record, r2: Record, r3: Record, max: int)
    requires Faithful(c) && Writable(c, r1) && Writable(c, r2) && Writable(c, r3) && r3.seqNo == 3 && max >= 1
    ensures var three := ThreeRecords(c, r1, r2, r3);
      var (t, rs, _) := OnePass(c, three, three, three, Tail(1, Some(3), WAL_HEADER_SIZE), max);
      rs == [r3] && t.afterSeq == 3
  {
    hide Frame, Writable;
    var three := ThreeRecords(c, r1, r2, r3);
    LookupFinds(three, 1);
    assert Frames(c, [r3]) == Frame(c, r3) + [];
    assert three[1].data[WAL_HEADER_SIZE..] == Frame(c, r3) + [];
    CollectOne(c, r3, [], 1, max);
    NothingIsShort(c);
  }

  lemma OneLookMore(c: Codec, p: Parts, k: nat, t: Tail, l: Look, rest: seq<Look>)
    ensures Passes(c, t, [l] + rest)
         == (Passes(c, Passed(c, l, t).0, rest).0, Passed(c, l, t).1 + Passes(c, Passed(c, l, t).0, rest).1)
    ensures LookOk(c, l) && Extends(p, k, l.p1, l.k1) && Growing(c, l.p2, l.k2, rest) ==> Growing(c, p, k, [l] + rest)
    ensures FinalLog(p, [l] + rest) == FinalLog(l.p2, rest)
  {
    hide Passed, LookOk, Extends, Parts.All;
    assert ([l] + rest)[1..] == rest;
  }

  /**
   * A second record and a rotation between the read that finds nothing left and the listing that
   * finds the next segment: the second record is never yielded.
   */
  lemma TailerSkips(c: Codec, r1: Record, r2: Record, r3: Record, max: int) returns (looks: seq<Look>)
    requires Faithful(c) && Writable(c, r1) && Writable(c, r2) && Writable(c, r3) && max >= 1
    requires r1.seqNo == 1 && r2.seqNo == 2 && r3.seqNo == 3
    ensures Growing(c, Parts([], [r1]), |Frames(c, [r1])|, looks)
    ensures FinalLog(Parts([], [r1]), looks) == [r1, r2, r3]
    ensures Passes(c, Tail(0, None, 0), looks).1 == [r1, r3] && Passes(c, Tail(0, None, 0), looks).0.afterSeq == 3
  {
    hide Frame, Frames, Writable, OnePass, OnDisk, TailAt, OneRecord, ThreeRecords, Parts.All;
    var one, three := OneRecord(c, r1), ThreeRecords(c, r1, r2, r3);
    var p, k, p', k' := Parts([], [r1]), |Frames(c, [r1])|, Parts([[r1, r2]], [r3]), |Frames(c, [r3])|;
    OneOnDisk(c, r1);
    ThreeOnDisk(c, r1, r2, r3);
    SameExtends(p, k);
    SameExtends(p', k');
    assert Extends(p, k, p', k') by { assert p'.closed[..0] == [] && [r1] <= [r1, r2]; }
    var first, last := Still(one, p, k, max), Still(three, p', k', max);
    var hasty := Look(one, p, k, one, p, k, three, p', k', max);
    looks := [first] + ([hasty] + ([last] + []));
    YieldsFirst(c, r1, max);
    MovesTooSoon(c, r1, r2, r3, Passed(c, first, Tail(0, None, 0)).0, max);
    YieldsThird(c, r1, r2, r3, max);
    var t0 := Tail(0, None, 0);
    var t1 := Passed(c, first, t0).0;
    var t2 := Passed(c, hasty, t1).0;
    OneLookMore(c, p, k, t0, first, [hasty] + ([last] + []));
    OneLookMore(c, p, k, t1, hasty, [last] + []);
    OneLookMore(c, p', k', t2, last, []);
  }

  // --- For the methods ---------------------------------------------------------------------------------------

  /** A collection with these records and bytes already behind it. */
  function Resumed(out: seq<Record>, passed: nat, f: Found): Found {
    Found(out + f.records, passed + f.passed, f.afterSeq, f.clean)
  }

  lemma ResumedStart(f: Found)
    ensures Resumed([], 0, f) == f
  {
    assert [] + f.records == f.records;
  }

  /** What one read adds to a collection under way. */
  lemma CollectStep(c: Codec, b: Bytes, at: nat, out: seq<Record>, afterSeq: int, max: int)
    requires at <= |b| && max >= 1
    ensures var p := Parse(c, b[at..]); var whole := Resumed(out, at, Collect(c, b[at..], afterSeq, max));
      match p
      case Short => whole == Found(out, at, afterSeq, true)
      case Corrupt => whole == Found(out, at, afterSeq, false)
      case Got(r, size) =>
        && at + size <= |b|
        && whole ==
          if r.seqNo <= afterSeq then Resumed(out, at + size, Collect(c, b[at + size..], afterSeq, max))
          else if max <= 1 then Found(out + [r], at + size, r.seqNo, true)
          else Resumed(out + [r], at + size, Collect(c, b[at + size..], r.seqNo, max - 1))
  {
    hide Parse;
    var p := Parse(c, b[at..]);
    assert out + [] == out;
    if p.Got? {
      assert b[at..][p.size..] == b[at + p.size..];
      var rest := Collect(c, b[at + p.size..], p.record.seqNo, max - 1).records;
      assert out + ([p.record] + rest) == out + [p.record] + rest;
    }
  }

  lemma SameExtends(p: Parts, k: nat)
    ensures Extends(p, k, p, k)
  {
  }
}
