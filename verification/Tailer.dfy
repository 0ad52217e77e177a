/** Reads a symbol's log forward from a position, across rotations, by polling its files. */
module TailerModule {
  import opened Types
  import opened Commit
  import opened Framing
  import opened Wal
  import opened WalFiles
  import opened Tailing

  class Tailer {
    const disk: Directory
    const codec: Codec
    var afterSeq: int
    var segment: Option<int>
    var offset: nat

    constructor (disk: Directory, codec: Codec, afterSeq: int)
      ensures this.disk == disk && this.codec == codec && View() == Tail(afterSeq, None, 0)
    {
      this.disk, this.codec, this.afterSeq, segment, offset := disk, codec, afterSeq, None, 0;
    }

    function View(): Tail
      reads this
    {
      Tail(afterSeq, segment, offset)
    }

    /** The last segment whose first position is at or below the next one wanted. */
    method LocateSegment()
      modifies this
      ensures View() == Locate(disk.segments, old(View()))
    {
      var segs := disk.segments;
      if segs == [] { return; }
      var want := afterSeq + 1;
      var chosen := segs[0].first;
      var i := 0;
      assert segs[0..] == segs;
      while i < |segs|
        invariant 0 <= i <= |segs|
        invariant Choose(segs, want, segs[0].first) == Choose(segs[i..], want, chosen)
      {
        assert segs[i..][1..] == segs[i + 1..];
        if segs[i].first > want { break; }
        chosen := segs[i].first;
        i := i + 1;
      }
      segment, offset := Some(chosen), WAL_HEADER_SIZE;
    }

    method FindSegment(first: int) returns (data: Option<Bytes>)
      ensures data == Lookup(disk.segments, first)
    {
      var segs := disk.segments;
      assert segs[0..] == segs;
      for i := 0 to |segs|
        invariant Lookup(segs, first) == Lookup(segs[i..], first)
      {
        assert segs[i..][1..] == segs[i + 1..];
        if segs[i].first == first { return Some(segs[i].data); }
      }
      data := None;
    }

    /** Read up to max records from the current segment, skipping any at or below afterSeq. */
    method ReadSegment(max: int) returns (out: seq<Record>, ok: bool)
      requires segment.Some? && max >= 1
      modifies this
      ensures (View(), out, ok) == ReadTail(codec, disk.segments, old(View()), max)
      ensures segment == old(segment)
    {
      hide Collect, Parse;
      out := [];
      var data := FindSegment(segment.value);
      if data == None { return [], false; }
      if offset < WAL_HEADER_SIZE || !HeaderOk(data.value) { return [], false; }
      var bytes := if offset <= |data.value| then data.value[offset..] else [];
      var r := new Reader(codec, bytes, 0);
      ghost var all := Collect(codec, bytes, afterSeq, max);
      var base := offset;
      assert bytes[0..] == bytes;
      ResumedStart(all);
      while true
        invariant r.data == bytes && r.codec == codec && r.offset <= |bytes| && fresh(r)
        invariant offset == base + r.offset && segment == old(segment)
        invariant |out| < max
        invariant all == Resumed(out, r.offset, Collect(codec, bytes[r.offset..], afterSeq, max - |out|))
        decreases |bytes| - r.offset
      {
        CollectStep(codec, bytes, r.offset, out, afterSeq, max - |out|);
        var p := r.Next();
        match p
        case Short => return out, true;
        case Corrupt => return out, false;
        case Got(rec, size) =>
          offset := base + r.offset;
          if rec.seqNo > afterSeq {
            afterSeq := rec.seqNo;
            out := out + [rec];
            if |out| >= max { return out, true; }
          }
      }
    }

    /** The segment after the current one, if there is one. */
    method FindNext() returns (next: Option<int>)
      requires segment.Some?
      ensures next == NextSegment(disk.segments, segment.value)
    {
      var segs := disk.segments;
      assert segs[0..] == segs;
      var i := 0;
      while i + 1 < |segs|
        invariant 0 <= i <= |segs|
        invariant NextSegment(segs, segment.value) == NextSegment(segs[i..], segment.value)
      {
        assert segs[i..][1..] == segs[i + 1..];
        if segs[i].first == segment.value { return Some(segs[i + 1].first); }
        i := i + 1;
      }
      return None;
    }

    /** One turn of the poll loop: locate if need be, read, and move on when nothing was left to read. */
    method OneTurn(max: int) returns (records: seq<Record>, pass: Pass)
      requires max >= 1
      modifies this
      ensures (View(), records, pass) == OnePass(codec, disk.segments, disk.segments, disk.segments, old(View()), max)
    {
      hide ReadTail, Locate, NextSegment;
      if segment == None { LocateSegment(); }
      if segment == None { return [], NoLog; }
      var ok;
      records, ok := ReadSegment(max);
      if !ok { return [], Failed; }
      if |records| > 0 { return records, Yielded; }
      var next := FindNext();
      if next == None { return [], CaughtUp; }
      segment, offset := next, WAL_HEADER_SIZE;
      return [], Moved;
    }

    /**
     * Read what is there now, up to max records. What comes back is exactly the log's next
     * records above what has been yielded; fewer than max only when nothing whole is left.
     */
    method Poll(max: nat, ghost p: Parts, ghost k: nat, ghost start: int, ghost i: nat, ghost m: nat)
      returns (out: seq<Record>, ok: bool, ghost i': nat, ghost m': nat)
      requires Faithful(codec) && OnDisk(codec, disk.segments, p, k)
      requires Follows(codec, p, k, View(), start, i, m) && start >= 0 && (afterSeq == start || afterSeq <= |p.All()|)
      modifies this
      ensures ok && Follows(codec, p, k, View(), start, i', m')
      ensures old(afterSeq) <= afterSeq && |out| <= max
      ensures afterSeq == start || afterSeq <= |p.All()|
      ensures if afterSeq == old(afterSeq) then out == [] else out == p.All()[old(afterSeq)..afterSeq]
      ensures AllWritable(codec, p.current)
      ensures |out| < max ==> afterSeq == Max(start, |Flat(p.closed)| + WholeWithin(codec, p.current, k))
    {
      hide Follows, OnDisk, Extends, OnePass, Parts.All, WholeWithin, Flat, Slice, TailAt;
      DirIsNotEmpty(codec, disk.segments, p, k);
      SameExtends(p, k);
      FollowsFrom(codec, p, k, View(), start, i, m);
      out, ok, i', m' := [], true, i, m;
      ghost var log := p.All();
      while |out| < max
        invariant ok && Follows(codec, p, k, View(), start, i', m')
        invariant start <= old(afterSeq) <= afterSeq && |out| <= max
        invariant afterSeq == start || afterSeq <= |log|
        invariant if afterSeq == old(afterSeq) then out == [] else out == log[old(afterSeq)..afterSeq]
        invariant segment.Some? ==> i' <= |p.closed| || i' == i
        decreases max - |out|, segment.None?, |p.closed| + 1 - i'
      {
        ghost var t := View();
        ghost var l := Look(disk.segments, p, k, disk.segments, p, k, disk.segments, p, k, max - |out|);
        StillLeavesNone(codec, l, t, start, i', m');
        i', m' := PassYields(codec, l, t, start, i', m');
        var records, pass := OneTurn(max - |out|);
        FollowsFits(codec, p, k, View(), start, i', m');
        JoinYielded(log, old(afterSeq), t.afterSeq, afterSeq, out, records, start);
        out := out + records;
        if pass == NoLog || pass == CaughtUp { return; }
        if pass == Failed { return out, false, i', m'; }
      }
    }
  }

  /** Two stretches of the log, one after the other, are one stretch. */
  lemma JoinYielded(log: seq<Record>, x: int, y: int, z: int, rs: seq<Record>, more: seq<Record>, start: int)
    requires 0 <= start <= x <= y <= z && (y == start || y <= |log|) && (z == start || z <= |log|)
    requires if y == x then rs == [] else rs == log[x..y]
    requires more == Slice(log, y, z) && (more == [] ==> z == y)
    ensures if z == x then rs + more == [] else rs + more == log[x..z]
  {
    if y > x && z > y { assert log[x..z] == log[x..y] + log[y..z]; }
  }
}
