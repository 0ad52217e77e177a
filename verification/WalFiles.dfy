/** The log's files in use: the writer, the segment reader, and recovery into a book. */
module WalFiles {
  import opened Types
  import opened Guards
  import opened Matching
  import opened Commit
  import opened Framing
  import opened Wal
  import opened Ladders
  import opened BookModule

  /** One symbol's log directory: its segments in name order. */
  class Directory {
    var segments: Dir

    constructor (segments: Dir)
      ensures this.segments == segments
    {
      this.segments := segments;
    }
  }

  /** Appends records to the newest segment of a directory. */
  class Writer {
    const disk: Directory
    const codec: Codec
    var open: bool
    var current: int
    var segBytes: int
    var lastSeq: int
    var maxSegmentBytes: int

    /** How many bytes of the current segment an fsync has covered. */
    ghost var synced: nat

    constructor (disk: Directory, codec: Codec, maxSegmentBytes: int)
      ensures this.disk == disk && this.codec == codec
      ensures View() == Log(disk.segments, false, 1, 0, 0, 0, maxSegmentBytes)
    {
      this.disk, this.codec, this.maxSegmentBytes := disk, codec, maxSegmentBytes;
      open, current, segBytes, lastSeq, synced := false, 1, 0, 0, 0;
    }

    ghost function View(): Log
      reads this, disk
    {
      Log(disk.segments, open, current, synced, segBytes, lastSeq, maxSegmentBytes)
    }

    method OpenSegment(first: int)
      modifies this, disk
      ensures View() == Wal.OpenSegment(old(View()), first)
    {
      disk.segments := Create(disk.segments, first);
      open, current, segBytes, synced := true, first, WAL_HEADER_SIZE, WAL_HEADER_SIZE;
    }

    /** Flush and fsync; ok says whether the operating system reported success. */
    method Sync(ok: bool) returns (done: bool)
      modifies this
      ensures (View(), done) == Wal.Sync(old(View()), ok)
    {
      if ok { synced := if segBytes < 0 then 0 else segBytes; }
      return ok;
    }

    method Close(ok: bool) returns (done: bool)
      modifies this
      ensures (View(), done) == (Wal.Sync(old(View()), ok).0.(open := false), ok)
    {
      done := Sync(ok);
      open := false;
    }

    method Rotate(first: int, fault: Fault) returns (ok: bool)
      modifies this, disk
      ensures ok == !(fault.CloseFails? || fault.CreateFails?)
      ensures View() ==
        if fault.CloseFails? then old(View()).(open := false)
        else if fault.CreateFails? then Wal.Sync(old(View()), true).0.(open := false)
        else Wal.OpenSegment(old(View()), first)
    {
      var closed := Close(!fault.CloseFails?);
      if !closed { return false; }
      if fault.CreateFails? { return false; }
      OpenSegment(first);
      return true;
    }

    /** Buffer a record, rotating first if it would push the segment past its limit. */
    method Append(r: Record, fault: Fault) returns (ok: bool)
      requires IsInt64(r.seqNo) && IsInt64(r.ts)
      modifies this, disk
      ensures (View(), ok) == Wal.Append(codec, old(View()), r, fault)
    {
      var payload := codec.encode(r.op);
      if |payload| > MAX_RECORD_PAYLOAD { return false; }
      var total := REC_HEADER_SIZE + |payload| + WAL_CRC_SIZE;
      if segBytes + total > maxSegmentBytes && segBytes > WAL_HEADER_SIZE {
        var rotated := Rotate(r.seqNo, fault);
        if !rotated { return false; }
      }
      var header := PutLE(4, |payload|) + PutLE(8, ToUint64(r.seqNo)) + PutLE(8, ToUint64(r.ts));
      var tail := PutLE(4, codec.crc(header + payload));
      var frame := header + payload + tail;
      if fault.WriteFails? {
        disk.segments := WriteTo(disk.segments, current, frame[..Min(fault.written, |frame|)]);
        return false;
      }
      disk.segments := WriteTo(disk.segments, current, frame);
      segBytes := segBytes + total;
      if r.seqNo > lastSeq { lastSeq := r.seqNo; }
      return true;
    }
  }

  /** Scans one segment's bytes from an offset a previous scan reported. */
  class Reader {
    const codec: Codec
    const data: Bytes
    var offset: nat

    constructor (codec: Codec, data: Bytes, offset: nat)
      requires offset <= |data|
      ensures this.codec == codec && this.data == data && this.offset == offset
    {
      this.codec, this.data, this.offset := codec, data, offset;
    }

    /** Read one record; the offset only moves past records that verified. */
    method Next() returns (p: Parsed)
      requires offset <= |data|
      modifies this
      ensures p == Parse(codec, data[old(offset)..])
      ensures offset == old(offset) + (if p.Got? then p.size else 0) <= |data|
    {
      hide GetLE, ToInt64;
      var b := data[offset..];
      if |b| < REC_HEADER_SIZE { return Short; }
      var header := b[..REC_HEADER_SIZE];
      assert header[0..4] == b[0..4] && header[4..12] == b[4..12] && header[12..20] == b[12..20];
      var n := GetLE(header[0..4]);
      if n > MAX_RECORD_PAYLOAD { return Corrupt; }
      if |b| < REC_HEADER_SIZE + n { return Short; }
      var payload := b[REC_HEADER_SIZE..REC_HEADER_SIZE + n];
      if |b| < REC_HEADER_SIZE + n + WAL_CRC_SIZE { return Short; }
      var want := GetLE(b[REC_HEADER_SIZE + n..REC_HEADER_SIZE + n + WAL_CRC_SIZE]);
      assert header + payload == b[..REC_HEADER_SIZE + n];
      if codec.crc(header + payload) != want { return Corrupt; }
      var op := codec.decode(payload);
      if op == None { return Corrupt; }
      offset := offset + REC_HEADER_SIZE + n + WAL_CRC_SIZE;
      return Got(Record(ToInt64(GetLE(header[4..12])), ToInt64(GetLE(header[12..20])), op.value),
                 REC_HEADER_SIZE + n + WAL_CRC_SIZE);
    }
  }

  predicate HeaderOk(data: Bytes) {
    |data| >= WAL_HEADER_SIZE && data[..WAL_HEADER_SIZE] == HEADER
  }

  lemma ScanStep(c: Codec, data: Bytes, offset: nat, so: seq<Record>)
    requires offset <= |data|
    ensures var p := Parse(c, data[offset..]); var s := ScanBytes(c, data[offset..]);
      p.Got? ==>
        && offset + p.size <= |data|
        && var s' := ScanBytes(c, data[offset + p.size..]);
        && s == Scan([p.record] + s'.records, p.size + s'.good, s'.clean)
        && so + s.records == so + [p.record] + s'.records
  {
    var p := Parse(c, data[offset..]);
    if p.Got? { assert data[offset..][p.size..] == data[offset + p.size..]; }
  }

  /** The highest position a segment holds and the offset just past its last intact record. */
  method ScanSegment(codec: Codec, data: Bytes) returns (lastSeq: int, good: nat, clean: bool)
    ensures var s := ReadSegment(codec, data);
      && clean == s.clean
      && (HeaderOk(data) ==> good == s.good)
      && lastSeq == MaxSeq(s.records)
      && (clean ==> good <= |data|)
  {
    hide ScanBytes, Parse;
    lastSeq, good := 0, 0;
    if !HeaderOk(data) { return 0, 0, false; }
    var r := new Reader(codec, data, WAL_HEADER_SIZE);
    ghost var found: seq<Record> := [];
    ghost var all := ReadSegment(codec, data);
    while true
      invariant r.data == data && r.codec == codec && WAL_HEADER_SIZE <= r.offset <= |data|
      invariant var s := ScanBytes(codec, data[r.offset..]);
        all == Scan(found + s.records, r.offset + s.good, s.clean)
      invariant lastSeq == MaxSeq(found)
      decreases |data| - r.offset
    {
      ScanStep(codec, data, r.offset, found);
      ScanStops(codec, data[r.offset..]);
      var p := r.Next();
      assert found + [] == found;
      match p
      case Short => return lastSeq, r.offset, true;
      case Corrupt => return lastSeq, r.offset, false;
      case Got(rec, size) =>
        assert (found + [rec])[..|found|] == found;
        if rec.seqNo > lastSeq { lastSeq := rec.seqNo; }
        found := found + [rec];
    }
  }

  lemma ScanStops(c: Codec, b: Bytes)
    ensures Parse(c, b).Short? ==> ScanBytes(c, b) == Scan([], 0, true)
    ensures Parse(c, b).Corrupt? ==> ScanBytes(c, b) == Scan([], 0, false)
  {
  }

  /** Reopen a directory for appending, truncating a torn tail; refused when the newest segment is damaged. */
  method OpenWriter(disk: Directory, codec: Codec, maxSegmentBytes: int) returns (w: Writer?)
    modifies disk
    ensures var r := Wal.OpenWriter(codec, old(disk.segments), maxSegmentBytes);
      && (w != null <==> r.Some?)
      && (w != null ==> fresh(w) && w.disk == disk && w.codec == codec && w.View() == r.value)
      && (w == null ==> disk.segments == old(disk.segments))
  {
    hide ReadSegment;
    var segs := disk.segments;
    if segs == [] {
      w := new Writer(disk, codec, maxSegmentBytes);
      w.OpenSegment(1);
      return;
    }
    var last := Last(segs);
    var lastSeq, good, clean := ScanSegment(codec, last.data);
    if !clean { return null; }
    CleanHasHeader(codec, last.data);
    if last.first - 1 > lastSeq { lastSeq := last.first - 1; }
    w := new Writer(disk, codec, maxSegmentBytes);
    disk.segments := CutLast(segs, good);
    w.open, w.current, w.segBytes, w.lastSeq, w.synced := true, last.first, good, lastSeq, good;
  }

  lemma CleanHasHeader(c: Codec, data: Bytes)
    ensures ReadSegment(c, data).clean ==> HeaderOk(data)
  {
  }

  /** The highest position the directory holds, from its newest segment alone. */
  method LastPosition(disk: Directory, codec: Codec) returns (position: int, ok: bool)
    ensures disk.segments == [] ==> (position, ok) == (0, true)
    ensures disk.segments != [] ==>
      var r := Wal.OpenWriter(codec, disk.segments, 0);
      ok == r.Some? && (ok ==> position == r.value.lastSeq)
  {
    hide ReadSegment;
    if disk.segments == [] { return 0, true; }
    var last := Last(disk.segments);
    var lastSeq, good, clean := ScanSegment(codec, last.data);
    if !clean { return 0, false; }
    CleanHasHeader(codec, last.data);
    if last.first - 1 > lastSeq { lastSeq := last.first - 1; }
    return lastSeq, true;
  }

  // --- Recovery -----------------------------------------------------------------------------------

  lemma {:induction false} AbovePrefix(rs: seq<Record>, more: seq<Record>, afterSeq: int)
    ensures exists tail :: Above(rs + more, afterSeq) == Above(rs, afterSeq) + tail
    decreases |more|
  {
    if more == [] {
      assert rs + more == rs;
      assert Above(rs + more, afterSeq) == Above(rs, afterSeq) + [];
    } else {
      var init, r := more[..|more| - 1], more[|more| - 1];
      AbovePrefix(rs, init, afterSeq);
      var tail :| Above(rs + init, afterSeq) == Above(rs, afterSeq) + tail;
      assert rs + more == (rs + init) + [r];
      AboveSnoc(rs + init, r, afterSeq);
      var last := if r.seqNo > afterSeq then [r] else [];
      assert Above(rs + more, afterSeq) == Above(rs, afterSeq) + (tail + last);
    }
  }

  /** The next record of a replayable log can be applied. */
  lemma NextCanApply(book: BookState, done: seq<Record>, r: Record, rest: seq<Record>, afterSeq: int)
    requires Replayable(book, Above(done + [r] + rest, afterSeq)) && r.seqNo > afterSeq
    ensures var b := Replay(book, Above(done, afterSeq));
      CanApply(b, r) && Replay(book, Above(done + [r], afterSeq)) == ApplyRecord(b, r)
  {
    hide CanApply, ApplyRecord;
    AboveSnoc(done, r, afterSeq);
    AbovePrefix(done + [r], rest, afterSeq);
    var tail :| Above(done + [r] + rest, afterSeq) == Above(done + [r], afterSeq) + tail;
    ReplayJoin(book, Above(done + [r], afterSeq), tail);
    ReplayJoin(book, Above(done, afterSeq), [r]);
    var b := Replay(book, Above(done, afterSeq));
    assert Replay(b, [r]) == Replay(ApplyRecord(b, r), []);
  }

  /** Replay one record, discarding the mutation's own error. */
  method Apply(book: Book, r: Record)
    requires book.Valid() && CanApply(book.View(), r)
    modifies book.Repr
    ensures book.Valid() && fresh(book.Repr - old(book.Repr))
    ensures book.View() == ApplyRecord(old(book.View()), r)
  {
    hide RestingIds, Submit, Cancel;
    match r.op
    case SubmitOrder(o) => var _ := book.SubmitOrder(o);
    case CancelOrder(id, who) => var _ := book.CancelOwned(id, who);
  }

  /** Apply the next record of a replayable log if it is above afterSeq. */
  method ApplyNext(book: Book, r: Record, afterSeq: int,
                   ghost start: BookState, ghost done: seq<Record>, ghost rest: seq<Record>)
    requires book.Valid() && book.View() == Replay(start, Above(done, afterSeq))
    requires Replayable(start, Above(done + [r] + rest, afterSeq))
    modifies book.Repr
    ensures book.Valid() && fresh(book.Repr - old(book.Repr))
    ensures book.View() == Replay(start, Above(done + [r], afterSeq))
  {
    hide Replay, Replayable, Above, CanApply, ApplyRecord;
    AboveSnoc(done, r, afterSeq);
    assert Above(done, afterSeq) + [] == Above(done, afterSeq);
    if r.seqNo > afterSeq {
      NextCanApply(start, done, r, rest, afterSeq);
      Apply(book, r);
    }
  }

  /** Replay one segment's records into the book, after those already found. */
  method RecoverSegment(codec: Codec, data: Bytes, book: Book, afterSeq: int, lastSeq: int,
                        ghost start: BookState, ghost done: seq<Record>)
    returns (lastSeq': int, clean: bool)
    requires book.Valid()
    requires book.View() == Replay(start, Above(done, afterSeq)) && lastSeq == MaxSeq(done)
    requires Replayable(start, Above(done + ReadSegment(codec, data).records, afterSeq))
    modifies book.Repr
    ensures book.Valid() && fresh(book.Repr - old(book.Repr))
    ensures var s := ReadSegment(codec, data);
      && clean == s.clean
      && book.View() == Replay(start, Above(done + s.records, afterSeq))
      && lastSeq' == MaxSeq(done + s.records)
  {
    hide ScanBytes, Parse, Replay, Replayable, Above, MaxSeq, CoreInv, WellFormed, Book.Linked, Book.State, Book.View;
    lastSeq' := lastSeq;
    ghost var all := ReadSegment(codec, data);
    assert done + [] == done;
    if !HeaderOk(data) { return lastSeq, false; }
    var r := new Reader(codec, data, WAL_HEADER_SIZE);
    ghost var found: seq<Record> := [];
    while true
      invariant r.data == data && r.codec == codec && WAL_HEADER_SIZE <= r.offset <= |data|
      invariant fresh(r) && book.Valid() && r !in book.Repr && fresh(book.Repr - old(book.Repr))
      invariant all.records == found + ScanBytes(codec, data[r.offset..]).records
      invariant all.clean == ScanBytes(codec, data[r.offset..]).clean
      invariant book.View() == Replay(start, Above(done + found, afterSeq))
      invariant lastSeq' == MaxSeq(done + found)
      decreases |data| - r.offset
    {
      ScanStep(codec, data, r.offset, found);
      ScanStops(codec, data[r.offset..]);
      var p := r.Next();
      assert found + [] == found;
      match p
      case Short => return lastSeq', true;
      case Corrupt => return lastSeq', false;
      case Got(rec, size) =>
        ghost var rest := ScanBytes(codec, data[r.offset..]).records;
        Regroup(done, found, rec, rest);
        AboveSnoc(done + found, rec, afterSeq);
        if rec.seqNo > lastSeq' { lastSeq' := rec.seqNo; }
        ApplyNext(book, rec, afterSeq, start, done + found, rest);
        found := found + [rec];
    }
  }

  lemma Regroup(done: seq<Record>, found: seq<Record>, r: Record, rest: seq<Record>)
    ensures done + (found + [r] + rest) == (done + found) + [r] + rest
    ensures (done + found) + [r] == done + (found + [r])
  {
  }

  lemma ReadAllSnoc(c: Codec, dir: Dir, i: nat)
    requires i < |dir|
    ensures var (rs, clean) := ReadAll(c, dir[..i]); var s := ReadSegment(c, dir[i].data);
      ReadAll(c, dir[..i + 1]) == if !clean then (rs, false) else (rs + s.records, s.clean)
  {
    assert dir[..i + 1][..i] == dir[..i];
  }

  lemma {:induction false} ReadAllPrefix(c: Codec, dir: Dir, i: nat)
    requires i <= |dir|
    ensures ReadAll(c, dir[..i]).0 <= ReadAll(c, dir).0
    ensures !ReadAll(c, dir[..i]).1 ==> ReadAll(c, dir) == ReadAll(c, dir[..i])
    decreases |dir| - i
  {
    hide ReadSegment;
    if i < |dir| {
      ReadAllSnoc(c, dir, i);
      ReadAllPrefix(c, dir, i + 1);
    } else {
      assert dir[..i] == dir;
    }
  }

  lemma ReplayablePrefix(book: BookState, a: seq<Record>, all: seq<Record>, afterSeq: int)
    requires Replayable(book, Above(all, afterSeq)) && a <= all
    ensures Replayable(book, Above(a, afterSeq))
  {
    hide Replayable, Above;
    assert all == a + all[|a|..];
    AbovePrefix(a, all[|a|..], afterSeq);
    var tail :| Above(all, afterSeq) == Above(a, afterSeq) + tail;
    ReplayJoin(book, Above(a, afterSeq), tail);
  }

  /**
   * Replay every segment of the directory into the book, in order, up to the first error:
   * the book becomes the replay of every record above afterSeq, and the highest position
   * seen is reported.
   */
  method Recover(disk: Directory, codec: Codec, book: Book, afterSeq: int) returns (lastSeq: int, clean: bool)
    requires book.Valid() && disk !in book.Repr
    requires Replayable(book.View(), Above(ReadAll(codec, disk.segments).0, afterSeq))
    modifies book.Repr
    ensures book.Valid() && fresh(book.Repr - old(book.Repr))
    ensures var (rs, ok) := ReadAll(codec, disk.segments);
      && clean == ok
      && lastSeq == MaxSeq(rs)
      && book.View() == Replay(old(book.View()), Above(rs, afterSeq))
  {
    hide ReadSegment, Replay, Replayable, Above, MaxSeq, ReadAll, CoreInv, WellFormed, Book.Linked, Book.State,
         Book.View;
    var segs := disk.segments;
    ghost var start := book.View();
    NothingRead(codec, start, afterSeq);
    lastSeq, clean := 0, true;
    ghost var found: seq<Record> := [];
    assert segs[..0] == [];
    for i := 0 to |segs|
      invariant book.Valid() && fresh(book.Repr - old(book.Repr)) && clean
      invariant ReadAll(codec, segs[..i]) == (found, true)
      invariant lastSeq == MaxSeq(found)
      invariant book.View() == Replay(start, Above(found, afterSeq))
    {
      ReadAllSnoc(codec, segs, i);
      ReadAllPrefix(codec, segs, i + 1);
      ghost var found' := found + ReadSegment(codec, segs[i].data).records;
      ReplayablePrefix(start, found', ReadAll(codec, segs).0, afterSeq);
      lastSeq, clean := RecoverSegment(codec, segs[i].data, book, afterSeq, lastSeq, start, found);
      if !clean { return; }
      found := found';
    }
    assert segs[..|segs|] == segs;
  }

  lemma NothingRead(c: Codec, book: BookState, afterSeq: int)
    ensures ReadAll(c, []) == ([], true) && MaxSeq([]) == 0 && Replay(book, Above([], afterSeq)) == book
  {
  }
}
