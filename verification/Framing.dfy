/**
 * The write-ahead log's byte format: little-endian framing, what one read
 * reports, and what scanning a file whose tail was torn off anywhere yields.
 * The payload encoding and the checksum are parameters.
 */
module Framing {
  import opened Types
  import opened Guards
  import opened Commit

  type Byte = x: int | 0 <= x < 256
  type Bytes = seq<Byte>
  type Uint32 = x: int | 0 <= x < 0x1_0000_0000

  /** How a mutation is written as payload bytes and read back, and the checksum over a record. */
  datatype Codec = Codec(encode: Mutation -> Bytes, decode: Bytes -> Option<Mutation>, crc: Bytes -> Uint32)

  /** Reading back an encoded mutation gives that mutation. */
  ghost predicate Faithful(c: Codec) {
    forall m :: c.decode(c.encode(m)) == Some(m)
  }

  const MAX_RECORD_PAYLOAD: int := 0x10_0000
  const WAL_HEADER_SIZE: int := 8
  const REC_HEADER_SIZE: int := 20
  const WAL_CRC_SIZE: int := 4

  // --- Little-endian integers ---------------------------------------------------------------

  function PutLE(width: nat, v: nat): (b: Bytes)
    ensures |b| == width
  {
    if width == 0 then [] else [v % 256] + PutLE(width - 1, v / 256)
  }

  function GetLE(b: Bytes): nat {
    if b == [] then 0 else b[0] + 256 * GetLE(b[1..])
  }

  function Range(width: nat): nat {
    if width == 0 then 1 else 256 * Range(width - 1)
  }

  /** An integer that fits in its width is read back as written. */
  lemma {:induction false} LittleEndianRoundTrip(width: nat, v: nat)
    requires v < Range(width)
    ensures GetLE(PutLE(width, v)) == v
  {
    if width != 0 {
      assert PutLE(width, v)[1..] == PutLE(width - 1, v / 256);
      LittleEndianRoundTrip(width - 1, v / 256);
    }
  }

  function ToUint64(v: int): nat
    requires IsInt64(v)
  {
    if v >= 0 then v else v + TWO_64
  }

  function ToInt64(v: nat): int {
    if v < TWO_63 then v else v - TWO_64
  }

  lemma Int64RoundTrip(v: int)
    requires IsInt64(v)
    ensures ToInt64(GetLE(PutLE(8, ToUint64(v)))) == v
  {
    assert Range(8) == TWO_64 by {
      assert Range(4) == 0x1_0000_0000;
    }
    LittleEndianRoundTrip(8, ToUint64(v));
  }

  // --- One record ---------------------------------------------------------------------------------

  const HEADER: Bytes := [0x44, 0x57, 0x41, 0x4C, 1, 0, 0, 0]

  /** A record the writer accepts: positions and times are 64-bit, the payload within the cap. */
  predicate Writable(c: Codec, r: Record) {
    IsInt64(r.seqNo) && IsInt64(r.ts) && |c.encode(r.op)| <= MAX_RECORD_PAYLOAD
  }

  function RecHeader(c: Codec, r: Record): (b: Bytes)
    requires Writable(c, r)
    ensures |b| == REC_HEADER_SIZE
  {
    PutLE(4, |c.encode(r.op)|) + PutLE(8, ToUint64(r.seqNo)) + PutLE(8, ToUint64(r.ts))
  }

  /** Length prefix, position, time, payload, checksum. */
  function Frame(c: Codec, r: Record): (b: Bytes)
    requires Writable(c, r)
    ensures |b| == REC_HEADER_SIZE + |c.encode(r.op)| + WAL_CRC_SIZE
  {
    var body := RecHeader(c, r) + c.encode(r.op);
    body + PutLE(4, c.crc(body))
  }

  /** What one read reports: a record and its size, a tail that is not all there, or bytes that are wrong. */
  datatype Parsed = Got(record: Record, size: nat) | Short | Corrupt

  function Parse(c: Codec, b: Bytes): (p: Parsed)
    ensures p.Got? ==> 0 < p.size <= |b|
  {
    if |b| < REC_HEADER_SIZE then Short
    else
      var n := GetLE(b[0..4]);
      if n > MAX_RECORD_PAYLOAD then Corrupt
      else if |b| < REC_HEADER_SIZE + n then Short
      else if |b| < REC_HEADER_SIZE + n + WAL_CRC_SIZE then Short
      else
        var end := REC_HEADER_SIZE + n;
        if GetLE(b[end..end + WAL_CRC_SIZE]) != c.crc(b[..end]) then Corrupt
        else
          match c.decode(b[REC_HEADER_SIZE..end])
          case None => Corrupt
          case Some(op) =>
            Got(Record(ToInt64(GetLE(b[4..12])), ToInt64(GetLE(b[12..20])), op), end + WAL_CRC_SIZE)
  }

  /** The fields of a frame, wherever it stands at the front of a buffer. */
  lemma FrameFields(c: Codec, r: Record, b: Bytes)
    requires Writable(c, r) && |b| >= REC_HEADER_SIZE
    requires b[..REC_HEADER_SIZE] == RecHeader(c, r)
    ensures b[0..4] == PutLE(4, |c.encode(r.op)|)
    ensures b[4..12] == PutLE(8, ToUint64(r.seqNo))
    ensures b[12..20] == PutLE(8, ToUint64(r.ts))
  {
    var h := RecHeader(c, r);
    assert b[0..4] == h[0..4] && b[4..12] == h[4..12] && b[12..20] == h[12..20];
  }

  lemma LengthField(c: Codec, r: Record, b: Bytes)
    requires Writable(c, r) && |b| >= REC_HEADER_SIZE
    requires b[..REC_HEADER_SIZE] == RecHeader(c, r)
    ensures GetLE(b[0..4]) == |c.encode(r.op)|
  {
    FrameFields(c, r, b);
    assert Range(4) == 0x1_0000_0000;
    LittleEndianRoundTrip(4, |c.encode(r.op)|);
  }

  /** A whole frame reads back as its record, whatever follows it. */
  lemma FrameRoundTrip(c: Codec, r: Record, rest: Bytes)
    requires Faithful(c) && Writable(c, r)
    ensures Parse(c, Frame(c, r) + rest) == Got(r, |Frame(c, r)|)
  {
    hide PutLE, GetLE, Range;
    var b := Frame(c, r) + rest;
    var payload := c.encode(r.op);
    var end := REC_HEADER_SIZE + |payload|;
    var body := RecHeader(c, r) + payload;
    assert b[..REC_HEADER_SIZE] == RecHeader(c, r);
    LengthField(c, r, b);
    FrameFields(c, r, b);
    assert b[..end] == body;
    assert b[REC_HEADER_SIZE..end] == payload;
    assert b[end..end + WAL_CRC_SIZE] == PutLE(4, c.crc(body));
    FourBytes(c.crc(body));
    Int64RoundTrip(r.seqNo);
    Int64RoundTrip(r.ts);
  }

  lemma FourBytes(v: Uint32)
    ensures GetLE(PutLE(4, v)) == v
  {
    assert Range(4) == 0x1_0000_0000;
    LittleEndianRoundTrip(4, v);
  }

  /** Any proper prefix of a frame reads as a tail that is not all there, never as corruption. */
  lemma TornFrameIsShort(c: Codec, r: Record, k: nat)
    requires Writable(c, r) && k < |Frame(c, r)|
    ensures Parse(c, Frame(c, r)[..k]) == Short
  {
    hide PutLE, GetLE;
    var b := Frame(c, r)[..k];
    if k >= REC_HEADER_SIZE {
      assert b[..REC_HEADER_SIZE] == RecHeader(c, r);
      LengthField(c, r, b);
    }
  }

  /** The value of the first four bytes, lowest first. */
  function Low(b: Bytes): int
    requires |b| >= 4
  {
    b[0] as int + 0x100 * b[1] as int + 0x1_0000 * b[2] as int + 0x100_0000 * b[3] as int
  }

  /** Bytes are read lowest first. */
  lemma LittleEndianValue(b: Bytes)
    ensures |b| == 4 ==> GetLE(b) == Low(b)
    ensures |b| == 8 ==> GetLE(b) == Low(b) + 0x1_0000_0000 * Low(b[4..])
  {
    if |b| >= 4 { FourLowest(b); }
    if |b| == 8 { FourLowest(b[4..]); }
    if |b| == 4 || |b| == 8 { assert GetLE([]) == 0; }
  }

  lemma FourLowest(b: Bytes)
    requires |b| >= 4
    ensures GetLE(b) == Low(b) + 0x1_0000_0000 * GetLE(b[4..])
  {
    GetLESplit(b);
    GetLESplit(b[1..]);
    GetLESplit(b[2..]);
    GetLESplit(b[3..]);
    assert b[1..][1..] == b[2..] && b[2..][1..] == b[3..] && b[3..][1..] == b[4..];
  }

  lemma GetLESplit(b: Bytes)
    requires b != []
    ensures GetLE(b) == b[0] + 256 * GetLE(b[1..])
  {
  }

  /** A segment opens with the magic letters and version 1; a frame is length, position, time, payload, checksum. */
  lemma FrameLayout(c: Codec, r: Record)
    requires Writable(c, r)
    ensures HEADER == ['D' as int, 'W' as int, 'A' as int, 'L' as int] + PutLE(4, 1) && |HEADER| == WAL_HEADER_SIZE
    ensures var f, n := Frame(c, r), |c.encode(r.op)|;
      && |f| == n + 24 && GetLE(f[0..4]) == n
      && ToInt64(GetLE(f[4..12])) == r.seqNo && ToInt64(GetLE(f[12..20])) == r.ts
      && f[20..20 + n] == c.encode(r.op) && GetLE(f[20 + n..]) == c.crc(f[..20 + n])
  {
    var f, n := Frame(c, r), |c.encode(r.op)|;
    var body := RecHeader(c, r) + c.encode(r.op);
    HeaderBytes();
    hide PutLE, GetLE, Range;
    assert f[..REC_HEADER_SIZE] == RecHeader(c, r);
    LengthField(c, r, f);
    FrameFields(c, r, f);
    assert f[..20 + n] == body && f[20 + n..] == PutLE(4, c.crc(body));
    assert f[20..20 + n] == c.encode(r.op);
    FourBytes(c.crc(body));
    Int64RoundTrip(r.seqNo);
    Int64RoundTrip(r.ts);
  }

  lemma HeaderBytes()
    ensures HEADER == ['D' as int, 'W' as int, 'A' as int, 'L' as int] + PutLE(4, 1) && |HEADER| == WAL_HEADER_SIZE
  {
    assert PutLE(4, 1) == [1] + PutLE(3, 0) && PutLE(3, 0) == [0] + PutLE(2, 0);
    assert PutLE(2, 0) == [0] + PutLE(1, 0) && PutLE(1, 0) == [0] + PutLE(0, 0);
  }

  /** Bytes of the right length whose stored checksum is not theirs are damage, whatever follows them. */
  lemma BadChecksumIsCorrupt(c: Codec, body: Bytes, stored: Uint32, rest: Bytes)
    requires |body| >= REC_HEADER_SIZE && GetLE(body[0..4]) == |body| - REC_HEADER_SIZE <= MAX_RECORD_PAYLOAD
    requires stored != c.crc(body)
    ensures Parse(c, body + PutLE(4, stored) + rest) == Corrupt
  {
    hide PutLE, GetLE;
    var b := body + PutLE(4, stored) + rest;
    assert b[0..4] == body[0..4] && b[..|body|] == body && b[|body|..|body| + 4] == PutLE(4, stored);
    FourBytes(stored);
  }

  /** So is a length past the cap, whatever of the payload is there, and a payload that decodes to nothing. */
  lemma OverlongIsCorrupt(c: Codec, b: Bytes)
    requires |b| >= REC_HEADER_SIZE && GetLE(b[0..4]) > MAX_RECORD_PAYLOAD
    ensures Parse(c, b) == Corrupt
  {
  }

  lemma UndecodableIsCorrupt(c: Codec, body: Bytes, rest: Bytes)
    requires |body| >= REC_HEADER_SIZE && GetLE(body[0..4]) == |body| - REC_HEADER_SIZE <= MAX_RECORD_PAYLOAD
    requires c.decode(body[REC_HEADER_SIZE..]) == None
    ensures Parse(c, body + PutLE(4, c.crc(body)) + rest) == Corrupt
  {
    hide PutLE, GetLE;
    var b := body + PutLE(4, c.crc(body)) + rest;
    assert b[0..4] == body[0..4] && b[..|body|] == body && b[|body|..|body| + 4] == PutLE(4, c.crc(body));
    assert b[REC_HEADER_SIZE..|body|] == body[REC_HEADER_SIZE..];
    FourBytes(c.crc(body));
  }

  // --- A segment's records --------------------------------------------------------------------------

  function Frames(c: Codec, rs: seq<Record>): Bytes
    requires forall i :: 0 <= i < |rs| ==> Writable(c, rs[i])
  {
    if rs == [] then [] else Frame(c, rs[0]) + Frames(c, rs[1..])
  }

  predicate AllWritable(c: Codec, rs: seq<Record>) {
    forall i :: 0 <= i < |rs| ==> Writable(c, rs[i])
  }

  /** Reading records until one is not all there (clean) or wrong (not clean); good counts the bytes that verified. */
  datatype Scan = Scan(records: seq<Record>, good: nat, clean: bool)

  function ScanBytes(c: Codec, b: Bytes): (s: Scan)
    ensures s.good <= |b|
    decreases |b|
  {
    match Parse(c, b)
    case Short => Scan([], 0, true)
    case Corrupt => Scan([], 0, false)
    case Got(r, size) =>
      var s := ScanBytes(c, b[size..]);
      Scan([r] + s.records, size + s.good, s.clean)
  }

  lemma {:induction false} FramesJoin(c: Codec, a: seq<Record>, b: seq<Record>)
    requires AllWritable(c, a) && AllWritable(c, b)
    ensures AllWritable(c, a + b) && Frames(c, a + b) == Frames(c, a) + Frames(c, b)
  {
    hide Frame, Writable;
    if a == [] {
      assert a + b == b;
    } else {
      FramesJoin(c, a[1..], b);
      assert a + b == [a[0]] + (a[1..] + b);
      assert Frames(c, a) == Frame(c, a[0]) + Frames(c, a[1..]);
      assert Frames(c, a + b) == Frame(c, a[0]) + Frames(c, a[1..] + b) by {
        assert (a + b)[1..] == a[1..] + b;
      }
    }
  }

  lemma ScanOfFrame(c: Codec, r: Record, rest: Bytes)
    requires Faithful(c) && Writable(c, r)
    ensures var s := ScanBytes(c, rest);
      ScanBytes(c, Frame(c, r) + rest) == Scan([r] + s.records, |Frame(c, r)| + s.good, s.clean)
  {
    hide Frame, Parse, Writable;
    FrameRoundTrip(c, r, rest);
    assert (Frame(c, r) + rest)[|Frame(c, r)|..] == rest;
  }

  /** Scanning whole records followed by anything: the records, then the scan of the rest. */
  lemma {:induction false} ScanOfFrames(c: Codec, rs: seq<Record>, rest: Bytes)
    requires Faithful(c) && AllWritable(c, rs)
    ensures var s := ScanBytes(c, rest);
      ScanBytes(c, Frames(c, rs) + rest) == Scan(rs + s.records, |Frames(c, rs)| + s.good, s.clean)
  {
    hide ScanBytes, Frame, Writable;
    if rs == [] {
      assert Frames(c, rs) + rest == rest;
    } else {
      ScanOfFrames(c, rs[1..], rest);
      ScanOfFrame(c, rs[0], Frames(c, rs[1..]) + rest);
      assert Frames(c, rs) + rest == Frame(c, rs[0]) + (Frames(c, rs[1..]) + rest);
      assert [rs[0]] + rs[1..] == rs;
    }
  }

  /** The records of which all the bytes are among the first k. */
  function WholeWithin(c: Codec, rs: seq<Record>, k: nat): (m: nat)
    requires forall i :: 0 <= i < |rs| ==> Writable(c, rs[i])
    ensures m <= |rs|
  {
    if rs == [] || |Frame(c, rs[0])| > k then 0 else 1 + WholeWithin(c, rs[1..], k - |Frame(c, rs[0])|)
  }

  /** Scanning this cut of the frames finds the first m records, cleanly, and nothing of the next. */
  ghost predicate FindsWhole(c: Codec, rs: seq<Record>, k: nat, m: nat)
    requires AllWritable(c, rs) && k <= |Frames(c, rs)| && m <= |rs|
  {
    && ScanBytes(c, Frames(c, rs)[..k]) == Scan(rs[..m], |Frames(c, rs[..m])|, true)
    && |Frames(c, rs[..m])| <= k
    && (m < |rs| ==> k < |Frames(c, rs[..m + 1])|)
  }

  lemma FirstFrameTorn(c: Codec, rs: seq<Record>, k: nat)
    requires AllWritable(c, rs) && rs != [] && k < |Frame(c, rs[0])|
    ensures k <= |Frames(c, rs)| && FindsWhole(c, rs, k, 0)
  {
    hide Frame, Writable;
    assert Frames(c, rs)[..k] == Frame(c, rs[0])[..k];
    TornFrameIsShort(c, rs[0], k);
    assert rs[..1] == [rs[0]] && Frames(c, rs[..1]) == Frame(c, rs[0]) + Frames(c, []);
  }

  lemma FirstFrameWhole(c: Codec, rs: seq<Record>, k: nat, m: nat)
    requires Faithful(c) && AllWritable(c, rs) && rs != [] && |Frame(c, rs[0])| <= k <= |Frames(c, rs)|
    requires m < |rs| && FindsWhole(c, rs[1..], k - |Frame(c, rs[0])|, m)
    ensures FindsWhole(c, rs, k, m + 1)
  {
    hide Frame, Writable, ScanBytes;
    var rest := Frames(c, rs[1..])[..k - |Frame(c, rs[0])|];
    assert Frames(c, rs)[..k] == Frame(c, rs[0]) + rest;
    ScanOfFrame(c, rs[0], rest);
    FramesTake(c, rs, m);
    if m + 1 < |rs| { FramesTake(c, rs, m + 1); }
  }

  /**
   * However a log of records is cut, scanning finds exactly the records wholly present,
   * reports no error, and stops just past the last of them.
   */
  lemma {:induction false} TornTail(c: Codec, rs: seq<Record>, k: nat)
    requires Faithful(c) && AllWritable(c, rs) && k <= |Frames(c, rs)|
    ensures FindsWhole(c, rs, k, WholeWithin(c, rs, k))
  {
    hide Frame, Writable, FindsWhole;
    if rs == [] {
      NoFrames(c);
    } else if |Frame(c, rs[0])| > k {
      FirstFrameTorn(c, rs, k);
    } else {
      var size := |Frame(c, rs[0])|;
      TornTail(c, rs[1..], k - size);
      FirstFrameWhole(c, rs, k, WholeWithin(c, rs[1..], k - size));
    }
  }

  lemma NoFrames(c: Codec)
    ensures FindsWhole(c, [], 0, 0)
  {
  }

  lemma FramesTake(c: Codec, rs: seq<Record>, m: nat)
    requires rs != [] && m < |rs| && AllWritable(c, rs)
    ensures rs[..m + 1] == [rs[0]] + rs[1..][..m]
    ensures |Frames(c, rs[..m + 1])| == |Frame(c, rs[0])| + |Frames(c, rs[1..][..m])|
  {
    hide Frame, Writable;
    assert rs[..m + 1][1..] == rs[1..][..m];
  }

  /** The number of whole records grows with the cut, and bytes that hold n records keep at least n. */
  lemma {:induction false} WholeIsMonotone(c: Codec, rs: seq<Record>, n: nat, k: nat)
    requires AllWritable(c, rs) && n <= |rs| && |Frames(c, rs[..n])| <= k
    ensures n <= WholeWithin(c, rs, k)
  {
    hide Frame, Writable;
    if n > 0 {
      FramesTake(c, rs, n - 1);
      WholeIsMonotone(c, rs[1..], n - 1, k - |Frame(c, rs[0])|);
    }
  }
}
