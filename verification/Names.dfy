/** Segment file names: a 19-digit zero-padded first position and a suffix, sorted as strings. */
module Names {
  import opened Types
  import opened Framing
  import opened Wal

  const SUFFIX := ".wal"
  const WIDTH: nat := 19

  function DigitChar(d: int): char
    requires 0 <= d < 10
  {
    '0' + d as char
  }

  /** The last `width` decimal digits of n. */
  function Digits(width: nat, n: nat): (s: string)
    ensures |s| == width
  {
    if width == 0 then "" else Digits(width - 1, n / 10) + [DigitChar(n % 10)]
  }

  function SegmentName(first: nat): string {
    Digits(WIDTH, first) + SUFFIX
  }

  predicate IsDigit(c: char) {
    '0' <= c <= '9'
  }

  /** Parse a decimal number; None when a character is not a digit or there is none. */
  function ParseDigits(s: string): Option<nat> {
    if s == "" then None
    else
      var c := s[|s| - 1];
      if !IsDigit(c) then None
      else
        var d := (c - '0') as int;
        if |s| == 1 then Some(d)
        else
          match ParseDigits(s[..|s| - 1])
          case None => None
          case Some(n) => Some(10 * n + d)
  }

  /** The first position a segment's name carries. */
  function SeqFromName(name: string): Option<nat> {
    if |name| < |SUFFIX| || name[|name| - |SUFFIX|..] != SUFFIX then ParseDigits(name)
    else ParseDigits(name[..|name| - |SUFFIX|])
  }

  /** String order, as sorting compares file names. */
  predicate Less(a: string, b: string) {
    if a == [] || b == [] then a == [] && b != []
    else a[0] < b[0] || (a[0] == b[0] && Less(a[1..], b[1..]))
  }

  function Power10(width: nat): nat {
    if width == 0 then 1 else 10 * Power10(width - 1)
  }

  lemma {:induction false} LessSnoc(a: string, b: string, x: char, y: char)
    requires |a| == |b|
    ensures Less(a + [x], b + [y]) <==> Less(a, b) || (a == b && x < y)
  {
    if a == [] {
      assert (a + [x])[1..] == [] && (b + [y])[1..] == [];
    } else {
      assert (a + [x])[1..] == a[1..] + [x] && (b + [y])[1..] == b[1..] + [y];
      LessSnoc(a[1..], b[1..], x, y);
      assert a == [a[0]] + a[1..] && b == [b[0]] + b[1..];
    }
  }

  lemma {:induction false} LessIgnoresSuffix(a: string, b: string, suffix: string)
    requires |a| == |b|
    ensures Less(a + suffix, b + suffix) <==> Less(a, b)
  {
    if a == [] {
      assert a + suffix == suffix && b + suffix == suffix;
      NotLessThanItself(suffix);
    } else {
      assert (a + suffix)[1..] == a[1..] + suffix && (b + suffix)[1..] == b[1..] + suffix;
      LessIgnoresSuffix(a[1..], b[1..], suffix);
    }
  }

  lemma {:induction false} NotLessThanItself(s: string)
    ensures !Less(s, s)
  {
    if s != [] { NotLessThanItself(s[1..]); }
  }

  lemma DigitOrder(a: int, b: int)
    requires 0 <= a < 10 && 0 <= b < 10
    ensures DigitChar(a) < DigitChar(b) <==> a < b
    ensures DigitChar(a) == DigitChar(b) <==> a == b
    ensures IsDigit(DigitChar(a)) && (DigitChar(a) - '0') as int == a
  {
  }

  /** Fixed-width digits compare as strings the way the numbers compare. */
  lemma {:induction false} DigitsAreOrdered(width: nat, m: nat, n: nat)
    requires m < Power10(width) && n < Power10(width)
    ensures Less(Digits(width, m), Digits(width, n)) <==> m < n
    ensures Digits(width, m) == Digits(width, n) <==> m == n
  {
    if width > 0 {
      DigitsAreOrdered(width - 1, m / 10, n / 10);
      var a, b := Digits(width - 1, m / 10), Digits(width - 1, n / 10);
      var x, y := DigitChar(m % 10), DigitChar(n % 10);
      LessSnoc(a, b, x, y);
      DigitOrder(m % 10, n % 10);
      assert (a + [x])[..width - 1] == a && (b + [y])[..width - 1] == b;
      assert (a + [x])[width - 1] == x && (b + [y])[width - 1] == y;
    }
  }

  lemma WidthFits(n: nat)
    requires n <= MAX_INT64
    ensures n < Power10(WIDTH)
  {
    assert Power10(5) == 100000;
    assert Power10(10) == 10000000000;
    assert Power10(15) == 1000000000000000;
    assert Power10(19) == 10000000000000000000;
  }

  /** Segment names of 64-bit positions sort as strings exactly as the positions do, and never collide. */
  lemma NamesSortAsNumbers(m: nat, n: nat)
    requires m <= MAX_INT64 && n <= MAX_INT64
    ensures Less(SegmentName(m), SegmentName(n)) <==> m < n
    ensures SegmentName(m) == SegmentName(n) <==> m == n
  {
    WidthFits(m);
    WidthFits(n);
    DigitsAreOrdered(WIDTH, m, n);
    LessIgnoresSuffix(Digits(WIDTH, m), Digits(WIDTH, n), SUFFIX);
    assert SegmentName(m)[..WIDTH] == Digits(WIDTH, m) && SegmentName(n)[..WIDTH] == Digits(WIDTH, n);
  }

  lemma {:induction false} ParseOfDigits(width: nat, n: nat)
    requires width > 0 && n < Power10(width)
    ensures ParseDigits(Digits(width, n)) == Some(n)
  {
    var s := Digits(width, n);
    DigitOrder(n % 10, n % 10);
    assert s[|s| - 1] == DigitChar(n % 10) && s[..|s| - 1] == Digits(width - 1, n / 10);
    if width > 1 { ParseOfDigits(width - 1, n / 10); }
  }

  /** A segment's first position is read back from its name. */
  lemma NameRoundTrip(first: nat)
    requires first <= MAX_INT64
    ensures SeqFromName(SegmentName(first)) == Some(first)
  {
    WidthFits(first);
    ParseOfDigits(WIDTH, first);
    var name := SegmentName(first);
    assert name[|name| - |SUFFIX|..] == SUFFIX && name[..|name| - |SUFFIX|] == Digits(WIDTH, first);
  }

  /** So listing a log's directory by name lists its segments in log order. */
  lemma ListingIsLogOrder(c: Codec, dir: Dir, p: Parts, k: nat, i: nat, j: nat)
    requires OnDisk(c, dir, p, k) && i < j < |dir| && |Flat(p.closed)| < MAX_INT64
    ensures 0 < dir[i].first && dir[j].first <= MAX_INT64 && dir[i].first < dir[j].first
    ensures Less(SegmentName(dir[i].first), SegmentName(dir[j].first))
  {
    hide Flat, SegmentHolds, SegmentWhole, SegmentName, Less;
    NameOf(c, dir, p, k, i);
    NameOf(c, dir, p, k, j);
    NamesIncrease(c, dir, p, k);
    FlatGrows(p.closed, j, |p.closed|);
    assert p.closed[..|p.closed|] == p.closed;
    NamesSortAsNumbers(dir[i].first, dir[j].first);
  }
}
