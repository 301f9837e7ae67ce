/** Unescaped run marks whose successor is packed data, and marks in the CRCs of the forks. */
module BinHexCrcMark {
  import opened Words
  import opened Crc
  import opened BinHexRle
  import opened BinHexFile
  import opened BinHexMark

  // ---- streams that differ from the plain one behind the header ------------------------------------------

  lemma VersionOfPlain(f: File)
    requires Writable(f)
    ensures |Plain(f)| == LastCrc(f) + 2 && Plain(f)[1 + |f.name|] == 0
  {
    PlainStarts(f);
    VersionByte(f);
  }

  lemma PrefixDiffers(s: seq<byte>, t: seq<byte>, n: nat, k: nat)
    requires k < n <= |s| && n <= |t| && s[k] != t[k]
    ensures s[..n] != t[..n]
  {
    assert s[..n][k] == s[k] && t[..n][k] == t[k];
  }

  lemma DiffersAt(f: File, raw: seq<byte>, k: nat)
    requires Writable(f) && |raw| >= LastCrc(f) && raw[1 + |f.name|] == 0 && k < LastCrc(f)
    requires |Plain(f)| == LastCrc(f) + 2 && raw[k] != Plain(f)[k]
    ensures !Extracts(raw, f)
  {
    PrefixDiffers(raw, Plain(f), LastCrc(f), k);
    if Extracts(raw, f) {
      AcceptedParts(raw, f);
      PlainKept(f, Plain(f), raw, LastCrc(f));
    }
  }

  /** The same, for a stream that may end behind the CRC of the data fork. */
  lemma DiffersEarly(f: File, raw: seq<byte>, k: nat, n: nat)
    requires Writable(f) && n == 22 + |f.name| + |f.data| + 2 && |raw| >= n && raw[1 + |f.name|] == 0 && k < n
    requires |Plain(f)| == LastCrc(f) + 2 && raw[k] != Plain(f)[k]
    ensures !Extracts(raw, f)
  {
    PrefixDiffers(raw, Plain(f), n, k);
    if Extracts(raw, f) {
      AcceptedParts(raw, f);
      BlockKept(f, raw, n);
    }
  }

  lemma BlockKept(f: File, raw: seq<byte>, n: nat)
    requires Writable(f) && n == 22 + |f.name| + |f.data| + 2 && |raw| >= n && raw[1 + |f.name|] == 0
    requires Recognized(raw, f) && Forked(raw, f, 22 + |f.name|)
    ensures n <= |Plain(f)| && raw[..n] == Plain(f)[..n]
  {
    VersionByte(f);
    CheckedKept(raw, f, |f.name|);
    HeaderChecked(f);
    var g := BlockTaken(raw, Checked(Header(f)), f.data);
    PlainBlock(f, g);
  }

  lemma PlainBlock(f: File, g: seq<byte>)
    requires Writable(f) && g == Checked(Header(f)) + f.data + Bytes(Crc.Of(f.data))
    ensures |g| == 22 + |f.name| + |f.data| + 2 <= |Plain(f)| && Plain(f)[..|g|] == g
  {
    var x := f.rsrc + Bytes(Crc.Of(f.rsrc));
    assert Plain(f) == g + x;
  }

  // ---- one byte is missing ------------------------------------------------------------------------------------

  lemma OneMissing(h: seq<byte>, a: seq<byte>, raw: seq<byte>, p: seq<byte>, k: nat)
    requires a != [] && raw == h + a[1..] && p == h + a && k < |h|
    ensures p[|h|] == a[0] && raw[|h|..] == a[1..] == p[|h| + 1..] && p[|h|..] == a && |raw| == |p| - 1
    ensures raw[k] == p[k]
  {
  }

  lemma {:induction false} SameOnward(p: seq<byte>, q: nat, end: nat)
    requires q <= end < |p| && forall k | q <= k < end :: p[k + 1] == p[k]
    ensures p[end] == p[q]
    decreases end
  {
    if q < end { SameOnward(p, q, end - 1); }
  }

  /** Where one byte is missing, acceptance makes that byte zero. */
  lemma MissingIsZero(f: File, p: seq<byte>, raw: seq<byte>, q: nat, last: nat)
    requires Writable(f) && p == Plain(f) && q <= last == LastCrc(f) && |p| == last + 2 && |raw| == last + 1
    requires raw[..last] == p[..last] && raw[q..] == p[q + 1..]
    requires BigEndian(Cut(raw, last, last + 2)) == Crc.Of(f.rsrc) as int
    ensures p[q] == 0
  {
    forall k | q <= k < last ensures p[k + 1] == p[k] { Shifted(p, raw, q, 1, last, k); }
    SameOnward(p, q, last);
    PlainStarts(f);
    LastByteAlone(raw, last, p[last..], Crc.Of(f.rsrc), p[last + 1]);
  }

  lemma LastByteAlone(raw: seq<byte>, last: nat, d: seq<byte>, c: half, b: byte)
    requires |raw| == last + 1 && d == Bytes(c) && d[1] == b == raw[last] && BigEndian(Cut(raw, last, last + 2)) == c as int
    ensures d[0] == 0
  {
    var s := Cut(raw, last, last + 2);
    assert s == [b];
    ShortNumber(s);
    BytesBack(c);
    TwoBytes(d);
  }

  lemma ShortNumber(s: seq<byte>)
    requires |s| < 2
    ensures BigEndian(s) == if s == [] then 0 else s[0] as int
  {
    if s != [] {
      assert s == [] + [s[0]];
      BigEndianSnoc([], s[0]);
    }
  }

  lemma TwoBytes(d: seq<byte>)
    requires |d| == 2
    ensures var x: int, y: int := d[0], d[1]; BigEndian(d) == 256 * x + y
  {
    var s := [d[0]];
    ShortNumber(s);
    assert d == s + [d[1]];
    BigEndianSnoc(s, d[1]);
  }

  /** A byte is missing behind `g` and the mark: that goes unnoticed exactly when all that follows is zero. */
  lemma OneShort(f: File, g: seq<byte>, a: seq<byte>, raw: seq<byte>)
    requires Writable(f) && Plain(f) == (g + [RUN]) + a && 21 + |f.name| <= |g| && |f.rsrc| + 2 <= |a|
    requires raw == (g + [RUN]) + a[1..]
    ensures Extracts(raw, f) <==> Zeros(a)
  {
    var h, p := g + [RUN], Plain(f);
    OneMissing(h, a, raw, p, 1 + |f.name|);
    VersionOfPlain(f);
    if Zeros(a) { ZerosMissing(f, h, a, raw); }
    if Extracts(raw, f) {
      AcceptedParts(raw, f);
      PlainKept(f, Plain(f), raw, LastCrc(f));
      ShortZeros(f, h, a, raw);
    }
  }

  lemma ShortZeros(f: File, h: seq<byte>, a: seq<byte>, raw: seq<byte>)
    requires Writable(f) && Plain(f) == h + a && 22 + |f.name| <= |h| && |f.rsrc| + 2 <= |a| && raw == h + a[1..]
    requires |Plain(f)| == LastCrc(f) + 2 && |raw| >= LastCrc(f) && raw[..LastCrc(f)] == Plain(f)[..LastCrc(f)]
    requires BigEndian(Cut(raw, LastCrc(f), LastCrc(f) + 2)) == Crc.Of(f.rsrc) as int
    ensures Zeros(a)
  {
    var p := Plain(f);
    OneMissing(h, a, raw, p, 1 + |f.name|);
    MissingIsZero(f, p, raw, |h|, LastCrc(f));
    ShiftedByOne(f, p, raw, |h|, LastCrc(f));
  }

  /** Nothing but zeros, of which the first is missing, may as well lack the last. */
  lemma ZerosMissing(f: File, h: seq<byte>, a: seq<byte>, raw: seq<byte>)
    requires Writable(f) && Plain(f) == h + a && |f.rsrc| + 2 <= |a| && Zeros(a) && raw == h + a[1..]
    ensures Extracts(raw, f)
  {
    var d := Bytes(Crc.Of(f.rsrc));
    PlainEnds(f, h, a);
    ZerosCrc(f.rsrc);
    LacksLast(Checked(Header(f)), f.data, Bytes(Crc.Of(f.data)), f.rsrc, Plain(f));
    ZerosLackOne(h, a, raw, Plain(f));
    ShortExtracts(f, raw);
  }

  lemma PlainEnds(f: File, h: seq<byte>, a: seq<byte>)
    requires Writable(f) && Plain(f) == h + a && |f.rsrc| + 2 <= |a| && Zeros(a)
    ensures Zeros(f.rsrc)
  {
    var p, last := Plain(f), LastCrc(f);
    PlainStarts(f);
    assert f.rsrc == p[..last][last - |f.rsrc|..];
    forall i | 0 <= i < |f.rsrc| ensures f.rsrc[i] == 0 {
      assert f.rsrc[i] == p[last - |f.rsrc| + i] == a[last - |f.rsrc| + i - |h|];
    }
  }

  lemma ZerosLackOne(h: seq<byte>, a: seq<byte>, raw: seq<byte>, p: seq<byte>)
    requires a != [] && Zeros(a) && raw == h + a[1..] && p == h + a
    ensures raw == p[..|p| - 1]
  {
  }

  lemma LacksLast(h: seq<byte>, a: seq<byte>, c: seq<byte>, r: seq<byte>, p: seq<byte>)
    requires p == h + (a + (c + (r + Bytes(0))))
    ensures p[..|p| - 1] == h + (a + (c + (r + [0])))
  {
    assert Bytes(0) == [0] + [0];
  }

  // ---- two bytes are missing ------------------------------------------------------------------------------------

  lemma PairGone(g: seq<byte>, m: byte, a: seq<byte>, raw: seq<byte>, p: seq<byte>, k: nat)
    requires a != [] && raw == g + a[1..] && p == (g + [m]) + a && k < |g|
    ensures p[|g|] == m && p[|g| + 1] == a[0] && raw[|g|..] == a[1..] == p[|g| + 2..] && raw[k] == p[k]
    ensures |raw| == |p| - 2
  {
  }

  /** The mark and the byte behind it, which is not zero, are missing: that is always noticed. */
  lemma TwoShort(f: File, g: seq<byte>, a: seq<byte>, raw: seq<byte>)
    requires Writable(f) && Plain(f) == (g + [RUN]) + a && 21 + |f.name| <= |g| && 2 <= |a| && a[0] != 0
    requires raw == g + a[1..]
    ensures !Extracts(raw, f)
  {
    PairGone(g, RUN, a, raw, Plain(f), 1 + |f.name|);
    VersionOfPlain(f);
    ShortByTwo(f, Plain(f), raw, |g|, LastCrc(f), Cut(raw, LastCrc(f), LastCrc(f) + 2));
    if Extracts(raw, f) {
      AcceptedParts(raw, f);
      PlainKept(f, Plain(f), raw, LastCrc(f));
    }
  }

  // ---- a mark that takes the first byte of a packed fork ----------------------------------------------------------

  /** The first run of the data: its token, and the rest of the runs. */
  lemma FirstRun(data: seq<byte>) returns (run: nat, more: seq<byte>)
    requires data != []
    ensures 1 <= run <= 255 && run <= |data| && data[..run] == Rep(data[0], run)
    ensures more == Written(Runs(data, run)) && Rle(data) == Token(data[0], run) + more
    ensures Zeros(data) && |data| >= 3 ==> run >= 3
  {
    run := RunText(data, 0);
    run := run + 1;
    more := Written(Runs(data, run));
    assert Runs(data, 0)[1..] == Runs(data, run) && Runs(data, 0)[0] == Run(data[0], run);
    assert data[0..run] == data[..run];
    if Zeros(data) && |data| >= 3 { LongRun(data); }
  }

  lemma LongRun(data: seq<byte>)
    requires |data| >= 3 && data[0] == data[1] == data[2]
    ensures RunEnd(data, 0, 0) >= 2
  {
    assert RunEnd(data, 0, 0) == RunEnd(data, 0, 1) == RunEnd(data, 0, 2);
  }

  lemma MoreYields(data: seq<byte>, run: nat, last: byte) returns (next: byte)
    requires run <= |data|
    ensures Yields(Written(Runs(data, run)), last, data[run..], next)
  {
    next := LastOf(Runs(data, run), last);
    RunsText(data, run);
    WrittenYields(Runs(data, run), last);
  }

  lemma MarkYields(n: byte, last: byte)
    requires n > 0
    ensures Yields([RUN, n], last, Rep(last, n - 1), last)
  {
    forall rest ensures Expand([RUN, n] + rest, false, last) == Rep(last, n - 1) + Expand(rest, false, last) {
      ExpandRun(n, rest, last);
    }
  }

  /** Encoded data whose first byte the mark has taken: what is left of it decodes to the rest of the data, or, after
      a run of three or more, to bytes that start with the one before. */
  lemma FirstByteTaken(data: seq<byte>, last: byte) returns (ra: seq<byte>, a: seq<byte>, next: byte)
    requires data != [] && data[0] != RUN
    ensures Rle(data) == [data[0]] + ra && Yields(ra, last, a, next) && |a| == |data| - 1
    ensures a == data[1..] || (|data| >= 3 && a[0] == last)
    ensures Zeros(data) && |data| >= 3 ==> a[0] == last
    ensures |data| < 3 ==> a == data[1..]
  {
    var b := data[0];
    var run, more := FirstRun(data);
    if run == 1 {
      ra, a := more, data[1..];
      assert Rep(b, 1) == [b];
      next := MoreYields(data, 1, last);
    } else if run == 2 {
      ra, a := [b] + more, data[1..];
      assert Rep(b, 2) + more == [b] + ra;
      assert data[1] == data[..2][1] == b;
      assert a == [b] + data[2..];
      LiteralYields(b, last);
      next := MoreYields(data, 2, b);
      Compose(ra, [b], more, a, [b], data[2..], last, b, next);
    } else {
      ra, a := [RUN, run] + more, Rep(last, run - 1) + data[run..];
      assert [b, RUN, run] + more == [b] + ra;
      MarkYields(run, last);
      next := MoreYields(data, run, last);
      Compose(ra, [RUN, run], more, a, Rep(last, run - 1), data[run..], last, last, next);
    }
  }

  /** `x` decodes to `y` wherever it comes. */
  ghost predicate Ends(x: seq<byte>, y: seq<byte>) { forall l {:trigger Expand(x, false, l)} :: Expand(x, false, l) == y }

  /** The same for a fork `s` and what follows it, packed as `x`, plain `t`; with no fork it is the zero of its CRC. */
  lemma FirstTaken(s: seq<byte>, x: seq<byte>, t: seq<byte>, last: byte) returns (b: byte, rest: seq<byte>, y: seq<byte>)
    requires Ends(x, t) && (s == [] ==> x != [] && t != [] && x[0] == t[0] == 0 && Ends(x[1..], t[1..]))
    ensures Rle(s) + x == [b] + rest && s + t != [] && b == (s + t)[0]
    ensures b != RUN ==> Expand(rest, false, last) == y && |y| == |s + t| - 1
    ensures b != RUN ==> y == (s + t)[1..] || (|s| >= 3 && y[0] == last)
    ensures b != RUN && Zeros(s) && |s| >= 3 ==> y[0] == last
    ensures b != RUN && |s| < 3 ==> y == (s + t)[1..]
  {
    if s == [] {
      b, rest, y := 0, x[1..], t[1..];
      assert Rle(s) == [] && [] + x == x == [0] + rest && [] + t == t;
    } else if s[0] == RUN {
      MarkFirst(s);
      b, rest, y := RUN, (Rle(s) + x)[1..], t;
    } else {
      var ra, a, next := FirstByteTaken(s, last);
      b, rest, y := s[0], ra + x, a + t;
      assert Expand(ra + x, false, last) == a + Expand(x, false, next);
      Assoc([b], ra, x);
      BytesTaken(s, a, t, s + t, y);
    }
  }

  lemma BytesTaken(data: seq<byte>, a: seq<byte>, x: seq<byte>, whole: seq<byte>, y: seq<byte>)
    requires data != [] && |a| == |data| - 1 && whole == data + x && y == a + x
    ensures whole[0] == data[0] && |y| == |whole| - 1 && (a == data[1..] ==> y == whole[1..])
    ensures a != [] ==> y[0] == a[0]
  {
  }

  lemma MarkFirst(data: seq<byte>)
    requires data != [] && data[0] == RUN
    ensures Rle(data) != [] && Rle(data)[0] == RUN
  {
    var run, more := FirstRun(data);
    EscapesFirst(run);
  }

  lemma EscapesFirst(n: nat)
    requires n > 0
    ensures Escapes(n) != [] && Escapes(n)[0] == RUN
  {
  }

  lemma CleanEnds(d: seq<byte>)
    requires Clean(d)
    ensures Ends(d, d)
  {
    forall l ensures Expand(d, false, l) == d {
      CleanYields(d, l);
      EndYields(d, l, d, Last(d, l));
    }
  }

  lemma ForkEnds(z: seq<byte>, s: seq<byte>, d: seq<byte>)
    requires Clean(z) && Clean(d)
    ensures Ends(z + (Rle(s) + d), z + (s + d))
  {
    forall l ensures Expand(z + (Rle(s) + d), false, l) == z + (s + d) {
      CleanYields(z, l);
      var m := ExpandRle(s, Last(z, l));
      CleanYields(d, m);
      Compose(Rle(s) + d, Rle(s), d, s + d, s, d, Last(z, l), m, Last(d, m));
      Compose(z + (Rle(s) + d), z, Rle(s) + d, z + (s + d), z, s + d, l, Last(z, l), Last(d, m));
      EndYields(z + (Rle(s) + d), l, z + (s + d), Last(d, m));
    }
  }

  /** A mark behind `g`, and behind it the fork `s` and the rest `t`: what the decoder makes of the byte it takes. */
  lemma TakenIff(f: File, g: seq<byte>, l: byte, s: seq<byte>, t: seq<byte>, b: byte, y: seq<byte>, raw: seq<byte>)
    requires Writable(f) && Plain(f) == (g + [RUN]) + (s + t) && 21 + |f.name| <= |g| && l != RUN
    requires |s + t| == |s| + |t| && |f.rsrc| + 2 <= |s + t| && 2 <= |t| && b == (s + t)[0] && b < 2
    requires raw == g + (Marked(b, l) + y) && |y| == |s + t| - 1
    requires y == (s + t)[1..] || (|s| >= 3 && y[0] == if b == 0 then RUN else l)
    requires Zeros(s) && |s| >= 3 ==> y[0] == if b == 0 then RUN else l
    requires |s| < 3 ==> y == (s + t)[1..]
    ensures Extracts(raw, f) <==> Zeros(s + t) && |s| < 3
  {
    if b == 0 {
      Assoc(g, [RUN], y);
      ZeroTaken(f, g, s, t, y, raw);
    } else {
      assert Marked(1, l) == [] && [] + y == y;
      OneTaken(f, g, l, s, t, y, raw);
    }
  }

  lemma ZeroTaken(f: File, g: seq<byte>, s: seq<byte>, t: seq<byte>, y: seq<byte>, raw: seq<byte>)
    requires Writable(f) && Plain(f) == (g + [RUN]) + (s + t) && 21 + |f.name| <= |g|
    requires |f.rsrc| + 2 <= |s + t| && 2 <= |t| && (s + t)[0] == 0
    requires raw == (g + [RUN]) + y && |y| == |s + t| - 1
    requires y == (s + t)[1..] || (|s| >= 3 && y[0] == RUN)
    requires Zeros(s) && |s| >= 3 ==> y[0] == RUN
    requires |s| < 3 ==> y == (s + t)[1..]
    ensures Extracts(raw, f) <==> Zeros(s + t) && |s| < 3
  {
    var a := s + t;
    if y == a[1..] {
      OneShort(f, g, a, raw);
      if Zeros(a) { ZerosInFront(s, t, a, y); }
    } else {
      FirstDiffers(g + [RUN], y, a, raw, Plain(f), 1 + |f.name|);
      VersionOfPlain(f);
      DiffersAt(f, raw, |g| + 1);
    }
  }

  lemma ZerosInFront(s: seq<byte>, t: seq<byte>, a: seq<byte>, y: seq<byte>)
    requires a == s + t && a != [] && Zeros(a) && y == a[1..]
    ensures Zeros(s) && Zeros(y)
  {
    forall i | 0 <= i < |s| ensures s[i] == 0 { assert s[i] == a[i]; }
    forall i | 0 <= i < |y| ensures y[i] == 0 { assert y[i] == a[i + 1]; }
  }

  lemma FirstDiffers(h: seq<byte>, y: seq<byte>, a: seq<byte>, raw: seq<byte>, p: seq<byte>, k: nat)
    requires y != [] && a != [] && y[0] != a[0] && raw == h + y && p == h + a && k < |h|
    ensures raw[|h|] != p[|h|] && raw[k] == p[k] && |raw| == |h| + |y|
  {
  }

  lemma OneTaken(f: File, g: seq<byte>, l: byte, s: seq<byte>, t: seq<byte>, y: seq<byte>, raw: seq<byte>)
    requires Writable(f) && Plain(f) == (g + [RUN]) + (s + t) && 21 + |f.name| <= |g| && l != RUN
    requires |f.rsrc| + 2 <= |s + t| && 2 <= |t| && (s + t)[0] == 1
    requires raw == g + y && |y| == |s + t| - 1
    requires y == (s + t)[1..] || (|s| >= 3 && y[0] == l)
    ensures !Extracts(raw, f) && !Zeros(s + t)
  {
    var a := s + t;
    if y == a[1..] {
      TwoShort(f, g, a, raw);
    } else {
      Assoc(g, [RUN], a);
      FirstDiffers(g, y, [RUN] + a, raw, Plain(f), 1 + |f.name|);
      VersionOfPlain(f);
      DiffersAt(f, raw, |g|);
    }
  }

  /** A mark and its successor behind a stretch that decodes to `out`. */
  lemma MarkBehind(p: seq<byte>, out: seq<byte>, l: byte, b: byte, rest: seq<byte>, y: seq<byte>)
    requires Yields(p, 0, out, l) && Expand(rest, false, if b == 0 then RUN else l) == y
    ensures Expand(p + ([RUN, b] + rest), false, 0) == out + (Marked(b, l) + y)
  {
    ExpandRun(b, rest, l);
  }

  lemma JoinFour(u: seq<byte>, m: byte, b: byte, rest: seq<byte>)
    ensures (u + [m]) + ([b] + rest) == u + ([m, b] + rest)
  {
  }

  // ---- the last byte of the header's CRC ----------------------------------------------------------------------------

  /** The last byte of the header's CRC is the only unescaped mark. */
  predicate EndingMark(f: File, u: seq<byte>)
    requires Writable(f)
  {
    && Checked(Header(f)) == u + [RUN] && Clean(u) && Clean(Bytes(Crc.Of(f.data))) && Clean(Bytes(Crc.Of(f.rsrc)))
  }

  lemma BehindHeader(f: File, x: seq<byte>, t: seq<byte>, c: seq<byte>, d: seq<byte>)
    requires Writable(f) && c == Bytes(Crc.Of(f.data)) && d == Bytes(Crc.Of(f.rsrc)) && Clean(c) && Clean(d)
    requires x == c + (Rle(f.rsrc) + d) && t == c + (f.rsrc + d)
    ensures Ends(x, t) && After(f) == f.data + t && |t| == |f.rsrc| + 4
    ensures f.data == [] ==> x != [] && x[0] == t[0] == 0 && Ends(x[1..], t[1..])
  {
    ForkEnds(c, f.rsrc, d);
    if f.data == [] {
      assert c == [0] + [0];
      ForkEnds([0], f.rsrc, d);
      assert x[1..] == [0] + (Rle(f.rsrc) + d) && t[1..] == [0] + (f.rsrc + d);
    }
  }

  /** The byte the mark takes, and what the decoder makes of the stream. */
  lemma EndingDecoded(f: File, u: seq<byte>, t: seq<byte>, d: seq<byte>, l: byte) returns (b: byte, rest: seq<byte>, y: seq<byte>)
    requires Writable(f) && EndingMark(f, u) && d == Bytes(Crc.Of(f.rsrc)) && l == Last(u, 0)
    requires t == Bytes(Crc.Of(f.data)) + (f.rsrc + d)
    ensures Encoded(f) == u + ([RUN, b] + rest) && |f.data + t| == |f.data| + |t| && b == (f.data + t)[0]
    ensures b < 2 ==> Expand(Encoded(f), false, 0) == u + (Marked(b, l) + y) && |y| == |f.data + t| - 1
    ensures b < 2 ==> y == (f.data + t)[1..] || (|f.data| >= 3 && y[0] == if b == 0 then RUN else l)
    ensures b < 2 && Zeros(f.data) && |f.data| >= 3 ==> y[0] == if b == 0 then RUN else l
    ensures b < 2 && |f.data| < 3 ==> y == (f.data + t)[1..]
  {
    var c := Bytes(Crc.Of(f.data));
    var x := c + (Rle(f.rsrc) + d);
    BehindHeader(f, x, t, c, d);
    b, rest, y := FirstTaken(f.data, x, t, if (f.data + t)[0] == 0 then RUN else l);
    JoinFour(u, RUN, b, rest);
    CleanYields(u, 0);
    if b < 2 { MarkBehind(u, u, l, b, rest, y); }
  }

  /**
   * Exactly when a mark that ends the header's CRC goes unnoticed: the file is read back if and only if nothing but
   * zeros follows and the data fork has fewer than three of them, so that they are not packed as a run.
   */
  lemma EndingMarkIff(f: File, u: seq<byte>)
    requires Writable(f) && EndingMark(f, u)
    ensures ReadBack(f) <==> Zeros(After(f)) && |f.data| < 3
  {
    var c, d, l := Bytes(Crc.Of(f.data)), Bytes(Crc.Of(f.rsrc)), Last(u, 0);
    var t := c + (f.rsrc + d);
    var b, rest, y := EndingDecoded(f, u, t, d, l);
    if b >= 2 {
      FirstMarkFails(f, u, b, rest);
      assert After(f)[0] != 0;
    } else {
      ReadIsExtract(f);
      TakenIff(f, u, l, f.data, t, b, y, Expand(Encoded(f), false, 0));
    }
  }

  // ---- the CRC of the data fork ---------------------------------------------------------------------------------------

  /** Everything up to the CRC of the data fork. */
  lemma HeadYields(f: File) returns (m: byte)
    requires Writable(f) && Clean(Checked(Header(f)))
    ensures Yields(Checked(Header(f)) + Rle(f.data), 0, Checked(Header(f)) + f.data, m)
  {
    var h := Checked(Header(f));
    CleanYields(h, 0);
    m := ExpandRle(f.data, Last(h, 0));
    Compose(h + Rle(f.data), h, Rle(f.data), h + f.data, h, f.data, 0, Last(h, 0), m);
  }

  lemma Regrouped(h: seq<byte>, a: seq<byte>, c: seq<byte>, x: seq<byte>)
    ensures h + (a + (c + x)) == (h + a) + (c + x) && (h + a) + (c + x) == ((h + a) + c) + x
  {
  }

  lemma TwoInFront(g: seq<byte>, b: byte, x: seq<byte>)
    ensures g + ([RUN, b] + x) == (g + [RUN]) + ([b] + x) && ([b] + x)[1..] == x && ([b] + x)[0] == b
  {
    assert [RUN, b] + x == [RUN] + ([b] + x);
  }

  /**
   * Exactly when a mark that begins the data fork's CRC goes unnoticed: a zero follows it, and then nothing but zeros.
   */
  lemma FirstOfDataCrcIff(f: File, b: byte)
    requires Writable(f) && Clean(Checked(Header(f))) && Bytes(Crc.Of(f.data)) == [RUN, b] && b != RUN
    requires Clean(Bytes(Crc.Of(f.rsrc)))
    ensures ReadBack(f) <==> b == 0 && Zeros(f.rsrc + Bytes(Crc.Of(f.rsrc)))
  {
    var h, d := Checked(Header(f)), Bytes(Crc.Of(f.rsrc));
    var g, x, t := h + f.data, Rle(f.rsrc) + d, f.rsrc + d;
    var m := HeadYields(f);
    ForkEnds([], f.rsrc, d);
    assert [] + x == x && [] + t == t;
    Regrouped(h, Rle(f.data), [RUN, b], x);
    Regrouped(h, f.data, [RUN, b], t);
    MarkBehind(h + Rle(f.data), g, m, b, x, t);
    TwoInFront(g, b, t);
    ReadIsExtract(f);
    FirstOfCrc(f, g, m, b, t, Expand(Encoded(f), false, 0));
    if b == 0 { ZeroInFront(t); }
  }

  lemma ZeroInFront(t: seq<byte>)
    ensures Zeros([0] + t) <==> Zeros(t)
  {
    var s: seq<byte> := [0] + t;
    assert forall i | 0 <= i < |t| :: t[i] == s[i + 1];
  }

  lemma FirstOfCrc(f: File, g: seq<byte>, m: byte, b: byte, t: seq<byte>, raw: seq<byte>)
    requires Writable(f) && Plain(f) == (g + [RUN]) + ([b] + t) && 22 + |f.name| <= |g| && |f.rsrc| + 2 <= |t| && b != RUN
    requires raw == g + (Marked(b, m) + t)
    ensures Extracts(raw, f) <==> b == 0 && Zeros([b] + t)
  {
    if b == 1 {
      assert Marked(b, m) + t == t;
      FirstGone(f, g, b, t, raw);
    } else if b == 0 || (b == 2 && m == RUN) {
      MarkBack(b, m);
      Assoc(g, [RUN], t);
      FirstBack(f, g, b, t, raw);
    } else {
      FirstDiffer(f, g, m, b, t, raw);
    }
  }

  lemma MarkBack(b: byte, m: byte)
    requires b == 0 || (b == 2 && m == RUN)
    ensures Marked(b, m) == [RUN]
  {
  }

  lemma FirstBack(f: File, g: seq<byte>, b: byte, t: seq<byte>, raw: seq<byte>)
    requires Writable(f) && Plain(f) == (g + [RUN]) + ([b] + t) && 22 + |f.name| <= |g| && |f.rsrc| + 2 <= |t|
    requires raw == (g + [RUN]) + t
    ensures Extracts(raw, f) <==> b == 0 && Zeros([b] + t)
  {
    var a := [b] + t;
    assert a[1..] == t && a[0] == b;
    OneShort(f, g, a, raw);
  }

  lemma FirstGone(f: File, g: seq<byte>, b: byte, t: seq<byte>, raw: seq<byte>)
    requires Writable(f) && Plain(f) == (g + [RUN]) + ([b] + t) && 22 + |f.name| <= |g| && |f.rsrc| + 2 <= |t|
    requires raw == g + t && b != 0
    ensures !Extracts(raw, f)
  {
    var a := [b] + t;
    assert a[1..] == t && a[0] == b;
    TwoShort(f, g, a, raw);
  }

  lemma FirstDiffer(f: File, g: seq<byte>, m: byte, b: byte, t: seq<byte>, raw: seq<byte>)
    requires Writable(f) && Plain(f) == (g + [RUN]) + ([b] + t) && 22 + |f.name| <= |g| && |f.rsrc| + 2 <= |t|
    requires raw == g + (Marked(b, m) + t) && b != RUN && b >= 2 && (m == RUN ==> b >= 3)
    ensures !Extracts(raw, f)
  {
    VersionOfPlain(f);
    if m != RUN {
      FirstRepeated(g, m, b, t, raw, Plain(f), 1 + |f.name|);
      DiffersAt(f, raw, |g|);
    } else {
      SecondRepeated(g, b, t, raw, Plain(f), 1 + |f.name|);
      DiffersAt(f, raw, |g| + 1);
    }
  }

  /** A byte other than the mark is repeated in its place. */
  lemma FirstRepeated(g: seq<byte>, m: byte, b: byte, t: seq<byte>, raw: seq<byte>, p: seq<byte>, k: nat)
    requires raw == g + (Marked(b, m) + t) && p == (g + [RUN]) + ([b] + t) && m != RUN && b >= 2 && k < |g|
    ensures |raw| >= |p| - 1 && raw[|g|] != p[|g|] && raw[k] == p[k]
  {
    assert raw[|g|] == Marked(b, m)[0] == m;
  }

  /** The mark itself is repeated. */
  lemma SecondRepeated(g: seq<byte>, b: byte, t: seq<byte>, raw: seq<byte>, p: seq<byte>, k: nat)
    requires raw == g + (Marked(b, RUN) + t) && p == (g + [RUN]) + ([b] + t) && b >= 3 && b != RUN && k < |g|
    ensures |raw| >= |p| && raw[|g| + 1] != p[|g| + 1] && raw[k] == p[k]
  {
    assert raw[|g| + 1] == Marked(b, RUN)[1] == RUN;
  }

  /** The stream up to a mark that ends the data fork's CRC, and the byte it takes. */
  lemma SecondDecoded(f: File, c: byte, g: seq<byte>, d: seq<byte>) returns (b: byte, y: seq<byte>, z: seq<byte>)
    requires Writable(f) && Clean(Checked(Header(f))) && Bytes(Crc.Of(f.data)) == [c, RUN] && c != RUN
    requires d == Bytes(Crc.Of(f.rsrc)) && Clean(d) && g == (Checked(Header(f)) + f.data) + [c]
    ensures b == (f.rsrc + d)[0] && Expand(Encoded(f), false, 0) == g + (Marked(b, c) + z) && (b < 2 ==> z == y)
    ensures b < 2 ==> |y| == |f.rsrc + d| - 1
    ensures b < 2 ==> y == (f.rsrc + d)[1..] || (|f.rsrc| >= 3 && y[0] == if b == 0 then RUN else c)
    ensures b < 2 && Zeros(f.rsrc) && |f.rsrc| >= 3 ==> y[0] == if b == 0 then RUN else c
    ensures b < 2 && |f.rsrc| < 3 ==> y == (f.rsrc + d)[1..]
  {
    var h, rest := Checked(Header(f)), [];
    var p := h + Rle(f.data);
    BehindData(f, d);
    b, rest, y := FirstTaken(f.rsrc, d, d, if (f.rsrc + d)[0] == 0 then RUN else c);
    z := Expand(rest, false, if b == 0 then RUN else c);
    var m := HeadYields(f);
    LiteralYields(c, m);
    Compose(p + [c], p, [c], g, h + f.data, [c], 0, m, c);
    MarkBehind(p + [c], g, c, b, rest, z);
    PackedAround(h, Rle(f.data), c, Rle(f.rsrc) + d, b, rest);
  }

  lemma PackedAround(h: seq<byte>, a: seq<byte>, c: byte, x: seq<byte>, b: byte, rest: seq<byte>)
    requires x == [b] + rest
    ensures h + (a + ([c, RUN] + x)) == ((h + a) + [c]) + ([RUN, b] + rest)
  {
    Regrouped(h, a, [c, RUN], x);
    assert [c, RUN] + x == [c] + ([RUN, b] + rest);
  }

  lemma BehindData(f: File, d: seq<byte>)
    requires Writable(f) && d == Bytes(Crc.Of(f.rsrc)) && Clean(d)
    ensures Ends(d, d) && (f.rsrc == [] ==> d[0] == 0 && Ends(d[1..], d[1..])) && f.rsrc + d != []
  {
    CleanEnds(d);
    CleanEnds(d[1..]);
  }

  /**
   * Exactly when a mark that ends the data fork's CRC goes unnoticed: the resource fork has fewer than three bytes,
   * and it and its CRC are zero.
   */
  lemma SecondOfDataCrcIff(f: File, c: byte)
    requires Writable(f) && Clean(Checked(Header(f))) && Bytes(Crc.Of(f.data)) == [c, RUN] && c != RUN
    requires Clean(Bytes(Crc.Of(f.rsrc)))
    ensures ReadBack(f) <==> Zeros(f.rsrc + Bytes(Crc.Of(f.rsrc))) && |f.rsrc| < 3
  {
    var h, d := Checked(Header(f)), Bytes(Crc.Of(f.rsrc));
    var g := (h + f.data) + [c];
    var b, y, z := SecondDecoded(f, c, g, d);
    PlainAround(f, c, g, d);
    ReadIsExtract(f);
    var raw := Expand(Encoded(f), false, 0);
    if b < 2 {
      TakenIff(f, g, c, f.rsrc, d, b, y, raw);
    } else {
      SecondFails(f, g, c, b, z, raw, f.rsrc + d);
    }
  }

  lemma PlainAround(f: File, c: byte, g: seq<byte>, d: seq<byte>)
    requires Writable(f) && Bytes(Crc.Of(f.data)) == [c, RUN] && g == (Checked(Header(f)) + f.data) + [c]
    requires d == Bytes(Crc.Of(f.rsrc))
    ensures Plain(f) == (g + [RUN]) + (f.rsrc + d) && |g| == 23 + |f.name| + |f.data|
  {
    var h, x := Checked(Header(f)), f.rsrc + d;
    Regrouped(h, f.data, [c, RUN], x);
    assert [c, RUN] == [c] + [RUN];
    Assoc(h + f.data, [c], [RUN]);
  }

  lemma SecondFails(f: File, g: seq<byte>, c: byte, b: byte, z: seq<byte>, raw: seq<byte>, a: seq<byte>)
    requires Writable(f) && Plain(f) == (g + [RUN]) + a && |g| == 23 + |f.name| + |f.data| && c != RUN && b >= 2
    requires raw == g + (Marked(b, c) + z) && a != [] && a[0] == b
    ensures !Extracts(raw, f) && !Zeros(a)
  {
    Repeated(g, c, b, z, raw, a, Plain(f), 1 + |f.name|);
    VersionOfPlain(f);
    DiffersEarly(f, raw, |g|, |g| + 1);
  }

  lemma Repeated(g: seq<byte>, c: byte, b: byte, z: seq<byte>, raw: seq<byte>, a: seq<byte>, p: seq<byte>, k: nat)
    requires raw == g + (Marked(b, c) + z) && p == (g + [RUN]) + a && c != RUN && b >= 2 && k < |g|
    ensures |raw| >= |g| + 1 && raw[|g|] != p[|g|] && raw[k] == p[k]
  {
    assert raw[|g|] == Marked(b, c)[0] == c;
  }

  // ---- the CRC of the resource fork -----------------------------------------------------------------------------------

  lemma {:induction false} LastOfText(rs: seq<Run>, last: byte)
    requires AllSized(rs)
    ensures Last(Text(rs), last) == LastOf(rs, last)
    decreases |rs|
  {
    if rs != [] {
      assert Sized(rs[0]);
      LastOfText(rs[1..], rs[0].value);
      var a, b := Rep(rs[0].value, rs[0].length), Text(rs[1..]);
      assert Last(a + b, last) == if b == [] then rs[0].value else b[|b| - 1];
    }
  }

  /** Everything up to the CRC of the resource fork. */
  lemma BodyYields(f: File, p: seq<byte>, out: seq<byte>) returns (m: byte)
    requires Writable(f) && Clean(Checked(Header(f))) && Clean(Bytes(Crc.Of(f.data))) && f.rsrc != []
    requires p == (Checked(Header(f)) + Rle(f.data)) + (Bytes(Crc.Of(f.data)) + Rle(f.rsrc))
    requires out == (Checked(Header(f)) + f.data) + (Bytes(Crc.Of(f.data)) + f.rsrc)
    ensures Yields(p, 0, out, m) && m == f.rsrc[|f.rsrc| - 1]
  {
    var h, c := Checked(Header(f)), Bytes(Crc.Of(f.data));
    var k := HeadYields(f);
    CleanYields(c, k);
    RunsText(f.rsrc, 0);
    assert f.rsrc[0..] == f.rsrc;
    m := LastOf(Runs(f.rsrc, 0), Last(c, k));
    WrittenYields(Runs(f.rsrc, 0), Last(c, k));
    LastOfText(Runs(f.rsrc, 0), Last(c, k));
    Compose(c + Rle(f.rsrc), c, Rle(f.rsrc), c + f.rsrc, c, f.rsrc, k, Last(c, k), m);
    Compose(p, h + Rle(f.data), c + Rle(f.rsrc), out, h + f.data, c + f.rsrc, 0, k, m);
  }

  /** What the decoder makes of two bytes of which one is a mark. */
  lemma TwoDecoded(d: seq<byte>, m: byte) returns (e: seq<byte>)
    requires |d| == 2 && !Clean(d)
    ensures e == Expand(d, false, m) && e == if d[0] == RUN then Marked(d[1], m) else [d[0]]
  {
    e := Expand(d, false, m);
    if d[0] == RUN {
      ExpandRun(d[1], [], m);
      assert [RUN, d[1]] + [] == d;
      assert e == if d[1] == 0 then [RUN] + [] else Rep(m, d[1] - 1) + [];
    } else {
      ExpandLiteral(d[0], [RUN], m);
      assert d == [d[0]] + [RUN] && Expand([RUN], false, d[0]) == [];
    }
  }

  /** A decoded CRC that is read as the one that was written. */
  lemma SameCrc(e: seq<byte>, d: seq<byte>, m: byte)
    requires |d| == 2 && !Clean(d) && e == if d[0] == RUN then Marked(d[1], m) else [d[0]]
    requires BigEndian(e[..Min(2, |e|)]) == BigEndian(d)
    ensures d == [RUN, RUN] && m == RUN
  {
    var t := e[..Min(2, |e|)];
    TwoBytes(d);
    if |e| < 2 {
      ShortNumber(t);
    } else {
      BigEndianInjective(t, d);
      assert t[0] == d[0] && t[1] == d[1];
    }
  }

  /** Bytes behind the last CRC do no harm. */
  lemma ExtraExtracts(f: File, extra: seq<byte>)
    requires Writable(f)
    ensures Extracts(Plain(f) + extra, f)
  {
    var h, c, d := Checked(Header(f)), Bytes(Crc.Of(f.data)), Bytes(Crc.Of(f.rsrc));
    var t := f.data + (c + (f.rsrc + (d + extra)));
    WithExtra(h, f.data, c, f.rsrc, d, extra, Plain(f));
    HeaderBack(f, t);
    HeaderChecked(f);
    ExtraAccepted(h + t, h, f.data, f.rsrc, extra, HeaderOf(f));
    ExtractIsForks(h + t, HeaderOf(f));
  }

  lemma ExtraAccepted(raw: seq<byte>, h: seq<byte>, a: seq<byte>, r: seq<byte>, extra: seq<byte>, p: Parsed)
    requires Crc.Of(h) == 0 && raw == h + (a + (Bytes(Crc.Of(a)) + (r + (Bytes(Crc.Of(r)) + extra))))
    requires p.crcOff + 2 == |h| && p.dlen == |a| && p.rlen == |r|
    ensures Forks(raw, Some(p)) == Accepted(p, a, r)
  {
    ExtraForks(raw, h, a, r, extra);
    ForksAccepted(raw, p, a, r);
  }

  lemma WithExtra(h: seq<byte>, a: seq<byte>, c: seq<byte>, r: seq<byte>, d: seq<byte>, extra: seq<byte>, p: seq<byte>)
    requires p == h + (a + (c + (r + d)))
    ensures p + extra == h + (a + (c + (r + (d + extra))))
  {
  }

  lemma ExtraForks(raw: seq<byte>, h: seq<byte>, a: seq<byte>, r: seq<byte>, extra: seq<byte>)
    requires Crc.Of(h) == 0 && raw == h + (a + (Bytes(Crc.Of(a)) + (r + (Bytes(Crc.Of(r)) + extra))))
    ensures ForkAt(raw, |h|, |a|) == Some(a) && ForkAt(raw, |h| + |a| + 2, |r|) == Some(r)
  {
    var c, x := Bytes(Crc.Of(a)), r + (Bytes(Crc.Of(r)) + extra);
    ForkBack(raw, h, a, x);
    Assoc(h, a, c + x);
    Assoc(h + a, c, x);
    ForkBack(raw, h + a + c, r, extra);
  }

  lemma LastCut(out: seq<byte>, e: seq<byte>, raw: seq<byte>)
    requires raw == out + e
    ensures Cut(raw, |out|, |out| + 2) == e[..Min(2, |e|)]
  {
  }

  lemma RsrcKept(f: File, out: seq<byte>, e: seq<byte>, d: seq<byte>, m: byte, raw: seq<byte>)
    requires Writable(f) && Plain(f) == out + d && d == Bytes(Crc.Of(f.rsrc)) && !Clean(d) && raw == out + e
    requires e == if d[0] == RUN then Marked(d[1], m) else [d[0]]
    ensures Extracts(raw, f) <==> d == [RUN, RUN] && m == RUN
  {
    if d == [RUN, RUN] && m == RUN {
      MarksRepeated(f, out, e, d, raw, Rep(RUN, 0x8D));
    } else {
      LastVersion(f, out, d, raw, e);
      LastDiffers(f, out, e, d, m, raw);
      RsrcLost(f, raw, LastCrc(f), Cut(raw, LastCrc(f), LastCrc(f) + 2));
    }
  }

  lemma RsrcLost(f: File, raw: seq<byte>, last: nat, crc: seq<byte>)
    requires Writable(f) && |raw| >= last == LastCrc(f) && raw[1 + |f.name|] == 0
    requires crc == Cut(raw, last, last + 2) && BigEndian(crc) != Crc.Of(f.rsrc) as int
    ensures !Extracts(raw, f)
  {
    if Extracts(raw, f) {
      AcceptedParts(raw, f);
      PlainKept(f, Plain(f), raw, last);
    }
  }

  lemma LastVersion(f: File, out: seq<byte>, d: seq<byte>, raw: seq<byte>, e: seq<byte>)
    requires Writable(f) && Plain(f) == out + d && |d| == 2 && raw == out + e
    ensures |out| == LastCrc(f) <= |raw| && raw[1 + |f.name|] == 0
  {
    VersionOfPlain(f);
    assert raw[1 + |f.name|] == out[1 + |f.name|] == Plain(f)[1 + |f.name|];
  }

  lemma LastDiffers(f: File, out: seq<byte>, e: seq<byte>, d: seq<byte>, m: byte, raw: seq<byte>)
    requires |out| == LastCrc(f) && d == Bytes(Crc.Of(f.rsrc)) && !Clean(d) && raw == out + e
    requires e == if d[0] == RUN then Marked(d[1], m) else [d[0]]
    requires !(d == [RUN, RUN] && m == RUN)
    ensures BigEndian(Cut(raw, LastCrc(f), LastCrc(f) + 2)) != Crc.Of(f.rsrc) as int
  {
    LastCut(out, e, raw);
    BytesBack(Crc.Of(f.rsrc));
    if BigEndian(e[..Min(2, |e|)]) == BigEndian(d) { SameCrc(e, d, m); }
  }

  lemma MarksRepeated(f: File, out: seq<byte>, e: seq<byte>, d: seq<byte>, raw: seq<byte>, extra: seq<byte>)
    requires Writable(f) && Plain(f) == out + d && d == [RUN, RUN] && raw == out + e && e == Rep(RUN, 0x8F)
    requires extra == Rep(RUN, 0x8D)
    ensures Extracts(raw, f)
  {
    assert e == d + extra;
    Assoc(out, d, extra);
    ExtraExtracts(f, extra);
  }

  /**
   * Marks in the resource fork's CRC: the file is read back if and only if both bytes are marks and the fork ends
   * with one, which is then repeated often enough for the CRC.
   */
  lemma RsrcCrcIff(f: File)
    requires Writable(f) && Clean(Checked(Header(f))) && Clean(Bytes(Crc.Of(f.data)))
    requires !Clean(Bytes(Crc.Of(f.rsrc)))
    ensures f.rsrc != []
    ensures ReadBack(f) <==> Bytes(Crc.Of(f.rsrc)) == [RUN, RUN] && f.rsrc[|f.rsrc| - 1] == RUN
  {
    var h, c, d := Checked(Header(f)), Bytes(Crc.Of(f.data)), Bytes(Crc.Of(f.rsrc));
    CrcOfNothing();
    var p, out := (h + Rle(f.data)) + (c + Rle(f.rsrc)), (h + f.data) + (c + f.rsrc);
    var m := BodyYields(f, p, out);
    var e := TwoDecoded(d, m);
    FourGrouped(h, Rle(f.data), c, Rle(f.rsrc), d);
    FourGrouped(h, f.data, c, f.rsrc, d);
    ReadIsExtract(f);
    RsrcKept(f, out, e, d, m, Expand(Encoded(f), false, 0));
  }

  lemma CrcOfNothing()
    ensures Clean(Bytes(Crc.Of([])))
  {
    assert Bytes(Crc.Of([])) == [0, 0];
  }

  lemma FourGrouped(h: seq<byte>, a: seq<byte>, c: seq<byte>, r: seq<byte>, d: seq<byte>)
    ensures h + (a + (c + (r + d))) == ((h + a) + (c + r)) + d
  {
  }
}
