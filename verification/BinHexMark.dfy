/** Unescaped run marks in a BinHex header: which files are still read back. */
module BinHexMark {
  import opened Words
  import opened Crc
  import opened BinHexRle
  import opened BinHexText
  import opened BinHexFile

  /** The file is read back as it was written: the header, both forks, all three CRCs. */
  predicate ReadBack(f: File)
    requires Writable(f)
  {
    ReadHqx(EncodeHqx(f)) == Accepted(HeaderOf(f), f.data, f.rsrc)
  }

  predicate Extracts(raw: seq<byte>, f: File)
    requires Writable(f)
  {
    Extract(raw) == Accepted(HeaderOf(f), f.data, f.rsrc)
  }

  lemma ReadIsExtract(f: File)
    requires Writable(f)
    ensures ReadBack(f) <==> Extracts(Expand(Encoded(f), false, 0), f)
  {
    TextRoundTrip(Pack(Encoded(f)));
    UnpackPack(Encoded(f));
  }

  // ---- what acceptance says about the decoded bytes ----------------------------------------------

  lemma {:induction false} BigEndianInjective(s: seq<byte>, t: seq<byte>)
    requires |s| == |t| && BigEndian(s) == BigEndian(t)
    ensures s == t
    decreases |s|
  {
    if s != [] {
      var x: int, y: int := s[|s| - 1], t[|t| - 1];
      DivUnique(BigEndian(s), 256, BigEndian(s[..|s| - 1]), x);
      DivUnique(BigEndian(t), 256, BigEndian(t[..|t| - 1]), y);
      BigEndianInjective(s[..|s| - 1], t[..|t| - 1]);
      assert s == s[..|s| - 1] + [s[|s| - 1]] && t == t[..|t| - 1] + [t[|t| - 1]];
    }
  }

  /** The second layout would make the name one byte shorter. */
  lemma SecondLayoutDiffers(raw: seq<byte>, f: File)
    requires raw != [] && |raw| >= 24 + raw[0] as int && Writable(f)
    ensures ParseLayout(raw, 1) != Some(HeaderOf(f))
  {
    var n: nat := raw[0];
    assert |Cut(raw, 1, 1 + n)| == n;
  }

  /** The header was recognized in the first layout. */
  predicate Recognized(raw: seq<byte>, f: File)
    requires Writable(f)
  {
    |raw| >= 24 + |f.name| && raw[0] as int == |f.name| && ParseLayout(raw, 0) == Some(HeaderOf(f))
  }

  /** Both forks were accepted, the first one at `k`. */
  predicate Forked(raw: seq<byte>, f: File, k: nat) {
    ForkAt(raw, k, |f.data|) == Some(f.data) && ForkAt(raw, k + |f.data| + 2, |f.rsrc|) == Some(f.rsrc)
  }

  lemma AcceptedParts(raw: seq<byte>, f: File)
    requires Writable(f) && Extracts(raw, f)
    ensures Recognized(raw, f) && Forked(raw, f, 22 + |f.name|)
  {
    assert ParseHeader(raw) == Some(HeaderOf(f));
    SecondLayoutDiffers(raw, f);
    ExtractIsForks(raw, HeaderOf(f));
  }

  /** The bytes from `i` to `j` are the same in both. */
  predicate Same(s: seq<byte>, t: seq<byte>, i: nat, j: nat) {
    i <= j <= |s| && j <= |t| && s[i..j] == t[i..j]
  }

  lemma SameJoin(s: seq<byte>, t: seq<byte>, i: nat, j: nat, k: nat)
    requires Same(s, t, i, j) && Same(s, t, j, k)
    ensures Same(s, t, i, k)
  {
    assert s[i..k] == s[i..j] + s[j..k] && t[i..k] == t[i..j] + t[j..k];
  }

  lemma SameByte(s: seq<byte>, t: seq<byte>, i: nat, j: nat, k: nat)
    requires Same(s, t, i, j) && i <= k < j
    ensures s[k] == t[k]
  {
    assert s[i..j][k - i] == t[i..j][k - i];
  }

  lemma CutInside(s: seq<byte>, i: nat, j: nat)
    requires i <= j <= |s|
    ensures Cut(s, i, j) == s[i..j]
  {
  }

  lemma SameNumber(s: seq<byte>, t: seq<byte>, i: nat, j: nat)
    requires i <= j <= |s| && j <= |t| && BigEndian(Cut(s, i, j)) == BigEndian(Cut(t, i, j))
    ensures Same(s, t, i, j)
  {
    BigEndianInjective(Cut(s, i, j), Cut(t, i, j));
  }

  /** The fields of a header, as the parser cuts them. */
  lemma HeaderFields(f: File, n: nat)
    requires Writable(f) && n == |f.name|
    ensures var h := Header(f);
      && h[0] as int == n && Cut(h, 1, 1 + n) == f.name && Cut(h, 2 + n, 6 + n) == f.kind && Cut(h, 6 + n, 10 + n) == f.creator
      && BigEndian(Cut(h, 10 + n, 12 + n)) == f.flags as int && BigEndian(Cut(h, 12 + n, 16 + n)) == |f.data|
      && BigEndian(Cut(h, 16 + n, 20 + n)) == |f.rsrc|
  {
    var front, back := Front(f.name, f.kind), f.creator + (Bytes(f.flags) + (Four(|f.data|) + Four(|f.rsrc|)));
    HeaderCuts(front, back, [], n);
    assert (front + back) + [] == Header(f);
    FrontCuts(f.name, f.kind, n);
    BackCuts(f.creator, Bytes(f.flags), Four(|f.data|), Four(|f.rsrc|));
    BytesBack(f.flags);
    FourBack(|f.data|);
    FourBack(|f.rsrc|);
    assert Header(f)[0] == front[0];
  }

  /** Every byte of the header is as it was written, but for the version byte, which nobody looks at. */
  lemma HeaderKept(raw: seq<byte>, f: File, n: nat)
    requires Writable(f) && Recognized(raw, f) && n == |f.name|
    ensures |raw| >= 24 + n && Same(raw, Header(f), 0, 1 + n) && Same(raw, Header(f), 2 + n, 20 + n)
  {
    var h := Header(f);
    HeaderFields(f, n);
    CutInside(raw, 1, 1 + n);
    CutInside(h, 1, 1 + n);
    assert Same(raw, h, 0, 1);
    SameJoin(raw, h, 0, 1, 1 + n);
    FieldsKept(raw, f, n);
  }

  lemma FieldsKept(raw: seq<byte>, f: File, n: nat)
    requires Writable(f) && n == |f.name| && |raw| >= 24 + n && raw[0] as int == n && ParseLayout(raw, 0) == Some(HeaderOf(f))
    ensures Same(raw, Header(f), 2 + n, 20 + n)
  {
    var h := Header(f);
    HeaderFields(f, n);
    CutInside(raw, 2 + n, 6 + n);
    CutInside(h, 2 + n, 6 + n);
    CutInside(raw, 6 + n, 10 + n);
    CutInside(h, 6 + n, 10 + n);
    SameNumber(raw, h, 10 + n, 12 + n);
    SameNumber(raw, h, 12 + n, 16 + n);
    SameNumber(raw, h, 16 + n, 20 + n);
    SameJoin(raw, h, 2 + n, 6 + n, 10 + n);
    SameJoin(raw, h, 2 + n, 10 + n, 12 + n);
    SameJoin(raw, h, 2 + n, 12 + n, 16 + n);
    SameJoin(raw, h, 2 + n, 16 + n, 20 + n);
  }

  /** With the version byte as written, so are the header and its CRC. */
  lemma CheckedKept(raw: seq<byte>, f: File, n: nat)
    requires Writable(f) && Recognized(raw, f) && n == |f.name| && raw[1 + n] == Header(f)[1 + n]
    ensures |raw| >= 24 + n && raw[..22 + n] == Checked(Header(f))
  {
    var h, c := Header(f), Bytes(Crc.Of(Header(f)));
    HeaderKept(raw, f, n);
    assert Same(raw, h, 1 + n, 2 + n);
    SameJoin(raw, h, 0, 1 + n, 2 + n);
    SameJoin(raw, h, 0, 2 + n, 20 + n);
    assert Cut(raw, 0, 20 + n) == h;
    BytesBack(Crc.Of(h));
    BigEndianInjective(Cut(raw, 20 + n, 22 + n), c);
    assert raw[..22 + n] == raw[..20 + n] + raw[20 + n..22 + n];
  }

  // ---- a mark that repeats the byte before it ----------------------------------------------------------

  /** A run of two or more in place of the mark puts the repeated byte where the mark was meant. */
  lemma MarkReplaced(u: seq<byte>, b: byte, rest: seq<byte>, last: byte)
    requires Clean(u) && last != RUN && b >= 2
    ensures var raw := Expand(u + ([RUN, b] + rest), false, last); |raw| > |u| && raw[..|u|] == u && raw[|u|] != RUN
  {
    CleanYields(u, last);
    var l := Last(u, last);
    ExpandRun(b, rest, l);
    assert Expand(u + ([RUN, b] + rest), false, last) == u + (Rep(l, b - 1) + Expand(rest, false, l));
  }

  /** A stream that is accepted and right up to some place is right at that place. */
  lemma KeptAt(raw: seq<byte>, f: File, k: nat)
    requires Writable(f) && Recognized(raw, f) && k < |raw| && k < 22 + |f.name| && k != 1 + |f.name|
    requires raw[..k] == Checked(Header(f))[..k]
    ensures raw[k] == Checked(Header(f))[k]
  {
    var n, h := |f.name|, Checked(Header(f));
    if k > 1 + n {
      assert raw[..k][1 + n] == h[..k][1 + n];
      CheckedKept(raw, f, n);
      assert raw[..22 + n][k] == h[k];
    } else {
      HeaderKept(raw, f, n);
      SameByte(raw, Header(f), 0, 1 + n, k);
    }
  }

  lemma VersionByte(f: File)
    requires Writable(f)
    ensures Checked(Header(f))[1 + |f.name|] == 0
  {
    var one: seq<byte>, zero: seq<byte> := [|f.name|], [0];
    assert Front(f.name, f.kind)[1 + |f.name|] == 0;
  }

  /** If the first run mark of the header or its CRC is followed by a byte other than 0 and 1, the file is not read
      back, whatever comes after. */
  lemma FirstMarkFails(f: File, u: seq<byte>, b: byte, rest: seq<byte>)
    requires Writable(f) && Encoded(f) == u + ([RUN, b] + rest) && Clean(u) && |u| < 22 + |f.name| && b >= 2
    ensures !ReadBack(f)
  {
    var raw, h := Expand(Encoded(f), false, 0), Checked(Header(f));
    MarkReplaced(u, b, rest, 0);
    VersionByte(f);
    assert h[|u|] == Encoded(f)[|u|] == RUN;
    assert h[..|u|] == Encoded(f)[..|u|] == u;
    ReadIsExtract(f);
    if Extracts(raw, f) {
      AcceptedParts(raw, f);
      KeptAt(raw, f, |u|);
    }
  }

  // ---- a single mark ------------------------------------------------------------------------------------

  /** What follows the header and its CRC. */
  function After(f: File): (s: seq<byte>)
    requires Writable(f)
    ensures |s| == |f.data| + |f.rsrc| + 4
  {
    f.data + (Bytes(Crc.Of(f.data)) + (f.rsrc + Bytes(Crc.Of(f.rsrc))))
  }

  /** One mark in the header or its CRC, the byte `b` behind it, no other in any unescaped field. */
  predicate OneMark(f: File, u: seq<byte>, b: byte, v: seq<byte>)
    requires Writable(f)
  {
    && Checked(Header(f)) == u + ([RUN, b] + v) && Clean(u) && Clean(v) && b != RUN
    && Clean(Bytes(Crc.Of(f.data))) && Clean(Bytes(Crc.Of(f.rsrc)))
  }

  lemma MarkDecoded(u: seq<byte>, b: byte, v: seq<byte>, x: seq<byte>, y: seq<byte>, l: byte)
    requires Clean(u) && l == Last(u, 0) && Expand(v + x, false, if b == 0 then RUN else l) == v + y
    ensures Expand(u + ([RUN, b] + (v + x)), false, 0) == u + (Marked(b, l) + (v + y))
  {
    CleanYields(u, 0);
    ExpandRun(b, v + x, l);
  }

  lemma Regroup(u: seq<byte>, m: seq<byte>, v: seq<byte>, x: seq<byte>)
    ensures (u + (m + v)) + x == u + (m + (v + x))
  {
  }

  /** What the decoder makes of it: the mark and its successor turn into something else, the rest is shifted. */
  lemma OneMarkDecoded(f: File, u: seq<byte>, b: byte, v: seq<byte>)
    requires Writable(f) && OneMark(f, u, b, v)
    ensures Expand(Encoded(f), false, 0) == u + (Marked(b, Last(u, 0)) + (v + After(f)))
  {
    var c, d := Bytes(Crc.Of(f.data)), Bytes(Crc.Of(f.rsrc));
    var x, l := Rle(f.data) + (c + (Rle(f.rsrc) + d)), Last(u, 0);
    ExpandParts(v, f.data, c, f.rsrc, d, if b == 0 then RUN else l);
    MarkDecoded(u, b, v, x, After(f), l);
    Regroup(u, [RUN, b], v, x);
  }

  predicate Zeros(s: seq<byte>) { forall i | 0 <= i < |s| :: s[i] == 0 }

  lemma {:induction false} ZerosCrc(s: seq<byte>)
    requires Zeros(s)
    ensures Crc.Of(s) == 0
    decreases |s|
  {
    if s != [] {
      ZerosCrc(s[1..]);
      UpdateLow(0, 0);
    }
  }

  // ---- nothing but zeros behind the mark: the loss goes unnoticed ----------------------------------------

  lemma OneZero()
    ensures BigEndian([0]) == 0
  {
    var s: seq<byte> := [0];
    assert BigEndian(s[..0]) == 0;
  }

  /** A last fork whose CRC is zero is accepted although the last byte of its CRC is missing. */
  lemma ShortFork(raw: seq<byte>, before: seq<byte>, s: seq<byte>)
    requires Crc.Of(before) == 0 && Crc.Of(s) == 0 && raw == before + (s + [0])
    ensures ForkAt(raw, |before|, |s|) == Some(s)
  {
    CutMiddle(raw, before, s, [0]);
    CheckedBlock(before, s);
    assert Cut(raw, 0, |before| + |s|) == before + s && Cut(raw, |before| + |s|, |before| + |s| + 2) == [0];
    OneZero();
  }

  lemma ShortForks(raw: seq<byte>, h: seq<byte>, a: seq<byte>, r: seq<byte>)
    requires Crc.Of(h) == 0 && Crc.Of(r) == 0 && raw == h + (a + (Bytes(Crc.Of(a)) + (r + [0])))
    ensures ForkAt(raw, |h|, |a|) == Some(a) && ForkAt(raw, |h| + |a| + 2, |r|) == Some(r)
  {
    var c := Bytes(Crc.Of(a));
    ForkBack(raw, h, a, r + [0]);
    Assoc(h, a, c + (r + [0]));
    Assoc(h + a, c, r + [0]);
    ShortFork(raw, h + a + c, r);
  }

  lemma ShortAccepted(raw: seq<byte>, h: seq<byte>, a: seq<byte>, r: seq<byte>, p: Parsed)
    requires Crc.Of(h) == 0 && Crc.Of(r) == 0 && raw == h + (a + (Bytes(Crc.Of(a)) + (r + [0])))
    requires p.crcOff + 2 == |h| && p.dlen == |a| && p.rlen == |r|
    ensures Forks(raw, Some(p)) == Accepted(p, a, r)
  {
    ShortForks(raw, h, a, r);
    ForksAccepted(raw, p, a, r);
  }

  lemma ShortExtracts(f: File, raw: seq<byte>)
    requires Writable(f) && Crc.Of(f.rsrc) == 0
    requires raw == Checked(Header(f)) + (f.data + (Bytes(Crc.Of(f.data)) + (f.rsrc + [0])))
    ensures Extracts(raw, f)
  {
    HeaderChecked(f);
    ShortAccepted(raw, Checked(Header(f)), f.data, f.rsrc, HeaderOf(f));
    HeaderBack(f, f.data + (Bytes(Crc.Of(f.data)) + (f.rsrc + [0])));
    ExtractIsForks(raw, HeaderOf(f));
  }

  lemma AfterZeros(f: File)
    requires Writable(f) && Zeros(After(f))
    ensures Zeros(f.data) && Zeros(f.rsrc) && Crc.Of(f.data) == 0 && Crc.Of(f.rsrc) == 0
  {
    var c, d, a, n := Bytes(Crc.Of(f.data)), Bytes(Crc.Of(f.rsrc)), After(f), |f.data|;
    assert f.data == a[..n] && f.rsrc == a[n + 2..n + 2 + |f.rsrc|];
    ZerosCrc(f.data);
    ZerosCrc(f.rsrc);
  }

  lemma ZerosSurvive(f: File, u: seq<byte>, v: seq<byte>)
    requires Writable(f) && OneMark(f, u, 0, v) && Zeros(v + After(f))
    ensures Extracts(u + ([RUN] + (v + After(f))), f)
  {
    var a, h, raw := After(f), Checked(Header(f)), u + ([RUN] + (v + After(f)));
    assert forall i | 0 <= i < |a| :: a[i] == (v + a)[|v| + i];
    assert forall i | 0 <= i < |v| :: v[i] == (v + a)[i];
    AfterZeros(f);
    var short := f.data + (Bytes(0) + (f.rsrc + [0]));
    assert |short| == |a| - 1 && Zeros(short);
    assert raw == h + short;
    ShortExtracts(f, raw);
  }

  // ---- anything else behind the mark: the loss is noticed ---------------------------------------------------

  /** Where the last CRC starts. */
  function LastCrc(f: File): nat { 22 + |f.name| + |f.data| + 2 + |f.rsrc| }

  lemma ForkTaken(raw: seq<byte>, before: seq<byte>, s: seq<byte>)
    requires Crc.Of(before) == 0 && |raw| >= |before| + |s| && raw[..|before|] == before
    requires ForkAt(raw, |before|, |s|) == Some(s)
    ensures raw[..|before| + |s|] == before + s
    ensures BigEndian(Cut(raw, |before| + |s|, |before| + |s| + 2)) == Crc.Of(s) as int
  {
    var k := |before| + |s|;
    CutInside(raw, |before|, k);
    CutInside(raw, 0, k);
    assert raw[..k] == raw[..|before|] + raw[|before|..k];
    assert raw[0..k] == raw[..k];
    CheckedBlock(before, s);
  }

  lemma CrcTaken(raw: seq<byte>, k: nat, c: half)
    requires |raw| >= k + 2 && BigEndian(Cut(raw, k, k + 2)) == c as int
    ensures raw[..k + 2] == raw[..k] + Bytes(c)
  {
    BytesBack(c);
    BigEndianInjective(Cut(raw, k, k + 2), Bytes(c));
  }

  /** With the header intact, acceptance fixes every byte up to the last CRC, and what is left of that. */
  lemma TwoForksTaken(raw: seq<byte>, h: seq<byte>, f: File, last: nat)
    requires Crc.Of(h) == 0 && last == |h| + |f.data| + 2 + |f.rsrc| && |raw| >= last && raw[..|h|] == h && Forked(raw, f, |h|)
    ensures raw[..last] == h + f.data + Bytes(Crc.Of(f.data)) + f.rsrc
    ensures BigEndian(Cut(raw, last, last + 2)) == Crc.Of(f.rsrc) as int
  {
    var g := BlockTaken(raw, h, f.data);
    ForkTaken(raw, g, f.rsrc);
  }

  lemma BlockTaken(raw: seq<byte>, h: seq<byte>, s: seq<byte>) returns (g: seq<byte>)
    requires Crc.Of(h) == 0 && |raw| >= |h| + |s| + 2 && raw[..|h|] == h && ForkAt(raw, |h|, |s|) == Some(s)
    ensures g == h + s + Bytes(Crc.Of(s)) && |g| == |h| + |s| + 2 && Crc.Of(g) == 0 && raw[..|g|] == g
  {
    ForkTaken(raw, h, s);
    CrcTaken(raw, |h| + |s|, Crc.Of(s));
    CheckedBlock(h, s);
    g := h + s + Bytes(Crc.Of(s));
  }

  lemma PlainStarts(f: File)
    requires Writable(f)
    ensures |Plain(f)| == LastCrc(f) + 2 && Plain(f) == Checked(Header(f)) + After(f)
    ensures Plain(f)[..LastCrc(f)] == Checked(Header(f)) + f.data + Bytes(Crc.Of(f.data)) + f.rsrc
    ensures Plain(f)[LastCrc(f)..] == Bytes(Crc.Of(f.rsrc))
  {
    var h, c, d := Checked(Header(f)), Bytes(Crc.Of(f.data)), Bytes(Crc.Of(f.rsrc));
    assert Plain(f) == (h + f.data + c + f.rsrc) + d;
  }

  lemma {:induction false} ZeroOnward(p: seq<byte>, q: nat, end: nat, i: nat)
    requires q <= i <= end < |p| && p[q] == 0 && forall k | q <= k < end :: p[k + 1] == p[k]
    ensures p[i] == 0
    decreases i
  {
    if i > q { ZeroOnward(p, q, end, i - 1); }
  }

  /** Two streams of which one is the other without `d` bytes from `q` on, and which agree up to `end`. */
  lemma Shifted(p: seq<byte>, raw: seq<byte>, q: nat, d: nat, end: nat, k: nat)
    requires q + d <= |p| && |raw| == |p| - d && q <= |raw| && raw[q..] == p[q + d..] && end <= |raw|
    requires raw[..end] == p[..end] && q <= k < end
    ensures p[k + d] == p[k]
  {
    assert raw[q..][k - q] == p[q + d..][k - q];
    assert raw[..end][k] == p[..end][k];
  }

  lemma ZeroBehind(p: seq<byte>, raw: seq<byte>, q: nat, last: nat)
    requires |p| == last + 2 && |raw| == last + 1 && q <= last && p[q] == 0
    requires raw[q..] == p[q + 1..] && raw[..last] == p[..last]
    ensures forall i | q <= i <= last :: p[i] == 0
  {
    forall k | q <= k < last ensures p[k + 1] == p[k] { Shifted(p, raw, q, 1, last, k); }
    forall i | q <= i <= last ensures p[i] == 0 { ZeroOnward(p, q, last, i); }
  }

  /** A byte is missing behind the mark: accepted only if all that follows is zero. */
  lemma ShiftedByOne(f: File, p: seq<byte>, raw: seq<byte>, q: nat, last: nat)
    requires Writable(f) && p == Plain(f) && q <= last - |f.rsrc| && last == LastCrc(f)
    requires |p| == last + 2 && |raw| == |p| - 1 && raw[..last] == p[..last]
    requires raw[q..] == p[q + 1..] && p[q] == 0
    ensures Zeros(p[q..])
  {
    PlainStarts(f);
    ZeroBehind(p, raw, q, last);
    ForkZero(f, last);
    ZeroEnd(p, q, last);
  }

  lemma ZeroEnd(p: seq<byte>, q: nat, last: nat)
    requires q <= last && |p| == last + 2 && p[last..] == Bytes(0) && forall i | q <= i <= last :: p[i] == 0
    ensures Zeros(p[q..])
  {
    assert p[last + 1] == p[last..][1];
  }

  lemma ForkZero(f: File, last: nat)
    requires Writable(f) && last == LastCrc(f) && last <= |Plain(f)| && forall i | last - |f.rsrc| <= i < last :: Plain(f)[i] == 0
    ensures Crc.Of(f.rsrc) == 0
  {
    PlainStarts(f);
    assert f.rsrc == Plain(f)[..last][last - |f.rsrc|..];
    ZerosCrc(f.rsrc);
  }

  lemma {:induction false} NonzeroOnward(p: seq<byte>, q: nat, i: nat)
    requires q <= i < |p| && q + 1 < |p| && p[q] != 0 && p[q + 1] != 0 && forall k | q <= k < |p| - 2 :: p[k + 2] == p[k]
    ensures p[i] != 0
    decreases i
  {
    if i > q + 1 { NonzeroOnward(p, q, i - 2); }
  }

  lemma NonzeroBehind(p: seq<byte>, raw: seq<byte>, q: nat, last: nat)
    requires |p| == last + 2 && |raw| == last && q <= last && p[q] != 0 && p[q + 1] != 0
    requires raw[q..] == p[q + 2..] && raw == p[..last]
    ensures p[last] != 0
  {
    assert raw[..last] == raw;
    forall k | q <= k < last ensures p[k + 2] == p[k] { Shifted(p, raw, q, 2, last, k); }
    NonzeroOnward(p, q, last);
  }

  /** Two bytes are missing: accepted only if the last CRC were zero, which the bytes before it exclude. */
  lemma ShiftedByTwo(f: File, p: seq<byte>, raw: seq<byte>, q: nat, last: nat)
    requires Writable(f) && p == Plain(f) && q <= last == LastCrc(f)
    requires |p| == last + 2 && |raw| == last && raw[..last] == p[..last]
    requires raw[q..] == p[q + 2..] && p[q] != 0 && p[q + 1] != 0
    ensures BigEndian(Cut(raw, last, last + 2)) != Crc.Of(f.rsrc) as int
  {
    PlainStarts(f);
    assert raw[..last] == raw && Cut(raw, last, last + 2) == [];
    NonzeroBehind(p, raw, q, last);
    assert p[last..][0] == p[last];
  }

  // ---- exactly when a single mark goes unnoticed -------------------------------------------------------------

  lemma FourSame(s: seq<byte>, b: byte)
    requires |s| == 4 && forall i | 0 <= i < 4 :: s[i] == b
    ensures BigEndian(s) == 0x101_0101 * (b as int)
  {
    assert s == ([b, b] + [b]) + [b] && [b, b] == [b] + [b] && [b] == [] + [b];
    BigEndianSnoc([b, b] + [b], b);
    BigEndianSnoc([b, b], b);
    BigEndianSnoc([b], b);
    BigEndianSnoc([], b);
  }

  lemma {:induction false} ConstantField(h: seq<byte>, from: nat, end: nat, i: nat)
    requires from <= i <= end < |h| && forall k | from <= k < end :: h[k + 1] == h[k]
    ensures h[i] == h[from]
    decreases i
  {
    if i > from { ConstantField(h, from, end, i - 1); }
  }

  /** A length whose four bytes are the same, and not zero. */
  predicate FourAlike(length: nat) { length != 0 && length % 0x101_0101 == 0 }

  lemma AlikeIsZero(length: nat, b: byte)
    requires length == 0x101_0101 * (b as int) && !FourAlike(length)
    ensures b == 0
  {
    DivUnique(length, 0x101_0101, b as int, 0);
  }

  /** A mark in the name shifts the whole header; that goes unnoticed only if all fields repeat one byte, so that
      the data fork is either empty or one of 255 lengths from sixteen million bytes on. */
  lemma SmallShift(f: File, h: seq<byte>, n: nat)
    requires Writable(f) && n == |f.name| && h == Header(f) && !FourAlike(|f.data|)
    requires forall k | 2 + n <= k < 19 + n :: h[k + 1] == h[k]
    ensures h[2 + n] == 0
  {
    HeaderFields(f, n);
    var d := Cut(h, 12 + n, 16 + n);
    forall i | 0 <= i < 4 ensures d[i] == h[2 + n] { ConstantField(h, 2 + n, 19 + n, 12 + n + i); }
    FourSame(d, h[2 + n]);
    AlikeIsZero(|f.data|, h[2 + n]);
  }

  /** The header `h`, the plain stream `p` and what follows the mark and its successor in it, `tail`. */
  lemma MarkStreams(f: File, u: seq<byte>, b: byte, v: seq<byte>) returns (h: seq<byte>, p: seq<byte>, tail: seq<byte>)
    requires Writable(f) && OneMark(f, u, b, v)
    ensures p == Plain(f) && |p| == LastCrc(f) + 2 && tail == v + After(f) && p == u + ([RUN, b] + tail)
    ensures h == Header(f) && |h| == 20 + |f.name| && |u| + |v| == |h| && v == tail[..|v|]
    ensures p[..|h| + 2] == Checked(h) && p[..|h|] == h && |u| != 1 + |f.name| && h[1 + |f.name|] == 0
  {
    PlainStarts(f);
    VersionByte(f);
    h, p, tail := Header(f), Plain(f), v + After(f);
    Regroup(u, [RUN, b], v, After(f));
    assert Checked(h)[|u|] == RUN;
  }

  lemma ShiftedBytes(u: seq<byte>, tail: seq<byte>, raw: seq<byte>, p: seq<byte>)
    requires raw == u + ([RUN] + tail) && p == u + ([RUN, 0] + tail)
    ensures forall k | 0 <= k <= |u| :: raw[k] == p[k]
    ensures forall k | |u| < k < |raw| :: raw[k] == p[k + 1]
    ensures raw[|u| + 1..] == tail && p[|u| + 2..] == tail && |raw| == |p| - 1
  {
  }

  lemma PrefixBytes(p: seq<byte>, h: seq<byte>)
    requires |h| <= |p| && p[..|h|] == h
    ensures forall k | 0 <= k < |h| :: h[k] == p[k]
  {
  }

  /** An accepted stream in which a byte is missing behind a mark in the name still has its version byte. */
  lemma VersionIntact(f: File, h: seq<byte>, n: nat, q: nat, raw: seq<byte>)
    requires Writable(f) && Recognized(raw, f) && n == |f.name| && h == Header(f) && q <= n && !FourAlike(|f.data|)
    requires forall k | q < k < 19 + n && k < |raw| :: raw[k] == h[k + 1]
    ensures |raw| > 1 + n && raw[1 + n] == 0
  {
    HeaderKept(raw, f, n);
    forall k | 2 + n <= k < 19 + n ensures h[k + 1] == h[k] { SameByte(raw, h, 2 + n, 20 + n, k); }
    SmallShift(f, h, n);
  }

  /** An accepted stream with its version byte is the plain one up to the last CRC. */
  lemma PlainKept(f: File, p: seq<byte>, raw: seq<byte>, last: nat)
    requires Writable(f) && Recognized(raw, f) && Forked(raw, f, 22 + |f.name|) && raw[1 + |f.name|] == 0
    requires p == Plain(f) && |raw| >= last == LastCrc(f)
    ensures |p| == last + 2 && raw[..last] == p[..last] && BigEndian(Cut(raw, last, last + 2)) == Crc.Of(f.rsrc) as int
  {
    VersionByte(f);
    CheckedKept(raw, f, |f.name|);
    HeaderChecked(f);
    TwoForksTaken(raw, Checked(Header(f)), f, last);
    PlainStarts(f);
  }

  lemma ZerosTail(p: seq<byte>, q: nat, tail: seq<byte>)
    requires q < |p| && Zeros(p[q..]) && p[q + 1..] == tail
    ensures Zeros(tail)
  {
    assert forall i | 0 <= i < |tail| :: tail[i] == p[q..][i + 1];
  }

  lemma ZerosOnly(f: File, u: seq<byte>, v: seq<byte>, raw: seq<byte>)
    requires Writable(f) && OneMark(f, u, 0, v) && raw == u + ([RUN] + (v + After(f)))
    requires Recognized(raw, f) && Forked(raw, f, 22 + |f.name|) && (|u| > |f.name| || !FourAlike(|f.data|))
    ensures Zeros(v + After(f))
  {
    var n, q := |f.name|, |u| + 1;
    var h, p, tail := MarkStreams(f, u, 0, v);
    ShiftedBytes(u, tail, raw, p);
    PrefixBytes(p, h);
    if |u| <= n { VersionIntact(f, h, n, |u|, raw); }
    PlainKept(f, p, raw, LastCrc(f));
    ShiftedByOne(f, p, raw, q, LastCrc(f));
    ZerosTail(p, q, tail);
  }

  /** Two missing bytes do not leave a mark where one was meant, unless the mark is in the CRC. */
  lemma NeverByTwo(f: File, u: seq<byte>, v: seq<byte>, raw: seq<byte>)
    requires Writable(f) && OneMark(f, u, 1, v) && raw == u + (v + After(f))
    ensures !(Recognized(raw, f) && Forked(raw, f, 22 + |f.name|))
  {
    var n := |f.name|;
    var h, p, tail := MarkStreams(f, u, 1, v);
    PairMissing(u, RUN, 1, tail, raw, p);
    ShortByTwo(f, p, raw, |u|, LastCrc(f), Cut(raw, LastCrc(f), LastCrc(f) + 2));
    if Recognized(raw, f) && Forked(raw, f, 22 + n) {
      InFront(f, u, v, raw, h, p, tail);
      assert raw[1 + n] == p[1 + n];
      PlainKept(f, p, raw, LastCrc(f));
    }
  }

  lemma ShortByTwo(f: File, p: seq<byte>, raw: seq<byte>, q: nat, last: nat, crc: seq<byte>)
    requires Writable(f) && p == Plain(f) && q <= last == LastCrc(f) && |p| == last + 2 && |raw| == last
    requires raw[q..] == p[q + 2..] && p[q] != 0 && p[q + 1] != 0 && crc == Cut(raw, last, last + 2)
    ensures raw[..last] == p[..last] ==> BigEndian(crc) != Crc.Of(f.rsrc) as int
  {
    if raw[..last] == p[..last] { ShiftedByTwo(f, p, raw, q, last); }
  }

  lemma PairMissing(u: seq<byte>, m: byte, b: byte, tail: seq<byte>, raw: seq<byte>, p: seq<byte>)
    requires raw == u + tail && p == u + ([m, b] + tail)
    ensures p[|u|] == m && p[|u| + 1] == b && raw[|u|..] == tail == p[|u| + 2..] && |raw| == |p| - 2
    ensures forall k | 0 <= k < |u| :: raw[k] == p[k]
  {
  }

  /** The mark is not in the name, or else the next unescaped byte would have to be one. */
  lemma InFront(f: File, u: seq<byte>, v: seq<byte>, raw: seq<byte>, h: seq<byte>, p: seq<byte>, tail: seq<byte>)
    requires Writable(f) && Recognized(raw, f) && h == Header(f) && p == u + ([RUN, 1] + tail) && raw == u + tail
    requires |h| <= |p| && p[..|h|] == h && |h| == 20 + |f.name| == |u| + |v| && |v| <= |tail| && v == tail[..|v|] && Clean(v)
    ensures |u| > |f.name|
  {
    var n := |f.name|;
    if |u| <= n {
      assert h[|u|] == p[..|h|][|u|] == RUN && raw[|u|] == tail[0] == v[0];
      HeaderKept(raw, f, n);
      SameByte(raw, h, 0, 1 + n, |u|);
    }
  }

  lemma SuccessorZero(f: File, u: seq<byte>, v: seq<byte>)
    requires Writable(f) && OneMark(f, u, 0, v) && (|u| > |f.name| || !FourAlike(|f.data|))
    ensures ReadBack(f) <==> Zeros(v + After(f))
  {
    ReadIsExtract(f);
    OneMarkDecoded(f, u, 0, v);
    var raw := u + ([RUN] + (v + After(f)));
    if Zeros(v + After(f)) { ZerosSurvive(f, u, v); }
    if Extracts(raw, f) {
      AcceptedParts(raw, f);
      ZerosOnly(f, u, v, raw);
    }
  }

  lemma SuccessorOne(f: File, u: seq<byte>, v: seq<byte>)
    requires Writable(f) && OneMark(f, u, 1, v)
    ensures !ReadBack(f)
  {
    ReadIsExtract(f);
    OneMarkDecoded(f, u, 1, v);
    var raw := Expand(Encoded(f), false, 0);
    assert Marked(1, Last(u, 0)) == [] && [] + (v + After(f)) == v + After(f);
    NeverByTwo(f, u, v, raw);
    if Extracts(raw, f) { AcceptedParts(raw, f); }
  }

  lemma SuccessorMore(f: File, u: seq<byte>, b: byte, v: seq<byte>)
    requires Writable(f) && OneMark(f, u, b, v) && b >= 2
    ensures !ReadBack(f)
  {
    var h, p, tail := MarkStreams(f, u, b, v);
    var x := Rle(f.data) + (Bytes(Crc.Of(f.data)) + (Rle(f.rsrc) + Bytes(Crc.Of(f.rsrc))));
    Regroup(u, [RUN, b], v, x);
    FirstMarkFails(f, u, b, v + x);
  }

  /**
   * Exactly when a single unescaped mark goes unnoticed: the file is read back if and only if nothing but zeros
   * follows the mark, through the header, both forks and all CRCs. (For a mark in the name or its length, the
   * length of the data fork is taken not to be four equal bytes other than zeros.)
   */
  lemma OneMarkIff(f: File, u: seq<byte>, b: byte, v: seq<byte>)
    requires Writable(f) && OneMark(f, u, b, v) && (|u| > |f.name| || !FourAlike(|f.data|))
    ensures ReadBack(f) <==> b == 0 && Zeros(v + After(f))
  {
    if b >= 2 {
      SuccessorMore(f, u, b, v);
    } else if b == 1 {
      SuccessorOne(f, u, v);
    } else {
      SuccessorZero(f, u, v);
    }
  }

  // ---- such a file exists ---------------------------------------------------------------------------------------

  lemma {:induction false} XorNothing(a: nat)
    ensures Xor(0, a) == a && Xor(a, 0) == a
  {
    if a > 0 { XorNothing(a / 2); }
  }

  lemma XorBit(a: nat, b: nat, i: nat, j: nat) returns (a1: nat, b1: nat, x: nat)
    requires i < 2 && j < 2
    ensures a1 == 2 * a + i && b1 == 2 * b + j && x == 2 * Xor(a, b) + Xor(i, j) && x == Xor(a1, b1)
  {
    a1, b1 := 2 * a + i, 2 * b + j;
    XorUnfold(a1, b1, a, b);
    XorUnfold(i, j, 0, 0);
    x := Xor(a1, b1);
  }

  lemma XorPair(a: nat, b: nat, i: nat, j: nat) returns (a1: nat, b1: nat, x: nat)
    requires i < 4 && j < 4
    ensures a1 == 4 * a + i && b1 == 4 * b + j && x == 4 * Xor(a, b) + Xor(i, j) && x == Xor(a1, b1)
  {
    var i1, j1 := if i < 2 then 0 else 1, if j < 2 then 0 else 1;
    var c, d, y := XorBit(a, b, i1, j1);
    var k, l, z := XorBit(i1, j1, i - 2 * i1, j - 2 * j1);
    assert k == i && l == j;
    a1, b1, x := XorBit(c, d, i - 2 * i1, j - 2 * j1);
  }

  /** One more hexadecimal digit, given by its upper and lower two bits. */
  lemma XorDigit(a: nat, b: nat, p: nat, q: nat, r: nat, s: nat) returns (a1: nat, b1: nat)
    requires p < 4 && q < 4 && r < 4 && s < 4
    ensures a1 == 16 * a + 4 * p + r && b1 == 16 * b + 4 * q + s
    ensures Xor(a1, b1) == 16 * Xor(a, b) + 4 * Xor(p, q) + Xor(r, s)
  {
    var c, d, y := XorPair(a, b, p, q);
    var x: nat;
    a1, b1, x := XorPair(c, d, r, s);
  }

  lemma Digits()
    ensures Xor(0, 0) == 0 && Xor(3, 1) == 2 && Xor(2, 0) == 2 && Xor(0, 2) == 2 && Xor(0, 1) == 1
    ensures Xor(1, 1) == 0 && Xor(1, 0) == 1
  {
  }

  lemma FirstXor(a: nat, b: nat, zero: nat)
    requires a == 0x3200 && b == 0x1021 && zero == 0
    ensures Xor(a, b) == 0x2221
  {
    Digits();
    var x, y := XorDigit(zero, zero, 0, 0, 3, 1);
    x, y := XorDigit(x, y, 0, 0, 2, 0);
    x, y := XorDigit(x, y, 0, 0, 0, 2);
    x, y := XorDigit(x, y, 0, 0, 0, 1);
  }

  lemma SecondXor(a: nat, b: nat, zero: nat)
    requires a == 0x1108 && b == 0x1021 && zero == 0
    ensures Xor(a, b) == 0x129
  {
    Digits();
    var x, y := XorDigit(zero, zero, 0, 0, 1, 1);
    x, y := XorDigit(x, y, 0, 0, 1, 0);
    x, y := XorDigit(x, y, 0, 0, 0, 2);
    x, y := XorDigit(x, y, 2, 0, 0, 1);
  }

  /** The CRC of the byte 0x99 is 0x1290. */
  lemma Crc99(b: byte, c: half)
    requires b == 0x99 && c == 0
    ensures Update(c, b) == 0x1290
  {
    var v: int := b;
    XorNothing(256 * v);
    EightSteps(256 * v, 8, 0x1021);
  }

  lemma EightSteps(a: half, n: nat, poly: nat)
    requires n == 8 && a == 0x9900 && poly == 0x1021
    ensures Steps(a, n) == 0x1290
  {
    var b: half := 0x2221;
    var d: half := 0x129;
    FirstXor(2 * a as int - 0x1_0000, poly, 0);
    StepSmall(b, 7);
    StepSmall(2 * b as int, 6);
    SecondXor(2 * (4 * b as int) - 0x1_0000, poly, 0);
    StepSmall(d, 4);
    StepSmall(2 * d as int, 3);
    StepSmall(4 * d as int, 2);
    StepSmall(8 * d as int, 1);
  }

  /** A header without forks whose flags are the CRC of what is in front of them: nothing but zeros follows. */
  lemma LuckyHeader(f: File, front: seq<byte>, hi: byte)
    requires Writable(f) && front == Front(f.name, f.kind) + f.creator && f.data == [] && f.rsrc == []
    requires f.flags == Crc.Of(front) && Bytes(f.flags) == [hi, RUN]
    ensures Crc.Of(Header(f)) == 0 && Checked(Header(f)) == (front + [hi]) + ([RUN, 0] + Rep(0, 9))
  {
    assert Four(0) == Rep(0, 4);
    assert Header(f) == (front + Bytes(f.flags)) + Rep(0, 8);
    ZerosAfterCrc(front);
    assert Bytes(0) == Rep(0, 2);
  }

  /** Zeros after a checked block leave the CRC at zero. */
  lemma ZerosAfterCrc(s: seq<byte>)
    ensures Crc.Of((s + Bytes(Crc.Of(s))) + Rep(0, 8)) == 0
  {
    CheckedBlock([], s);
    assert [] + s == s;
    SumAppend(s + Bytes(Crc.Of(s)), Rep(0, 8), 0);
    ZerosCrc(Rep(0, 8));
  }

  lemma LuckyMark(f: File, front: seq<byte>, hi: byte)
    requires Writable(f) && front == Front(f.name, f.kind) + f.creator && f.data == [] && f.rsrc == []
    requires f.flags == Crc.Of(front) && Bytes(f.flags) == [hi, RUN] && Clean(front + [hi])
    ensures RUN in Header(f) && ReadBack(f)
  {
    LuckyHeader(f, front, hi);
    NoForks(f);
    var u, v := front + [hi], Rep(0, 9);
    LuckyRead(f, u, 0, v);
    assert Checked(Header(f))[|u|] == RUN;
  }

  lemma NoForks(f: File)
    requires Writable(f) && f.data == [] && f.rsrc == []
    ensures After(f) == Rep(0, 4) && Clean(Bytes(Crc.Of(f.data))) && Clean(Bytes(Crc.Of(f.rsrc)))
  {
    assert Bytes(Crc.Of([])) == [0, 0];
  }

  lemma LuckyRead(f: File, u: seq<byte>, b: byte, v: seq<byte>)
    requires Writable(f) && Checked(Header(f)) == u + ([RUN, b] + v) && Clean(u) && v == Rep(0, 9) && b == 0
    requires f.data == [] && After(f) == Rep(0, 4) && Clean(Bytes(Crc.Of(f.data))) && Clean(Bytes(Crc.Of(f.rsrc)))
    ensures ReadBack(f)
  {
    assert Zeros(v + After(f));
    OneMarkIff(f, u, b, v);
  }

  lemma ZerosThen(zeros: seq<byte>, b: byte)
    requires Zeros(zeros) && b == 0x99
    ensures Crc.Of(zeros + [b]) == 0x1290
  {
    SumAppend(zeros, [b], 0);
    ZerosCrc(zeros);
    SumOne(b, 0);
    Crc99(b, 0);
  }

  lemma NotClean(f: File)
    requires Writable(f) && RUN in Header(f)
    ensures !CleanFields(f)
  {
    var k :| 0 <= k < |Header(f)| && Header(f)[k] == RUN;
    assert Checked(Header(f))[k] == RUN;
  }

  lemma SurvivesWith(b: byte, flags: half, hi: byte) returns (f: File)
    requires b == 0x99 && flags == 0x1290 && hi == 0x12
    ensures Writable(f) && RUN in Header(f) && ReadBack(f)
  {
    var front := Rep(0, 9) + [b];
    f := File([], Rep(0, 4), Rep(0, 3) + [b], flags, [], []);
    assert Front(f.name, f.kind) + f.creator == front;
    ZerosThen(Rep(0, 9), b);
    assert Bytes(flags) == [hi, RUN];
    LuckyMark(f, front, hi);
  }

  /** A file that is read back although its header holds an unescaped run mark. */
  lemma MarkSurvives() returns (f: File)
    ensures Writable(f) && !CleanFields(f) && ReadBack(f)
  {
    f := SurvivesWith(0x99, 0x1290, 0x12);
    NotClean(f);
  }
}
