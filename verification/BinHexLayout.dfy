/** What the bytes of a BinHex 4.0 file mean, byte by byte: the packing, the runs, and the header. */
module BinHexLayout {
  import opened Words
  import opened Bits
  import opened Canonical
  import opened Crc
  import opened BinHexRle
  import opened BinHexText
  import opened BinHexFile

  // ---- packing ------------------------------------------------------------------------------

  lemma {:induction false} JoinBits(x: nat, m: nat, y: nat, n: nat)
    requires y < Pow2(n)
    ensures CodeBits(x, m) + CodeBits(y, n) == CodeBits(x * Pow2(n) + y, m + n)
    decreases n
  {
    if n == 0 {
      assert CodeBits(x, m) + [] == CodeBits(x, m);
    } else {
      var p := Pow2(n - 1);
      assert x * (2 * p) == 2 * (x * p);
      assert (2 * (x * p) + y) / 2 == x * p + y / 2 && (2 * (x * p) + y) % 2 == y % 2;
      JoinBits(x, m, y / 2, n - 1);
      Assoc(CodeBits(x, m), CodeBits(y / 2, n - 1), [y % 2]);
    }
  }

  lemma SixesHead(x: six, w: nat, s: seq<bit>, bits: seq<bit>)
    requires w == 6 && s == CodeBits(x, w)
    ensures Sixes(s + bits) == [x] + Sixes(bits)
  {
    PowSix();
    NumOfCode(x, w);
    assert (s + bits)[..6] == s && (s + bits)[6..] == bits;
  }

  lemma FourHeads(x0: six, x1: six, x2: six, x3: six, w: nat, s0: seq<bit>, s1: seq<bit>, s2: seq<bit>, s3: seq<bit>, t: seq<bit>)
    requires w == 6 && s0 == CodeBits(x0, w) && s1 == CodeBits(x1, w) && s2 == CodeBits(x2, w) && s3 == CodeBits(x3, w)
    ensures Sixes(s0 + (s1 + (s2 + (s3 + t)))) == [x0, x1, x2, x3] + Sixes(t)
  {
    SixesHead(x3, w, s3, t);
    SixesHead(x2, w, s2, s3 + t);
    SixesHead(x1, w, s1, s2 + (s3 + t));
    SixesHead(x0, w, s0, s1 + (s2 + (s3 + t)));
  }

  lemma SmallPowers()
    ensures Pow2(2) == 4 && Pow2(4) == 16 && Pow2(6) == 64 && Pow2(8) == 256
  {
    PowSix();
  }

  lemma Regrouped(a1: seq<bit>, a2: seq<bit>, b1: seq<bit>, b2: seq<bit>, c1: seq<bit>, c2: seq<bit>, t: seq<bit>)
    ensures (a1 + a2) + ((b1 + b2) + ((c1 + c2) + t)) == a1 + ((a2 + b1) + ((b2 + c1) + (c2 + t)))
  {
  }

  lemma ThreeBytes(a: byte, b: byte, c: byte, rest: seq<byte>, e: nat)
    ensures BitsOf([a, b, c] + rest, e) == CodeBits(a, e) + (CodeBits(b, e) + (CodeBits(c, e) + BitsOf(rest, e)))
  {
    assert [a, b, c] + rest == [a] + ([b] + ([c] + rest));
    BitsOfCons(a, [b] + ([c] + rest), e);
    BitsOfCons(b, [c] + rest, e);
    BitsOfCons(c, rest, e);
  }

  /** The bits of three bytes are those of four six-bit values. */
  lemma ThreeIsFour(a: byte, b: byte, c: byte, two: nat, four: nat, w: nat, e: nat, t: seq<bit>)
    requires two == 2 && four == 4 && w == 6 && e == 8
    ensures Sixes(CodeBits(a, e) + (CodeBits(b, e) + (CodeBits(c, e) + t)))
         == [a / 4, a % 4 * 16 + b / 16, b % 16 * 4 + c / 64, c % 64] + Sixes(t)
  {
    SmallPowers();
    JoinBits(a / 4, w, a % 4, two);
    JoinBits(b / 16, four, b % 16, four);
    JoinBits(c / 64, two, c % 64, w);
    JoinBits(a % 4, two, b / 16, four);
    JoinBits(b % 16, four, c / 64, two);
    Regrouped(CodeBits(a / 4, w), CodeBits(a % 4, two), CodeBits(b / 16, four), CodeBits(b % 16, four), CodeBits(c / 64, two), CodeBits(c % 64, w), t);
    FourHeads(a / 4, a % 4 * 16 + b / 16, b % 16 * 4 + c / 64, c % 64, w, CodeBits(a / 4, w),
              CodeBits(a % 4 * 16 + b / 16, w), CodeBits(b % 16 * 4 + c / 64, w), CodeBits(c % 64, w), t);
  }

  /** Three bytes make four values, the high bits first. */
  lemma PackThree(a: byte, b: byte, c: byte, rest: seq<byte>)
    ensures Pack([a, b, c] + rest) == [a / 4, a % 4 * 16 + b / 16, b % 16 * 4 + c / 64, c % 64] + Pack(rest)
  {
    ThreeBytes(a, b, c, rest, EIGHT);
    ThreeIsFour(a, b, c, 2, 4, SIX, EIGHT, BitsOf(rest, EIGHT));
  }

  /** A rest of one or two bytes is filled up with zero bits. */
  lemma PackRest(a: byte, b: byte)
    ensures Pack([a]) == [a / 4, a % 4 * 16]
    ensures Pack([a, b]) == [a / 4, a % 4 * 16 + b / 16, b % 16 * 4]
  {
    OneRest(a, 2, SIX, EIGHT);
    TwoRest(a, b, 2, 4, SIX, EIGHT);
  }

  lemma LastSix(x: six, m: nat, y: nat, n: nat, w: nat)
    requires w == 6 && m + n == w && 0 < m < 6 && x as int == y * Pow2(n)
    ensures Sixes(CodeBits(y, m)) == [x]
  {
    PowSix();
    JoinBits(y, m, 0, n);
    ZeroBits(n);
    assert CodeBits(y, m) + Zeros(6 - m) == CodeBits(x, w);
    NumOfCode(x, w);
  }

  lemma {:induction false} ZeroBits(n: nat)
    ensures CodeBits(0, n) == Zeros(n)
    decreases n
  {
    if n > 0 {
      ZeroBits(n - 1);
      assert Zeros(n) == Zeros(n - 1) + [0];
    }
  }

  lemma OneRest(a: byte, two: nat, w: nat, e: nat)
    requires two == 2 && w == 6 && e == 8
    ensures Sixes(BitsOf([a], e)) == [a / 4, a % 4 * 16]
  {
    SmallPowers();
    JoinBits(a / 4, w, a % 4, two);
    BitsOfCons(a, [], e);
    assert [a] + [] == [a] && CodeBits(a, e) + [] == CodeBits(a, e);
    SixesHead(a / 4, w, CodeBits(a / 4, w), CodeBits(a % 4, two));
    LastSix(a % 4 * 16, two, a % 4, 4, w);
  }

  lemma RegroupedTwo(a1: seq<bit>, a2: seq<bit>, b1: seq<bit>, b2: seq<bit>)
    ensures (a1 + a2) + (b1 + b2) == a1 + ((a2 + b1) + b2)
  {
  }

  lemma TwoBytes(a: byte, b: byte, e: nat)
    ensures BitsOf([a, b], e) == CodeBits(a, e) + CodeBits(b, e)
  {
    BitsOfCons(a, [b], e);
    BitsOfCons(b, [], e);
    assert [b] + [] == [b] && CodeBits(b, e) + [] == CodeBits(b, e) && [a] + [b] == [a, b];
  }

  lemma TwoRest(a: byte, b: byte, two: nat, four: nat, w: nat, e: nat)
    requires two == 2 && four == 4 && w == 6 && e == 8
    ensures Sixes(BitsOf([a, b], e)) == [a / 4, a % 4 * 16 + b / 16, b % 16 * 4]
  {
    SmallPowers();
    JoinBits(a / 4, w, a % 4, two);
    JoinBits(b / 16, four, b % 16, four);
    JoinBits(a % 4, two, b / 16, four);
    TwoBytes(a, b, e);
    var a1, a2, b1, b2 := CodeBits(a / 4, w), CodeBits(a % 4, two), CodeBits(b / 16, four), CodeBits(b % 16, four);
    RegroupedTwo(a1, a2, b1, b2);
    SixesHead(a % 4 * 16 + b / 16, w, a2 + b1, b2);
    SixesHead(a / 4, w, a1, (a2 + b1) + b2);
    LastSix(b % 16 * 4, four, b % 16, two, w);
  }

  // ---- runs -----------------------------------------------------------------------------------

  /** `xs` is `n` times `x`. */
  predicate Copies(xs: seq<byte>, x: byte, n: nat) {
    |xs| == n && forall k | 0 <= k < n :: xs[k] == x
  }

  /** A byte, the mark 0x90 and a count stand for so many copies in all, whatever follows; a mark and a zero for the
      byte 0x90 itself; and a count behind such a mark repeats 0x90. */
  lemma RunMeans(x: byte, n: byte, rest: seq<byte>, last: byte) returns (xs: seq<byte>)
    requires x != 0x90 && n > 0
    ensures Copies(xs, x, n) && Expand([x, 0x90, n] + rest, false, last) == xs + Expand(rest, false, x)
    ensures Expand([x] + rest, false, last) == [x] + Expand(rest, false, x)
    ensures Expand([0x90, 0] + rest, false, last) == [0x90] + Expand(rest, false, 0x90)
  {
    var mark: byte := 0x90;
    xs := Rep(x, n);
    assert [x, mark, n] + rest == [x] + ([mark, n] + rest);
    ExpandLiteral(x, [mark, n] + rest, last);
    ExpandRun(n, rest, x);
    ExpandLiteral(x, rest, last);
    ExpandRun(0, rest, last);
    Assoc([x], Rep(x, n - 1), Expand(rest, false, x));
    assert [x] + Rep(x, n - 1) == Rep(x, n);
  }

  lemma MarkRepeats(n: byte, rest: seq<byte>, last: byte) returns (xs: seq<byte>)
    requires n > 0
    ensures Copies(xs, 0x90, n) && Expand([0x90, 0, 0x90, n] + rest, false, last) == xs + Expand(rest, false, 0x90)
  {
    var mark: byte := 0x90;
    xs := Rep(mark, n);
    assert [mark, 0, mark, n] + rest == [mark, 0] + ([mark, n] + rest);
    ExpandRun(0, [mark, n] + rest, last);
    ExpandRun(n, rest, mark);
    Assoc([mark], Rep(mark, n - 1), Expand(rest, false, mark));
    assert [mark] + Rep(mark, n - 1) == Rep(mark, n);
  }

  lemma {:induction false} RunEnds(data: seq<byte>, i: nat, j: nat)
    requires i <= j < |data| && j - i <= 254
    ensures var e := RunEnd(data, i, j); e + 1 == |data| || data[e + 1] != data[i] || e - i == 254
    decreases |data| - j
  {
    if j + 1 < |data| && data[j + 1] == data[i] && j - i < 254 { RunEnds(data, i, j + 1); }
  }

  /** Neighbouring runs have different bytes, unless the first is as long as a run can be. */
  predicate Maximal(rs: seq<Run>) {
    forall k | 0 < k < |rs| :: rs[k - 1].length == 255 || rs[k - 1].value != rs[k].value
  }

  /** The encoder never splits a run it could write as one. */
  lemma {:induction false} RunsMaximal(data: seq<byte>, i: nat)
    requires i <= |data|
    ensures Maximal(Runs(data, i)) && (i < |data| ==> Runs(data, i) != [] && Runs(data, i)[0].value == data[i])
    decreases |data| - i
  {
    if i < |data| {
      var j := RunEnd(data, i, i);
      RunEnds(data, i, i);
      RunsMaximal(data, j + 1);
    }
  }

  lemma {:induction false} WholeRun(x: byte, r: nat, j: nat)
    requires j < r <= 255
    ensures RunEnd(Rep(x, r), 0, j) == r - 1
    decreases r - j
  {
    if j + 1 < r { WholeRun(x, r, j + 1); }
  }

  lemma {:induction false} EscapesAre(n: nat)
    ensures |Escapes(n)| == 2 * n && forall k | 0 <= k < 2 * n :: Escapes(n)[k] == if k % 2 == 0 then 0x90 else 0
    decreases n
  {
    if n > 0 { EscapesAre(n - 1); }
  }

  /** A run of three or more is written as the byte, the mark and the count, a shorter one as it is; of the mark itself
      every copy is written with a zero behind it. */
  lemma RunWritten(x: byte, r: nat)
    requires 1 <= r <= 255
    ensures x != 0x90 && r >= 3 ==> Rle(Rep(x, r)) == [x, 0x90, r]
    ensures x != 0x90 && r < 3 ==> Copies(Rle(Rep(x, r)), x, r)
    ensures x == 0x90 ==> |Rle(Rep(x, r))| == 2 * r && forall k | 0 <= k < 2 * r :: Rle(Rep(x, r))[k] == if k % 2 == 0 then 0x90 else 0
  {
    OneToken(x, r);
    EscapesAre(r);
  }

  lemma OneToken(x: byte, r: nat)
    requires 1 <= r <= 255
    ensures Rle(Rep(x, r)) == Token(x, r)
  {
    var data := Rep(x, r);
    var rs := Runs(data, 0);
    WholeRun(x, r, 0);
    assert Runs(data, r) == [];
    assert rs == [Run(x, r)] && rs[1..] == [];
    assert Written(rs[1..]) == [] && Token(x, r) + [] == Token(x, r);
    assert Written(rs) == Token(x, r) + Written(rs[1..]);
  }

  // ---- the header -----------------------------------------------------------------------------------

  function Short(s: seq<byte>, at: nat): nat
    requires at + 2 <= |s|
  {
    var hi: int, lo: int := s[at], s[at + 1];
    hi * 256 + lo
  }

  /** The number of four bytes, the first the most significant. */
  function Long(s: seq<byte>, at: nat): nat
    requires at + 4 <= |s|
  {
    Short(s, at) * 0x1_0000 + Short(s, at + 2)
  }

  /** Where the fields of a header stand: the name's length and the name, a zero, type, creator, flags, and the lengths
      of the forks. */
  lemma HeaderBytes(f: File)
    requires Writable(f)
    ensures var h, n := Header(f), |f.name|;
      && |h| == 20 + n && h[0] == n && h[1..1 + n] == f.name && h[1 + n] == 0
      && h[2 + n..6 + n] == f.kind && h[6 + n..10 + n] == f.creator && Short(h, 10 + n) == f.flags as int
      && Long(h, 12 + n) == |f.data| && Long(h, 16 + n) == |f.rsrc|
  {
    var n, h := |f.name|, Header(f);
    var front, back := Front(f.name, f.kind), f.creator + (Bytes(f.flags) + (Four(|f.data|) + Four(|f.rsrc|)));
    FrontBytes(f.name, f.kind);
    BackBytes(f.creator, f.flags, |f.data|, |f.rsrc|);
    assert h == front + back;
    assert h[1..1 + n] == front[1..1 + n] && h[2 + n..6 + n] == front[2 + n..6 + n] && h[6 + n..10 + n] == back[..4];
  }

  lemma FrontBytes(name: seq<byte>, kind: seq<byte>)
    requires |name| < 256 && |kind| == 4
    ensures var s, n := Front(name, kind), |name|;
      s[0] == n && s[1..1 + n] == name && s[1 + n] == 0 && s[2 + n..6 + n] == kind
  {
  }

  lemma FourBytes(w: word)
    ensures Long(Four(w), 0) == w as int
  {
  }

  lemma BackBytes(creator: seq<byte>, flags: half, d: word, r: word)
    requires |creator| == 4
    ensures var s := creator + (Bytes(flags) + (Four(d) + Four(r)));
      && s[..4] == creator && Short(s, 4) == flags as int
      && Long(s, 6) == d as int && Long(s, 10) == r as int
  {
    FourBytes(d);
    FourBytes(r);
    var s := creator + (Bytes(flags) + (Four(d) + Four(r)));
    assert s[4] == Bytes(flags)[0] && s[5] == Bytes(flags)[1];
    assert forall k | 0 <= k < 4 :: s[6 + k] == Four(d)[k] && s[10 + k] == Four(r)[k];
  }

  /** The CRC of a block stands behind it, its high byte first. */
  lemma CheckedBytes(s: seq<byte>)
    ensures |Checked(s)| == |s| + 2 && Checked(s)[..|s|] == s
    ensures Short(Checked(s), |s|) == Crc.Of(s) as int
  {
  }

  /** The decoded stream: header, its CRC, data fork, its CRC, resource fork, its CRC. */
  lemma StreamBytes(f: File)
    requires Writable(f)
    ensures var p, a, d, r := Plain(f), 20 + |f.name|, |f.data|, |f.rsrc|;
      && |p| == a + 2 + d + 2 + r + 2 && p[..a] == Header(f) && Short(p, a) == Crc.Of(Header(f)) as int
      && p[a + 2..a + 2 + d] == f.data && Short(p, a + 2 + d) == Crc.Of(f.data) as int
      && p[a + 4 + d..a + 4 + d + r] == f.rsrc && Short(p, a + 4 + d + r) == Crc.Of(f.rsrc) as int
  {
    var h, c, d := Checked(Header(f)), Bytes(Crc.Of(f.data)), Bytes(Crc.Of(f.rsrc));
    var n, m := |h|, |f.data|;
    var p := h + (f.data + (c + (f.rsrc + d)));
    assert p == Plain(f);
    CheckedBytes(Header(f));
    assert p[n + m] == c[0] && p[n + m + 1] == c[1];
    assert p[n + m + 2 + |f.rsrc|] == d[0] && p[n + m + 3 + |f.rsrc|] == d[1];
    assert p[..|h| - 2] == h[..|h| - 2];
  }
}
