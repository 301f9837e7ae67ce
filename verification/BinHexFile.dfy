/** A whole BinHex 4.0 file: three checked parts, written by the fixture encoder and read back. */
module BinHexFile {
  import opened Words
  import opened Crc
  import opened BinHexRle
  import opened BinHexText

  /** Names and types are byte strings; `struct.pack` refuses fields that are too large. */
  datatype File = File(name: seq<byte>, kind: seq<byte>, creator: seq<byte>, flags: half,
                       data: seq<byte>, rsrc: seq<byte>)

  predicate Writable(f: File) {
    |f.name| < 256 && |f.kind| == 4 && |f.creator| == 4 && |f.data| < 0x1_0000_0000 && |f.rsrc| < 0x1_0000_0000
  }

  function Four(w: word): (s: seq<byte>)
    ensures |s| == 4
  {
    var x: int := w;
    Bytes(x / 0x1_0000) + Bytes(x % 0x1_0000)
  }

  /** The name with its length in front, a zero, the type. */
  function Front(name: seq<byte>, kind: seq<byte>): (s: seq<byte>)
    requires |name| < 256
    ensures |s| == |name| + |kind| + 2
  {
    [|name|] + (name + ([0] + kind))
  }

  function Header(f: File): (h: seq<byte>)
    requires Writable(f)
    ensures |h| == |f.name| + 20
  {
    Front(f.name, f.kind) + (f.creator + (Bytes(f.flags) + (Four(|f.data|) + Four(|f.rsrc|))))
  }

  /** A block followed by its CRC. */
  function Checked(s: seq<byte>): seq<byte> { s + Bytes(Crc.Of(s)) }

  /** What is packed: the header as it is, the forks run-length encoded, every CRC as it is. */
  function Encoded(f: File): seq<byte>
    requires Writable(f)
  {
    Checked(Header(f)) + (Rle(f.data) + (Bytes(Crc.Of(f.data)) + (Rle(f.rsrc) + Bytes(Crc.Of(f.rsrc)))))
  }

  /** What the decoder is meant to see. */
  function Plain(f: File): seq<byte>
    requires Writable(f)
  {
    Checked(Header(f)) + (f.data + (Bytes(Crc.Of(f.data)) + (f.rsrc + Bytes(Crc.Of(f.rsrc)))))
  }

  function EncodeHqx(f: File): string
    requires Writable(f)
  {
    EncodeText(Pack(Encoded(f)))
  }

  function DecodeHqx(text: string): Option<seq<byte>> {
    var vals := DecodeText(text);
    if vals.None? then None else Some(Expand(Unpack(vals.value), false, 0))
  }

  /** The fields the encoder does not escape are free of the run mark. */
  predicate CleanFields(f: File)
    requires Writable(f)
  {
    Clean(Checked(Header(f))) && Clean(Bytes(Crc.Of(f.data))) && Clean(Bytes(Crc.Of(f.rsrc)))
  }

  /** Run-length coding and its inverse leave the plain stream, when the unescaped fields are clean. */
  lemma ExpandEncoded(f: File)
    requires Writable(f) && CleanFields(f)
    ensures Expand(Encoded(f), false, 0) == Plain(f)
  {
    var h, c, d := Checked(Header(f)), Bytes(Crc.Of(f.data)), Bytes(Crc.Of(f.rsrc));
    ExpandParts(h, f.data, c, f.rsrc, d, 0);
  }

  lemma ExpandParts(h: seq<byte>, a: seq<byte>, c: seq<byte>, b: seq<byte>, d: seq<byte>, last: byte)
    requires Clean(h) && Clean(c) && Clean(d)
    ensures Expand(h + (Rle(a) + (c + (Rle(b) + d))), false, last) == h + (a + (c + (b + d)))
  {
    CleanYields(h, last);
    var m := ExpandRle(a, Last(h, last));
    CleanYields(c, m);
    var n := ExpandRle(b, Last(c, m));
    CleanYields(d, n);
    FiveYield(h, Rle(a), a, c, Rle(b), b, d, last, Last(h, last), m, Last(c, m), n, Last(d, n));
  }

  lemma FiveYield(h: seq<byte>, ra: seq<byte>, a: seq<byte>, c: seq<byte>, rb: seq<byte>, b: seq<byte>, d: seq<byte>,
                  l0: byte, l1: byte, l2: byte, l3: byte, l4: byte, l5: byte)
    requires Yields(h, l0, h, l1) && Yields(ra, l1, a, l2) && Yields(c, l2, c, l3) && Yields(rb, l3, b, l4) && Yields(d, l4, d, l5)
    ensures Expand(h + (ra + (c + (rb + d))), false, l0) == h + (a + (c + (b + d)))
  {
    Compose(rb + d, rb, d, b + d, b, d, l3, l4, l5);
    Compose(c + (rb + d), c, rb + d, c + (b + d), c, b + d, l2, l3, l5);
    Compose(ra + (c + (rb + d)), ra, c + (rb + d), a + (c + (b + d)), a, c + (b + d), l1, l2, l5);
    Compose(h + (ra + (c + (rb + d))), h, ra + (c + (rb + d)), h + (a + (c + (b + d))), h, a + (c + (b + d)), l0, l1, l5);
    EndYields(h + (ra + (c + (rb + d))), l0, h + (a + (c + (b + d))), l5);
  }

  lemma EndYields(packed: seq<byte>, last: byte, out: seq<byte>, next: byte)
    requires Yields(packed, last, out, next)
    ensures Expand(packed, false, last) == out
  {
    assert packed + [] == packed && out + [] == out;
    assert Expand(packed + [], false, last) == out + Expand([], false, next);
  }

  // ---- reading the plain stream -------------------------------------------------------------------

  /** `int.from_bytes(…, "big")`, which is 0 for no bytes. */
  function BigEndian(s: seq<byte>): nat {
    if s == [] then 0 else var low: int := s[|s| - 1]; BigEndian(s[..|s| - 1]) * 256 + low
  }

  datatype Parsed = Parsed(name: seq<byte>, kind: seq<byte>, creator: seq<byte>, flags: nat,
                           dlen: nat, rlen: nat, crcOff: nat)

  /** One of the two layouts: the header's CRC is at 20 + n, or one byte further. */
  function ParseLayout(raw: seq<byte>, extra: nat): Option<Parsed>
    requires |raw| > 0
  {
    var n: nat := raw[0];
    var end: nat := 20 + n + extra;
    if Crc.Of(Cut(raw, 0, end)) as int != BigEndian(Cut(raw, end, end + 2)) then None
    else Some(Parsed(Cut(raw, 1, 1 + n), Cut(raw, 2 + n, 6 + n), Cut(raw, 6 + n, 10 + n),
                     BigEndian(Cut(raw, 10 + n, 12 + n)), BigEndian(Cut(raw, 12 + n, 16 + n)),
                     BigEndian(Cut(raw, 16 + n, 20 + n)), end))
  }

  function ParseHeader(raw: seq<byte>): Option<Parsed>
    requires |raw| > 0
  {
    var n: nat := raw[0];
    if |raw| < 22 + n + 2 then None
    else
      var a := ParseLayout(raw, 0);
      if a.Some? then a else ParseLayout(raw, 1)
  }

  datatype Result =
    | Accepted(header: Parsed, data: seq<byte>, rsrc: seq<byte>)
    | BadText | NoHeader | DataMismatch | RsrcMismatch

  /** A fork of `len` bytes at `pos`, whose CRC follows it and covers everything before. */
  function ForkAt(raw: seq<byte>, pos: nat, len: nat): Option<seq<byte>> {
    if Crc.Of(Cut(raw, 0, pos + len)) as int != BigEndian(Cut(raw, pos + len, pos + len + 2)) then None
    else Some(Cut(raw, pos, pos + len))
  }

  /** The first fork whose CRC is wrong is reported. */
  function Combine(p: Parsed, data: Option<seq<byte>>, rsrc: Option<seq<byte>>): Result {
    if data.None? then DataMismatch else if rsrc.None? then RsrcMismatch else Accepted(p, data.value, rsrc.value)
  }

  function Forks(raw: seq<byte>, h: Option<Parsed>): Result {
    if h.None? then NoHeader
    else
      var p := h.value;
      Combine(p, ForkAt(raw, p.crcOff + 2, p.dlen), ForkAt(raw, p.crcOff + 2 + p.dlen + 2, p.rlen))
  }

  function Extract(raw: seq<byte>): Result {
    if raw == [] then NoHeader else Forks(raw, ParseHeader(raw))
  }

  function ReadHqx(text: string): Result {
    var raw := DecodeHqx(text);
    if raw.None? then BadText else Extract(raw.value)
  }

  // ---- the round trip ---------------------------------------------------------------------------------

  lemma CutMiddle(s: seq<byte>, a: seq<byte>, b: seq<byte>, c: seq<byte>)
    requires s == a + (b + c)
    ensures Cut(s, |a|, |a| + |b|) == b && Cut(s, 0, |a|) == a
  {
  }

  lemma BigEndianSnoc(s: seq<byte>, b: byte)
    ensures BigEndian(s + [b]) == BigEndian(s) * 256 + b as int
  {
    assert (s + [b])[..|s|] == s;
  }

  lemma BytesBack(c: half)
    ensures BigEndian(Bytes(c)) == c as int
  {
    var x: int := c;
    var hi: byte, lo: byte := x / 256, x % 256;
    assert Bytes(c) == [hi] + [lo];
    BigEndianSnoc([hi], lo);
    assert [hi] == [] + [hi];
    BigEndianSnoc([], hi);
  }

  lemma FourBack(w: word)
    ensures BigEndian(Four(w)) == w as int
  {
    var x: int := w;
    var hi: half, lo: half := x / 0x1_0000, x % 0x1_0000;
    var a: byte, b: byte := (lo as int) / 256, (lo as int) % 256;
    BytesBack(hi);
    assert Four(w) == (Bytes(hi) + [a]) + [b];
    BigEndianSnoc(Bytes(hi) + [a], b);
    BigEndianSnoc(Bytes(hi), a);
  }

  /** A fork in a stream whose part before it has CRC zero is accepted, and leaves CRC zero. */
  lemma ForkBack(raw: seq<byte>, before: seq<byte>, s: seq<byte>, after: seq<byte>)
    requires Crc.Of(before) == 0 && raw == before + (s + (Bytes(Crc.Of(s)) + after))
    ensures ForkAt(raw, |before|, |s|) == Some(s)
    ensures Crc.Of(before + s + Bytes(Crc.Of(s))) == 0
  {
    var c := Bytes(Crc.Of(s));
    CutMiddle(raw, before, s, c + after);
    Assoc(before, s, c + after);
    CutMiddle(raw, before + s, c, after);
    CheckedBlock(before, s);
    BytesBack(Crc.Of(s));
  }

  lemma CutSkip(a: seq<byte>, s: seq<byte>, i: nat, j: nat, k: nat)
    requires i <= j && k == |a|
    ensures Cut(a + s, k + i, k + j) == Cut(s, i, j)
  {
  }

  lemma CutHead(a: seq<byte>, s: seq<byte>, n: nat)
    requires n == |a|
    ensures Cut(a + s, 0, n) == a
  {
  }

  lemma CutWithin(s: seq<byte>, t: seq<byte>, i: nat, j: nat)
    requires i <= j <= |s|
    ensures Cut(s + t, i, j) == Cut(s, i, j)
  {
  }

  lemma FrontCuts(name: seq<byte>, kind: seq<byte>, n: nat)
    requires |name| < 256 && n == |name| && |kind| == 4
    ensures Cut(Front(name, kind), 1, 1 + n) == name && Cut(Front(name, kind), 2 + n, 6 + n) == kind
    ensures Front(name, kind)[0] == n
  {
    var one: seq<byte>, zero: seq<byte> := [|name|], [0];
    CutSkip(one, name + (zero + kind), 0, n, 1);
    CutHead(name, zero + kind, n);
    CutSkip(one, name + (zero + kind), 1 + n, 5 + n, 1);
    CutSkip(name, zero + kind, 1, 5, n);
    CutSkip(zero, kind, 0, 4, 1);
    assert Cut(kind, 0, 4) == kind;
  }

  lemma BackCuts(creator: seq<byte>, flags: seq<byte>, d: seq<byte>, r: seq<byte>)
    requires |creator| == 4 && |flags| == 2 && |d| == 4 && |r| == 4
    ensures var s := creator + (flags + (d + r));
      Cut(s, 0, 4) == creator && Cut(s, 4, 6) == flags && Cut(s, 6, 10) == d && Cut(s, 10, 14) == r
  {
    var t, u := flags + (d + r), d + r;
    CutHead(creator, t, 4);
    CutSkip(creator, t, 0, 2, 4);
    CutHead(flags, u, 2);
    CutSkip(creator, t, 2, 6, 4);
    CutSkip(flags, u, 0, 4, 2);
    CutHead(d, r, 4);
    CutSkip(creator, t, 6, 10, 4);
    CutSkip(flags, u, 4, 8, 2);
    CutSkip(d, r, 0, 4, 4);
    assert Cut(r, 0, 4) == r;
  }

  /** Every field of a header in front of anything. */
  lemma HeaderCuts(front: seq<byte>, back: seq<byte>, after: seq<byte>, n: nat)
    requires |front| == 6 + n && |back| == 14
    ensures var raw := (front + back) + after;
      && Cut(raw, 0, 20 + n) == front + back
      && Cut(raw, 1, 1 + n) == Cut(front, 1, 1 + n) && Cut(raw, 2 + n, 6 + n) == Cut(front, 2 + n, 6 + n)
      && Cut(raw, 6 + n, 10 + n) == Cut(back, 0, 4) && Cut(raw, 10 + n, 12 + n) == Cut(back, 4, 6)
      && Cut(raw, 12 + n, 16 + n) == Cut(back, 6, 10) && Cut(raw, 16 + n, 20 + n) == Cut(back, 10, 14)
  {
    var h := front + back;
    CutHead(h, after, 20 + n);
    CutWithin(h, after, 1, 1 + n);
    CutWithin(front, back, 1, 1 + n);
    CutWithin(h, after, 2 + n, 6 + n);
    CutWithin(front, back, 2 + n, 6 + n);
    BackCut(front, back, after, n, 0, 4);
    BackCut(front, back, after, n, 4, 6);
    BackCut(front, back, after, n, 6, 10);
    BackCut(front, back, after, n, 10, 14);
  }

  lemma BackCut(front: seq<byte>, back: seq<byte>, after: seq<byte>, n: nat, i: nat, j: nat)
    requires |front| == 6 + n && |back| == 14 && i <= j <= 14
    ensures Cut((front + back) + after, 6 + n + i, 6 + n + j) == Cut(back, i, j)
  {
    CutWithin(front + back, after, 6 + n + i, 6 + n + j);
    CutSkip(front, back, i, j, 6 + n);
  }

  function HeaderOf(f: File): Parsed {
    Parsed(f.name, f.kind, f.creator, f.flags, |f.data|, |f.rsrc|, |f.name| + 20)
  }

  /** A written header is recognized in the first layout and every field is recovered. */
  lemma HeaderBack(f: File, after: seq<byte>)
    requires Writable(f) && |after| >= 2
    ensures ParseHeader(Checked(Header(f)) + after) == Some(HeaderOf(f))
  {
    var n := |f.name|;
    var front, back := Front(f.name, f.kind), f.creator + (Bytes(f.flags) + (Four(|f.data|) + Four(|f.rsrc|)));
    var c := Bytes(Crc.Of(Header(f)));
    Assoc(front + back, c, after);
    HeaderCuts(front, back, c + after, n);
    FrontCuts(f.name, f.kind, n);
    BackCuts(f.creator, Bytes(f.flags), Four(|f.data|), Four(|f.rsrc|));
    BytesBack(f.flags);
    FourBack(|f.data|);
    FourBack(|f.rsrc|);
    CutSkip(Header(f), c + after, 0, 2, 20 + n);
    CutHead(c, after, 2);
    BytesBack(Crc.Of(Header(f)));
  }

  /** Both forks of a stream whose first part has CRC zero. */
  lemma ForksBack(h: seq<byte>, a: seq<byte>, b: seq<byte>)
    requires Crc.Of(h) == 0
    ensures var raw := h + (a + (Bytes(Crc.Of(a)) + (b + Bytes(Crc.Of(b)))));
      ForkAt(raw, |h|, |a|) == Some(a) && ForkAt(raw, |h| + |a| + 2, |b|) == Some(b)
  {
    var c, d := Bytes(Crc.Of(a)), Bytes(Crc.Of(b));
    var raw := h + (a + (c + (b + d)));
    ForkBack(raw, h, a, b + d);
    Assoc(h, a, c + (b + d));
    Assoc(h + a, c, b + d);
    assert d + [] == d;
    ForkBack(raw, h + a + c, b, []);
  }

  lemma ForksAccepted(raw: seq<byte>, p: Parsed, data: seq<byte>, rsrc: seq<byte>)
    requires ForkAt(raw, p.crcOff + 2, p.dlen) == Some(data) && ForkAt(raw, p.crcOff + 2 + p.dlen + 2, p.rlen) == Some(rsrc)
    ensures Forks(raw, Some(p)) == Accepted(p, data, rsrc)
  {
    assert Forks(raw, Some(p)) == Combine(p, Some(data), Some(rsrc));
  }

  lemma ExtractIsForks(raw: seq<byte>, p: Parsed)
    requires raw != [] && ParseHeader(raw) == Some(p)
    ensures Extract(raw) == Forks(raw, Some(p))
  {
  }

  lemma HeaderChecked(f: File)
    requires Writable(f)
    ensures Crc.Of(Checked(Header(f))) == 0
  {
    CheckedBlock([], Header(f));
    assert [] + Header(f) == Header(f);
  }

  lemma PlainForks(f: File)
    requires Writable(f)
    ensures Forks(Plain(f), Some(HeaderOf(f))) == Accepted(HeaderOf(f), f.data, f.rsrc)
  {
    HeaderChecked(f);
    ForksBack(Checked(Header(f)), f.data, f.rsrc);
    ForksAccepted(Plain(f), HeaderOf(f), f.data, f.rsrc);
  }

  lemma PlainExtracts(f: File)
    requires Writable(f)
    ensures Extract(Plain(f)) == Accepted(HeaderOf(f), f.data, f.rsrc)
  {
    HeaderBack(f, f.data + (Bytes(Crc.Of(f.data)) + (f.rsrc + Bytes(Crc.Of(f.rsrc)))));
    ExtractIsForks(Plain(f), HeaderOf(f));
    PlainForks(f);
  }

  /** A file whose unescaped fields are free of the run mark is read back: the header, both forks, and
      all three CRCs accepted. */
  lemma FileRoundTrip(f: File)
    requires Writable(f) && CleanFields(f)
    ensures ReadHqx(EncodeHqx(f)) == Accepted(HeaderOf(f), f.data, f.rsrc)
  {
    TextRoundTrip(Pack(Encoded(f)));
    UnpackPack(Encoded(f));
    ExpandEncoded(f);
    PlainExtracts(f);
  }
}
