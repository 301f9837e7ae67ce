/** The fixture encoder and the decompressor as they run, and their round trip. */
module LzhCoder {
  import opened Words
  import opened Bits
  import opened Canonical
  import opened CanonicalTables
  import opened Lzh
  import opened LzhRun
  import opened LzhDynamic

  // ---- the encoder -----------------------------------------------------------------------------

  method FindMatch(p: seq<byte>, i: nat) returns (m: Option<nat>)
    ensures m == Choose(p, i)
  {
    if i < 3 { return None; }
    var dist: nat := 1;
    while dist < 11
      invariant 1 <= dist <= 11 && ChooseFrom(p, i, 1) == ChooseFrom(p, i, dist)
    {
      if i >= dist && Cut(p, i, i + 3) == Cut(p, i - dist, i - dist + 3) { return Some(dist); }
      dist := dist + 1;
    }
    m := None;
  }

  /** The table sends these words. */
  predicate Sends(table: map<nat, CodeWord>, words: seq<seq<bit>>) {
    forall i: nat | i < |words| ::
      i in table && table[i].rev < Pow2(table[i].length) && Lsb(table[i].rev, table[i].length) == words[i]
  }

  lemma CodesSend(table: map<nat, CodeWord>, lengths: seq<int>)
    requires AllCoded(lengths, |lengths|) && IsCodeTable(table, lengths)
    ensures Sends(table, WordsOf(lengths))
  {
    forall i: nat | i < |lengths|
      ensures i in table && table[i].rev < Pow2(table[i].length)
      ensures Lsb(table[i].rev, table[i].length) == WordsOf(lengths)[i]
    {
      assert Coded(lengths, i);
      ValBound(Word(lengths, i));
      LsbVal(Word(lengths, i));
    }
  }

  method PutWord(w: BitWriter, table: map<nat, CodeWord>, ghost words: seq<seq<bit>>, sym: nat)
    requires w.Valid() && Sends(table, words) && sym < |words|
    modifies w
    ensures w.Valid() && w.bits == old(w.bits) + words[sym]
  {
    w.PutCode(table[sym].rev, table[sym].length);
  }

  lemma BucketBits(c: Codes, sym: nat, dist: nat)
    requires Complete(c) && BucketFrom(dist, 1) == Some(sym) && sym > 1
    ensures dist > Pow2(sym - 1) && DistanceBits(c, dist) == c.offset[sym] + Lsb(dist - Pow2(sym - 1) - 1, sym - 1)
  {
  }

  method PutInside(w: BitWriter, x: nat, n: nat, ghost before: seq<bit>, ghost word: seq<bit>)
    requires w.Valid() && x < Pow2(n) && w.bits == before + word
    modifies w
    ensures w.Valid() && w.bits == before + (word + Lsb(x, n))
  {
    w.PutCode(x, n);
    Assoc(before, word, Lsb(x, n));
  }

  /** The bucket's word and, but for bucket 1, the distance inside it. */
  method PutBucket(w: BitWriter, table: map<nat, CodeWord>, ghost c: Codes, sym: nat, dist: nat)
    requires w.Valid() && Complete(c) && Sends(table, c.offset) && BucketFrom(dist, 1) == Some(sym)
    requires sym > 1 ==> dist <= 2 * Pow2(sym - 1)
    modifies w
    ensures w.Valid() && w.bits == old(w.bits) + DistanceBits(c, dist)
  {
    PutWord(w, table, c.offset, sym);
    if sym > 1 {
      BucketBits(c, sym, dist);
      PutInside(w, dist - Pow2(sym - 1) - 1, sym - 1, old(w.bits), c.offset[sym]);
    }
  }

  /** The search for the bucket; a distance of one falls through it and puts nothing. */
  method PutDistance(w: BitWriter, table: map<nat, CodeWord>, ghost c: Codes, dist: nat)
    requires w.Valid() && Complete(c) && Sends(table, c.offset)
    modifies w
    ensures w.Valid() && w.bits == old(w.bits) + DistanceBits(c, dist)
  {
    var sym: nat := 1;
    while sym < 11
      invariant 1 <= sym <= 11 && BucketFrom(dist, 1) == BucketFrom(dist, sym)
      invariant w.Valid() && w.bits == old(w.bits)
    {
      var lo := if sym == 1 then 2 else Pow2(sym - 1) + 1;
      var hi := if sym == 1 then 2 else Pow2(sym);
      if lo <= dist <= hi {
        PutBucket(w, table, c, sym, dist);
        return;
      }
      sym := sym + 1;
    }
    assert old(w.bits) + [] == old(w.bits);
  }

  /** What has been put and what is still to be put. */
  predicate Splits(whole: seq<bit>, done: seq<bit>, rest: seq<bit>) { whole == done + rest }

  lemma SplitOne(whole: seq<bit>, done: seq<bit>, a: seq<bit>, rest: seq<bit>)
    requires Splits(whole, done, a + rest)
    ensures Splits(whole, done + a, rest)
  {
    Assoc(done, a, rest);
  }

  method PutMatchToken(w: BitWriter, table: map<nat, CodeWord>, ghost words: seq<seq<bit>>, offset: map<nat, CodeWord>,
                       ghost c: Codes, dist: nat, ghost whole: seq<bit>, ghost rest: seq<bit>)
    requires w.Valid() && Complete(c) && |words| > 0x140 && Sends(table, words) && Sends(offset, c.offset)
    requires Splits(whole, w.bits, words[0x100] + (DistanceBits(c, dist) + rest))
    modifies w
    ensures w.Valid() && Splits(whole, w.bits, rest)
  {
    SplitOne(whole, w.bits, words[0x100], DistanceBits(c, dist) + rest);
    PutWord(w, table, words, 0x100);
    SplitOne(whole, w.bits, DistanceBits(c, dist), rest);
    PutDistance(w, offset, c, dist);
  }

  method PutLiteralToken(w: BitWriter, table: map<nat, CodeWord>, ghost words: seq<seq<bit>>, sym: nat,
                         ghost whole: seq<bit>, ghost rest: seq<bit>)
    requires w.Valid() && sym < |words| && Sends(table, words) && Splits(whole, w.bits, words[sym] + rest)
    modifies w
    ensures w.Valid() && Splits(whole, w.bits, rest)
  {
    SplitOne(whole, w.bits, words[sym], rest);
    PutWord(w, table, words, sym);
  }

  method PutPayload(w: BitWriter, p: seq<byte>, ghost c: Codes,
                    first: map<nat, CodeWord>, second: map<nat, CodeWord>, offset: map<nat, CodeWord>)
    requires w.Valid() && Complete(c) && Sends(first, c.first) && Sends(second, c.second) && Sends(offset, c.offset)
    modifies w
    ensures w.Valid() && w.bits == old(w.bits) + Encode(c, p, 0, false)
  {
    ghost var whole := w.bits + Encode(c, p, 0, false);
    var i: nat, inSecond := 0, false;
    while i < |p|
      invariant w.Valid() && Splits(whole, w.bits, Encode(c, p, i, inSecond))
      decreases |p| - i
    {
      var m := FindMatch(p, i);
      if m.Some? {
        PutMatchToken(w, if inSecond then second else first, Current(c, inSecond), offset, c, m.value,
                      whole, Encode(c, p, i + 3, true));
        inSecond := true;
        i := i + 3;
      } else {
        PutLiteralToken(w, if inSecond then second else first, Current(c, inSecond), p[i],
                        whole, Encode(c, p, i + 1, false));
        inSecond := false;
        i := i + 1;
      }
    }
    PutWord(w, if inSecond then second else first, Current(c, inSecond), 0x140);
  }

  /** The whole stream: the selector byte of set 1, the codes, zeros up to the byte. */
  method Lzh13Encode(p: seq<byte>, s: Sets) returns (data: seq<byte>, ghost pad: nat)
    requires Usable(s)
    ensures pad < 8 && AllBits(data) == (AllBits([0x11]) + Encode(CodesOf(s), p, 0, false)) + Lsb(0, pad)
  {
    var first := CanonicalCodes(s.first);
    var second := CanonicalCodes(s.second);
    var offset := CanonicalCodes(s.offset);
    CodesSend(first, s.first);
    CodesSend(second, s.second);
    CodesSend(offset, s.offset);
    var w := new BitWriter(0x11);
    PutPayload(w, p, CodesOf(s), first, second, offset);
    pad := w.Flush();
    data := w.out;
  }

  // ---- the decompressor ---------------------------------------------------------------------------

  method ReadBitsAt(br: BitReader, n: nat) returns (r: Option<nat>)
    requires br.Valid()
    modifies br`pos, br`bitPos, br`left
    ensures br.Valid()
    ensures Took(r, br.left, ReadBits(old(br.left), n))
  {
    r := br.NextBits(n);
  }

  /** A value read and the bits left agree with the specification's result. */
  predicate Took(r: Option<nat>, left: seq<bit>, g: Option<Got>) {
    (r.Some? <==> g.Some?) && (r.Some? ==> g.value.value == r.value && g.value.rest == left)
  }

  method ReadLengthAt(br: BitReader, sym: nat) returns (r: Option<nat>)
    requires br.Valid() && 0x100 <= sym < 0x140
    modifies br`pos, br`bitPos, br`left
    ensures br.Valid()
    ensures Took(r, br.left, ReadLength(sym, old(br.left)))
  {
    if sym < 0x13e { return Some(sym - 0x100 + 3); }
    var x := ReadBitsAt(br, if sym == 0x13e then 10 else 15);
    if x.None? { return None; }
    r := Some(x.value + 65);
  }

  method ReadDistanceAt(br: BitReader, offset: map<nat, Entry>) returns (r: Option<nat>)
    requires br.Valid()
    modifies br`pos, br`bitPos, br`left
    ensures br.Valid()
    ensures Took(r, br.left, ReadDistance(offset, old(br.left)))
  {
    var bl := NextSymbol(br, offset);
    if bl.None? { return None; }
    ghost var d := ReadDistance(offset, old(br.left));
    DistanceOf(offset, old(br.left), bl.value, br.left);
    r := InsideBucket(br, bl.value, d);
  }

  lemma DistanceOf(offset: map<nat, Entry>, bits: seq<bit>, sym: nat, rest: seq<bit>)
    requires Find(offset, bits, 1) == Some(Symbol(sym, rest))
    ensures ReadDistance(offset, bits)
         == if sym <= 1 then Some(Got(sym + 1, rest)) else Plus(ReadBits(rest, sym - 1), Pow2(sym - 1) + 1)
  {
  }

  /** The distance inside its bucket. */
  method InsideBucket(br: BitReader, sym: nat, ghost d: Option<Got>) returns (r: Option<nat>)
    requires br.Valid()
    requires d == if sym <= 1 then Some(Got(sym + 1, br.left)) else Plus(ReadBits(br.left, sym - 1), Pow2(sym - 1) + 1)
    modifies br`pos, br`bitPos, br`left
    ensures br.Valid() && Took(r, br.left, d)
  {
    if sym <= 1 { return Some(sym + 1); }
    var x := ReadBitsAt(br, sym - 1);
    if x.None? { return None; }
    r := Some(Pow2(sym - 1) + x.value + 1);
  }

  method CopyLoop(given: seq<byte>, dist: nat, n: nat) returns (r: Option<seq<byte>>)
    requires dist >= 1
    ensures r == Copy(given, dist, n)
  {
    var out, i: nat := given, 0;
    while i < n
      invariant i <= n && Copy(given, dist, n) == Copy(out, dist, n - i)
    {
      if dist > 2 * |out| { return None; }
      out := out + [out[if dist <= |out| then |out| - dist else 2 * |out| - dist]];
      i := i + 1;
    }
    r := Some(out);
  }

  method ReadMatchAt(br: BitReader, t: Tables, sym: nat, out: seq<byte>) returns (r: Option<seq<byte>>)
    requires br.Valid() && 0x100 <= sym < 0x140
    modifies br`pos, br`bitPos, br`left
    ensures br.Valid()
    ensures r.None? <==> ReadMatch(t, Symbol(sym, old(br.left)), out).None?
    ensures r.Some? ==> ReadMatch(t, Symbol(sym, old(br.left)), out) == Some(Copied(r.value, br.left))
  {
    var n := ReadLengthAt(br, sym);
    if n.None? { return None; }
    var d := ReadDistanceAt(br, t.offset);
    if d.None? { return None; }
    r := CopyLoop(out, d.value, n.value);
  }

  /** The main loop. */
  method Inflate(br: BitReader, t: Tables, outLen: nat) returns (r: Option<seq<byte>>)
    requires br.Valid()
    modifies br`pos, br`bitPos, br`left
    ensures r == Decode(t, old(br.left), [], false, outLen)
  {
    ghost var whole := Decode(t, br.left, [], false, outLen);
    var out: seq<byte>, inSecond := [], false;
    while |out| < outLen
      invariant br.Valid() && whole == Decode(t, br.left, out, inSecond, outLen)
      decreases |br.left|
    {
      var sym := NextSymbol(br, if inSecond then t.second else t.first);
      if sym.None? { return None; }
      if sym.value < 0x100 {
        inSecond := false;
        out := out + [sym.value];
      } else {
        inSecond := true;
        if sym.value >= 0x140 { return Some(out); }
        var o := ReadMatchAt(br, t, sym.value, out);
        if o.None? { return None; }
        out := o.value;
      }
    }
    r := Some(out[..outLen]);
  }

  method BuildTables(s: Sets) returns (t: Tables)
    ensures AreTables(t, s)
  {
    var first := BuildCanonical(s.first, |s.first|);
    var second := BuildCanonical(s.second, |s.second|);
    var offset := BuildCanonical(s.offset, |s.offset|);
    assert s.first[..|s.first|] == s.first && s.second[..|s.second|] == s.second && s.offset[..|s.offset|] == s.offset;
    t := Tables(first, second, offset);
  }

  /** What a stream decompresses to: with one of the five static sets, or with the tables it brings. */
  ghost predicate Decompresses(meta: map<nat, Entry>, sets: seq<Sets>, data: seq<byte>, outLen: nat, r: Option<seq<byte>>)
    requires |sets| == 5
  {
    if data == [] || data[0] / 16 > 5 then r.None?
    else if data[0] / 16 == 0 then
      var b := Brings(meta, AllBits(data)[8..], data[0]);
      if b.None? then r.None? else DecodedWith(b.value.sets, b.value.rest, outLen, r)
    else DecodedWith(sets[data[0] / 16 - 1], AllBits(data)[8..], outLen, r)
  }

  ghost predicate DecodedWith(s: Sets, bits: seq<bit>, outLen: nat, r: Option<seq<byte>>) {
    exists t :: AreTables(t, s) && r == Decode(t, bits, [], false, outLen)
  }

  lemma FirstByte(data: seq<byte>)
    requires data != []
    ensures |AllBits(data)| >= 8 && Val(AllBits(data)[..8]) == data[0]
  {
    PowEight();
    ValLsb(data[0], BYTE_BITS);
    assert AllBits(data)[..8] == Lsb(data[0], BYTE_BITS);
  }

  /** `meta` is the table of the metacode, `sets` are the lengths of the five static sets. */
  method Decompress(data: seq<byte>, outLen: nat, sets: seq<Sets>, meta: map<nat, Entry>) returns (r: Option<seq<byte>>)
    requires |sets| == 5
    ensures Decompresses(meta, sets, data, outLen, r)
  {
    var br := new BitReader(data);
    var val := br.NextBits(8);
    if val.None? { return None; }
    FirstByte(data);
    var code := val.value / 16;
    var t;
    if code == 0 {
      var own := TablesAt(br, meta, val.value);
      if own.None? { return None; }
      t := own.value;
    } else if code < 6 {
      t := BuildTables(sets[code - 1]);
    } else {
      return None;
    }
    r := Inflate(br, t, outLen);
  }

  /** A stream that starts with the selector of set 1 is decoded with that set's tables. */
  lemma SetOne(meta: map<nat, Entry>, sets: seq<Sets>, data: seq<byte>, rest: seq<bit>, outLen: nat, r: Option<seq<byte>>)
    returns (t: Tables)
    requires |sets| == 5 && AllBits(data) == AllBits([0x11]) + rest && Decompresses(meta, sets, data, outLen, r)
    ensures AreTables(t, sets[0]) && r == Decode(t, rest, [], false, outLen)
  {
    Selector(data, 0x11, rest);
    StaticSet(meta, sets, data, 1, outLen, r);
    t := TablesOf(sets[0], rest, outLen, r);
  }

  lemma StaticSet(meta: map<nat, Entry>, sets: seq<Sets>, data: seq<byte>, k: nat, outLen: nat, r: Option<seq<byte>>)
    requires |sets| == 5 && data != [] && data[0] / 16 == k && 1 <= k <= 5 && Decompresses(meta, sets, data, outLen, r)
    ensures DecodedWith(sets[k - 1], AllBits(data)[8..], outLen, r)
  {
  }

  lemma TablesOf(s: Sets, bits: seq<bit>, outLen: nat, r: Option<seq<byte>>) returns (t: Tables)
    requires DecodedWith(s, bits, outLen, r)
    ensures AreTables(t, s) && r == Decode(t, bits, [], false, outLen)
  {
    t :| AreTables(t, s) && r == Decode(t, bits, [], false, outLen);
  }

  /** Decompressing an encoded payload gives it back, whenever the encoder chose no match at distance
      one. */
  lemma EncodedDecompresses(meta: map<nat, Entry>, sets: seq<Sets>, p: seq<byte>, data: seq<byte>, pad: nat,
                            r: Option<seq<byte>>)
    requires |sets| == 5 && Usable(sets[0]) && NoUnitMatch(p, 0)
    requires AllBits(data) == (AllBits([0x11]) + Encode(CodesOf(sets[0]), p, 0, false)) + Lsb(0, pad)
    requires Decompresses(meta, sets, data, |p|, r)
    ensures r == Some(p)
  {
    Assoc(AllBits([0x11]), Encode(CodesOf(sets[0]), p, 0, false), Lsb(0, pad));
    var t := SetOne(meta, sets, data, Encode(CodesOf(sets[0]), p, 0, false) + Lsb(0, pad), |p|, r);
    RoundTrip(t, sets[0], p, Lsb(0, pad));
  }

  lemma Selector(data: seq<byte>, val: byte, rest: seq<bit>)
    requires AllBits(data) == AllBits([val]) + rest
    ensures data != [] && data[0] == val && AllBits(data)[8..] == rest
  {
    assert data != [] by { assert |AllBits([val])| == 8; }
    FirstByte(data);
    FirstByte([val]);
    assert AllBits(data)[..8] == AllBits([val])[..8];
  }
}
