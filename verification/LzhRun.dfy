/** The encoder's bit buffer and loops, the decompressor, and their round trip. */
module LzhRun {
  import opened Words
  import opened Bits
  import opened Canonical
  import opened CanonicalTables
  import opened Lzh

  /** The bytes, then the low `n` bits of the buffer, are the bits put so far. */
  predicate Holding(out: seq<byte>, buf: nat, n: nat, bits: seq<bit>) {
    buf < Pow2(n) && bits == AllBits(out) + Lsb(buf, n)
  }

  /** Bytes written so far and up to seven bits waiting in the buffer. */
  class BitWriter {
    var out: seq<byte>
    var bitBuf: nat
    var nBits: nat
    ghost var bits: seq<bit>

    ghost predicate Valid()
      reads this
    {
      nBits < 8 && Holding(out, bitBuf, nBits, bits)
    }

    constructor (first: byte)
      ensures Valid() && bits == AllBits([first])
    {
      out, bitBuf, nBits, bits := [first], 0, 0, AllBits([first]);
    }

    /** The buffer is below 2^nBits, so or-ing the shifted code in is adding it. */
    method PutCode(code: nat, length: nat)
      requires Valid() && code < Pow2(length)
      modifies this
      ensures Valid() && bits == old(bits) + Lsb(code, length)
    {
      PutBits(out, bitBuf, nBits, bits, code, length);
      bits := bits + Lsb(code, length);
      bitBuf := bitBuf + Pow2(nBits) * code;
      nBits := nBits + length;
      Drain();
    }

    /** Whole bytes leave the buffer. */
    method Drain()
      requires Holding(out, bitBuf, nBits, bits)
      modifies `out, `bitBuf, `nBits
      ensures Valid()
    {
      while nBits >= 8
        invariant Holding(out, bitBuf, nBits, bits)
      {
        ByteOut(out, bitBuf, nBits, bits);
        out := out + [bitBuf % 256];
        bitBuf := bitBuf / 256;
        nBits := nBits - 8;
      }
    }

    /** The last byte is filled up with zeros. */
    method Flush() returns (ghost pad: nat)
      requires Valid()
      modifies this
      ensures pad < 8 && AllBits(out) == old(bits) + Lsb(0, pad)
    {
      if nBits == 0 {
        pad := 0;
        NothingHeld(out, bitBuf, bits);
      } else {
        pad := 8 - nBits;
        IsByte(bitBuf, nBits);
        PadOut(out, bitBuf, nBits, pad, bits);
        out := out + [bitBuf % 256];
      }
    }
  }

  lemma PutBits(out: seq<byte>, buf: nat, n: nat, bits: seq<bit>, code: nat, length: nat)
    requires Holding(out, buf, n, bits) && code < Pow2(length)
    ensures Holding(out, buf + Pow2(n) * code, n + length, bits + Lsb(code, length))
  {
    Pow2Add(n, length);
    LsbAppend(buf, code, n, length);
    Assoc(AllBits(out), Lsb(buf, n), Lsb(code, length));
    BelowProduct(Pow2(n), code, Pow2(length));
  }

  lemma BelowProduct(p: nat, c: nat, q: nat)
    requires c < q
    ensures p * c + p <= p * q
  {
    assert p * q == p * (c + 1) + p * (q - c - 1);
  }

  lemma ByteAppend(out: seq<byte>, b: byte)
    ensures AllBits(out + [b]) == AllBits(out) + Lsb(b, BYTE_BITS)
  {
    AllBitsAppend(out, [b]);
    assert [b][1..] == [];
    assert AllBits([b]) == Lsb(b, BYTE_BITS) + [];
  }

  /** The low byte of the buffer is its first eight bits. */
  lemma LowByte(buf: nat, n: nat)
    requires buf < Pow2(n) && n >= 8
    ensures Lsb(buf, n) == Lsb(buf % 256, BYTE_BITS) + Lsb(buf / 256, n - 8) && buf / 256 < Pow2(n - 8)
  {
    PowEight();
    Pow2Add(8, n - 8);
    LsbAppend(buf % 256, buf / 256, BYTE_BITS, n - 8);
  }

  lemma ByteOut(out: seq<byte>, buf: nat, n: nat, bits: seq<bit>)
    requires Holding(out, buf, n, bits) && n >= 8
    ensures Holding(out + [buf % 256], buf / 256, n - 8, bits)
  {
    LowByte(buf, n);
    ByteAppend(out, buf % 256);
    Assoc(AllBits(out), Lsb(buf % 256, BYTE_BITS), Lsb(buf / 256, n - 8));
  }

  lemma IsByte(buf: nat, n: nat)
    requires n < 8 && buf < Pow2(n)
    ensures buf < 256 && buf % 256 == buf
  {
    PowEight();
    Pow2Monotone(n, 8);
  }

  lemma NothingHeld(out: seq<byte>, buf: nat, bits: seq<bit>)
    requires Holding(out, buf, 0, bits)
    ensures AllBits(out) == bits + Lsb(0, 0)
  {
    assert Lsb(buf, 0) == [] && Lsb(0, 0) == [];
  }

  lemma {:induction false} LsbPad(v: nat, m: nat, n: nat)
    requires v < Pow2(m)
    ensures Lsb(v, m + n) == Lsb(v, m) + Lsb(0, n)
    decreases m
  {
    if m > 0 { LsbPad(v / 2, m - 1, n); }
  }

  lemma PadOut(out: seq<byte>, buf: byte, n: nat, pad: nat, bits: seq<bit>)
    requires Holding(out, buf, n, bits) && n + pad == BYTE_BITS
    ensures AllBits(out + [buf]) == bits + Lsb(0, pad)
  {
    LsbPad(buf, n, pad);
    ByteAppend(out, buf);
    Assoc(AllBits(out), Lsb(buf, n), Lsb(0, pad));
  }

  // ---- code sets -----------------------------------------------------------------------------

  /** The three length arrays of one static set. */
  datatype Sets = Sets(first: seq<int>, second: seq<int>, offset: seq<int>)

  predicate AllCoded(lengths: seq<int>, n: nat) {
    n <= |lengths| && forall i: nat | i < n :: Coded(lengths, i)
  }

  /** What the fixture encoder needs of its set: a code for every symbol, and Kraft's inequality. */
  predicate Usable(s: Sets) {
    && AllCoded(s.first, |s.first|) && AllCoded(s.second, |s.second|) && AllCoded(s.offset, |s.offset|)
    && Kraft(s.first) && Kraft(s.second) && Kraft(s.offset)
    && |s.first| == 0x141 && |s.second| == 0x141 && |s.offset| >= 11
  }

  function WordsOf(lengths: seq<int>): (w: seq<seq<bit>>)
    requires AllCoded(lengths, |lengths|)
    ensures |w| == |lengths|
  {
    seq(|lengths|, i requires 0 <= i < |lengths| => Word(lengths, i))
  }

  function CodesOf(s: Sets): (c: Codes)
    requires Usable(s)
    ensures Complete(c)
  {
    Codes(WordsOf(s.first), WordsOf(s.second), WordsOf(s.offset))
  }

  predicate AreTables(t: Tables, s: Sets) {
    IsTable(t.first, s.first) && IsTable(t.second, s.second) && IsTable(t.offset, s.offset)
  }

  lemma TableReads(table: map<nat, Entry>, lengths: seq<int>)
    requires AllCoded(lengths, |lengths|) && Kraft(lengths) && IsTable(table, lengths)
    ensures Reads(table, WordsOf(lengths))
  {
    forall sym: nat, rest: seq<bit> | sym < |lengths|
      ensures Find(table, WordsOf(lengths)[sym] + rest, 1) == Some(Symbol(sym, rest))
    {
      WordDecodes(table, lengths, sym, rest);
    }
  }

  /** The round trip holds whenever no match at distance one is chosen, in particular without four
      equal bytes in a row. */
  lemma RoundTrip(t: Tables, s: Sets, p: seq<byte>, tail: seq<bit>)
    requires Usable(s) && AreTables(t, s) && NoUnitMatch(p, 0)
    ensures Decode(t, Encode(CodesOf(s), p, 0, false) + tail, [], false, |p|) == Some(p)
  {
    TableReads(t.first, s.first);
    TableReads(t.second, s.second);
    TableReads(t.offset, s.offset);
    assert p[..0] == [];
    RoundTripFrom(t, CodesOf(s), p, 0, false, tail);
  }
}
