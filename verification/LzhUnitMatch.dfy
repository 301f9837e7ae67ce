/** A match at distance one is sent without its distance: the round trip holds for exactly the payloads in which
    none is chosen. */
module LzhUnitMatch {
  import opened Words
  import opened Bits
  import opened Canonical
  import opened Lzh
  import opened LzhRun
  import opened LzhCoder

  // ---- a code set that separates the symbols after a match from the distances -------------------

  /** All lengths are `l`, but that of symbol `k`, if there is such a symbol, is one. */
  predicate AllBut(s: seq<int>, l: int, k: nat) {
    forall i | 0 <= i < |s| :: s[i] == if i == k then 1 else l
  }

  lemma {:induction false} CountLong(s: seq<int>, l: int, k: nat, n: nat)
    requires n <= |s| && AllBut(s, l, k) && l > 1
    ensures Count(s, l, n) == n - if k < n then 1 else 0
  {
    if n > 0 { CountLong(s, l, k, n - 1); }
  }

  lemma {:induction false} CountOther(s: seq<int>, l: int, k: nat, m: int, n: nat)
    requires n <= |s| && AllBut(s, l, k) && l > 1 && m != l
    ensures Count(s, m, n) == if m == 1 && k < n then 1 else 0
  {
    if n > 0 { CountOther(s, l, k, m, n - 1); }
  }

  /** The one short code, if there is one, takes half of the codes of every length. */
  lemma {:induction false} FirstLong(s: seq<int>, l: nat, k: nat, m: nat)
    requires 2 <= m <= l && AllBut(s, l, k)
    ensures First(s, m) == if k < |s| then Pow2(m - 1) else 0
    decreases m
  {
    CountOther(s, l, k, m - 1, |s|);
    if m > 2 {
      FirstLong(s, l, k, m - 1);
    } else {
      assert Pow2(1) == 2 && First(s, 1) == 0;
    }
  }

  lemma LongCode(s: seq<int>, l: nat, k: nat, i: nat)
    requires 2 <= l <= MAX_LENGTH && AllBut(s, l, k) && i < |s| && i != k
    ensures Coded(s, i)
    ensures Code(s, i) == (if k < |s| then Pow2(l - 1) else 0) + i - if k < i then 1 else 0
  {
    FirstLong(s, l, k, l);
    CountLong(s, l, k, i);
  }

  lemma {:induction false} SumLong(s: seq<int>, l: nat, k: nat, n: nat)
    requires 2 <= l <= MAX_LENGTH && n <= |s| && AllBut(s, l, k)
    ensures KraftSum(s, MAX_LENGTH, n) <= (if k < |s| then Pow2(MAX_LENGTH - 1) else 0) + n * Pow2(MAX_LENGTH - l)
    ensures n <= k ==> KraftSum(s, MAX_LENGTH, n) <= n * Pow2(MAX_LENGTH - l)
  {
    if n > 0 {
      SumLong(s, l, k, n - 1);
      var p := Pow2(MAX_LENGTH - l);
      assert (n - 1) * p + p == n * p;
    }
  }

  lemma LongKraft(s: seq<int>, l: nat, k: nat)
    requires 2 <= l <= MAX_LENGTH && AllBut(s, l, k) && |s| <= Pow2(l - 1)
    ensures Kraft(s) && AllCoded(s, |s|)
  {
    SumLong(s, l, k, |s|);
    Pow2Add(l - 1, MAX_LENGTH - l);
    MulMonotone(|s|, Pow2(l - 1), Pow2(MAX_LENGTH - l));
    assert Pow2(MAX_LENGTH) == 2 * Pow2(MAX_LENGTH - 1);
  }

  /** The first bit of a code is its highest. */
  lemma {:induction false} HighBit(c: nat, n: nat)
    requires n > 0 && c < Pow2(n)
    ensures CodeBits(c, n)[0] == if c >= Pow2(n - 1) then 1 else 0
    decreases n
  {
    if n > 1 { HighBit(c / 2, n - 1); }
  }

  const SHORT := 0x13f

  /** One bit for a symbol of the second code that is never sent; ten for all others, five for every bucket. */
  predicate Separating(s: Sets) {
    && |s.first| == 0x141 && AllBut(s.first, 10, 0x141)
    && |s.second| == 0x141 && AllBut(s.second, 10, SHORT)
    && |s.offset| == 11 && AllBut(s.offset, 5, 11)
  }

  lemma SomePowers()
    ensures Pow2(4) == 16 && Pow2(5) == 32 && Pow2(9) == 512 && Pow2(10) == 1024
  {
    PowEight();
  }

  lemma SeparatingUsable(s: Sets)
    requires Separating(s)
    ensures Usable(s)
  {
    SomePowers();
    LongKraft(s.first, 10, 0x141);
    LongKraft(s.second, 10, SHORT);
    LongKraft(s.offset, 5, 11);
  }

  /** Whatever is sent in the second code starts with a one. */
  lemma SecondStarts(s: Sets, sym: nat)
    requires Separating(s) && Usable(s) && sym < 0x141 && sym != SHORT
    ensures CodesOf(s).second[sym] != [] && CodesOf(s).second[sym][0] == 1
  {
    SomePowers();
    LongCode(s.second, 10, SHORT, sym);
    HighBit(Code(s.second, sym), 10);
  }

  /** Every bucket's word starts with a zero. */
  lemma OffsetStarts(s: Sets, sym: nat)
    requires Separating(s) && Usable(s) && sym < 11
    ensures Word(s.offset, sym) != [] && Word(s.offset, sym)[0] == 0
  {
    SomePowers();
    LongCode(s.offset, 5, 11, sym);
    HighBit(Code(s.offset, sym), 5);
  }

  /** So no distance is found where a symbol of the second code follows. */
  lemma {:induction false} NoDistance(table: map<nat, Entry>, s: Sets, bits: seq<bit>, n: nat)
    requires Separating(s) && Usable(s) && IsTable(table, s.offset) && bits != [] && bits[0] == 1 && n >= 1
    ensures Find(table, bits, n).None?
    decreases 33 - n
  {
    if n <= 32 && n <= |bits| {
      var v := Val(bits[..n]);
      if v in table && table[v].length == n {
        var sym := table[v].symbol;
        OffsetStarts(s, sym);
        LsbVal(bits[..n]);
        LsbVal(Word(s.offset, sym));
      }
      NoDistance(table, s, bits, n + 1);
    }
  }

  // ---- the round trip fails for every payload with such a match -----------------------------------

  lemma {:induction false} Unbucketed(sym: nat)
    requires sym >= 1
    ensures BucketFrom(1, sym).None?
    decreases 11 - sym
  {
    if sym <= 10 { Unbucketed(sym + 1); }
  }

  lemma SetReads(t: Tables, s: Sets)
    requires Usable(s) && AreTables(t, s)
    ensures AllRead(t, CodesOf(s))
  {
    TableReads(t.first, s.first);
    TableReads(t.second, s.second);
    TableReads(t.offset, s.offset);
  }

  lemma StartsOf(w: seq<bit>, more: seq<bit>)
    requires w != [] && w[0] == 1
    ensures w + more != [] && (w + more)[0] == 1
  {
  }

  /** After a match the stream goes on with a one. */
  lemma AfterMatch(s: Sets, p: seq<byte>, i: nat, tail: seq<bit>)
    requires Separating(s) && Usable(s)
    ensures var e := Encode(CodesOf(s), p, i, true) + tail; e != [] && e[0] == 1
  {
    var c := CodesOf(s);
    var sym: nat := if i >= |p| then 0x140 else if Choose(p, i).Some? then 0x100 else p[i];
    var more: seq<bit> := if i >= |p| then []
      else if Choose(p, i).Some? then DistanceBits(c, Choose(p, i).value) + Encode(c, p, i + 3, true)
      else Encode(c, p, i + 1, false);
    assert c.second[0x140] + [] == c.second[0x140];
    assert Encode(c, p, i, true) == c.second[sym] + more;
    SecondStarts(s, sym);
    StartsOf(c.second[sym], more);
    StartsOf(c.second[sym] + more, tail);
  }

  /** The decoder finds no distance after the symbol of a match at distance one. */
  lemma UnitMatchLost(t: Tables, s: Sets, p: seq<byte>, i: nat, inSecond: bool, tail: seq<bit>)
    requires Separating(s) && Usable(s) && AreTables(t, s) && i < |p| && Choose(p, i) == Some(1)
    ensures Decode(t, Encode(CodesOf(s), p, i, inSecond) + tail, p[..i], inSecond, |p|).None?
  {
    var c, rest := CodesOf(s), Encode(CodesOf(s), p, i + 3, true);
    SetReads(t, s);
    AfterMatch(s, p, i + 3, tail);
    NoDistance(t.offset, s, rest + tail, 1);
    NoMatchRead(t, rest + tail, p[..i]);
    UnitToken(c, p, i, inSecond, rest);
    TokenWord(Current(c, inSecond), 0x100, rest, tail, Table(t, inSecond));
    MatchRefused(t, Encode(c, p, i, inSecond) + tail, p[..i], inSecond, |p|, rest + tail);
  }

  /** Nothing is sent for the distance. */
  lemma UnitToken(c: Codes, p: seq<byte>, i: nat, inSecond: bool, rest: seq<bit>)
    requires Complete(c) && i < |p| && Choose(p, i) == Some(1) && rest == Encode(c, p, i + 3, true)
    ensures Encode(c, p, i, inSecond) == Current(c, inSecond)[0x100] + rest
  {
    Unbucketed(1);
    assert DistanceBits(c, 1) + rest == rest;
  }

  lemma MatchRefused(t: Tables, bits: seq<bit>, out: seq<byte>, inSecond: bool, outLen: nat, rest: seq<bit>)
    requires Find(Table(t, inSecond), bits, 1) == Some(Symbol(0x100, rest)) && ReadMatch(t, Symbol(0x100, rest), out).None?
    requires |out| < outLen
    ensures Decode(t, bits, out, inSecond, outLen).None?
  {
  }

  lemma NoMatchRead(t: Tables, bits: seq<bit>, out: seq<byte>)
    requires Find(t.offset, bits, 1).None?
    ensures ReadMatch(t, Symbol(0x100, bits), out).None?
  {
    assert ReadLength(0x100, bits) == Some(Got(3, bits));
  }

  lemma UnitMatchAhead(p: seq<byte>, i: nat)
    requires i <= |p| && !NoUnitMatch(p, i)
    ensures i < |p|
    ensures var d := Choose(p, i); d == Some(1) || (d.Some? && !NoUnitMatch(p, i + 3)) || (d.None? && !NoUnitMatch(p, i + 1))
  {
  }

  lemma {:induction false} LostFrom(t: Tables, s: Sets, p: seq<byte>, i: nat, inSecond: bool, tail: seq<bit>)
    requires Separating(s) && Usable(s) && AreTables(t, s) && i <= |p| && !NoUnitMatch(p, i)
    ensures Decode(t, Encode(CodesOf(s), p, i, inSecond) + tail, p[..i], inSecond, |p|).None?
    decreases |p| - i
  {
    SetReads(t, s);
    UnitMatchAhead(p, i);
    if Choose(p, i) == Some(1) {
      UnitMatchLost(t, s, p, i, inSecond, tail);
    } else if Choose(p, i).Some? {
      MatchStep(t, CodesOf(s), p, i, inSecond, tail);
      LostFrom(t, s, p, i + 3, true, tail);
    } else {
      LiteralStep(t, CodesOf(s), p, i, inSecond, tail);
      LostFrom(t, s, p, i + 1, false, tail);
    }
  }

  // ---- tables exist -------------------------------------------------------------------------------

  /** A table of the first `k` symbols, all of them coded. */
  function TableTo(lengths: seq<int>, k: nat): map<nat, Entry>
    requires k <= |lengths| && AllCoded(lengths, k)
  {
    if k == 0 then map[] else TableTo(lengths, k - 1)[Key(lengths, k - 1) := Entry(lengths[k - 1], k - 1)]
  }

  lemma {:induction false} TableToHolds(lengths: seq<int>, k: nat)
    requires k <= |lengths| && AllCoded(lengths, k) && Kraft(lengths)
    ensures forall v <- TableTo(lengths, k) :: var e := TableTo(lengths, k)[v];
      e.symbol < k && Coded(lengths, e.symbol) && e == Entry(lengths[e.symbol], e.symbol) && v == Key(lengths, e.symbol)
    ensures forall i: nat | i < k :: Key(lengths, i) in TableTo(lengths, k)
  {
    if k > 0 { TableToHolds(lengths, k - 1); }
  }

  lemma TableExists(lengths: seq<int>) returns (table: map<nat, Entry>)
    requires AllCoded(lengths, |lengths|) && Kraft(lengths)
    ensures IsTable(table, lengths)
  {
    TableToHolds(lengths, |lengths|);
    table := TableTo(lengths, |lengths|);
  }

  // ---- exactly when the payload comes back -----------------------------------------------------------

  predicate Recovered(t: Tables, s: Sets, p: seq<byte>, tail: seq<bit>)
    requires Usable(s)
  {
    Decode(t, Encode(CodesOf(s), p, 0, false) + tail, [], false, |p|) == Some(p)
  }

  /** The payload comes back with every usable code set, whatever follows. */
  ghost predicate AlwaysRecovered(p: seq<byte>) {
    forall t, s, tail | Usable(s) && AreTables(t, s) :: Recovered(t, s, p, tail)
  }

  function SeparatingSet(): (s: Sets)
    ensures Separating(s)
  {
    Sets(seq(0x141, _ => 10), seq(0x141, i => if i == SHORT then 1 else 10), seq(11, _ => 5))
  }

  lemma UnitMatchFails(p: seq<byte>) returns (t: Tables, s: Sets)
    requires !NoUnitMatch(p, 0)
    ensures Usable(s) && AreTables(t, s)
    ensures forall tail :: Decode(t, Encode(CodesOf(s), p, 0, false) + tail, [], false, |p|).None?
  {
    s := SeparatingSet();
    SeparatingUsable(s);
    var first := TableExists(s.first);
    var second := TableExists(s.second);
    var offset := TableExists(s.offset);
    t := Tables(first, second, offset);
    forall tail ensures Decode(t, Encode(CodesOf(s), p, 0, false) + tail, [], false, |p|).None? {
      LostFrom(t, s, p, 0, false, tail);
      assert p[..0] == [];
    }
  }

  /** The round trip holds for every code set exactly when the encoder chooses no match at distance one. */
  lemma RoundTripIff(p: seq<byte>)
    ensures NoUnitMatch(p, 0) <==> AlwaysRecovered(p)
  {
    if NoUnitMatch(p, 0) {
      forall t, s, tail | Usable(s) && AreTables(t, s) ensures Recovered(t, s, p, tail) {
        RoundTrip(t, s, p, tail);
      }
    } else {
      var t, s := UnitMatchFails(p);
      assert !Recovered(t, s, p, []);
    }
  }

  // ---- the same for whole streams of bytes --------------------------------------------------------------

  /** What the encoder writes: the selector of set 1, the codes, at most seven zeros. */
  predicate IsEncoded(s: Sets, p: seq<byte>, data: seq<byte>, pad: nat)
    requires Usable(s)
  {
    pad < 8 && AllBits(data) == (AllBits([0x11]) + Encode(CodesOf(s), p, 0, false)) + Lsb(0, pad)
  }

  /** Whatever the code sets, the decompressor gives the payload back. */
  ghost predicate AlwaysDecompressed(p: seq<byte>) {
    forall meta, sets, data, pad, r | |sets| == 5 && Usable(sets[0]) && IsEncoded(sets[0], p, data, pad)
      && Decompresses(meta, sets, data, |p|, r) :: r == Some(p)
  }

  /** The bytes with these bits. */
  function Packed(bits: seq<bit>): (data: seq<byte>)
    requires |bits| % 8 == 0
  {
    if bits == [] then []
    else
      ByteBound(bits);
      [Val(bits[..8])] + Packed(bits[8..])
  }

  lemma ByteBound(bits: seq<bit>)
    requires |bits| % 8 == 0 && bits != []
    ensures |bits| >= 8 && Val(bits[..8]) < 256
  {
    PowEight();
    ValBound(bits[..8]);
  }

  lemma {:induction false} PackedBits(bits: seq<bit>)
    requires |bits| % 8 == 0
    ensures AllBits(Packed(bits)) == bits
    decreases |bits|
  {
    if bits != [] {
      ByteBound(bits);
      PackedBits(bits[8..]);
      LsbVal(bits[..8]);
      assert Packed(bits)[1..] == Packed(bits[8..]);
      assert bits == bits[..8] + bits[8..];
    }
  }

  lemma Filled(bits: seq<bit>) returns (data: seq<byte>, pad: nat)
    ensures pad < 8 && AllBits(data) == bits + Lsb(0, pad)
  {
    pad := (8 - |bits| % 8) % 8;
    data := Packed(bits + Lsb(0, pad));
    PackedBits(bits + Lsb(0, pad));
  }

  lemma EncodedExists(s: Sets, p: seq<byte>) returns (data: seq<byte>, pad: nat)
    requires Usable(s)
    ensures IsEncoded(s, p, data, pad)
  {
    data, pad := Filled(AllBits([0x11]) + Encode(CodesOf(s), p, 0, false));
  }

  /** A stream that is decompressed to nothing, for any payload with a match at distance one. */
  lemma SomeRefused(p: seq<byte>, meta: map<nat, Entry>) returns (sets: seq<Sets>, data: seq<byte>, pad: nat)
    requires !NoUnitMatch(p, 0)
    ensures |sets| == 5 && Usable(sets[0]) && IsEncoded(sets[0], p, data, pad) && Decompresses(meta, sets, data, |p|, None)
  {
    var t, s := UnitMatchFails(p);
    sets := [s, s, s, s, s];
    data, pad := EncodedExists(s, p);
    var code := Encode(CodesOf(s), p, 0, false);
    Assoc(AllBits([0x11]), code, Lsb(0, pad));
    Selector(data, 0x11, code + Lsb(0, pad));
    assert AreTables(t, sets[0]) && Decode(t, AllBits(data)[8..], [], false, |p|).None?;
    assert DecodedWith(sets[0], AllBits(data)[8..], |p|, None);
  }

  /** From bytes to bytes: decompressing what was encoded always gives the payload back exactly when the encoder
      chooses no match at distance one. */
  lemma EncodedIff(p: seq<byte>)
    ensures NoUnitMatch(p, 0) <==> AlwaysDecompressed(p)
  {
    if NoUnitMatch(p, 0) {
      forall meta, sets, data, pad, r | |sets| == 5 && Usable(sets[0]) && IsEncoded(sets[0], p, data, pad)
        && Decompresses(meta, sets, data, |p|, r) ensures r == Some(p) {
        EncodedDecompresses(meta, sets, p, data, pad, r);
      }
    } else {
      var sets, data, pad := SomeRefused(p, map[]);
      assert IsEncoded(sets[0], p, data, pad) && Decompresses(map[], sets, data, |p|, None);
    }
  }
}
