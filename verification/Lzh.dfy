/** The method-13 stream: what the fixture encoder sends and what the decoder makes of it. */
module Lzh {
  import opened Words
  import opened Bits
  import opened Canonical

  // ---- the encoder's choices ----------------------------------------------------------------

  predicate Matches(p: seq<byte>, i: nat, dist: nat) {
    i >= dist && Cut(p, i, i + 3) == Cut(p, i - dist, i - dist + 3)
  }

  /** The least distance up to ten at which three bytes repeat. */
  function ChooseFrom(p: seq<byte>, i: nat, dist: nat): (d: Option<nat>)
    ensures d.Some? ==> dist <= d.value <= 10 && Matches(p, i, d.value)
    decreases 11 - dist
  {
    if dist > 10 then None else if Matches(p, i, dist) then Some(dist) else ChooseFrom(p, i, dist + 1)
  }

  function Choose(p: seq<byte>, i: nat): (d: Option<nat>)
    ensures d.Some? ==> 1 <= d.value <= 10 && Matches(p, i, d.value) && i >= 3
  {
    if i < 3 then None else ChooseFrom(p, i, 1)
  }

  /** No distance from `lo` up to `hi` matches. */
  predicate NoneMatches(p: seq<byte>, i: nat, lo: nat, hi: nat) {
    forall e | lo <= e < hi :: !Matches(p, i, e)
  }

  lemma OneMoreFails(p: seq<byte>, i: nat, lo: nat, hi: nat)
    requires !Matches(p, i, lo) && NoneMatches(p, i, lo + 1, hi)
    ensures NoneMatches(p, i, lo, hi)
  {
  }

  /** The distance chosen is the least one that matches, and none is chosen only if none does. */
  lemma {:induction false} ChooseIsLeast(p: seq<byte>, i: nat, dist: nat)
    ensures var d := ChooseFrom(p, i, dist); NoneMatches(p, i, dist, if d.Some? then d.value else 11)
    decreases 11 - dist
  {
    if dist <= 10 && !Matches(p, i, dist) {
      ChooseIsLeast(p, i, dist + 1);
      var d := ChooseFrom(p, i, dist + 1);
      OneMoreFails(p, i, dist, if d.Some? then d.value else 11);
    }
  }

  /** The bucket of a distance. The search starts at distance 2, so distance 1 has none. */
  function BucketFrom(dist: nat, sym: nat): (s: Option<nat>)
    requires sym >= 1
    ensures s.Some? ==> sym <= s.value <= 10 && (s.value > 1 ==> dist > Pow2(s.value - 1))
    decreases 11 - sym
  {
    if sym > 10 then None
    else
      var lo := if sym == 1 then 2 else Pow2(sym - 1) + 1;
      var hi := if sym == 1 then 2 else Pow2(sym);
      if lo <= dist <= hi then Some(sym) else BucketFrom(dist, sym + 1)
  }

  /** The code words in use. */
  datatype Codes = Codes(first: seq<seq<bit>>, second: seq<seq<bit>>, offset: seq<seq<bit>>)

  predicate Complete(c: Codes) {
    |c.first| > 0x140 && |c.second| > 0x140 && |c.offset| > 10
  }

  function DistanceBits(c: Codes, dist: nat): seq<bit>
    requires Complete(c)
  {
    var s := BucketFrom(dist, 1);
    if s.None? then []
    else if s.value == 1 then c.offset[1]
    else c.offset[s.value] + Lsb(dist - Pow2(s.value - 1) - 1, s.value - 1)
  }

  function Current(c: Codes, inSecond: bool): seq<seq<bit>> { if inSecond then c.second else c.first }

  /** The bits for the payload from `i` on: a match leads to the second code, a literal to the first. */
  function Encode(c: Codes, p: seq<byte>, i: nat, inSecond: bool): seq<bit>
    requires Complete(c)
    decreases |p| - i
  {
    if i >= |p| then Current(c, inSecond)[0x140]
    else
      var d := Choose(p, i);
      if d.Some? then Current(c, inSecond)[0x100] + (DistanceBits(c, d.value) + Encode(c, p, i + 3, true))
      else Current(c, inSecond)[p[i]] + Encode(c, p, i + 1, false)
  }

  // ---- the decoder -------------------------------------------------------------------------------

  datatype Tables = Tables(first: map<nat, Entry>, second: map<nat, Entry>, offset: map<nat, Entry>)

  datatype Got = Got(value: nat, rest: seq<bit>)

  function ReadBits(bits: seq<bit>, n: nat): (r: Option<Got>)
    ensures r.Some? ==> |r.value.rest| <= |bits|
  {
    if n > |bits| then None else Some(Got(Val(bits[..n]), bits[n..]))
  }

  function Plus(r: Option<Got>, n: nat): Option<Got> {
    if r.None? then None else Some(Got(r.value.value + n, r.value.rest))
  }

  function ReadLength(sym: nat, bits: seq<bit>): (r: Option<Got>)
    requires 0x100 <= sym < 0x140
    ensures r.Some? ==> |r.value.rest| <= |bits|
  {
    if sym < 0x13e then Some(Got(sym - 0x100 + 3, bits))
    else Plus(ReadBits(bits, if sym == 0x13e then 10 else 15), 65)
  }

  function ReadDistance(offset: map<nat, Entry>, bits: seq<bit>): (r: Option<Got>)
    ensures r.Some? ==> |r.value.rest| <= |bits| && r.value.value >= 1
  {
    var s := Find(offset, bits, 1);
    if s.None? then None
    else if s.value.value <= 1 then Some(Got(s.value.value + 1, s.value.rest))
    else Plus(ReadBits(s.value.rest, s.value.value - 1), Pow2(s.value.value - 1) + 1)
  }

  /** Byte by byte from `dist` back, which may overlap what is being written. An index before the start
      counts from the end, as Python's negative indices do; beyond that it is an error. */
  function Copy(out: seq<byte>, dist: nat, n: nat): Option<seq<byte>>
    decreases n
  {
    if n == 0 then Some(out)
    else if dist == 0 || dist > 2 * |out| then None
    else
      var k := if dist <= |out| then |out| - dist else 2 * |out| - dist;
      Copy(out + [out[k]], dist, n - 1)
  }

  function Decode(t: Tables, bits: seq<bit>, out: seq<byte>, inSecond: bool, outLen: nat): Option<seq<byte>>
    decreases |bits|
  {
    if |out| >= outLen then Some(out[..outLen])
    else
      var s := Find(if inSecond then t.second else t.first, bits, 1);
      if s.None? then None
      else if s.value.value < 0x100 then Decode(t, s.value.rest, out + [s.value.value], false, outLen)
      else if s.value.value >= 0x140 then Some(out)
      else
        var m := ReadMatch(t, s.value, out);
        if m.None? then None else Decode(t, m.value.rest, m.value.out, true, outLen)
  }

  datatype Copied = Copied(out: seq<byte>, rest: seq<bit>)

  function ReadMatch(t: Tables, s: Symbol, out: seq<byte>): (r: Option<Copied>)
    requires 0x100 <= s.value < 0x140
    ensures r.Some? ==> |r.value.rest| <= |s.rest|
  {
    var n := ReadLength(s.value, s.rest);
    if n.None? then None
    else
      var d := ReadDistance(t.offset, n.value.rest);
      if d.None? then None
      else
        var o := Copy(out, d.value.value, n.value.value);
        if o.None? then None else Some(Copied(o.value, d.value.rest))
  }

  // ---- the round trip --------------------------------------------------------------------------

  /** Every word in use is read back as its symbol, whatever follows. */
  ghost predicate Reads(table: map<nat, Entry>, words: seq<seq<bit>>) {
    forall sym: nat, rest: seq<bit> {:trigger Find(table, words[sym] + rest, 1)} | sym < |words| ::
      Find(table, words[sym] + rest, 1) == Some(Symbol(sym, rest))
  }

  ghost predicate AllRead(t: Tables, c: Codes) {
    Complete(c) && Reads(t.first, c.first) && Reads(t.second, c.second) && Reads(t.offset, c.offset)
  }

  /** No match at distance one is chosen from `i` on. */
  predicate NoUnitMatch(p: seq<byte>, i: nat)
    decreases |p| - i
  {
    i >= |p| ||
    var d := Choose(p, i);
    if d.Some? then d.value != 1 && NoUnitMatch(p, i + 3) else NoUnitMatch(p, i + 1)
  }

  /** Three bytes at `i` repeat those `dist` before. */
  predicate Repeats(p: seq<byte>, i: nat, dist: nat) {
    1 <= dist <= i && i + 3 <= |p| && p[i] == p[i - dist] && p[i + 1] == p[i + 1 - dist] && p[i + 2] == p[i + 2 - dist]
  }

  /** Slices that reach the end have different lengths, so a match lies wholly inside the payload. */
  lemma MatchInside(p: seq<byte>, i: nat, dist: nat)
    requires i < |p| && dist >= 1 && Matches(p, i, dist)
    ensures Repeats(p, i, dist)
  {
    var a, b := Cut(p, i, i + 3), Cut(p, i - dist, i - dist + 3);
    assert |a| == |b|;
    assert a[0] == b[0] && a[1] == b[1] && a[2] == b[2];
  }

  lemma CopyStep(p: seq<byte>, j: nat, dist: nat, n: nat)
    requires j < |p| && 1 <= dist <= j && p[j] == p[j - dist]
    ensures Copy(p[..j], dist, n + 1) == Copy(p[..j + 1], dist, n)
  {
    assert p[..j] + [p[j]] == p[..j + 1];
  }

  lemma CopyMatch(p: seq<byte>, i: nat, dist: nat)
    requires Repeats(p, i, dist)
    ensures Copy(p[..i], dist, 3) == Some(p[..i + 3])
  {
    CopyStep(p, i, dist, 2);
    CopyStep(p, i + 1, dist, 1);
    CopyStep(p, i + 2, dist, 0);
  }

  lemma Powers()
    ensures Pow2(1) == 2 && Pow2(2) == 4 && Pow2(3) == 8 && Pow2(4) == 16
  {
  }

  /** Distances 2 to 10 lie in buckets 1 to 4; distance 1 lies in none. */
  lemma Buckets(dist: nat)
    requires 2 <= dist <= 10
    ensures var s := BucketFrom(dist, 1);
      && s == Some(if dist == 2 then 1 else if dist <= 4 then 2 else if dist <= 8 then 3 else 4)
      && (s.value > 1 ==> Pow2(s.value - 1) < dist <= 2 * Pow2(s.value - 1))
  {
    Powers();
    if dist > 2 {
      assert BucketFrom(dist, 1) == BucketFrom(dist, 2);
      if dist > 4 { assert BucketFrom(dist, 2) == BucketFrom(dist, 3); }
      if dist > 8 { assert BucketFrom(dist, 3) == BucketFrom(dist, 4); }
    }
  }

  lemma ReadBackBits(v: nat, n: nat, rest: seq<bit>)
    requires v < Pow2(n)
    ensures ReadBits(Lsb(v, n) + rest, n) == Some(Got(v, rest))
  {
    ValLsb(v, n);
    assert (Lsb(v, n) + rest)[..n] == Lsb(v, n) && (Lsb(v, n) + rest)[n..] == rest;
  }

  lemma BucketBack(offset: map<nat, Entry>, words: seq<seq<bit>>, s: nat, x: nat, rest: seq<bit>)
    requires Reads(offset, words) && 2 <= s < |words| && x < Pow2(s - 1)
    ensures ReadDistance(offset, (words[s] + Lsb(x, s - 1)) + rest) == Some(Got(Pow2(s - 1) + x + 1, rest))
  {
    Assoc(words[s], Lsb(x, s - 1), rest);
    assert Find(offset, words[s] + (Lsb(x, s - 1) + rest), 1) == Some(Symbol(s, Lsb(x, s - 1) + rest));
    ReadBackBits(x, s - 1, rest);
  }

  lemma DistanceBack(t: Tables, c: Codes, dist: nat, rest: seq<bit>)
    requires AllRead(t, c) && 2 <= dist <= 10
    ensures ReadDistance(t.offset, DistanceBits(c, dist) + rest) == Some(Got(dist, rest))
  {
    Buckets(dist);
    var s := BucketFrom(dist, 1).value;
    if s == 1 {
      assert Find(t.offset, c.offset[1] + rest, 1) == Some(Symbol(1, rest));
    } else {
      BucketBack(t.offset, c.offset, s, dist - Pow2(s - 1) - 1, rest);
    }
  }

  /** One match token: three bytes are copied. */
  lemma MatchBack(t: Tables, c: Codes, p: seq<byte>, i: nat, dist: nat, rest: seq<bit>)
    requires AllRead(t, c) && i < |p| && Choose(p, i) == Some(dist) && dist != 1
    ensures i + 3 <= |p|
    ensures ReadMatch(t, Symbol(0x100, DistanceBits(c, dist) + rest), p[..i]) == Some(Copied(p[..i + 3], rest))
  {
    MatchInside(p, i, dist);
    CopyMatch(p, i, dist);
    DistanceBack(t, c, dist, rest);
    CopiedBy(t, DistanceBits(c, dist) + rest, p, i, dist, rest);
  }

  lemma CopiedBy(t: Tables, bits: seq<bit>, p: seq<byte>, i: nat, dist: nat, rest: seq<bit>)
    requires ReadDistance(t.offset, bits) == Some(Got(dist, rest))
    requires i + 3 <= |p| && Copy(p[..i], dist, 3) == Some(p[..i + 3])
    ensures ReadMatch(t, Symbol(0x100, bits), p[..i]) == Some(Copied(p[..i + 3], rest))
  {
    assert ReadLength(0x100, bits) == Some(Got(3, bits));
  }

  /** The words of one token in front of the rest of the stream. */
  lemma TokenWord(words: seq<seq<bit>>, sym: nat, more: seq<bit>, tail: seq<bit>, table: map<nat, Entry>)
    requires sym < |words| && Reads(table, words)
    ensures Find(table, (words[sym] + more) + tail, 1) == Some(Symbol(sym, more + tail))
  {
    Assoc(words[sym], more, tail);
    assert Find(table, words[sym] + (more + tail), 1) == Some(Symbol(sym, more + tail));
  }

  function Table(t: Tables, inSecond: bool): map<nat, Entry> { if inSecond then t.second else t.first }

  lemma LiteralStep(t: Tables, c: Codes, p: seq<byte>, i: nat, inSecond: bool, tail: seq<bit>)
    requires AllRead(t, c) && i < |p| && Choose(p, i).None?
    ensures Decode(t, Encode(c, p, i, inSecond) + tail, p[..i], inSecond, |p|)
         == Decode(t, Encode(c, p, i + 1, false) + tail, p[..i + 1], false, |p|)
  {
    TokenWord(Current(c, inSecond), p[i], Encode(c, p, i + 1, false), tail, Table(t, inSecond));
    assert p[..i] + [p[i]] == p[..i + 1];
  }

  lemma MatchStep(t: Tables, c: Codes, p: seq<byte>, i: nat, inSecond: bool, tail: seq<bit>)
    requires AllRead(t, c) && i < |p| && Choose(p, i).Some? && Choose(p, i).value != 1
    ensures i + 3 <= |p|
    ensures Decode(t, Encode(c, p, i, inSecond) + tail, p[..i], inSecond, |p|)
         == Decode(t, Encode(c, p, i + 3, true) + tail, p[..i + 3], true, |p|)
  {
    var d, more := Choose(p, i).value, Encode(c, p, i + 3, true);
    var bits := Encode(c, p, i, inSecond) + tail;
    assert bits == (Current(c, inSecond)[0x100] + (DistanceBits(c, d) + more)) + tail;
    TokenWord(Current(c, inSecond), 0x100, DistanceBits(c, d) + more, tail, Table(t, inSecond));
    Assoc(DistanceBits(c, d), more, tail);
    MatchBack(t, c, p, i, d, more + tail);
    MatchDecoded(t, bits, p[..i], inSecond, |p|, DistanceBits(c, d) + (more + tail), p[..i + 3], more + tail);
  }

  /** One turn of the decoder at a match. */
  lemma MatchDecoded(t: Tables, bits: seq<bit>, out: seq<byte>, inSecond: bool, size: nat, after: seq<bit>,
                     next: seq<byte>, rest: seq<bit>)
    requires Find(Table(t, inSecond), bits, 1) == Some(Symbol(0x100, after)) && |out| < size
    requires ReadMatch(t, Symbol(0x100, after), out) == Some(Copied(next, rest))
    ensures Decode(t, bits, out, inSecond, size) == Decode(t, rest, next, true, size)
  {
  }

  /** From any point of the payload on, decoding what was encoded completes the payload. */
  lemma {:induction false} RoundTripFrom(t: Tables, c: Codes, p: seq<byte>, i: nat, inSecond: bool, tail: seq<bit>)
    requires AllRead(t, c) && i <= |p| && NoUnitMatch(p, i)
    ensures Decode(t, Encode(c, p, i, inSecond) + tail, p[..i], inSecond, |p|) == Some(p)
    decreases |p| - i
  {
    if i == |p| {
      assert p[..i] == p;
    } else if Choose(p, i).Some? {
      MatchStep(t, c, p, i, inSecond, tail);
      RoundTripFrom(t, c, p, i + 3, true, tail);
    } else {
      LiteralStep(t, c, p, i, inSecond, tail);
      RoundTripFrom(t, c, p, i + 1, false, tail);
    }
  }

  /** Four equal bytes in a row, which is what a match at distance one needs. */
  predicate FourEqual(p: seq<byte>, i: nat) {
    i + 4 <= |p| && p[i] == p[i + 1] == p[i + 2] == p[i + 3]
  }

  lemma {:induction false} NoFourEqual(p: seq<byte>, i: nat)
    requires forall k | 0 <= k < |p| :: !FourEqual(p, k)
    ensures NoUnitMatch(p, i)
    decreases |p| - i
  {
    if i < |p| {
      var d := Choose(p, i);
      if d.Some? {
        MatchInside(p, i, d.value);
        if d.value == 1 {
          assert FourEqual(p, i - 1);
        }
        NoFourEqual(p, i + 3);
      } else {
        NoFourEqual(p, i + 1);
      }
    }
  }
}
