/** Bit strings as they travel: least significant bit of each byte first. */
module Bits {
  import opened Words

  type bit = b: int | 0 <= b < 2

  /** The first bit is the least significant. */
  function Val(s: seq<bit>): (v: nat) {
    if s == [] then 0 else s[0] + 2 * Val(s[1..])
  }

  /** The low `n` bits of `v`, least significant first. */
  function Lsb(v: nat, n: nat): (s: seq<bit>)
    ensures |s| == n
    decreases n
  {
    if n == 0 then [] else [v % 2] + Lsb(v / 2, n - 1)
  }

  /** `v >> n`. */
  function Shift(v: nat, n: nat): nat
    decreases n
  {
    if n == 0 then v else Shift(v / 2, n - 1)
  }

  lemma {:induction false} LsbVal(s: seq<bit>)
    ensures Lsb(Val(s), |s|) == s
  {
    if s != [] {
      LsbVal(s[1..]);
      assert (s[0] + 2 * Val(s[1..])) / 2 == Val(s[1..]);
    }
  }

  lemma {:induction false} ValLsb(v: nat, n: nat)
    requires v < Pow2(n)
    ensures Val(Lsb(v, n)) == v
    decreases n
  {
    if n > 0 {
      ValLsb(v / 2, n - 1);
      assert Lsb(v, n)[1..] == Lsb(v / 2, n - 1);
    }
  }

  lemma {:induction false} ValBound(s: seq<bit>)
    ensures Val(s) < Pow2(|s|)
  {
    if s != [] { ValBound(s[1..]); }
  }

  lemma HeadTail<T>(a: seq<T>, b: seq<T>)
    requires a != []
    ensures (a + b)[0] == a[0] && (a + b)[1..] == a[1..] + b
  {
  }

  /** The weight of a bit at position `n`. */
  function Weight(b: bit, n: nat): nat { if b == 1 then Pow2(n) else 0 }

  lemma {:induction false} ValSnoc(s: seq<bit>, b: bit)
    ensures Val(s + [b]) == Val(s) + Weight(b, |s|)
    decreases |s|
  {
    if s == [] {
      assert s + [b] == [b] && [b][1..] == [];
    } else {
      HeadTail(s, [b]);
      ValSnoc(s[1..], b);
    }
  }

  lemma LsbFirst(v: nat, n: nat)
    requires n > 0
    ensures Lsb(v, n) == [v % 2] + Lsb(v / 2, n - 1)
  {
  }

  lemma {:induction false} LsbAppend(v: nat, w: nat, m: nat, n: nat)
    requires v < Pow2(m)
    ensures Lsb(v + Pow2(m) * w, m + n) == Lsb(v, m) + Lsb(w, n)
    decreases m
  {
    if m > 0 {
      var p, q := Pow2(m - 1), Pow2(m - 1) * w;
      assert (2 * p) * w == 2 * q;
      assert (v + 2 * q) % 2 == v % 2 && (v + 2 * q) / 2 == v / 2 + q;
      LsbAppend(v / 2, w, m - 1, n);
      LsbFirst(v + 2 * q, m + n);
    }
  }

  lemma {:induction false} LsbIndex(v: nat, n: nat, k: nat)
    requires k < n
    ensures Lsb(v, n)[k] == Shift(v, k) % 2
    decreases k
  {
    if k > 0 {
      LsbIndex(v / 2, n - 1, k - 1);
    }
  }

  const BYTE_BITS := 8

  /** All bits of a byte string. */
  function AllBits(data: seq<byte>): (s: seq<bit>)
    ensures |s| == 8 * |data|
  {
    if data == [] then [] else Lsb(data[0], BYTE_BITS) + AllBits(data[1..])
  }

  lemma {:induction false} AllBitsAppend(a: seq<byte>, b: seq<byte>)
    ensures AllBits(a + b) == AllBits(a) + AllBits(b)
    decreases |a|
  {
    if a == [] {
      assert a + b == b;
    } else {
      HeadTail(a, b);
      AllBitsAppend(a[1..], b);
      Assoc(Lsb(a[0], BYTE_BITS), AllBits(a[1..]), AllBits(b));
    }
  }

  lemma {:induction false} AllBitsIndex(data: seq<byte>, pos: nat, k: nat)
    requires pos < |data| && k < 8
    ensures AllBits(data)[8 * pos + k] == Shift(data[pos], k) % 2
    decreases pos
  {
    if pos == 0 {
      LsbIndex(data[0], BYTE_BITS, k);
    } else {
      AllBitsIndex(data[1..], pos - 1, k);
    }
  }

  lemma DropOne<T>(s: seq<T>, k: nat)
    requires k < |s|
    ensures s[k..] != [] && s[k..][0] == s[k] && s[k..][1..] == s[k + 1..]
  {
  }

  /** The reader of `sit5.py`: a byte position, a bit position, and the bits still to come. */
  class BitReader {
    const data: seq<byte>
    var pos: nat
    var bitPos: nat
    ghost var left: seq<bit>

    ghost predicate Valid()
      reads this
    {
      && pos <= |data| && bitPos < 8 && (pos == |data| ==> bitPos == 0)
      && left == AllBits(data)[8 * pos + bitPos..]
    }

    constructor (data: seq<byte>)
      ensures Valid() && left == AllBits(data) && this.data == data
    {
      this.data, pos, bitPos, left := data, 0, 0, AllBits(data);
    }

    /** `None` stands for the end-of-stream exception. */
    method NextBit() returns (r: Option<bit>)
      requires Valid()
      modifies this`pos, this`bitPos, this`left
      ensures Valid()
      ensures old(left) == [] ==> r.None?
      ensures old(left) != [] ==> r == Some(old(left)[0]) && left == old(left)[1..]
    {
      if pos >= |data| { return None; }
      AllBitsIndex(data, pos, bitPos);
      DropOne(AllBits(data), 8 * pos + bitPos);
      r := Some(Shift(data[pos], bitPos) % 2);
      left := left[1..];
      bitPos := bitPos + 1;
      if bitPos == 8 { bitPos, pos := 0, pos + 1; }
    }

    method NextBits(n: nat) returns (r: Option<nat>)
      requires Valid()
      modifies this`pos, this`bitPos, this`left
      ensures Valid()
      ensures n > |old(left)| ==> r.None?
      ensures n <= |old(left)| ==> r == Some(Val(old(left)[..n])) && left == old(left)[n..]
    {
      ghost var was := left;
      var v: nat, i: nat := 0, 0;
      while i < n
        invariant Valid() && i <= n && i <= |was| && left == was[i..] && v == Val(was[..i])
      {
        var b := NextBit();
        if b.None? { return None; }
        DropOne(was, i);
        ValSnoc(was[..i], b.value);
        assert was[..i + 1] == was[..i] + [b.value];
        v := v + Weight(b.value, i);
        i := i + 1;
      }
      r := Some(v);
    }
  }
}
