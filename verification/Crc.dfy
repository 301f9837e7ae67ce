/** The CRC-16 of BinHex (polynomial 0x1021, no reflection), as arithmetic on 16-bit values. */
module Crc {
  import opened Words

  const BITS := 8

  type half = h: int | 0 <= h < 0x1_0000

  /** Bitwise exclusive or. */
  function Xor(a: nat, b: nat): nat
    decreases a + b
  {
    if a == 0 && b == 0 then 0 else (a % 2 + b % 2) % 2 + 2 * Xor(a / 2, b / 2)
  }

  lemma {:induction false} XorBound(a: nat, b: nat, k: nat)
    requires a < Pow2(k) && b < Pow2(k)
    ensures Xor(a, b) < Pow2(k)
    decreases k
  {
    if k > 0 && (a > 0 || b > 0) { XorBound(a / 2, b / 2, k - 1); }
  }

  lemma HalfBound(a: half, b: half)
    ensures Xor(a, b) < 0x1_0000
  {
    assert Pow2(8) == 256 by { assert Pow2(4) == 16; Pow2Add(4, 4); }
    Pow2Add(8, 8);
    XorBound(a, b, 16);
  }

  /** One bit: shift left, and take the polynomial off when a one falls out. */
  function Step(c: half): (r: half) {
    var x: int := c;
    if x >= 0x8000 then
      HalfBound(2 * x - 0x1_0000, 0x1021);
      Xor(2 * x - 0x1_0000, 0x1021)
    else 2 * x
  }

  function Steps(c: half, n: nat): half
    decreases n
  {
    if n == 0 then c else Steps(Step(c), n - 1)
  }

  function Update(c: half, b: byte): half {
    var x: int := b;
    HalfBound(c, 256 * x);
    Steps(Xor(c, 256 * x), BITS)
  }

  function Sum(s: seq<byte>, c: half): half {
    if s == [] then c else Sum(s[1..], Update(c, s[0]))
  }

  function Of(s: seq<byte>): half { Sum(s, 0) }

  lemma {:induction false} SumAppend(a: seq<byte>, b: seq<byte>, c: half)
    ensures Sum(a + b, c) == Sum(b, Sum(a, c))
    decreases |a|
  {
    if a == [] {
      assert a + b == b;
    } else {
      assert (a + b)[1..] == a[1..] + b && (a + b)[0] == a[0];
      SumAppend(a[1..], b, Update(c, a[0]));
    }
  }

  lemma {:induction false} XorSelf(a: nat)
    ensures Xor(a, a) == 0
  {
    if a > 0 { XorSelf(a / 2); }
  }

  /** The low `k` bits are zero. */
  predicate LowZeros(b: nat, k: nat)
    decreases k
  {
    k == 0 || (b % 2 == 0 && LowZeros(b / 2, k - 1))
  }

  /** Or-ing out the high part leaves the low part. */
  lemma {:induction false} XorHigh(b: nat, l: nat, k: nat)
    requires l < Pow2(k) && LowZeros(b, k)
    ensures Xor(b + l, b) == l
    decreases k
  {
    if k == 0 {
      XorSelf(b);
    } else {
      XorHigh(b / 2, l / 2, k - 1);
      XorStep(b + l, b, b / 2 + l / 2, b / 2, l);
    }
  }

  lemma XorUnfold(a: nat, b: nat, x: nat, y: nat)
    requires a / 2 == x && b / 2 == y
    ensures Xor(a, b) == (a % 2 + b % 2) % 2 + 2 * Xor(x, y)
  {
  }

  lemma XorStep(a: nat, b: nat, x: nat, y: nat, r: nat)
    requires a / 2 == x && b / 2 == y && Xor(x, y) == r / 2 && (a % 2 + b % 2) % 2 == r % 2
    ensures Xor(a, b) == r
  {
    XorUnfold(a, b, x, y);
  }

  lemma StepSmall(c: half, n: nat)
    requires c < 0x8000 && n > 0
    ensures Steps(c, n) == Steps(2 * c, n - 1)
  {
  }

  /** Small values are shifted without a one falling out. */
  lemma {:induction false} StepsShift(x: nat, m: nat, n: nat)
    requires x < 256 && m + n == BITS
    ensures x * Pow2(m) < 0x1_0000 && Steps(x * Pow2(m), n) == 256 * x
    decreases n
  {
    PowEight();
    if n == 0 {
    } else {
      SevenBound(x, m);
      StepsShift(x, m + 1, n - 1);
      DoublePow(x, m);
      StepSmall(x * Pow2(m), n);
    }
  }

  lemma DoublePow(x: nat, m: nat)
    ensures x * Pow2(m + 1) == 2 * (x * Pow2(m))
  {
    var p := Pow2(m);
    assert x * (2 * p) == 2 * (x * p);
  }

  lemma SevenBound(x: nat, m: nat)
    requires x < 256 && m < 8
    ensures x * Pow2(m) < 0x8000
  {
    assert Pow2(4) == 16 && Pow2(3) == 8;
    Pow2Add(3, 4);
    Pow2Monotone(m, 7);
    assert x * Pow2(m) <= 255 * Pow2(m);
  }

  lemma ShiftByte(x: byte)
    ensures Steps(x, BITS) == 256 * x
  {
    StepsShift(x, 0, BITS);
    assert x * Pow2(0) == x;
  }

  lemma {:induction false} ZerosBelow(x: nat, k: nat)
    ensures LowZeros(x * Pow2(k), k)
    decreases k
  {
    if k > 0 {
      DoublePow(x, k - 1);
      ZerosBelow(x, k - 1);
    }
  }

  lemma ZeroByte(h: nat)
    ensures LowZeros(256 * h, 8)
  {
    PowEight();
    ZerosBelow(h, 8);
  }

  /** The high byte leaves the low byte, moved up; the low byte leaves nothing. */
  lemma UpdateHigh(hi: byte, lo: byte, c: half)
    requires c == hi as int * 256 + lo as int
    ensures Update(c, hi) == 256 * lo as int
  {
    PowEight();
    var h: int := hi;
    ZeroByte(h);
    XorHigh(256 * h, lo, 8);
    ShiftByte(lo);
  }

  lemma UpdateLow(lo: byte, c: half)
    requires c == 256 * lo as int
    ensures Update(c, lo) == 0
  {
    XorSelf(c);
    ShiftByte(0);
  }

  lemma SumTwo(x: byte, y: byte, c: half)
    ensures Sum([x, y], c) == Update(Update(c, x), y)
  {
    var s: seq<byte> := [x, y];
    assert s[1..] == [y];
    SumOne(y, Update(c, x));
  }

  lemma SumOne(y: byte, c: half)
    ensures Sum([y], c) == Update(c, y)
  {
    var s: seq<byte> := [y];
    assert s[1..] == [];
  }

  /** Feeding a CRC its own two bytes brings it to zero. */
  lemma Residue(c: half)
    ensures Sum(Bytes(c), c) == 0
  {
    var x: int := c;
    var hi: byte, lo: byte := x / 256, x % 256;
    UpdateHigh(hi, lo, c);
    UpdateLow(lo, Update(c, hi));
    SumTwo(hi, lo, c);
  }

  /** Big-endian bytes of a 16-bit value. */
  function Bytes(c: half): (s: seq<byte>)
    ensures |s| == 2
  {
    var x: int := c;
    [x / 256, x % 256]
  }

  /** A checked block leaves no trace in the running CRC. */
  lemma CheckedBlock(before: seq<byte>, s: seq<byte>)
    requires Of(before) == 0
    ensures Of(before + s) == Of(s) && Of(before + s + Bytes(Of(s))) == 0
  {
    SumAppend(before, s, 0);
    SumAppend(before + s, Bytes(Of(s)), 0);
    Residue(Of(s));
  }
}
