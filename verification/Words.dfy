/** Bytes, 32-bit words and the few facts about powers of two and bit masks the models share. */
module Words {

  datatype Option<+T> = None | Some(value: T)

  type byte = b: int | 0 <= b < 256

  /** One more than the largest `unsigned` of the 32-bit target. */
  const WORD := 0x1_0000_0000

  type word = w: int | 0 <= w < 0x1_0000_0000

  /** The low 32 bits of a sum or a difference of two unsigned values (see WrapIsModular). */
  function Wrap(x: int): word
    requires -0x1_0000_0000 < x < 0x2_0000_0000
  {
    if x < 0 then x + 0x1_0000_0000 else if x >= 0x1_0000_0000 then x - 0x1_0000_0000 else x
  }

  /** The low 32 bits of any natural number (see Low32IsMod). */
  function Low32(x: nat): word
    decreases x
  {
    if x < 0x1_0000_0000 then x else Low32(x - 0x1_0000_0000)
  }

  lemma {:induction false} Low32IsMod(x: nat)
    ensures Low32(x) == x % 0x1_0000_0000
  {
    if x < 0x1_0000_0000 {
      DivUnique(x, 0x1_0000_0000, 0, x);
    } else {
      var y := x - 0x1_0000_0000;
      Low32IsMod(y);
      DivUnique(x, 0x1_0000_0000, y / 0x1_0000_0000 + 1, y % 0x1_0000_0000);
    }
  }

  /** Reducing a part of a sum first changes nothing. */
  lemma {:induction false} Low32Sum(x: word, v: nat)
    ensures Low32(x + v) == Wrap(x + Low32(v))
    decreases v
  {
    if v >= 0x1_0000_0000 { Low32Sum(x, v - 0x1_0000_0000); }
  }

  lemma WrapIsModular(x: int)
    requires -0x1_0000_0000 < x < 0x2_0000_0000
    ensures Wrap(x) == x % 0x1_0000_0000
  {
    DivUnique(x, 0x1_0000_0000, if x < 0 then -1 else if x >= 0x1_0000_0000 then 1 else 0, Wrap(x));
  }

  /** How unsigned subtraction tracks a counter that advances, possibly past 2^32. */
  lemma WrapAdvance(h: word, t: word, n: nat)
    requires n < 0x1_0000_0000
    ensures n <= Wrap(t - h) ==> Wrap(t - Wrap(h + n)) == Wrap(t - h) - n
    ensures Wrap(t - h) + n < 0x1_0000_0000 ==> Wrap(Wrap(t + n) - h) == Wrap(t - h) + n
    ensures Wrap(h + Wrap(t - h)) == t
  {
  }

  function Min(a: int, b: int): int { if a < b then a else b }

  /** A Python slice, whose bounds may lie beyond the end. */
  function Cut<T>(s: seq<T>, a: nat, b: nat): seq<T>
    requires a <= b
  {
    s[Min(a, |s|)..Min(b, |s|)]
  }

  lemma Assoc<T>(a: seq<T>, b: seq<T>, c: seq<T>)
    ensures a + (b + c) == (a + b) + c
  {
  }

  function Pow2(k: nat): (p: nat)
    ensures p > 0
  {
    if k == 0 then 1 else 2 * Pow2(k - 1)
  }

  /** The bitwise `&` of two unsigned values. */
  function And(a: nat, b: nat): nat
    decreases a
  {
    if a == 0 || b == 0 then 0 else Min(a % 2, b % 2) + 2 * And(a / 2, b / 2)
  }

  lemma {:induction false} Pow2Add(a: nat, b: nat)
    ensures Pow2(a + b) == Pow2(a) * Pow2(b)
  {
    if a > 0 {
      Pow2Add(a - 1, b);
      assert Pow2(a + b) == 2 * Pow2(a - 1 + b);
      assert 2 * (Pow2(a - 1) * Pow2(b)) == (2 * Pow2(a - 1)) * Pow2(b);
    }
  }

  lemma PowEight()
    ensures Pow2(8) == 256
  {
    assert Pow2(4) == 16;
    Pow2Add(4, 4);
  }

  lemma {:induction false} Pow2Monotone(a: nat, b: nat)
    requires a <= b
    ensures Pow2(a) <= Pow2(b)
  {
    if a < b { Pow2Monotone(a, b - 1); }
  }

  lemma DivUnique(a: int, s: int, q: int, r: int)
    requires 0 <= r < s && a == q * s + r
    ensures a / s == q && a % s == r
  {
    var q1, r1 := a / s, a % s;
    assert a == q1 * s + r1;
    assert (q - q1) * s == r1 - r && (q1 - q) * s == r - r1;
    if q > q1 {
      MulAtLeast(q - q1, s);
    } else if q < q1 {
      MulAtLeast(q1 - q, s);
    }
  }

  lemma MulAtLeast(k: int, s: int)
    requires k >= 1 && s >= 0
    ensures k * s >= s
  {
    assert k * s == (k - 1) * s + s;
  }

  /** Masking with a run of ones is reduction modulo a power of two. */
  lemma {:induction false} AndMask(x: nat, k: nat)
    ensures And(x, Pow2(k) - 1) == x % Pow2(k)
  {
    var p := Pow2(k);
    if k == 0 {
    } else if x == 0 {
      DivUnique(0, p, 0, 0);
    } else {
      var h := Pow2(k - 1);
      AndMask(x / 2, k - 1);
      AndOdd(x, h);
      HalfRemainder(x, h);
    }
  }

  lemma AndOdd(x: nat, h: nat)
    requires x > 0 && h > 0
    ensures And(x, 2 * h - 1) == x % 2 + 2 * And(x / 2, h - 1)
  {
    assert (2 * h - 1) % 2 == 1 && (2 * h - 1) / 2 == h - 1;
    assert And(x, 2 * h - 1) == Min(x % 2, 1) + 2 * And(x / 2, h - 1);
  }

  lemma HalfRemainder(x: nat, h: nat)
    requires h > 0
    ensures x % (2 * h) == x % 2 + 2 * ((x / 2) % h)
  {
    var q, r := (x / 2) / h, (x / 2) % h;
    assert x / 2 == q * h + r;
    assert q * (2 * h) == 2 * (q * h);
    DivUnique(x, 2 * h, q, 2 * r + x % 2);
  }

  /** The C idiom `n != 0 && (n & (n - 1)) == 0`. */
  predicate IsPowerOfTwo(n: nat) {
    n != 0 && And(n, n - 1) == 0
  }

  lemma {:induction false} AndSelf(n: nat)
    ensures And(n, n) == n
  {
    if n > 0 {
      AndSelf(n / 2);
    }
  }

  /** The idiom accepts exactly the powers of two; the exponent is returned as a witness. */
  lemma {:induction false} PowerOfTwoTest(n: nat) returns (k: nat)
    requires IsPowerOfTwo(n)
    ensures n == Pow2(k)
  {
    if n == 1 {
      k := 0;
    } else {
      if n % 2 == 1 {
        AndSelf(n / 2);
        assert false;
      }
      assert (n - 1) / 2 == n / 2 - 1;
      var j := PowerOfTwoTest(n / 2);
      k := j + 1;
    }
  }

  lemma {:induction false} Pow2At32()
    ensures Pow2(32) == WORD
  {
    assert Pow2(8) == 256;
    Pow2Add(8, 8);
    Pow2Add(16, 16);
  }

  /** Every power-of-two size an `unsigned` can hold divides 2^32. */
  lemma PowerDividesWord(n: word) returns (q: nat)
    requires IsPowerOfTwo(n)
    ensures n * q == WORD
  {
    var k := PowerOfTwoTest(n);
    Pow2At32();
    if k >= 32 {
      Pow2Monotone(32, k);
      assert false;
    }
    Pow2Add(k, 32 - k);
    q := Pow2(32 - k);
  }
}
