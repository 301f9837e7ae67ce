/** Canonical prefix codes: how codes are numbered, when they fit, and why the table decodes them. */
module Canonical {
  import opened Words
  import opened Bits

  const MAX_LENGTH := 32

  /** How many of the first `k` symbols have length `l`. */
  function Count(lengths: seq<int>, l: int, k: nat): (c: nat)
    requires k <= |lengths|
    ensures c <= k
  {
    if k == 0 then 0 else Count(lengths, l, k - 1) + if lengths[k - 1] == l then 1 else 0
  }

  /** The first code of length `l` and the one after the last. */
  function First(lengths: seq<int>, l: nat): nat
    requires l >= 1
    decreases l, 0
  {
    if l == 1 then 0 else 2 * After(lengths, l - 1)
  }

  function After(lengths: seq<int>, l: nat): nat
    requires l >= 1
    decreases l, 1
  {
    First(lengths, l) + Count(lengths, l, |lengths|)
  }

  predicate Coded(lengths: seq<int>, i: nat) {
    i < |lengths| && 1 <= lengths[i] <= MAX_LENGTH
  }

  /** Symbols are numbered by length, and within a length in order. */
  function Code(lengths: seq<int>, i: nat): nat
    requires Coded(lengths, i)
  {
    First(lengths, lengths[i]) + Count(lengths, lengths[i], i)
  }

  /** The low `n` bits of a code in the order they are sent, the most significant first. */
  function CodeBits(c: nat, n: nat): (s: seq<bit>)
    ensures |s| == n
    decreases n
  {
    if n == 0 then [] else CodeBits(c / 2, n - 1) + [c % 2]
  }

  function Word(lengths: seq<int>, i: nat): (s: seq<bit>)
    requires Coded(lengths, i)
    ensures |s| == lengths[i]
  {
    CodeBits(Code(lengths, i), lengths[i])
  }

  /** The code is small enough for its length. */
  predicate Fits(lengths: seq<int>, i: nat)
    requires Coded(lengths, i)
  {
    Code(lengths, i) < Pow2(lengths[i])
  }

  // ---- the Kraft sum ------------------------------------------------------------------------

  /** The room, in units of 2^-32, that symbols of length at most `l` among the first `k` take. */
  function KraftSum(lengths: seq<int>, l: nat, k: nat): nat
    requires k <= |lengths| && l <= MAX_LENGTH
  {
    if k == 0 then 0
    else KraftSum(lengths, l, k - 1) + if 1 <= lengths[k - 1] <= l then Pow2(MAX_LENGTH - lengths[k - 1]) else 0
  }

  predicate Kraft(lengths: seq<int>) {
    KraftSum(lengths, MAX_LENGTH, |lengths|) <= Pow2(MAX_LENGTH)
  }

  lemma {:induction false} KraftLevel(lengths: seq<int>, l: nat, k: nat)
    requires 1 <= l <= MAX_LENGTH && k <= |lengths|
    ensures KraftSum(lengths, l, k) == KraftSum(lengths, l - 1, k) + Count(lengths, l, k) * Pow2(MAX_LENGTH - l)
  {
    if k > 0 {
      KraftLevel(lengths, l, k - 1);
      var c, p := Count(lengths, l, k - 1), Pow2(MAX_LENGTH - l);
      assert (c + 1) * p == c * p + p;
    }
  }

  lemma {:induction false} KraftZero(lengths: seq<int>, k: nat)
    requires k <= |lengths|
    ensures KraftSum(lengths, 0, k) == 0
  {
    if k > 0 { KraftZero(lengths, k - 1); }
  }

  lemma {:induction false} KraftMonotone(lengths: seq<int>, l: nat, m: nat, k: nat)
    requires l <= m <= MAX_LENGTH && k <= |lengths|
    ensures KraftSum(lengths, l, k) <= KraftSum(lengths, m, k)
  {
    if k > 0 { KraftMonotone(lengths, l, m, k - 1); }
  }

  /** Numbering codes in order uses up exactly the Kraft sum. */
  lemma {:induction false} AfterIsKraft(lengths: seq<int>, l: nat)
    requires 1 <= l <= MAX_LENGTH
    ensures After(lengths, l) * Pow2(MAX_LENGTH - l) == KraftSum(lengths, l, |lengths|)
  {
    KraftLevel(lengths, l, |lengths|);
    var c, p := Count(lengths, l, |lengths|), Pow2(MAX_LENGTH - l);
    if l == 1 {
      KraftZero(lengths, |lengths|);
    } else {
      AfterIsKraft(lengths, l - 1);
      Scale(After(lengths, l - 1), c, p);
      assert Pow2(MAX_LENGTH - (l - 1)) == 2 * p;
    }
  }

  lemma Scale(a: nat, c: nat, p: nat)
    ensures (2 * a + c) * p == a * (2 * p) + c * p
  {
    assert (2 * a + c) * p == (2 * a) * p + c * p;
    assert (2 * a) * p == a * (2 * p);
  }

  lemma MulGrows(a: nat, b: nat, p: nat)
    requires p > 0 && a > b
    ensures a * p > b * p
  {
    assert a * p == b * p + (a - b) * p;
    MulAtLeast(a - b, p);
  }

  lemma CancelPow(a: nat, b: nat, p: nat)
    requires p > 0 && a * p <= b * p
    ensures a <= b
  {
    if a > b { MulGrows(a, b, p); }
  }

  lemma KraftMeansRoom(lengths: seq<int>, l: nat)
    requires 1 <= l <= MAX_LENGTH && Kraft(lengths)
    ensures After(lengths, l) <= Pow2(l)
  {
    AfterIsKraft(lengths, l);
    KraftMonotone(lengths, l, MAX_LENGTH, |lengths|);
    Pow2Add(l, MAX_LENGTH - l);
    CancelPow(After(lengths, l), Pow2(l), Pow2(MAX_LENGTH - l));
  }

  lemma {:induction false} CountGrows(lengths: seq<int>, l: int, i: nat, j: nat)
    requires i < j <= |lengths| && lengths[i] == l
    ensures Count(lengths, l, i) < Count(lengths, l, j)
    decreases j
  {
    if i < j - 1 { CountGrows(lengths, l, i, j - 1); }
  }

  /** A code lies between the first and the last of its length. */
  lemma CodeInRange(lengths: seq<int>, i: nat)
    requires Coded(lengths, i)
    ensures First(lengths, lengths[i]) <= Code(lengths, i) < After(lengths, lengths[i])
  {
    CountGrows(lengths, lengths[i], i, |lengths|);
  }

  /** The last symbol of a length that occurs has the last code. */
  lemma {:induction false} LastOf(lengths: seq<int>, l: int, k: nat) returns (i: nat)
    requires k <= |lengths| && Count(lengths, l, k) > 0
    ensures i < k && lengths[i] == l && Count(lengths, l, i) + 1 == Count(lengths, l, k)
  {
    if lengths[k - 1] == l { i := k - 1; } else { i := LastOf(lengths, l, k - 1); }
  }

  lemma {:induction false} FittingMeansKraft(lengths: seq<int>, l: nat)
    requires l <= MAX_LENGTH && forall i | 0 <= i < |lengths| && Coded(lengths, i) :: Fits(lengths, i)
    ensures KraftSum(lengths, l, |lengths|) <= Pow2(MAX_LENGTH)
  {
    if l == 0 {
      KraftZero(lengths, |lengths|);
    } else if Count(lengths, l, |lengths|) == 0 {
      KraftLevel(lengths, l, |lengths|);
      FittingMeansKraft(lengths, l - 1);
    } else {
      var i := LastOf(lengths, l, |lengths|);
      assert Coded(lengths, i) && Fits(lengths, i);
      AfterIsKraft(lengths, l);
      Pow2Add(l, MAX_LENGTH - l);
      MulMonotone(After(lengths, l), Pow2(l), Pow2(MAX_LENGTH - l));
    }
  }

  lemma MulMonotone(a: nat, b: nat, p: nat)
    requires a <= b
    ensures a * p <= b * p
  {
    assert b * p == a * p + (b - a) * p;
  }

  /** Every code fits its length exactly when the lengths satisfy Kraft's inequality. */
  lemma KraftIffFits(lengths: seq<int>)
    ensures Kraft(lengths) <==> forall i | 0 <= i < |lengths| && Coded(lengths, i) :: Fits(lengths, i)
  {
    if Kraft(lengths) {
      forall i | 0 <= i < |lengths| && Coded(lengths, i) ensures Fits(lengths, i) {
        CodeInRange(lengths, i);
        KraftMeansRoom(lengths, lengths[i]);
      }
    }
    if forall i | 0 <= i < |lengths| && Coded(lengths, i) :: Fits(lengths, i) {
      FittingMeansKraft(lengths, MAX_LENGTH);
    }
  }

  // ---- prefix-freeness -----------------------------------------------------------------------

  /** The number a code's bits spell, the first bit the most significant. */
  function Num(s: seq<bit>): nat {
    if s == [] then 0 else 2 * Num(s[..|s| - 1]) + s[|s| - 1]
  }

  lemma {:induction false} NumOfCode(c: nat, n: nat)
    requires c < Pow2(n)
    ensures Num(CodeBits(c, n)) == c
    decreases n
  {
    if n > 0 {
      NumOfCode(c / 2, n - 1);
      assert CodeBits(c, n)[..n - 1] == CodeBits(c / 2, n - 1);
    }
  }

  lemma {:induction false} NumOfPrefix(s: seq<bit>, k: nat)
    requires k <= |s|
    ensures Num(s[..k]) == Shift(Num(s), |s| - k)
    decreases |s|
  {
    if k == |s| {
      assert s[..k] == s;
    } else {
      var t := s[..|s| - 1];
      NumOfPrefix(t, k);
      assert t[..k] == s[..k];
      assert Num(s) / 2 == Num(t);
    }
  }

  lemma {:induction false} ShiftMonotone(x: nat, y: nat, d: nat)
    requires x <= y
    ensures Shift(x, d) <= Shift(y, d)
    decreases d
  {
    if d > 0 { ShiftMonotone(x / 2, y / 2, d - 1); }
  }

  /** Codes of a greater length start beyond every code of a smaller one. */
  lemma {:induction false} FirstBeyond(lengths: seq<int>, l: nat, m: nat)
    requires 1 <= l < m
    ensures Shift(First(lengths, m), m - l) >= After(lengths, l)
    decreases m
  {
    var a := After(lengths, m - 1);
    assert Shift(2 * a, m - l) == Shift(a, m - l - 1);
    if l < m - 1 {
      FirstBeyond(lengths, l, m - 1);
      ShiftMonotone(First(lengths, m - 1), a, m - 1 - l);
    }
  }

  /** A shorter code whose bits start a longer one is what is left when the rest is shifted out. */
  lemma PrefixMeansShift(c: nat, l: nat, d: nat, m: nat)
    requires l <= m && c < Pow2(l) && d < Pow2(m) && CodeBits(c, l) <= CodeBits(d, m)
    ensures c == Shift(d, m - l)
  {
    NumOfCode(c, l);
    NumOfCode(d, m);
    NumOfPrefix(CodeBits(d, m), l);
    assert CodeBits(d, m)[..l] == CodeBits(c, l);
  }

  lemma ShiftedDiffer(lengths: seq<int>, i: nat, j: nat)
    requires Coded(lengths, i) && Coded(lengths, j) && i != j && lengths[i] <= lengths[j]
    ensures Code(lengths, i) != Shift(Code(lengths, j), lengths[j] - lengths[i])
  {
    var l, m := lengths[i], lengths[j];
    CodeInRange(lengths, i);
    CodeInRange(lengths, j);
    if l < m {
      FirstBeyond(lengths, l, m);
      ShiftMonotone(First(lengths, m), Code(lengths, j), m - l);
    } else if i < j {
      CountGrows(lengths, l, i, j);
    } else {
      CountGrows(lengths, l, j, i);
    }
  }

  /** No code word is a prefix of another. */
  lemma PrefixFree(lengths: seq<int>, i: nat, j: nat)
    requires Kraft(lengths) && Coded(lengths, i) && Coded(lengths, j) && i != j
    ensures !(Word(lengths, i) <= Word(lengths, j))
  {
    if Word(lengths, i) <= Word(lengths, j) {
      KraftIffFits(lengths);
      PrefixMeansShift(Code(lengths, i), lengths[i], Code(lengths, j), lengths[j]);
      ShiftedDiffer(lengths, i, j);
    }
  }

  // ---- the table ---------------------------------------------------------------------------------

  datatype Entry = Entry(length: nat, symbol: nat)

  /** The key of a symbol: its word read with the first bit least significant. */
  function Key(lengths: seq<int>, i: nat): nat
    requires Coded(lengths, i)
  {
    Val(Word(lengths, i))
  }

  /** The table holds the coded symbols under their keys and nothing else. */
  predicate IsTable(table: map<nat, Entry>, lengths: seq<int>) {
    && (forall k <- table :: Coded(lengths, table[k].symbol) && table[k] == Entry(lengths[table[k].symbol], table[k].symbol)
                             && k == Key(lengths, table[k].symbol))
    && (forall i | 0 <= i < |lengths| && Coded(lengths, i) :: Key(lengths, i) in table)
  }

  lemma {:induction false} LsbPrefix(v: nat, m: nat, n: nat)
    requires m <= n
    ensures Lsb(v, m) <= Lsb(v, n)
    decreases m
  {
    if m > 0 { LsbPrefix(v / 2, m - 1, n - 1); }
  }

  /** Keys of different symbols differ, although the key does not record the length. */
  lemma NoCollision(lengths: seq<int>, i: nat, j: nat)
    requires Kraft(lengths) && Coded(lengths, i) && Coded(lengths, j) && i != j && lengths[i] <= lengths[j]
    ensures Key(lengths, i) != Key(lengths, j)
  {
    LsbVal(Word(lengths, i));
    LsbVal(Word(lengths, j));
    LsbPrefix(Key(lengths, j), lengths[i], lengths[j]);
    PrefixFree(lengths, i, j);
  }

  /** Each coded symbol's key leads back to the symbol. */
  lemma EntryOf(table: map<nat, Entry>, lengths: seq<int>, i: nat)
    requires Kraft(lengths) && IsTable(table, lengths) && Coded(lengths, i)
    ensures Key(lengths, i) in table && table[Key(lengths, i)] == Entry(lengths[i], i)
  {
    var j := table[Key(lengths, i)].symbol;
    if i != j {
      if lengths[i] <= lengths[j] { NoCollision(lengths, i, j); } else { NoCollision(lengths, j, i); }
    }
  }

  datatype Symbol = Symbol(value: nat, rest: seq<bit>)

  /** Bits are read until they are, as a number, a key of that many bits. */
  function Find(table: map<nat, Entry>, bits: seq<bit>, n: nat): (r: Option<Symbol>)
    ensures r.Some? && n > 0 ==> |r.value.rest| < |bits|
    decreases 33 - n
  {
    if n > 32 || n > |bits| then None
    else
      var v := Val(bits[..n]);
      if v in table && table[v].length == n then Some(Symbol(table[v].symbol, bits[n..])) else Find(table, bits, n + 1)
  }

  /** A stream that starts with a symbol's word is not cut off earlier. */
  lemma NoEarlyHit(table: map<nat, Entry>, lengths: seq<int>, i: nat, bits: seq<bit>, n: nat)
    requires Kraft(lengths) && IsTable(table, lengths) && Coded(lengths, i)
    requires Word(lengths, i) <= bits && n < lengths[i]
    ensures var v := Val(bits[..n]); !(v in table && table[v].length == n)
  {
    var v := Val(bits[..n]);
    if v in table && table[v].length == n {
      var j := table[v].symbol;
      LsbVal(bits[..n]);
      LsbVal(Word(lengths, j));
      PrefixFree(lengths, j, i);
    }
  }

  lemma {:induction false} FindFrom(table: map<nat, Entry>, lengths: seq<int>, i: nat, bits: seq<bit>, n: nat)
    requires Kraft(lengths) && IsTable(table, lengths) && Coded(lengths, i)
    requires Word(lengths, i) <= bits && 1 <= n <= lengths[i]
    ensures Find(table, bits, n) == Some(Symbol(i, bits[lengths[i]..]))
    decreases lengths[i] - n
  {
    if n < lengths[i] {
      NoEarlyHit(table, lengths, i, bits, n);
      FindFrom(table, lengths, i, bits, n + 1);
    } else {
      EntryOf(table, lengths, i);
      assert bits[..n] == Word(lengths, i);
    }
  }

  /** Decoding a symbol's word gives the symbol and consumes exactly its length. */
  lemma WordDecodes(table: map<nat, Entry>, lengths: seq<int>, i: nat, rest: seq<bit>)
    requires Kraft(lengths) && IsTable(table, lengths) && Coded(lengths, i)
    ensures Find(table, Word(lengths, i) + rest, 1) == Some(Symbol(i, rest))
  {
    var bits := Word(lengths, i) + rest;
    assert bits[lengths[i]..] == rest;
    FindFrom(table, lengths, i, bits, 1);
  }
}
