/** The canonical numbering, told from one code to the next: which code each symbol gets. */
module CanonicalOrder {
  import opened Words
  import opened Canonical

  /** Shorter codes come first, and among codes of one length the smaller symbols. */
  predicate Precedes(lengths: seq<int>, a: nat, b: nat)
    requires a < |lengths| && b < |lengths|
  {
    lengths[a] < lengths[b] || (lengths[a] == lengths[b] && a < b)
  }

  predicate CodedBefore(lengths: seq<int>, k: nat, j: nat)
    requires j < |lengths|
  {
    Coded(lengths, k) && Precedes(lengths, k, j)
  }

  /** No coded symbol comes before `i`. */
  predicate IsFirst(lengths: seq<int>, i: nat) {
    Coded(lengths, i) && forall k: nat | k < |lengths| :: !CodedBefore(lengths, k, i)
  }

  /** `j` is the next coded symbol behind `i`. */
  predicate IsNext(lengths: seq<int>, i: nat, j: nat) {
    && Coded(lengths, i) && Coded(lengths, j) && Precedes(lengths, i, j)
    && forall k: nat | k < |lengths| && k != i && CodedBefore(lengths, k, j) :: Precedes(lengths, k, i)
  }

  lemma {:induction false} CountNone(lengths: seq<int>, l: int, a: nat, b: nat)
    requires a <= b <= |lengths| && forall k | a <= k < b :: lengths[k] != l
    ensures Count(lengths, l, b) == Count(lengths, l, a)
    decreases b
  {
    if a < b { CountNone(lengths, l, a, b - 1); }
  }

  /** No symbol has a length from `l` up to `m`. */
  predicate Empty(lengths: seq<int>, l: int, m: int) {
    forall k | 0 <= k < |lengths| :: !(l <= lengths[k] < m)
  }

  /** Where no symbol has a length in between, every step of the length doubles. */
  lemma {:induction false} FirstDoubles(lengths: seq<int>, l: nat, m: nat)
    requires 1 <= l < m && Empty(lengths, l + 1, m)
    ensures First(lengths, m) == After(lengths, l) * Pow2(m - l)
    decreases m
  {
    if m == l + 1 {
      assert Pow2(1) == 2;
    } else {
      assert Empty(lengths, l + 1, m - 1);
      FirstDoubles(lengths, l, m - 1);
      CountNone(lengths, m - 1, 0, |lengths|);
      Twice(After(lengths, l), Pow2(m - 1 - l));
    }
  }

  lemma Twice(a: nat, p: nat)
    ensures 2 * (a * p) == a * (2 * p)
  {
  }

  lemma {:induction false} FirstIsZero(lengths: seq<int>, m: nat)
    requires 1 <= m && Empty(lengths, 1, m)
    ensures First(lengths, m) == 0
    decreases m
  {
    if m > 1 {
      assert Empty(lengths, 1, m - 1);
      FirstIsZero(lengths, m - 1);
      CountNone(lengths, m - 1, 0, |lengths|);
    }
  }

  /** The first code is zero. */
  lemma FirstCode(lengths: seq<int>, i: nat)
    requires IsFirst(lengths, i)
    ensures Code(lengths, i) == 0
  {
    var l := lengths[i];
    forall k | 0 <= k < |lengths| ensures !(1 <= lengths[k] < l) && (k < i ==> lengths[k] != l) {
      assert !CodedBefore(lengths, k, i);
    }
    FirstIsZero(lengths, l);
    CountNone(lengths, l, 0, i);
  }

  /** The next code is one more, with as many zeros behind it as it is longer. With the first code that fixes them all. */
  lemma NextCode(lengths: seq<int>, i: nat, j: nat)
    requires IsNext(lengths, i, j)
    ensures Code(lengths, j) == (Code(lengths, i) + 1) * Pow2(lengths[j] - lengths[i])
  {
    var l, m := lengths[i], lengths[j];
    forall k: nat | k < |lengths|
      ensures !(l + 1 <= lengths[k] < m) && (l == m && i < k < j ==> lengths[k] != l)
      ensures l < m ==> (k > i ==> lengths[k] != l) && (k < j ==> lengths[k] != m)
    {
      if k != i && Coded(lengths, k) && Precedes(lengths, k, j) { assert CodedBefore(lengths, k, j); }
    }
    if l == m {
      CountNone(lengths, l, i + 1, j);
    } else {
      CountNone(lengths, l, i + 1, |lengths|);
      assert Empty(lengths, l + 1, m);
      FirstDoubles(lengths, l, m);
      CountNone(lengths, m, 0, j);
    }
  }
}
