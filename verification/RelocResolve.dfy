/** Synthetic section bases and the resolver that inverts relocation. */
module RelocResolve {
  import opened Words
  import opened Reloc

  const BASE0 := 0x1000_0000

  function Align16(v: nat): (a: nat)
    ensures v <= a < v + 16 && a % 16 == 0
  {
    (v + 15) / 16 * 16
  }

  /** Where section `s` would start without truncation to 32 bits. */
  function Start(lens: seq<word>, s: nat): (c: nat)
    requires s <= |lens|
    ensures c >= BASE0
  {
    if s == 0 then BASE0 else Start(lens, s - 1) + Align16(lens[s - 1])
  }

  /** The first section starts at 0x10000000, and every other one at the first multiple of 16 behind the one before it. */
  lemma StartIsLeast(lens: seq<word>, s: nat)
    requires s < |lens|
    ensures Start(lens, 0) == 0x1000_0000
    ensures var end, next := Start(lens, s) + lens[s], Start(lens, s + 1); next % 16 == 0 && end <= next < end + 16
  {
    StartsAligned(lens, s + 1);
  }

  /** The cast to u32. */
  function Truncate(x: nat): word { Low32(x) }

  /** The bases of the first `n` sections. */
  function BasesTo(lens: seq<word>, n: nat): (b: seq<word>)
    requires n <= |lens|
    ensures |b| == n
  {
    if n == 0 then [] else BasesTo(lens, n - 1) + [Truncate(Start(lens, n - 1))]
  }

  function Bases(lens: seq<word>): (b: seq<word>)
    ensures |b| == |lens|
  {
    BasesTo(lens, |lens|)
  }

  lemma {:induction false} BasesAt(lens: seq<word>, n: nat, s: nat)
    requires s < n <= |lens|
    ensures BasesTo(lens, n)[s] == Truncate(Start(lens, s))
  {
    if s < n - 1 { BasesAt(lens, n - 1, s); }
  }

  method SyntheticBases(lens: seq<word>) returns (bases: seq<word>)
    ensures bases == Bases(lens)
  {
    bases := [];
    var cur := BASE0;
    var i: nat := 0;
    while i < |lens|
      invariant i <= |lens| && cur == Start(lens, i) && bases == BasesTo(lens, i)
    {
      bases := bases + [Truncate(cur)];
      cur := cur + Align16(lens[i]);
      i := i + 1;
    }
  }

  datatype Place = Place(section: nat, offset: word) | Nowhere(word: word)

  /** `w` lies in section `s`, at its distance from the base. */
  predicate Inside(bases: seq<word>, lens: seq<word>, s: nat, w: word) {
    s < |lens| && BaseOf(bases, s) <= w && w - BaseOf(bases, s) < lens[s]
  }

  /** The first section that contains the word. */
  function Resolve(bases: seq<word>, lens: seq<word>, i: nat, w: word): (p: Place)
    requires i <= |lens|
    decreases |lens| - i
  {
    if i == |lens| then Nowhere(w)
    else if Inside(bases, lens, i, w) then Place(i, w - BaseOf(bases, i))
    else Resolve(bases, lens, i + 1, w)
  }

  method ResolvePointer(bases: seq<word>, lens: seq<word>, w: word) returns (p: Place)
    ensures p == Resolve(bases, lens, 0, w)
  {
    var i: nat := 0;
    while i < |lens|
      invariant i <= |lens| && Resolve(bases, lens, 0, w) == Resolve(bases, lens, i, w)
    {
      var base := BaseOf(bases, i);
      if w >= base && w - base < lens[i] { return Place(i, w - base); }
      i := i + 1;
    }
    p := Nowhere(w);
  }

  /** The resolver answers with the least section that contains the word, if any does. */
  lemma {:induction false} ResolveIsFirst(bases: seq<word>, lens: seq<word>, i: nat, w: word)
    requires i <= |lens|
    ensures var p := Resolve(bases, lens, i, w);
      match p
      case Place(s, off) =>
        && i <= s && Inside(bases, lens, s, w) && off == w - BaseOf(bases, s)
        && (forall t | i <= t < s :: !Inside(bases, lens, t, w))
      case Nowhere(v) => v == w && forall t | i <= t < |lens| :: !Inside(bases, lens, t, w)
    decreases |lens| - i
  {
    if i < |lens| { ResolveIsFirst(bases, lens, i + 1, w); }
  }

  /** The address the loader forms for an offset into a section: a wrapping 32-bit sum. */
  function Address(bases: seq<word>, s: nat, off: word): word {
    Wrap(BaseOf(bases, s) + off)
  }

  /** Every offset into every section is found again from its address. */
  ghost predicate Invertible(bases: seq<word>, lens: seq<word>) {
    forall s, off: word | 0 <= s < |lens| && off < lens[s] ::
      Resolve(bases, lens, 0, Address(bases, s, off)) == Place(s, off)
  }

  /** No section runs past the top of the address space and no two share an address. */
  ghost predicate Apart(bases: seq<word>, lens: seq<word>) {
    && (forall s | 0 <= s < |lens| && lens[s] > 0 :: BaseOf(bases, s) + lens[s] <= 0x1_0000_0000)
    && (forall s, t | 0 <= s < t < |lens| && lens[s] > 0 && lens[t] > 0 ::
          BaseOf(bases, s) + lens[s] <= BaseOf(bases, t) || BaseOf(bases, t) + lens[t] <= BaseOf(bases, s))
  }

  lemma InvertibleMeansApart(bases: seq<word>, lens: seq<word>)
    requires Invertible(bases, lens)
    ensures Apart(bases, lens)
  {
    forall s | 0 <= s < |lens| && lens[s] > 0 ensures BaseOf(bases, s) + lens[s] <= 0x1_0000_0000 {
      InsideOwn(bases, lens, s, lens[s] - 1);
    }
    forall s, t | 0 <= s < t < |lens| && lens[s] > 0 && lens[t] > 0
      ensures BaseOf(bases, s) + lens[s] <= BaseOf(bases, t) || BaseOf(bases, t) + lens[t] <= BaseOf(bases, s)
    {
      NoMeeting(bases, lens, s, t);
    }
  }

  /** Two offsets with the same address are the same place. */
  lemma UniqueOwner(bases: seq<word>, lens: seq<word>, s: nat, off: word, t: nat, other: word)
    requires Invertible(bases, lens) && s < |lens| && t < |lens| && off < lens[s] && other < lens[t]
    requires Address(bases, s, off) == Address(bases, t, other)
    ensures s == t
  {
    assert Resolve(bases, lens, 0, Address(bases, s, off)) == Place(s, off);
    assert Resolve(bases, lens, 0, Address(bases, t, other)) == Place(t, other);
  }

  lemma NoMeeting(bases: seq<word>, lens: seq<word>, s: nat, t: nat)
    requires Invertible(bases, lens) && s < |lens| && t < |lens| && s != t && lens[s] > 0 && lens[t] > 0
    ensures BaseOf(bases, s) + lens[s] <= BaseOf(bases, t) || BaseOf(bases, t) + lens[t] <= BaseOf(bases, s)
  {
    var b: int, c: int := BaseOf(bases, s), BaseOf(bases, t);
    if b <= c < b + lens[s] {
      UniqueOwner(bases, lens, s, c - b, t, 0);
    } else if c <= b < c + lens[t] {
      UniqueOwner(bases, lens, s, 0, t, b - c);
    }
  }

  /** An address that resolves to its section lies in it, so its sum has not wrapped. */
  lemma InsideOwn(bases: seq<word>, lens: seq<word>, s: nat, off: word)
    requires Invertible(bases, lens) && s < |lens| && off < lens[s]
    ensures BaseOf(bases, s) + off < 0x1_0000_0000
  {
    assert Resolve(bases, lens, 0, Address(bases, s, off)) == Place(s, off);
    ResolveIsFirst(bases, lens, 0, Address(bases, s, off));
  }

  lemma ApartMeansInvertible(bases: seq<word>, lens: seq<word>)
    requires Apart(bases, lens)
    ensures Invertible(bases, lens)
  {
    forall s, off: word | 0 <= s < |lens| && off < lens[s]
      ensures Resolve(bases, lens, 0, Address(bases, s, off)) == Place(s, off)
    {
      var w := Address(bases, s, off);
      assert Inside(bases, lens, s, w);
      ResolveIsFirst(bases, lens, 0, w);
    }
  }

  /** The resolver inverts addressing exactly when the sections are apart. */
  lemma ResolverExactness(bases: seq<word>, lens: seq<word>)
    ensures Invertible(bases, lens) <==> Apart(bases, lens)
  {
    if Invertible(bases, lens) { InvertibleMeansApart(bases, lens); }
    if Apart(bases, lens) { ApartMeansInvertible(bases, lens); }
  }

  lemma {:induction false} StartsGrow(lens: seq<word>, s: nat, t: nat)
    requires s < t <= |lens|
    ensures Start(lens, s) + lens[s] <= Start(lens, t)
    decreases t
  {
    if s < t - 1 { StartsGrow(lens, s, t - 1); }
  }

  lemma {:induction false} StartsAligned(lens: seq<word>, s: nat)
    requires s <= |lens|
    ensures Start(lens, s) % 16 == 0
  {
    if s > 0 { StartsAligned(lens, s - 1); }
  }

  /** While the total stays within 2^32, the bases are aligned, in order and apart. */
  lemma SyntheticBasesApart(lens: seq<word>)
    requires Start(lens, |lens|) <= 0x1_0000_0000
    ensures Apart(Bases(lens), lens)
    ensures forall s | 0 <= s < |lens| && lens[s] > 0 :: Bases(lens)[s] % 16 == 0 && Bases(lens)[s] == Start(lens, s)
  {
    forall s | 0 <= s < |lens| && lens[s] > 0
      ensures Bases(lens)[s] == Start(lens, s) && Start(lens, s) % 16 == 0
      ensures Start(lens, s) + lens[s] <= 0x1_0000_0000
    {
      BasesAt(lens, |lens|, s);
      StartsGrow(lens, s, |lens|);
      StartsAligned(lens, s);
    }
    forall s, t | 0 <= s < t < |lens| && lens[s] > 0 && lens[t] > 0
      ensures Start(lens, s) + lens[s] <= Start(lens, t)
    {
      StartsGrow(lens, s, t);
    }
  }

  /** An offset to which the base of its section has been added, in any number of steps, resolves. */
  lemma SumResolves(bases: seq<word>, lens: seq<word>, s: nat, off: word, v: nat, w: word)
    requires Invertible(bases, lens) && s < |lens| && off < lens[s] && Low32(v) == BaseOf(bases, s)
    requires w == Low32(off + v)
    ensures Resolve(bases, lens, 0, w) == Place(s, off)
  {
    Low32Sum(off, v);
    assert w == Address(bases, s, off);
  }

  /** A word that stores an offset into section `s`, and to which the program adds in total the base
      of `s`, resolves to that section and offset after the program has run. */
  lemma RelocatedPointer(c: seq<byte>, ws: seq<Write>, a: nat, bases: seq<word>, lens: seq<word>, s: nat)
    requires Apart(bases, lens) && s < |lens|
    requires a + 4 <= |c| && Hits(ws, a)
    requires WordAt(c, a) < lens[s] && Low32(SumAt(ws, a)) == BaseOf(bases, s)
    ensures Resolve(bases, lens, 0, WordAt(ApplyAll(c, ws), a)) == Place(s, WordAt(c, a))
  {
    var off, v, w := Landed(c, ws, a);
    ApartMeansInvertible(bases, lens);
    SumResolves(bases, lens, s, off, v, w);
  }

  lemma Landed(c: seq<byte>, ws: seq<Write>, a: nat) returns (off: word, v: nat, w: word)
    requires a + 4 <= |c| && Hits(ws, a)
    ensures off == WordAt(c, a) && v == SumAt(ws, a) && w == WordAt(ApplyAll(c, ws), a) && w == Low32(off + v)
  {
    Additive(c, ws, a);
    off, v, w := WordAt(c, a), SumAt(ws, a), WordAt(ApplyAll(c, ws), a);
  }

  /** A run that adds the base of section `s` makes each of its words that stores an offset into `s` a
      pointer to that place. */
  lemma RunResolves(c: seq<byte>, bases: seq<word>, lens: seq<word>, s: nat, gap: nat, addr: nat, n: nat, k: nat)
    requires Apart(bases, lens) && s < |lens| && k < n
    requires var a := TurnAt(addr, 4 + gap, k); a + 4 <= |c| && WordAt(c, a) < lens[s]
    ensures var a := TurnAt(addr, 4 + gap, k);
      Resolve(bases, lens, 0, WordAt(ApplyAll(c, OneRun(BaseOf(bases, s), gap, addr, n)), a)) == Place(s, WordAt(c, a))
  {
    var base, a := BaseOf(bases, s), TurnAt(addr, 4 + gap, k);
    OneRunHits(base, gap, addr, n, k);
    RelocatedPointer(c, OneRun(base, gap, addr, n), a, bases, lens, s);
  }

  /** A run over transition vectors makes each one a pointer into the code section and one into the data
      section. */
  lemma VectorsResolve(c: seq<byte>, bases: seq<word>, lens: seq<word>, code: nat, data: nat, gap: nat, addr: nat, n: nat, k: nat)
    requires Apart(bases, lens) && code < |lens| && data < |lens| && k < n
    requires var a := TurnAt(addr, 8 + gap, k); a + 8 <= |c| && WordAt(c, a) < lens[code] && WordAt(c, a + 4) < lens[data]
    ensures var a, after := TurnAt(addr, 8 + gap, k), ApplyAll(c, TwoRun(BaseOf(bases, code), BaseOf(bases, data), gap, addr, n));
      && Resolve(bases, lens, 0, WordAt(after, a)) == Place(code, WordAt(c, a))
      && Resolve(bases, lens, 0, WordAt(after, a + 4)) == Place(data, WordAt(c, a + 4))
  {
    var b, d, a := BaseOf(bases, code), BaseOf(bases, data), TurnAt(addr, 8 + gap, k);
    TwoRunHits(b, d, gap, addr, n, k);
    RelocatedPointer(c, TwoRun(b, d, gap, addr, n), a, bases, lens, code);
    RelocatedPointer(c, TwoRun(b, d, gap, addr, n), a + 4, bases, lens, data);
  }
}
