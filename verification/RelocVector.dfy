/** The analysis of the special main: two relocated words that should be a transition vector. */
module RelocVector {
  import opened Words
  import opened Reloc
  import opened RelocResolve

  /** What is found at the main offset of the relocated section. */
  datatype VectorStatus =
    | BeyondDecodedPrefix
    | Provisional(word0: word, word1: word)
    | Valid(entry: Place, toc: Place)
    | NotAVector(word0: word, word1: word)

  /** A section as loaded: the bytes decoded, whether all of them were, and its relocation program. */
  datatype Loaded = Loaded(content: seq<byte>, decoded: bool, chunks: seq<chunk>)

  predicate LooksLikeVector(w0: word, w1: word) {
    w0 != 0 && w0 % 4 == 0 && w1 != 0 && w1 % 4 == 0
  }

  function Analyze(content: seq<byte>, complete: bool, a: nat, bases: seq<word>, lens: seq<word>): VectorStatus {
    if a + 8 > |content| then BeyondDecodedPrefix
    else
      var w0, w1 := WordAt(content, a), WordAt(content, a + 4);
      if !complete then Provisional(w0, w1)
      else if LooksLikeVector(w0, w1) then Valid(Resolve(bases, lens, 0, w0), Resolve(bases, lens, 0, w1))
      else NotAVector(w0, w1)
  }

  function Replay(l: Loaded, bases: seq<word>): Result {
    Trace(l.chunks, 0, Initial(bases), bases)
  }

  /** There is an answer only for a main section that exists and could be loaded with a program. */
  function SpecialMain(main: int, lens: seq<word>, loaded: Option<Loaded>, a: nat): Option<VectorStatus> {
    if main < 0 || main >= |lens| || loaded.None? then None
    else
      var l, bases := loaded.value, Bases(lens);
      var t := Replay(l, bases);
      Some(Analyze(ApplyAll(l.content, t.writes), l.decoded && t.complete, a, bases, lens))
  }

  /** The two words at `a` store offsets into the sections `code` and `data`, and the writes add to them in
      total the bases of those sections. */
  predicate Prepared(c: seq<byte>, ws: seq<Write>, a: nat, lens: seq<word>, code: nat, data: nat) {
    && a + 8 <= |c| && code < |lens| && data < |lens|
    && WordAt(c, a) < lens[code] && WordAt(c, a + 4) < lens[data]
    && Hits(ws, a) && Hits(ws, a + 4)
    && Low32(SumAt(ws, a)) == Bases(lens)[code] && Low32(SumAt(ws, a + 4)) == Bases(lens)[data]
  }

  /** An address that resolves is never zero, and aligned just as its offset. */
  lemma PlaceWord(lens: seq<word>, s: nat, off: word, w: word)
    requires Start(lens, |lens|) <= 0x1_0000_0000 && s < |lens| && off < lens[s]
    requires Resolve(Bases(lens), lens, 0, w) == Place(s, off)
    ensures w as int == Start(lens, s) + off
    ensures w != 0 && (w % 4 == 0 <==> off % 4 == 0)
  {
    SyntheticBasesApart(lens);
    ResolveIsFirst(Bases(lens), lens, 0, w);
    StartsAligned(lens, s);
    AlignedSum(Start(lens, s), off);
  }

  lemma AlignedSum(x: nat, off: nat)
    requires x % 16 == 0
    ensures (x + off) % 4 == 0 <==> off % 4 == 0
  {
  }

  lemma PreparedWord(c: seq<byte>, ws: seq<Write>, a: nat, lens: seq<word>, s: nat) returns (w: word)
    requires Start(lens, |lens|) <= 0x1_0000_0000 && s < |lens| && a + 4 <= |c|
    requires WordAt(c, a) < lens[s] && Hits(ws, a) && Low32(SumAt(ws, a)) == Bases(lens)[s]
    ensures w == WordAt(ApplyAll(c, ws), a)
    ensures Resolve(Bases(lens), lens, 0, w) == Place(s, WordAt(c, a))
  {
    SyntheticBasesApart(lens);
    RelocatedPointer(c, ws, a, Bases(lens), lens, s);
    w := WordAt(ApplyAll(c, ws), a);
  }

  /** While the sections fit below 2^32, a prepared main vector is reported exactly: as provisional when decoding
      or replay was partial, otherwise as valid, with the two stored places, if and only if both offsets are
      multiples of four. */
  lemma PreparedMain(main: nat, lens: seq<word>, l: Loaded, a: nat, code: nat, data: nat)
    requires main < |lens| && Start(lens, |lens|) <= 0x1_0000_0000
    requires Prepared(l.content, Replay(l, Bases(lens)).writes, a, lens, code, data)
    ensures var off, toc := WordAt(l.content, a), WordAt(l.content, a + 4);
      && Start(lens, code) + off < 0x1_0000_0000 && Start(lens, data) + toc < 0x1_0000_0000
      && SpecialMain(main, lens, Some(l), a) == Some(
           if !(l.decoded && Replay(l, Bases(lens)).complete) then Provisional(Start(lens, code) + off, Start(lens, data) + toc)
           else if off % 4 == 0 && toc % 4 == 0 then Valid(Place(code, off), Place(data, toc))
           else NotAVector(Start(lens, code) + off, Start(lens, data) + toc))
  {
    var ws := Replay(l, Bases(lens)).writes;
    var w0 := PreparedWord(l.content, ws, a, lens, code);
    var w1 := PreparedWord(l.content, ws, a + 4, lens, data);
    PlaceWord(lens, code, WordAt(l.content, a), w0);
    PlaceWord(lens, data, WordAt(l.content, a + 4), w1);
  }

  /** The chunk that relocates `run` transition vectors in a row from the start of the section. */
  function VectorChunk(run: nat): chunk
    requires 1 <= run <= 512
  {
    0x4600 + (run - 1)
  }

  lemma VectorProgram(bases: seq<word>, run: nat) returns (ws: seq<Write>)
    requires 1 <= run <= 512
    ensures Trace([VectorChunk(run)], 0, Initial(bases), bases) == Result(ws, [], true)
    ensures ws == TwoRun(BaseOf(bases, 0), BaseOf(bases, 1), 0, 0, run)
  {
    var v, m := VectorChunk(run), Initial(bases);
    var e := ValueGroup(v, m);
    assert KindOf(v) == Values && v / 512 == 35 && v % 512 == run - 1;
    assert Trace([v], 1, e.m, bases) == Result([], [], true);
    assert e.writes + [] == e.writes;
    ws := e.writes;
  }

  lemma RunSums(c: word, d: word, gap: nat, addr: nat, run: nat, k: nat, ws: seq<Write>, a: nat)
    requires k < run && ws == TwoRun(c, d, gap, addr, run) && a == TurnAt(addr, 8 + gap, k)
    ensures Hits(ws, a) && Hits(ws, a + 4) && Low32(SumAt(ws, a)) == c && Low32(SumAt(ws, a + 4)) == d
  {
    TwoRunHits(c, d, gap, addr, run, k);
  }

  /** From program to report: in a section of transition vectors relocated by one chunk, a main that is any of them
      is found, entry in section 0 and table of contents in section 1. */
  lemma MainOfVectors(main: nat, lens: seq<word>, l: Loaded, a: nat, run: nat, k: nat)
    requires main < |lens| && |lens| >= 2 && Start(lens, |lens|) <= 0x1_0000_0000
    requires k < run <= 512 && l.decoded && l.chunks == [VectorChunk(run)]
    requires a == TurnAt(0, 8, k) && a + 8 <= |l.content|
    requires WordAt(l.content, a) < lens[0] && WordAt(l.content, a + 4) < lens[1]
    requires WordAt(l.content, a) % 4 == 0 && WordAt(l.content, a + 4) % 4 == 0
    ensures SpecialMain(main, lens, Some(l), a) == Some(Valid(Place(0, WordAt(l.content, a)), Place(1, WordAt(l.content, a + 4))))
  {
    var ws := VectorProgram(Bases(lens), run);
    RunSums(Bases(lens)[0], Bases(lens)[1], 0, 0, run, k, ws, a);
    PreparedMain(main, lens, l, a, 0, 1);
  }

  /** Some section contains the word. */
  predicate InSome(bases: seq<word>, lens: seq<word>, w: word) {
    exists s | 0 <= s < |lens| :: Inside(bases, lens, s, w)
  }

  lemma ResolvesIffInSome(bases: seq<word>, lens: seq<word>, w: word)
    ensures Resolve(bases, lens, 0, w).Place? <==> InSome(bases, lens, w)
  {
    ResolveIsFirst(bases, lens, 0, w);
  }

  /** The report is a valid vector and both its words point into sections. */
  predicate PointsIntoSections(r: Option<VectorStatus>) {
    r.Some? && r.value.Valid? && r.value.entry.Place? && r.value.toc.Place?
  }

  /** A word as it is after the writes, if they hit it exactly or not at all. */
  function Relocated(c: seq<byte>, ws: seq<Write>, a: nat): word
    requires a + 4 <= |c|
  {
    Low32(WordAt(c, a) + SumAt(ws, a))
  }

  /** A multiple of four inside some section. */
  predicate Pointer(w: word, lens: seq<word>) { w % 4 == 0 && InSome(Bases(lens), lens, w) }

  /** Synthetic bases leave the lowest addresses free. */
  lemma InsideIsNotZero(lens: seq<word>, w: word)
    requires Start(lens, |lens|) <= 0x1_0000_0000 && InSome(Bases(lens), lens, w)
    ensures w != 0
  {
    SyntheticBasesApart(lens);
    var s :| 0 <= s < |lens| && Inside(Bases(lens), lens, s, w);
    assert lens[s] > 0;
  }

  /** The word found at `a`, and what the analysis asks of it. */
  lemma RelocatedWord(c: seq<byte>, ws: seq<Write>, a: nat, lens: seq<word>) returns (w: word)
    requires Start(lens, |lens|) <= 0x1_0000_0000 && a + 4 <= |c| && Hits(ws, a)
    ensures w == WordAt(ApplyAll(c, ws), a) && w == Relocated(c, ws, a)
    ensures w != 0 && w % 4 == 0 && Resolve(Bases(lens), lens, 0, w).Place? <==> Pointer(w, lens)
  {
    Additive(c, ws, a);
    w := Relocated(c, ws, a);
    ResolvesIffInSome(Bases(lens), lens, w);
    if InSome(Bases(lens), lens, w) { InsideIsNotZero(lens, w); }
  }

  lemma AnalyzePoints(c: seq<byte>, complete: bool, a: nat, bases: seq<word>, lens: seq<word>)
    requires a + 8 <= |c|
    ensures var w0, w1 := WordAt(c, a), WordAt(c, a + 4);
      PointsIntoSections(Some(Analyze(c, complete, a, bases, lens))) <==>
        && complete && (w0 != 0 && w0 % 4 == 0 && Resolve(bases, lens, 0, w0).Place?)
        && (w1 != 0 && w1 % 4 == 0 && Resolve(bases, lens, 0, w1).Place?)
  {
  }

  lemma AnalyzeIff(c: seq<byte>, ws: seq<Write>, complete: bool, a: nat, lens: seq<word>)
    requires Start(lens, |lens|) <= 0x1_0000_0000 && Hits(ws, a) && Hits(ws, a + 4) && a + 8 <= |c|
    ensures PointsIntoSections(Some(Analyze(ApplyAll(c, ws), complete, a, Bases(lens), lens))) <==>
      complete && Pointer(Relocated(c, ws, a), lens) && Pointer(Relocated(c, ws, a + 4), lens)
  {
    var w0 := RelocatedWord(c, ws, a, lens);
    var w1 := RelocatedWord(c, ws, a + 4, lens);
    AnalyzePoints(ApplyAll(c, ws), complete, a, Bases(lens), lens);
  }

  lemma SpecialMainIs(main: nat, lens: seq<word>, l: Loaded, a: nat, t: Result)
    requires main < |lens| && t == Replay(l, Bases(lens))
    ensures SpecialMain(main, lens, Some(l), a)
         == Some(Analyze(ApplyAll(l.content, t.writes), l.decoded && t.complete, a, Bases(lens), lens))
    ensures a + 8 > |l.content| ==> !PointsIntoSections(SpecialMain(main, lens, Some(l), a))
  {
  }

  /** Exactly when a report of a valid vector points into sections: decoding and replay were complete, and each
      word, with what the program adds to it, is a multiple of four inside some section. */
  lemma ValidSomewhereIff(main: nat, lens: seq<word>, l: Loaded, a: nat, t: Result)
    requires main < |lens| && Start(lens, |lens|) <= 0x1_0000_0000
    requires t == Replay(l, Bases(lens)) && Hits(t.writes, a) && Hits(t.writes, a + 4)
    ensures PointsIntoSections(SpecialMain(main, lens, Some(l), a)) <==>
      && a + 8 <= |l.content| && l.decoded && t.complete
      && Pointer(Relocated(l.content, t.writes, a), lens) && Pointer(Relocated(l.content, t.writes, a + 4), lens)
  {
    SpecialMainIs(main, lens, l, a, t);
    if a + 8 <= |l.content| { AnalyzeIff(l.content, t.writes, l.decoded && t.complete, a, lens); }
  }

  /** The smallest report of a valid vector that points nowhere: two words below the first base. */
  lemma ValidNowhere()
    ensures SpecialMain(0, [16], Some(Loaded([0, 0, 0, 4, 0, 0, 0, 8], true, [])), 0)
         == Some(Valid(Nowhere(4), Nowhere(8)))
  {
    var lens: seq<word> := [16];
    BasesAt(lens, 1, 0);
    assert BaseOf(Bases(lens), 0) == BASE0;
  }
}
