/** The relocation simulator: a program of 16-bit chunks determines a list of additive word writes. */
module Reloc {
  import opened Words

  type chunk = c: int | 0 <= c < 0x1_0000

  datatype Write = Write(addr: nat, val: word)
  datatype Fixup = Fixup(offset: nat, symbol: nat)

  /** The relocation registers. */
  datatype Machine = Machine(addr: nat, sectC: word, sectD: word, imp: nat)

  // ---- words in the content -----------------------------------------------------------------

  /** The big-endian word at `a`. */
  function WordAt(c: seq<byte>, a: nat): (w: word)
    requires a + 4 <= |c|
  {
    var b0: int, b1: int, b2: int, b3: int := c[a], c[a + 1], c[a + 2], c[a + 3];
    b0 * 0x100_0000 + b1 * 0x1_0000 + b2 * 0x100 + b3
  }

  function BytesOf(w: word): (b: seq<byte>)
    ensures |b| == 4
  {
    var x: int := w;
    var b0: int, b1: int, b2: int, b3: int := x / 0x100_0000, (x / 0x1_0000) % 0x100, (x / 0x100) % 0x100, x % 0x100;
    [b0, b1, b2, b3]
  }

  function PutWord(c: seq<byte>, a: nat, w: word): (r: seq<byte>)
    requires a + 4 <= |c|
    ensures |r| == |c|
  {
    var b: seq<byte> := BytesOf(w);
    c[a := b[0]][a + 1 := b[1]][a + 2 := b[2]][a + 3 := b[3]]
  }

  /** A wrapping add; a word that is not wholly inside the content is left alone. */
  function AddWord(c: seq<byte>, w: Write): (r: seq<byte>)
    ensures |r| == |c|
  {
    if w.addr + 4 <= |c| then PutWord(c, w.addr, Wrap(WordAt(c, w.addr) + w.val)) else c
  }

  function ApplyAll(c: seq<byte>, ws: seq<Write>): (r: seq<byte>)
    ensures |r| == |c|
    decreases |ws|
  {
    if ws == [] then c else ApplyAll(AddWord(c, ws[0]), ws[1..])
  }

  // ---- what the chunks say ---------------------------------------------------------------------

  function BaseOf(bases: seq<word>, idx: nat): word {
    if idx < |bases| then bases[idx] else 0
  }

  function ChunkAt(chunks: seq<chunk>, i: nat): chunk {
    if i < |chunks| then chunks[i] else 0
  }

  /** `n` times: one word, then a gap. */
  function OneRun(v: word, gap: nat, addr: nat, n: nat): seq<Write>
    decreases n
  {
    if n == 0 then [] else [Write(addr, v)] + OneRun(v, gap, addr + 4 + gap, n - 1)
  }

  /** `n` times: two adjacent words, then a gap. */
  function TwoRun(c: word, d: word, gap: nat, addr: nat, n: nat): seq<Write>
    decreases n
  {
    if n == 0 then [] else [Write(addr, c), Write(addr + 4, d)] + TwoRun(c, d, gap, addr + 8 + gap, n - 1)
  }

  function ImportRun(addr: nat, imp: nat, n: nat): seq<Fixup>
    decreases n
  {
    if n == 0 then [] else [Fixup(addr, imp)] + ImportRun(addr + 4, imp + 1, n - 1)
  }

  datatype Effect = Effect(writes: seq<Write>, fixups: seq<Fixup>, m: Machine)

  function BySectDWithSkip(v: chunk, m: Machine): Effect {
    var addr, n := m.addr + (v / 64 % 256) * 4, v % 64;
    Effect(OneRun(m.sectD, 0, addr, n), [], m.(addr := addr + 4 * n))
  }

  /** Sub-opcodes above 5 are noted and otherwise ignored. */
  function ValueGroup(v: chunk, m: Machine): Effect {
    var run := v % 512 + 1;
    match v / 512 % 16
    case 0 => Effect(OneRun(m.sectC, 0, m.addr, run), [], m.(addr := m.addr + 4 * run))
    case 1 => Effect(OneRun(m.sectD, 0, m.addr, run), [], m.(addr := m.addr + 4 * run))
    case 2 => Effect(TwoRun(m.sectC, m.sectD, 4, m.addr, run), [], m.(addr := m.addr + 12 * run))
    case 3 => Effect(TwoRun(m.sectC, m.sectD, 0, m.addr, run), [], m.(addr := m.addr + 8 * run))
    case 4 => Effect(OneRun(m.sectD, 4, m.addr, run), [], m.(addr := m.addr + 8 * run))
    case 5 => Effect([], ImportRun(m.addr, m.imp, run), m.(addr := m.addr + 4 * run, imp := m.imp + run))
    case _ => Effect([], [], m)
  }

  function ByImport(idx: nat, m: Machine): Effect {
    Effect([], [Fixup(m.addr, idx)], m.(addr := m.addr + 4, imp := idx + 1))
  }

  function BySection(base: word, m: Machine): Effect {
    Effect([Write(m.addr, base)], [], m.(addr := m.addr + 4))
  }

  function IndexGroup(v: chunk, m: Machine, bases: seq<word>): Effect {
    var idx := v % 512;
    match v / 512 % 16
    case 0 => ByImport(idx, m)
    case 1 => Effect([], [], m.(sectC := BaseOf(bases, idx)))
    case 2 => Effect([], [], m.(sectD := BaseOf(bases, idx)))
    case 3 => BySection(BaseOf(bases, idx), m)
    case _ => Effect([], [], m)
  }

  function SetOrBySection(sub: nat, idx: nat, m: Machine, bases: seq<word>): Effect {
    match sub
    case 0 => BySection(BaseOf(bases, idx), m)
    case 1 => Effect([], [], m.(sectC := BaseOf(bases, idx)))
    case 2 => Effect([], [], m.(sectD := BaseOf(bases, idx)))
    case _ => Effect([], [], m)
  }

  /** The kinds of chunk, by their high bits. */
  datatype Kind = Skip | Values | Index | Advance | SmallRepeat | LargeImport | SetPosition | LargeRepeat | LargeSection | Undefined

  function KindOf(v: chunk): Kind {
    if v / 0x4000 == 0 then Skip
    else if v / 0x2000 == 2 then Values
    else if v / 0x2000 == 3 then Index
    else if v / 0x1000 == 8 then Advance
    else if v / 0x1000 == 9 then SmallRepeat
    else if v / 0x400 == 0x29 then LargeImport
    else if v / 0x400 == 0x28 then SetPosition
    else if v / 0x400 == 0x2c then LargeRepeat
    else if v / 0x400 == 0x2d then LargeSection
    else Undefined
  }

  /** Chunks taken by the instruction; the second one may be missing. */
  function Width(k: Kind): nat {
    if k in {LargeImport, SetPosition, LargeRepeat, LargeSection} then 2 else 1
  }

  /** Repeats are not replayed and unknown opcodes not applied: the replay is then partial. */
  predicate Replayed(k: Kind) {
    k !in {SmallRepeat, LargeRepeat, Undefined}
  }

  function Execute(v: chunk, next: chunk, m: Machine, bases: seq<word>): Effect {
    match KindOf(v)
    case Skip => BySectDWithSkip(v, m)
    case Values => ValueGroup(v, m)
    case Index => IndexGroup(v, m, bases)
    case Advance => Effect([], [], m.(addr := m.addr + v % 0x1000 + 1))
    case LargeImport => ByImport(v % 0x400 * 0x1_0000 + next, m)
    case SetPosition => Effect([], [], m.(addr := v % 0x400 * 0x1_0000 + next))
    case LargeSection => SetOrBySection(v / 64 % 16, v % 64 * 0x1_0000 + next, m, bases)
    case _ => Effect([], [], m)
  }

  // ---- the notes ---------------------------------------------------------------------------------

  /** What the replay reports beside its result. */
  datatype Note = Beyond(addr: nat) | BadSection(idx: nat) | Unsupported(v: chunk) | NotReplayed(v: chunk) | Unknown(v: chunk)

  /** One note for each write that does not lie wholly inside the content. */
  function WriteNotes(ws: seq<Write>, len: nat): seq<Note>
    decreases |ws|
  {
    if ws == [] then [] else (if ws[0].addr + 4 <= len then [] else [Beyond(ws[0].addr)]) + WriteNotes(ws[1..], len)
  }

  /** A base is asked for of a section that does not exist. */
  function BaseNotes(bases: seq<word>, idx: nat): seq<Note> {
    if idx < |bases| then [] else [BadSection(idx)]
  }

  /** The sub-opcode, in the groups that have one, is among those the replay knows. */
  predicate Supported(v: chunk) {
    match KindOf(v)
    case Values => v / 512 % 16 <= 5
    case Index => v / 512 % 16 <= 3
    case LargeSection => v / 64 % 16 <= 2
    case _ => true
  }

  /** The section whose base an instruction asks for. */
  function SectionOf(v: chunk, next: chunk): (idx: Option<nat>) {
    match KindOf(v)
    case Index => if 1 <= v / 512 % 16 <= 3 then Some(v % 512) else None
    case LargeSection => if v / 64 % 16 <= 2 then Some(v % 64 * 0x1_0000 + next) else None
    case _ => None
  }

  /** The notes of one instruction. */
  function NotesOf(v: chunk, next: chunk, m: Machine, bases: seq<word>, len: nat): seq<Note> {
    match KindOf(v)
    case SmallRepeat => [NotReplayed(v)]
    case LargeRepeat => [NotReplayed(v)]
    case Undefined => [Unknown(v)]
    case _ =>
      if !Supported(v) then [Unsupported(v)]
      else
        (match SectionOf(v, next) case Some(idx) => BaseNotes(bases, idx) case None => [])
        + WriteNotes(Execute(v, next, m, bases).writes, len)
  }

  /** The notes of a program, for a content of `len` bytes. */
  function TraceNotes(chunks: seq<chunk>, i: nat, m: Machine, bases: seq<word>, len: nat): seq<Note>
    decreases |chunks| - i
  {
    if i >= |chunks| then []
    else
      var v, next := chunks[i], ChunkAt(chunks, i + 1);
      NotesOf(v, next, m, bases, len) + TraceNotes(chunks, i + Width(KindOf(v)), Execute(v, next, m, bases).m, bases, len)
  }

  datatype Result = Result(writes: seq<Write>, fixups: seq<Fixup>, complete: bool)

  /** Everything a program does, which is a matter of the chunks and the bases alone. */
  function Trace(chunks: seq<chunk>, i: nat, m: Machine, bases: seq<word>): Result
    decreases |chunks| - i
  {
    if i >= |chunks| then Result([], [], i == |chunks|)
    else
      var k := KindOf(chunks[i]);
      var e := Execute(chunks[i], ChunkAt(chunks, i + 1), m, bases);
      var rest := Trace(chunks, i + Width(k), e.m, bases);
      Result(e.writes + rest.writes, e.fixups + rest.fixups, Replayed(k) && rest.complete)
  }

  function Initial(bases: seq<word>): Machine {
    Machine(0, BaseOf(bases, 0), BaseOf(bases, 1), 0)
  }

  // ---- laws of additive application -----------------------------------------------------------

  lemma {:induction false} ApplyAppend(c: seq<byte>, xs: seq<Write>, ys: seq<Write>)
    ensures ApplyAll(c, xs + ys) == ApplyAll(ApplyAll(c, xs), ys)
    decreases |xs|
  {
    if xs == [] {
      assert xs + ys == ys;
    } else {
      assert (xs + ys)[1..] == xs[1..] + ys;
      ApplyAppend(AddWord(c, xs[0]), xs[1..], ys);
    }
  }

  /** `w` touches no byte of [a, a + n). */
  predicate Clear(w: Write, a: nat, n: nat) {
    w.addr + 4 <= a || a + n <= w.addr
  }

  /** Bytes outside every write keep their values. */
  lemma {:induction false} UntouchedByte(c: seq<byte>, ws: seq<Write>, k: nat)
    requires k < |c| && forall w <- ws :: Clear(w, k, 1)
    ensures ApplyAll(c, ws)[k] == c[k]
    decreases |ws|
  {
    if ws != [] {
      assert Clear(ws[0], k, 1);
      UntouchedByte(AddWord(c, ws[0]), ws[1..], k);
    }
  }

  /** Every write hits the word at `a` exactly or not at all. */
  predicate Hits(ws: seq<Write>, a: nat) {
    forall k | 0 <= k < |ws| :: ws[k].addr == a || Clear(ws[k], a, 4)
  }

  /** What the program adds to the word at `a`. */
  function SumAt(ws: seq<Write>, a: nat): (s: nat)
    decreases |ws|
  {
    if ws == [] then 0 else (if ws[0].addr == a then ws[0].val else 0) + SumAt(ws[1..], a)
  }

  lemma PutThenRead(c: seq<byte>, a: nat, w: word)
    requires a + 4 <= |c|
    ensures WordAt(PutWord(c, a, w), a) == w
  {
    var c1, b := PutWord(c, a, w), BytesOf(w);
    assert c1[a] == b[0] && c1[a + 1] == b[1] && c1[a + 2] == b[2] && c1[a + 3] == b[3];
    Digits256(w);
  }

  /** A word is the number its four digits spell. */
  lemma Digits256(x: nat)
    ensures x / 0x100_0000 * 0x100_0000 + (x / 0x1_0000) % 0x100 * 0x1_0000 + (x / 0x100) % 0x100 * 0x100 + x % 0x100 == x
  {
    assert x / 0x1_0000 / 0x100 == x / 0x100_0000 && x / 0x100 / 0x100 == x / 0x1_0000;
  }

  lemma PutElsewhere(c: seq<byte>, b: nat, w: word, a: nat)
    requires b + 4 <= |c| && a + 4 <= |c| && (b + 4 <= a || a + 4 <= b)
    ensures WordAt(PutWord(c, b, w), a) == WordAt(c, a)
  {
  }

  /** Sums modulo 2^32 may be taken one write at a time. */
  lemma WrapSum(x: word, v: word, s: nat)
    ensures Low32(Wrap(x + v) + s) == Low32(x + (v + s))
  {
  }

  lemma HitsTail(ws: seq<Write>, a: nat)
    requires ws != [] && Hits(ws, a)
    ensures (ws[0].addr == a || Clear(ws[0], a, 4)) && Hits(ws[1..], a)
  {
  }

  /** One write, seen at the word at `a`. */
  lemma AddOne(c: seq<byte>, w: Write, a: nat)
    requires a + 4 <= |c| && (w.addr == a || Clear(w, a, 4))
    ensures WordAt(AddWord(c, w), a) == if w.addr == a then Wrap(WordAt(c, a) + w.val) else WordAt(c, a)
  {
    if w.addr == a {
      PutThenRead(c, a, Wrap(WordAt(c, a) + w.val));
    } else if w.addr + 4 <= |c| {
      PutElsewhere(c, w.addr, Wrap(WordAt(c, w.addr) + w.val), a);
    }
  }

  /** Writes are additive: a word that every write hits exactly or not at all ends as its first value
      plus everything added to it, whatever the order. */
  lemma {:induction false} Additive(c: seq<byte>, ws: seq<Write>, a: nat)
    requires a + 4 <= |c| && Hits(ws, a)
    ensures WordAt(ApplyAll(c, ws), a) == Low32(WordAt(c, a) + SumAt(ws, a))
    decreases |ws|
  {
    if ws != [] {
      HitsTail(ws, a);
      AddOne(c, ws[0], a);
      Additive(AddWord(c, ws[0]), ws[1..], a);
      WrapSum(WordAt(c, a), ws[0].val, SumAt(ws[1..], a));
    }
  }

  // ---- what a run hits --------------------------------------------------------------------------

  /** The address of turn `k` of a run whose turns are `step` bytes apart. */
  function TurnAt(addr: nat, step: nat, k: nat): (a: nat)
    ensures a >= addr
    decreases k
  {
    if k == 0 then addr else TurnAt(addr + step, step, k - 1)
  }

  predicate AllFrom(ws: seq<Write>, addr: nat) {
    forall k | 0 <= k < |ws| :: ws[k].addr >= addr
  }

  lemma {:induction false} SumBelow(ws: seq<Write>, a: nat, addr: nat)
    requires AllFrom(ws, addr) && a + 4 <= addr
    ensures SumAt(ws, a) == 0 && Hits(ws, a)
    decreases |ws|
  {
    if ws != [] { SumBelow(ws[1..], a, addr); }
  }

  lemma {:induction false} OneRunFrom(v: word, gap: nat, addr: nat, n: nat)
    ensures AllFrom(OneRun(v, gap, addr, n), addr)
    decreases n
  {
    if n > 0 { OneRunFrom(v, gap, addr + 4 + gap, n - 1); }
  }

  lemma {:induction false} TwoRunFrom(c: word, d: word, gap: nat, addr: nat, n: nat)
    ensures AllFrom(TwoRun(c, d, gap, addr, n), addr)
    decreases n
  {
    if n > 0 { TwoRunFrom(c, d, gap, addr + 8 + gap, n - 1); }
  }

  lemma SumCons(w: Write, ws: seq<Write>, a: nat)
    ensures SumAt([w] + ws, a) == (if w.addr == a then w.val else 0) + SumAt(ws, a)
    ensures Hits(ws, a) && (w.addr == a || Clear(w, a, 4)) ==> Hits([w] + ws, a)
  {
    assert ([w] + ws)[1..] == ws;
  }

  /** A one-word run adds its value exactly once to the word of each turn. */
  lemma {:induction false} OneRunHits(v: word, gap: nat, addr: nat, n: nat, k: nat)
    requires k < n
    ensures var ws, a := OneRun(v, gap, addr, n), TurnAt(addr, 4 + gap, k);
      SumAt(ws, a) == v as int && Hits(ws, a)
    decreases n
  {
    var rest, a := OneRun(v, gap, addr + 4 + gap, n - 1), TurnAt(addr, 4 + gap, k);
    SumCons(Write(addr, v), rest, a);
    if k == 0 {
      OneRunFrom(v, gap, addr + 4 + gap, n - 1);
      SumBelow(rest, a, addr + 4 + gap);
    } else {
      OneRunHits(v, gap, addr + 4 + gap, n - 1, k - 1);
    }
  }

  lemma TwoRunTurn(c: word, d: word, gap: nat, addr: nat, n: nat, rest: seq<Write>, a: nat)
    requires n > 0 && rest == TwoRun(c, d, gap, addr + 8 + gap, n - 1) && Hits(rest, a)
    requires (a == addr || a + 4 <= addr || addr + 4 <= a) && (a == addr + 4 || a <= addr || addr + 8 <= a)
    ensures Hits(TwoRun(c, d, gap, addr, n), a)
    ensures SumAt(TwoRun(c, d, gap, addr, n), a)
         == (if a == addr then c as int else 0) + (if a == addr + 4 then d as int else 0) + SumAt(rest, a)
  {
    var tail := [Write(addr + 4, d)] + rest;
    assert TwoRun(c, d, gap, addr, n) == [Write(addr, c)] + tail;
    SumCons(Write(addr + 4, d), rest, a);
    SumCons(Write(addr, c), tail, a);
  }

  /** A two-word run adds one value to the first word of each turn and the other to the second. */
  lemma {:induction false} TwoRunHits(c: word, d: word, gap: nat, addr: nat, n: nat, k: nat)
    requires k < n
    ensures var ws, a := TwoRun(c, d, gap, addr, n), TurnAt(addr, 8 + gap, k);
      SumAt(ws, a) == c as int && Hits(ws, a) && SumAt(ws, a + 4) == d as int && Hits(ws, a + 4)
    decreases n
  {
    if k == 0 {
      FirstTurnHits(c, d, gap, addr, n);
    } else {
      var rest, a := TwoRun(c, d, gap, addr + 8 + gap, n - 1), TurnAt(addr, 8 + gap, k);
      TwoRunHits(c, d, gap, addr + 8 + gap, n - 1, k - 1);
      TwoRunTurn(c, d, gap, addr, n, rest, a);
      TwoRunTurn(c, d, gap, addr, n, rest, a + 4);
    }
  }

  lemma FirstTurnHits(c: word, d: word, gap: nat, addr: nat, n: nat)
    requires n > 0
    ensures var ws := TwoRun(c, d, gap, addr, n);
      SumAt(ws, addr) == c as int && Hits(ws, addr) && SumAt(ws, addr + 4) == d as int && Hits(ws, addr + 4)
  {
    var rest := TwoRun(c, d, gap, addr + 8 + gap, n - 1);
    TwoRunFrom(c, d, gap, addr + 8 + gap, n - 1);
    SumBelow(rest, addr, addr + 8 + gap);
    SumBelow(rest, addr + 4, addr + 8 + gap);
    TwoRunTurn(c, d, gap, addr, n, rest, addr);
    TwoRunTurn(c, d, gap, addr, n, rest, addr + 4);
  }

  // ---- what the completeness flag means ----------------------------------------------------------

  /** From chunk `i` on every instruction is whole, replayed and supported, and the last one ends the program. */
  predicate Applied(chunks: seq<chunk>, i: nat)
    decreases |chunks| - i
  {
    i == |chunks|
    || (i < |chunks| && Replayed(KindOf(chunks[i])) && Supported(chunks[i]) && Applied(chunks, i + Width(KindOf(chunks[i]))))
  }

  /** Some instruction reached from chunk `i` on has an unsupported sub-opcode. */
  predicate Skipped(chunks: seq<chunk>, i: nat)
    decreases |chunks| - i
  {
    i < |chunks| && (!Supported(chunks[i]) || Skipped(chunks, i + Width(KindOf(chunks[i]))))
  }

  /** Every instruction was applied exactly if the replay calls itself complete and no sub-opcode was unsupported. */
  lemma {:induction false} CompleteMeansApplied(chunks: seq<chunk>, i: nat, m: Machine, bases: seq<word>)
    ensures Applied(chunks, i) <==> Trace(chunks, i, m, bases).complete && !Skipped(chunks, i)
    decreases |chunks| - i
  {
    if i < |chunks| {
      var k, e := KindOf(chunks[i]), Execute(chunks[i], ChunkAt(chunks, i + 1), m, bases);
      CompleteMeansApplied(chunks, i + Width(k), e.m, bases);
    }
  }

  /** Every write lies inside the content. */
  predicate WritesInside(ws: seq<Write>, len: nat) { forall k | 0 <= k < |ws| :: ws[k].addr + 4 <= len }

  lemma {:induction false} NoWriteNotes(ws: seq<Write>, len: nat)
    ensures WriteNotes(ws, len) == [] <==> WritesInside(ws, len)
    decreases |ws|
  {
    if ws != [] {
      NoWriteNotes(ws[1..], len);
      if WritesInside(ws[1..], len) && ws[0].addr + 4 <= len {
        assert forall k | 0 < k < |ws| :: ws[k] == ws[1..][k - 1];
      }
      if WritesInside(ws, len) {
        assert forall k | 0 <= k < |ws[1..]| :: ws[1..][k] == ws[k + 1];
      }
    }
  }

  /** The instruction is carried out in full: replayed, supported, its section exists, its writes lie inside. */
  predicate CarriedOut(v: chunk, next: chunk, m: Machine, bases: seq<word>, len: nat) {
    && Replayed(KindOf(v)) && Supported(v) && WritesInside(Execute(v, next, m, bases).writes, len)
    && (SectionOf(v, next).Some? ==> SectionOf(v, next).value < |bases|)
  }

  lemma NoNotes(v: chunk, next: chunk, m: Machine, bases: seq<word>, len: nat)
    ensures NotesOf(v, next, m, bases, len) == [] <==> CarriedOut(v, next, m, bases, len)
  {
    NoWriteNotes(Execute(v, next, m, bases).writes, len);
  }

  /** From chunk `i` on every instruction is whole and carried out in full, and the last one ends the program. */
  predicate Faithful(chunks: seq<chunk>, i: nat, m: Machine, bases: seq<word>, len: nat)
    decreases |chunks| - i
  {
    i == |chunks|
    || (i < |chunks|
        && var v, next := chunks[i], ChunkAt(chunks, i + 1);
        && CarriedOut(v, next, m, bases, len)
        && Faithful(chunks, i + Width(KindOf(v)), Execute(v, next, m, bases).m, bases, len))
  }

  /** The flag and the notes together tell the truth: a replay that calls itself complete and has nothing to note
      has carried out every instruction in full, and only such a replay. */
  lemma {:induction false} SilenceMeansFaithful(chunks: seq<chunk>, i: nat, m: Machine, bases: seq<word>, len: nat)
    ensures Faithful(chunks, i, m, bases, len) <==> Trace(chunks, i, m, bases).complete && TraceNotes(chunks, i, m, bases, len) == []
    decreases |chunks| - i
  {
    if i < |chunks| {
      var v, next := chunks[i], ChunkAt(chunks, i + 1);
      NoNotes(v, next, m, bases, len);
      SilenceMeansFaithful(chunks, i + Width(KindOf(v)), Execute(v, next, m, bases).m, bases, len);
    }
  }

  /** An unsupported sub-opcode does nothing: no write, no fixup, no register. */
  lemma SkippedDoesNothing(v: chunk, next: chunk, m: Machine, bases: seq<word>)
    requires !Supported(v)
    ensures Execute(v, next, m, bases) == Effect([], [], m)
  {
  }

  /** The smallest such program. */
  lemma UnsupportedStaysComplete(bases: seq<word>)
    ensures Trace([0x4c00], 0, Initial(bases), bases) == Result([], [], true) && !Applied([0x4c00], 0)
  {
    var m := Initial(bases);
    assert Trace([0x4c00], 1, m, bases) == Result([], [], true);
    assert KindOf(0x4c00) == Values && ValueGroup(0x4c00, m) == Effect([], [], m);
  }
}
