/** What the single instructions do to the words of a section, opcode by opcode. */
module RelocWords {
  import opened Words
  import opened Reloc

  /** The instruction at `i` makes these writes and fixups, and the program goes on at `j` with the registers `n`. */
  predicate Does(chunks: seq<chunk>, i: nat, m: Machine, bases: seq<word>, ws: seq<Write>, fs: seq<Fixup>, j: nat, n: Machine) {
    var t, rest := Trace(chunks, i, m, bases), Trace(chunks, j, n, bases);
    t.writes == ws + rest.writes && t.fixups == fs + rest.fixups && t.complete == rest.complete
  }

  /** The section base with this number, 0 if there is no such section. */
  function Nth(bases: seq<word>, s: nat): word { if s < |bases| then bases[s] else 0 }

  // ---- runs, word by word -----------------------------------------------------------------------

  /** `n` words, `step` bytes apart, that are each to be raised by `v`. */
  predicate Spaced(ws: seq<Write>, addr: nat, step: nat, v: word, n: nat) {
    |ws| == n && forall k | 0 <= k < n :: ws[k] == Write(Turn(addr, step, k), v)
  }

  /** `n` pairs of adjacent words, `step` bytes apart. */
  predicate Paired(ws: seq<Write>, addr: nat, step: nat, c: word, d: word, n: nat) {
    |ws| == 2 * n && forall j | 0 <= j < |ws| :: ws[j] == HalfOf(addr, step, c, d, j)
  }

  /** Write `j` of a run of pairs: first and second half by turns. */
  function HalfOf(addr: nat, step: nat, c: word, d: word, j: nat): Write {
    if j % 2 == 0 then Write(Turn(addr, step, j / 2), c) else Write(Turn(addr, step, j / 2) + 4, d)
  }

  function Turn(addr: nat, step: nat, k: nat): nat { addr + k * step }

  predicate Numbered(fs: seq<Fixup>, addr: nat, first: nat, n: nat) {
    |fs| == n && forall k | 0 <= k < n :: fs[k] == Fixup(addr + 4 * k, first + k)
  }

  lemma OneStep(k: nat, step: nat)
    requires k > 0
    ensures step + (k - 1) * step == k * step
  {
  }

  lemma {:induction false} OneRunSpaced(v: word, gap: nat, addr: nat, n: nat)
    ensures Spaced(OneRun(v, gap, addr, n), addr, 4 + gap, v, n)
    decreases n
  {
    if n > 0 {
      OneRunSpaced(v, gap, addr + 4 + gap, n - 1);
      var ws, rest := OneRun(v, gap, addr, n), OneRun(v, gap, addr + 4 + gap, n - 1);
      forall k | 0 <= k < n ensures ws[k] == Write(Turn(addr, 4 + gap, k), v) {
        if k > 0 { assert ws[k] == rest[k - 1]; OneStep(k, 4 + gap); }
      }
    }
  }

  lemma {:induction false} TwoRunPaired(c: word, d: word, gap: nat, addr: nat, n: nat)
    ensures Paired(TwoRun(c, d, gap, addr, n), addr, 8 + gap, c, d, n)
    decreases n
  {
    if n > 0 {
      TwoRunPaired(c, d, gap, addr + 8 + gap, n - 1);
      var ws, rest := TwoRun(c, d, gap, addr, n), TwoRun(c, d, gap, addr + 8 + gap, n - 1);
      forall j | 0 <= j < 2 * n ensures ws[j] == HalfOf(addr, 8 + gap, c, d, j) {
        if j >= 2 {
          assert ws[j] == rest[j - 2] == HalfOf(addr + 8 + gap, 8 + gap, c, d, j - 2);
          OneStep(j / 2, 8 + gap);
        }
      }
    }
  }

  lemma {:induction false} ImportsNumbered(addr: nat, first: nat, n: nat)
    ensures Numbered(ImportRun(addr, first, n), addr, first, n)
    decreases n
  {
    if n > 0 {
      ImportsNumbered(addr + 4, first + 1, n - 1);
      var fs, rest := ImportRun(addr, first, n), ImportRun(addr + 4, first + 1, n - 1);
      assert forall k | 0 < k < n :: fs[k] == rest[k - 1];
    }
  }

  // ---- the opcodes, wherever they stand in a program ----------------------------------------------------

  lemma Step(chunks: seq<chunk>, i: nat, m: Machine, bases: seq<word>, e: Effect)
    requires i < |chunks| && Replayed(KindOf(chunks[i])) && e == Execute(chunks[i], ChunkAt(chunks, i + 1), m, bases)
    ensures Does(chunks, i, m, bases, e.writes, e.fixups, i + Width(KindOf(chunks[i])), e.m)
  {
  }

  lemma Opcode(v: chunk, sub: nat, r: nat)
    requires sub < 16 && r < 512
    ensures v == 0x4000 + 512 * sub + r ==> KindOf(v) == Values && v / 512 % 16 == sub && v % 512 == r
    ensures v == 0x6000 + 512 * sub + r ==> KindOf(v) == Index && v / 512 % 16 == sub && v % 512 == r
  {
  }

  lemma CodeRun(chunks: seq<chunk>, i: nat, m: Machine, bases: seq<word>, r: nat) returns (ws: seq<Write>)
    requires i < |chunks| && r < 512 && chunks[i] == 0x4000 + r
    ensures Spaced(ws, m.addr, 4, m.sectC, r + 1)
    ensures Does(chunks, i, m, bases, ws, [], i + 1, m.(addr := m.addr + 4 * (r + 1)))
  {
    Opcode(chunks[i], 0, r);
    OneRunSpaced(m.sectC, 0, m.addr, r + 1);
    ws := OneRun(m.sectC, 0, m.addr, r + 1);
    Step(chunks, i, m, bases, Effect(ws, [], m.(addr := m.addr + 4 * (r + 1))));
  }

  lemma DataRun(chunks: seq<chunk>, i: nat, m: Machine, bases: seq<word>, r: nat) returns (ws: seq<Write>)
    requires i < |chunks| && r < 512 && chunks[i] == 0x4200 + r
    ensures Spaced(ws, m.addr, 4, m.sectD, r + 1)
    ensures Does(chunks, i, m, bases, ws, [], i + 1, m.(addr := m.addr + 4 * (r + 1)))
  {
    Opcode(chunks[i], 1, r);
    OneRunSpaced(m.sectD, 0, m.addr, r + 1);
    ws := OneRun(m.sectD, 0, m.addr, r + 1);
    Step(chunks, i, m, bases, Effect(ws, [], m.(addr := m.addr + 4 * (r + 1))));
  }

  lemma Vectors12(chunks: seq<chunk>, i: nat, m: Machine, bases: seq<word>, r: nat) returns (ws: seq<Write>)
    requires i < |chunks| && r < 512 && chunks[i] == 0x4400 + r
    ensures Paired(ws, m.addr, 12, m.sectC, m.sectD, r + 1)
    ensures Does(chunks, i, m, bases, ws, [], i + 1, m.(addr := m.addr + 12 * (r + 1)))
  {
    Opcode(chunks[i], 2, r);
    TwoRunPaired(m.sectC, m.sectD, 4, m.addr, r + 1);
    ws := TwoRun(m.sectC, m.sectD, 4, m.addr, r + 1);
    Step(chunks, i, m, bases, Effect(ws, [], m.(addr := m.addr + 12 * (r + 1))));
  }

  lemma Vectors8(chunks: seq<chunk>, i: nat, m: Machine, bases: seq<word>, r: nat) returns (ws: seq<Write>)
    requires i < |chunks| && r < 512 && chunks[i] == 0x4600 + r
    ensures Paired(ws, m.addr, 8, m.sectC, m.sectD, r + 1)
    ensures Does(chunks, i, m, bases, ws, [], i + 1, m.(addr := m.addr + 8 * (r + 1)))
  {
    Opcode(chunks[i], 3, r);
    TwoRunPaired(m.sectC, m.sectD, 0, m.addr, r + 1);
    ws := TwoRun(m.sectC, m.sectD, 0, m.addr, r + 1);
    Step(chunks, i, m, bases, Effect(ws, [], m.(addr := m.addr + 8 * (r + 1))));
  }

  lemma Tables8(chunks: seq<chunk>, i: nat, m: Machine, bases: seq<word>, r: nat) returns (ws: seq<Write>)
    requires i < |chunks| && r < 512 && chunks[i] == 0x4800 + r
    ensures Spaced(ws, m.addr, 8, m.sectD, r + 1)
    ensures Does(chunks, i, m, bases, ws, [], i + 1, m.(addr := m.addr + 8 * (r + 1)))
  {
    Opcode(chunks[i], 4, r);
    OneRunSpaced(m.sectD, 4, m.addr, r + 1);
    ws := OneRun(m.sectD, 4, m.addr, r + 1);
    Step(chunks, i, m, bases, Effect(ws, [], m.(addr := m.addr + 8 * (r + 1))));
  }

  lemma Imports(chunks: seq<chunk>, i: nat, m: Machine, bases: seq<word>, r: nat) returns (fs: seq<Fixup>)
    requires i < |chunks| && r < 512 && chunks[i] == 0x4a00 + r
    ensures Numbered(fs, m.addr, m.imp, r + 1)
    ensures Does(chunks, i, m, bases, [], fs, i + 1, m.(addr := m.addr + 4 * (r + 1), imp := m.imp + (r + 1)))
  {
    Opcode(chunks[i], 5, r);
    ImportsNumbered(m.addr, m.imp, r + 1);
    fs := ImportRun(m.addr, m.imp, r + 1);
    Step(chunks, i, m, bases, Effect([], fs, m.(addr := m.addr + 4 * (r + 1), imp := m.imp + (r + 1))));
  }

  lemma SkipChunk(v: chunk, skip: nat, n: nat)
    requires skip < 256 && n < 64 && v == 64 * skip + n
    ensures KindOf(v) == Skip && v / 64 % 256 == skip && v % 64 == n
  {
  }

  lemma SkipRun(chunks: seq<chunk>, i: nat, m: Machine, bases: seq<word>, skip: nat, n: nat) returns (ws: seq<Write>)
    requires i < |chunks| && skip < 256 && n < 64 && chunks[i] == 64 * skip + n
    ensures Spaced(ws, m.addr + 4 * skip, 4, m.sectD, n)
    ensures Does(chunks, i, m, bases, ws, [], i + 1, m.(addr := m.addr + 4 * skip + 4 * n))
  {
    SkipChunk(chunks[i], skip, n);
    OneRunSpaced(m.sectD, 0, m.addr + 4 * skip, n);
    ws := OneRun(m.sectD, 0, m.addr + 4 * skip, n);
    Step(chunks, i, m, bases, Effect(ws, [], m.(addr := m.addr + 4 * skip + 4 * n)));
  }

  lemma SetCode(chunks: seq<chunk>, i: nat, m: Machine, bases: seq<word>, s: nat)
    requires i < |chunks| && s < 512 && chunks[i] == 0x6200 + s
    ensures Does(chunks, i, m, bases, [], [], i + 1, m.(sectC := Nth(bases, s)))
  {
    Opcode(chunks[i], 1, s);
    Step(chunks, i, m, bases, Effect([], [], m.(sectC := Nth(bases, s))));
  }

  lemma SetData(chunks: seq<chunk>, i: nat, m: Machine, bases: seq<word>, s: nat)
    requires i < |chunks| && s < 512 && chunks[i] == 0x6400 + s
    ensures Does(chunks, i, m, bases, [], [], i + 1, m.(sectD := Nth(bases, s)))
  {
    Opcode(chunks[i], 2, s);
    Step(chunks, i, m, bases, Effect([], [], m.(sectD := Nth(bases, s))));
  }

  lemma SectionWord(chunks: seq<chunk>, i: nat, m: Machine, bases: seq<word>, s: nat)
    requires i < |chunks| && s < 512 && chunks[i] == 0x6600 + s
    ensures Does(chunks, i, m, bases, [Write(m.addr, Nth(bases, s))], [], i + 1, m.(addr := m.addr + 4))
  {
    Opcode(chunks[i], 3, s);
    Step(chunks, i, m, bases, Effect([Write(m.addr, Nth(bases, s))], [], m.(addr := m.addr + 4)));
  }

  lemma Import(chunks: seq<chunk>, i: nat, m: Machine, bases: seq<word>, x: nat)
    requires i < |chunks| && x < 512 && chunks[i] == 0x6000 + x
    ensures Does(chunks, i, m, bases, [], [Fixup(m.addr, x)], i + 1, m.(addr := m.addr + 4, imp := x + 1))
  {
    Opcode(chunks[i], 0, x);
    Step(chunks, i, m, bases, Effect([], [Fixup(m.addr, x)], m.(addr := m.addr + 4, imp := x + 1)));
  }

  lemma Advance(chunks: seq<chunk>, i: nat, m: Machine, bases: seq<word>, d: nat)
    requires i < |chunks| && d < 0x1000 && chunks[i] == 0x8000 + d
    ensures Does(chunks, i, m, bases, [], [], i + 1, m.(addr := m.addr + (d + 1)))
  {
    var v := chunks[i];
    assert v / 0x1000 == 8 && v % 0x1000 == d;
    assert KindOf(v) == Kind.Advance;
    Step(chunks, i, m, bases, Effect([], [], m.(addr := m.addr + (d + 1))));
  }

  /** An instruction of two chunks, with an operand of 26 bits. */
  lemma Operand(v: chunk, group: nat, hi: nat)
    requires 0x28 <= group <= 0x29 && hi < 0x400 && v == 0x400 * group + hi
    ensures KindOf(v) == (if group == 0x28 then SetPosition else Kind.LargeImport) && v % 0x400 == hi
  {
    assert v / 0x400 == group;
  }

  lemma Position(chunks: seq<chunk>, i: nat, m: Machine, bases: seq<word>, hi: nat)
    requires i + 1 < |chunks| && hi < 0x400 && chunks[i] == 0xa000 + hi
    ensures Does(chunks, i, m, bases, [], [], i + 2, m.(addr := 0x1_0000 * hi + chunks[i + 1]))
  {
    Operand(chunks[i], 0x28, hi);
    Step(chunks, i, m, bases, Effect([], [], m.(addr := 0x1_0000 * hi + chunks[i + 1])));
  }

  lemma LargeImport(chunks: seq<chunk>, i: nat, m: Machine, bases: seq<word>, hi: nat)
    requires i + 1 < |chunks| && hi < 0x400 && chunks[i] == 0xa400 + hi
    ensures var x := 0x1_0000 * hi + chunks[i + 1];
      Does(chunks, i, m, bases, [], [Fixup(m.addr, x)], i + 2, m.(addr := m.addr + 4, imp := x + 1))
  {
    var x := 0x1_0000 * hi + chunks[i + 1];
    Operand(chunks[i], 0x29, hi);
    Step(chunks, i, m, bases, Effect([], [Fixup(m.addr, x)], m.(addr := m.addr + 4, imp := x + 1)));
  }

  lemma SectionOperand(v: chunk, sub: nat, hi: nat)
    requires sub < 16 && hi < 64 && v == 0xb400 + 64 * sub + hi
    ensures KindOf(v) == LargeSection && v / 64 % 16 == sub && v % 64 == hi
  {
    assert v / 0x400 == 0x2d && v / 64 == 0x2d0 + sub;
  }

  lemma LargeWord(chunks: seq<chunk>, i: nat, m: Machine, bases: seq<word>, hi: nat)
    requires i + 1 < |chunks| && hi < 64 && chunks[i] == 0xb400 + hi
    ensures var base := Nth(bases, 0x1_0000 * hi + chunks[i + 1]);
      Does(chunks, i, m, bases, [Write(m.addr, base)], [], i + 2, m.(addr := m.addr + 4))
  {
    SectionOperand(chunks[i], 0, hi);
    Step(chunks, i, m, bases, Effect([Write(m.addr, Nth(bases, 0x1_0000 * hi + chunks[i + 1]))], [], m.(addr := m.addr + 4)));
  }

  lemma LargeSetCode(chunks: seq<chunk>, i: nat, m: Machine, bases: seq<word>, hi: nat)
    requires i + 1 < |chunks| && hi < 64 && chunks[i] == 0xb440 + hi
    ensures Does(chunks, i, m, bases, [], [], i + 2, m.(sectC := Nth(bases, 0x1_0000 * hi + chunks[i + 1])))
  {
    SectionOperand(chunks[i], 1, hi);
    Step(chunks, i, m, bases, Effect([], [], m.(sectC := Nth(bases, 0x1_0000 * hi + chunks[i + 1]))));
  }

  lemma LargeSetData(chunks: seq<chunk>, i: nat, m: Machine, bases: seq<word>, hi: nat)
    requires i + 1 < |chunks| && hi < 64 && chunks[i] == 0xb480 + hi
    ensures Does(chunks, i, m, bases, [], [], i + 2, m.(sectD := Nth(bases, 0x1_0000 * hi + chunks[i + 1])))
  {
    SectionOperand(chunks[i], 2, hi);
    Step(chunks, i, m, bases, Effect([], [], m.(sectD := Nth(bases, 0x1_0000 * hi + chunks[i + 1]))));
  }

  /** Unsupported sub-opcodes are passed over, without a word about it in the result. */
  lemma PassedOver(chunks: seq<chunk>, i: nat, m: Machine, bases: seq<word>, sub: nat, r: nat)
    requires i < |chunks| && sub < 16 && r < 512
    requires (chunks[i] == 0x4000 + 512 * sub + r && sub >= 6) || (chunks[i] == 0x6000 + 512 * sub + r && sub >= 4)
    ensures Does(chunks, i, m, bases, [], [], i + 1, m)
  {
    Opcode(chunks[i], sub, r);
    Step(chunks, i, m, bases, Effect([], [], m));
  }

  lemma LargePassedOver(chunks: seq<chunk>, i: nat, m: Machine, bases: seq<word>)
    requires i + 1 < |chunks| && 0xb4c0 <= chunks[i] < 0xb800
    ensures Does(chunks, i, m, bases, [], [], i + 2, m)
  {
    var v := chunks[i];
    SectionOperand(v, (v - 0xb400) / 64, v % 64);
    Step(chunks, i, m, bases, Effect([], [], m));
  }

  /** Repeats and undefined opcodes make the whole replay partial and do nothing else; the large repeat takes two chunks. */
  lemma MakesPartial(chunks: seq<chunk>, i: nat, m: Machine, bases: seq<word>)
    requires i < |chunks| && (0x9000 <= chunks[i] < 0xa000 || 0xa800 <= chunks[i] < 0xb400 || 0xb800 <= chunks[i])
    ensures var t, rest := Trace(chunks, i, m, bases), Trace(chunks, if 0xb000 <= chunks[i] < 0xb400 then i + 2 else i + 1, m, bases);
      t.writes == rest.writes && t.fixups == rest.fixups && !t.complete
  {
    var v := chunks[i];
    assert KindOf(v) == (if v / 0x1000 == 9 then SmallRepeat else if 0xb000 <= v < 0xb400 then LargeRepeat else Undefined);
    assert Execute(v, ChunkAt(chunks, i + 1), m, bases) == Effect([], [], m);
  }

  /** An instruction of two chunks whose second one is missing ends the program as partial. */
  lemma CutOff(chunks: seq<chunk>, i: nat, m: Machine, bases: seq<word>)
    requires i + 1 == |chunks| && (0xa000 <= chunks[i] < 0xa800 || 0xb000 <= chunks[i] < 0xb800)
    ensures !Trace(chunks, i, m, bases).complete
  {
    var v := chunks[i];
    assert Width(KindOf(v)) == 2 by { assert v / 0x400 in {0x28, 0x29, 0x2c, 0x2d}; }
  }

  // ---- the words of the section ---------------------------------------------------------------------------

  /** The section after the whole program. */
  function Final(c: seq<byte>, chunks: seq<chunk>, bases: seq<word>): (f: seq<byte>)
    ensures |f| == |c|
  {
    ApplyAll(c, Trace(chunks, 0, Initial(bases), bases).writes)
  }

  /** The word at `a`, if the section has it, ends as its first value plus `v`. */
  predicate Raised(c: seq<byte>, f: seq<byte>, a: nat, v: word)
    requires |f| == |c|
  {
    a + 4 <= |c| ==> WordAt(f, a) == Low32(WordAt(c, a) + v)
  }

  predicate Kept(c: seq<byte>, f: seq<byte>, p: nat)
    requires |f| == |c|
  {
    p < |c| ==> f[p] == c[p]
  }

  /** The byte at `p` belongs to none of the `n` stretches of `width` bytes. */
  predicate Outside(p: nat, addr: nat, step: nat, width: nat, n: nat) {
    forall k | 0 <= k < n :: p < Turn(addr, step, k) || Turn(addr, step, k) + width <= p
  }

  /** Each write lies behind the one before. */
  predicate Rising(ws: seq<Write>) {
    forall j, k | 0 <= j < k < |ws| :: ws[j].addr + 4 <= ws[k].addr
  }

  lemma {:induction false} OnlyOnce(ws: seq<Write>, k: nat)
    requires Rising(ws) && k < |ws|
    ensures SumAt(ws, ws[k].addr) == ws[k].val as int && Hits(ws, ws[k].addr)
    decreases |ws|
  {
    var rest := ws[1..];
    assert Rising(rest) by {
      forall i, j | 0 <= i < j < |rest| ensures rest[i].addr + 4 <= rest[j].addr { assert ws[i + 1].addr + 4 <= ws[j + 1].addr; }
    }
    if k == 0 {
      assert AllFrom(rest, ws[0].addr + 4) by {
        forall j | 0 <= j < |rest| ensures rest[j].addr >= ws[0].addr + 4 { assert ws[0].addr + 4 <= ws[j + 1].addr; }
      }
      SumBelow(rest, ws[0].addr, ws[0].addr + 4);
    } else {
      OnlyOnce(rest, k - 1);
      assert ws[0].addr + 4 <= ws[k].addr;
    }
  }

  lemma Lands(c: seq<byte>, ws: seq<Write>, k: nat)
    requires Rising(ws) && k < |ws|
    ensures Raised(c, ApplyAll(c, ws), ws[k].addr, ws[k].val)
  {
    OnlyOnce(ws, k);
    if ws[k].addr + 4 <= |c| { Additive(c, ws, ws[k].addr); }
  }

  lemma {:induction false} TurnsApart(addr: nat, step: nat, j: nat, k: nat)
    requires j < k
    ensures Turn(addr, step, j) + step <= Turn(addr, step, k)
    decreases k
  {
    OneStep(k, step);
    if j < k - 1 { TurnsApart(addr, step, j, k - 1); }
  }

  /** A run of words, seen in the section. */
  lemma SpacedWords(c: seq<byte>, ws: seq<Write>, addr: nat, step: nat, v: word, n: nat, k: nat, p: nat)
    requires Spaced(ws, addr, step, v, n) && step >= 4
    ensures k < n ==> Raised(c, ApplyAll(c, ws), Turn(addr, step, k), v)
    ensures Outside(p, addr, step, 4, n) ==> Kept(c, ApplyAll(c, ws), p)
  {
    if k < n {
      forall i, j | 0 <= i < j < |ws| ensures ws[i].addr + 4 <= ws[j].addr { TurnsApart(addr, step, i, j); }
      Lands(c, ws, k);
    }
    if p < |c| && Outside(p, addr, step, 4, n) {
      forall w <- ws ensures Clear(w, p, 1) {
        var j :| 0 <= j < n && ws[j] == w;
        assert w.addr == Turn(addr, step, j);
      }
      UntouchedByte(c, ws, p);
    }
  }

  lemma PairsRise(ws: seq<Write>, addr: nat, step: nat, a: word, b: word, n: nat)
    requires Paired(ws, addr, step, a, b, n) && step >= 8
    ensures Rising(ws)
  {
    forall i, j | 0 <= i < j < |ws| ensures ws[i].addr + 4 <= ws[j].addr {
      if i / 2 < j / 2 { TurnsApart(addr, step, i / 2, j / 2); }
    }
  }

  lemma PairLands(c: seq<byte>, ws: seq<Write>, addr: nat, step: nat, a: word, b: word, n: nat, k: nat)
    requires Paired(ws, addr, step, a, b, n) && step >= 8 && k < n
    ensures Raised(c, ApplyAll(c, ws), Turn(addr, step, k), a) && Raised(c, ApplyAll(c, ws), Turn(addr, step, k) + 4, b)
  {
    PairsRise(ws, addr, step, a, b, n);
    Lands(c, ws, 2 * k);
    Lands(c, ws, 2 * k + 1);
    assert ws[2 * k] == Write(Turn(addr, step, k), a) && ws[2 * k + 1] == Write(Turn(addr, step, k) + 4, b);
  }

  /** A run of pairs, seen in the section. */
  lemma PairedWords(c: seq<byte>, ws: seq<Write>, addr: nat, step: nat, a: word, b: word, n: nat, k: nat, p: nat)
    requires Paired(ws, addr, step, a, b, n) && step >= 8
    ensures k < n ==> Raised(c, ApplyAll(c, ws), Turn(addr, step, k), a) && Raised(c, ApplyAll(c, ws), Turn(addr, step, k) + 4, b)
    ensures Outside(p, addr, step, 8, n) ==> Kept(c, ApplyAll(c, ws), p)
  {
    if k < n { PairLands(c, ws, addr, step, a, b, n, k); }
    if p < |c| && Outside(p, addr, step, 8, n) {
      forall w <- ws ensures Clear(w, p, 1) {
        var j :| 0 <= j < |ws| && ws[j] == w;
        assert p < Turn(addr, step, j / 2) || Turn(addr, step, j / 2) + 8 <= p;
      }
      UntouchedByte(c, ws, p);
    }
  }

  lemma FourApart(a: nat, k: nat)
    ensures Turn(a, 4, k) == a + 4 * k
  {
  }

  // ---- programs of one instruction -------------------------------------------------------------------------

  lemma Single(chunks: seq<chunk>, bases: seq<word>, ws: seq<Write>, fs: seq<Fixup>, n: Machine)
    requires Does(chunks, 0, Initial(bases), bases, ws, fs, |chunks|, n)
    ensures Trace(chunks, 0, Initial(bases), bases) == Result(ws, fs, true)
  {
    assert Trace(chunks, |chunks|, n, bases) == Result([], [], true);
    assert ws + [] == ws && fs + [] == fs;
  }

  lemma SpacedProgram(c: seq<byte>, chunks: seq<chunk>, bases: seq<word>, ws: seq<Write>, end: Machine,
                      addr: nat, step: nat, v: word, n: nat, k: nat, p: nat)
    requires Does(chunks, 0, Initial(bases), bases, ws, [], |chunks|, end) && Spaced(ws, addr, step, v, n) && step >= 4
    ensures var f := Final(c, chunks, bases);
      (k < n ==> Raised(c, f, Turn(addr, step, k), v)) && (Outside(p, addr, step, 4, n) ==> Kept(c, f, p))
  {
    Single(chunks, bases, ws, [], end);
    SpacedWords(c, ws, addr, step, v, n, k, p);
  }

  lemma PairedProgram(c: seq<byte>, chunks: seq<chunk>, bases: seq<word>, ws: seq<Write>, end: Machine,
                      addr: nat, step: nat, a: word, b: word, n: nat, k: nat, p: nat)
    requires Does(chunks, 0, Initial(bases), bases, ws, [], |chunks|, end) && Paired(ws, addr, step, a, b, n) && step >= 8
    ensures var f := Final(c, chunks, bases);
      && (k < n ==> Raised(c, f, Turn(addr, step, k), a) && Raised(c, f, Turn(addr, step, k) + 4, b))
      && (Outside(p, addr, step, 8, n) ==> Kept(c, f, p))
  {
    Single(chunks, bases, ws, [], end);
    PairedWords(c, ws, addr, step, a, b, n, k, p);
  }

  /** Pointers into the code section, one after the other. */
  lemma CodeProgram(c: seq<byte>, bases: seq<word>, r: nat, k: nat, p: nat)
    requires r < 512
    ensures var f := Final(c, [0x4000 + r], bases);
      && (k <= r ==> Raised(c, f, 4 * k, Nth(bases, 0)))
      && (Outside(p, 0, 4, 4, r + 1) ==> Kept(c, f, p))
  {
    var chunks, m := [0x4000 + r], Initial(bases);
    var ws := CodeRun(chunks, 0, m, bases, r);
    SpacedProgram(c, chunks, bases, ws, m.(addr := 4 * (r + 1)), 0, 4, Nth(bases, 0), r + 1, k, p);
  }

  /** Pointers into the data section. */
  lemma DataProgram(c: seq<byte>, bases: seq<word>, r: nat, k: nat, p: nat)
    requires r < 512
    ensures var f := Final(c, [0x4200 + r], bases);
      && (k <= r ==> Raised(c, f, 4 * k, Nth(bases, 1)))
      && (Outside(p, 0, 4, 4, r + 1) ==> Kept(c, f, p))
  {
    var chunks, m := [0x4200 + r], Initial(bases);
    var ws := DataRun(chunks, 0, m, bases, r);
    SpacedProgram(c, chunks, bases, ws, m.(addr := 4 * (r + 1)), 0, 4, Nth(bases, 1), r + 1, k, p);
  }

  /** Transition vectors with a third word that stays as it is. */
  lemma Vectors12Program(c: seq<byte>, bases: seq<word>, r: nat, k: nat, p: nat)
    requires r < 512
    ensures var f := Final(c, [0x4400 + r], bases);
      && (k <= r ==> Raised(c, f, 12 * k, Nth(bases, 0)) && Raised(c, f, 12 * k + 4, Nth(bases, 1)))
      && (Outside(p, 0, 12, 8, r + 1) ==> Kept(c, f, p))
  {
    var chunks, m := [0x4400 + r], Initial(bases);
    var ws := Vectors12(chunks, 0, m, bases, r);
    PairedProgram(c, chunks, bases, ws, m.(addr := 12 * (r + 1)), 0, 12, Nth(bases, 0), Nth(bases, 1), r + 1, k, p);
  }

  lemma Vectors8Program(c: seq<byte>, bases: seq<word>, r: nat, k: nat, p: nat)
    requires r < 512
    ensures var f := Final(c, [0x4600 + r], bases);
      && (k <= r ==> Raised(c, f, 8 * k, Nth(bases, 0)) && Raised(c, f, 8 * k + 4, Nth(bases, 1)))
      && (Outside(p, 0, 8, 8, r + 1) ==> Kept(c, f, p))
  {
    var chunks, m := [0x4600 + r], Initial(bases);
    var ws := Vectors8(chunks, 0, m, bases, r);
    PairedProgram(c, chunks, bases, ws, m.(addr := 8 * (r + 1)), 0, 8, Nth(bases, 0), Nth(bases, 1), r + 1, k, p);
  }

  /** Data pointers each followed by a word that stays as it is. */
  lemma Tables8Program(c: seq<byte>, bases: seq<word>, r: nat, k: nat, p: nat)
    requires r < 512
    ensures var f := Final(c, [0x4800 + r], bases);
      && (k <= r ==> Raised(c, f, 8 * k, Nth(bases, 1)))
      && (Outside(p, 0, 8, 4, r + 1) ==> Kept(c, f, p))
  {
    var chunks, m := [0x4800 + r], Initial(bases);
    var ws := Tables8(chunks, 0, m, bases, r);
    SpacedProgram(c, chunks, bases, ws, m.(addr := 8 * (r + 1)), 0, 8, Nth(bases, 1), r + 1, k, p);
  }

  /** Imports leave the section alone and ask for consecutive symbols at consecutive words. */
  lemma ImportProgram(c: seq<byte>, bases: seq<word>, r: nat)
    requires r < 512
    ensures Final(c, [0x4a00 + r], bases) == c
    ensures Numbered(Trace([0x4a00 + r], 0, Initial(bases), bases).fixups, 0, 0, r + 1)
  {
    var chunks, m := [0x4a00 + r], Initial(bases);
    var fs := Imports(chunks, 0, m, bases, r);
    Single(chunks, bases, [], fs, m.(addr := 4 * (r + 1), imp := r + 1));
  }

  lemma SkipEnds(c: seq<byte>, chunks: seq<chunk>, bases: seq<word>, ws: seq<Write>, end: Machine, n: nat, k: nat, p: nat, a: nat)
    requires Does(chunks, 0, Initial(bases), bases, ws, [], |chunks|, end) && Spaced(ws, a, 4, Nth(bases, 1), n)
    ensures var f := Final(c, chunks, bases);
      (k < n ==> Raised(c, f, a + 4 * k, Nth(bases, 1))) && (Outside(p, a, 4, 4, n) ==> Kept(c, f, p))
  {
    SpacedProgram(c, chunks, bases, ws, end, a, 4, Nth(bases, 1), n, k, p);
    FourApart(a, k);
  }

  /** Data pointers behind words that are skipped, up to the byte at `a`. */
  lemma SkipProgram(c: seq<byte>, v: chunk, bases: seq<word>, skip: nat, n: nat, k: nat, p: nat, a: nat)
    requires skip < 256 && n < 64 && v == 64 * skip + n && a == 4 * skip
    ensures var f := Final(c, [v], bases);
      (k < n ==> Raised(c, f, a + 4 * k, Nth(bases, 1))) && (Outside(p, a, 4, 4, n) ==> Kept(c, f, p))
  {
    var m := Initial(bases);
    var ws := SkipRun([v], 0, m, bases, skip, n);
    SkipEnds(c, [v], bases, ws, m.(addr := m.addr + 4 * skip + 4 * n), n, k, p, a);
  }

  // ---- programs of two instructions ---------------------------------------------------------------------------

  lemma Joined(chunks: seq<chunk>, bases: seq<word>, j: nat, m: Machine, ws: seq<Write>, end: Machine)
    requires Does(chunks, 0, Initial(bases), bases, [], [], j, m) && Does(chunks, j, m, bases, ws, [], |chunks|, end)
    ensures Does(chunks, 0, Initial(bases), bases, ws, [], |chunks|, end)
  {
    var rest := Trace(chunks, |chunks|, end, bases);
    assert [] + (ws + rest.writes) == ws + rest.writes && [] + ([] + rest.fixups) == [] + rest.fixups;
  }

  lemma JoinedRun(c: seq<byte>, chunks: seq<chunk>, bases: seq<word>, j: nat, m: Machine, ws: seq<Write>, end: Machine,
                  a: nat, v: word, n: nat, k: nat, p: nat)
    requires Does(chunks, 0, Initial(bases), bases, [], [], j, m) && Does(chunks, j, m, bases, ws, [], |chunks|, end)
    requires Spaced(ws, a, 4, v, n)
    ensures var f := Final(c, chunks, bases);
      (k < n ==> Raised(c, f, a + 4 * k, v)) && (Outside(p, a, 4, 4, n) ==> Kept(c, f, p))
  {
    Joined(chunks, bases, j, m, ws, end);
    SpacedProgram(c, chunks, bases, ws, end, a, 4, v, n, k, p);
    FourApart(a, k);
  }

  /** Behind an instruction that only sets registers to `m`, a code run raises the words from `m.addr` on by `m.sectC`. */
  lemma ThenCode(c: seq<byte>, chunks: seq<chunk>, bases: seq<word>, j: nat, m: Machine, r: nat, k: nat, p: nat)
    requires Does(chunks, 0, Initial(bases), bases, [], [], j, m) && |chunks| == j + 1 && r < 512 && chunks[j] == 0x4000 + r
    ensures var f := Final(c, chunks, bases);
      && (k <= r ==> Raised(c, f, m.addr + 4 * k, m.sectC))
      && (Outside(p, m.addr, 4, 4, r + 1) ==> Kept(c, f, p))
  {
    var ws := CodeRun(chunks, j, m, bases, r);
    JoinedRun(c, chunks, bases, j, m, ws, m.(addr := m.addr + 4 * (r + 1)), m.addr, m.sectC, r + 1, k, p);
  }

  lemma ThenData(c: seq<byte>, chunks: seq<chunk>, bases: seq<word>, j: nat, m: Machine, r: nat, k: nat, p: nat)
    requires Does(chunks, 0, Initial(bases), bases, [], [], j, m) && |chunks| == j + 1 && r < 512 && chunks[j] == 0x4200 + r
    ensures var f := Final(c, chunks, bases);
      && (k <= r ==> Raised(c, f, m.addr + 4 * k, m.sectD))
      && (Outside(p, m.addr, 4, 4, r + 1) ==> Kept(c, f, p))
  {
    var ws := DataRun(chunks, j, m, bases, r);
    JoinedRun(c, chunks, bases, j, m, ws, m.(addr := m.addr + 4 * (r + 1)), m.addr, m.sectD, r + 1, k, p);
  }

  /** A section is chosen, in the short form or the large one, and then its base is what the code run adds. */
  lemma ChosenCode(c: seq<byte>, bases: seq<word>, s: nat, r: nat, k: nat)
    requires s < 0x40_0000 && k <= r < 512
    ensures s < 512 ==> Raised(c, Final(c, [0x6200 + s, 0x4000 + r], bases), 4 * k, Nth(bases, s))
    ensures Raised(c, Final(c, [0xb440 + s / 0x1_0000, s % 0x1_0000, 0x4000 + r], bases), 4 * k, Nth(bases, s))
  {
    var m := Initial(bases);
    if s < 512 {
      SetCode([0x6200 + s, 0x4000 + r], 0, m, bases, s);
      ThenCode(c, [0x6200 + s, 0x4000 + r], bases, 1, m.(sectC := Nth(bases, s)), r, k, 0);
    }
    var large: seq<chunk> := [0xb440 + s / 0x1_0000, s % 0x1_0000, 0x4000 + r];
    LargeSetCode(large, 0, m, bases, s / 0x1_0000);
    ThenCode(c, large, bases, 2, m.(sectC := Nth(bases, s)), r, k, 0);
  }

  lemma ChosenData(c: seq<byte>, bases: seq<word>, s: nat, r: nat, k: nat)
    requires s < 0x40_0000 && k <= r < 512
    ensures s < 512 ==> Raised(c, Final(c, [0x6400 + s, 0x4200 + r], bases), 4 * k, Nth(bases, s))
    ensures Raised(c, Final(c, [0xb480 + s / 0x1_0000, s % 0x1_0000, 0x4200 + r], bases), 4 * k, Nth(bases, s))
  {
    var m := Initial(bases);
    if s < 512 {
      SetData([0x6400 + s, 0x4200 + r], 0, m, bases, s);
      ThenData(c, [0x6400 + s, 0x4200 + r], bases, 1, m.(sectD := Nth(bases, s)), r, k, 0);
    }
    var large: seq<chunk> := [0xb480 + s / 0x1_0000, s % 0x1_0000, 0x4200 + r];
    LargeSetData(large, 0, m, bases, s / 0x1_0000);
    ThenData(c, large, bases, 2, m.(sectD := Nth(bases, s)), r, k, 0);
  }

  lemma OneWord(c: seq<byte>, chunks: seq<chunk>, bases: seq<word>, v: word, end: Machine, p: nat)
    requires Does(chunks, 0, Initial(bases), bases, [Write(0, v)], [], |chunks|, end)
    ensures Raised(c, Final(c, chunks, bases), 0, v) && (p >= 4 ==> Kept(c, Final(c, chunks, bases), p))
  {
    SpacedProgram(c, chunks, bases, [Write(0, v)], end, 0, 4, v, 1, 0, p);
  }

  /** One word is raised by the base of the section it names, and nothing else changes. */
  lemma NamedSection(c: seq<byte>, bases: seq<word>, s: nat, p: nat)
    requires s < 0x40_0000
    ensures s < 512 ==> var f := Final(c, [0x6600 + s], bases);
      Raised(c, f, 0, Nth(bases, s)) && (p >= 4 ==> Kept(c, f, p))
    ensures var f := Final(c, [0xb400 + s / 0x1_0000, s % 0x1_0000], bases);
      Raised(c, f, 0, Nth(bases, s)) && (p >= 4 ==> Kept(c, f, p))
  {
    var m := Initial(bases);
    if s < 512 {
      SectionWord([0x6600 + s], 0, m, bases, s);
      OneWord(c, [0x6600 + s], bases, Nth(bases, s), m.(addr := 4), p);
    }
    var large: seq<chunk> := [0xb400 + s / 0x1_0000, s % 0x1_0000];
    LargeWord(large, 0, m, bases, s / 0x1_0000);
    OneWord(c, large, bases, Nth(bases, s), m.(addr := 4), p);
  }

  lemma MovedRun(c: seq<byte>, chunks: seq<chunk>, bases: seq<word>, j: nat, a: nat, r: nat, k: nat, p: nat)
    requires Does(chunks, 0, Initial(bases), bases, [], [], j, Initial(bases).(addr := a))
    requires |chunks| == j + 1 && k <= r < 512 && chunks[j] == 0x4000 + r
    ensures Raised(c, Final(c, chunks, bases), a + 4 * k, Nth(bases, 0))
    ensures Outside(p, a, 4, 4, r + 1) ==> Kept(c, Final(c, chunks, bases), p)
  {
    ThenCode(c, chunks, bases, j, Initial(bases).(addr := a), r, k, p);
  }

  /** The next run starts where the position has been moved to. */
  lemma AdvancedRun(c: seq<byte>, bases: seq<word>, d: nat, r: nat, k: nat, p: nat)
    requires d < 0x1000 && k <= r < 512
    ensures var f := Final(c, [0x8000 + d, 0x4000 + r], bases);
      Raised(c, f, d + 1 + 4 * k, Nth(bases, 0)) && (Outside(p, d + 1, 4, 4, r + 1) ==> Kept(c, f, p))
  {
    var chunks: seq<chunk> := [0x8000 + d, 0x4000 + r];
    Advance(chunks, 0, Initial(bases), bases, d);
    MovedRun(c, chunks, bases, 1, d + 1, r, k, p);
  }

  lemma PositionedRun(c: seq<byte>, bases: seq<word>, v: chunk, hi: nat, lo: chunk, a: nat, r: nat, k: nat, p: nat)
    requires hi < 0x400 && v == 0xa000 + hi && k <= r < 512 && a == 0x1_0000 * hi + lo
    ensures var f := Final(c, [v, lo, 0x4000 + r], bases);
      Raised(c, f, a + 4 * k, Nth(bases, 0)) && (Outside(p, a, 4, 4, r + 1) ==> Kept(c, f, p))
  {
    var chunks: seq<chunk> := [v, lo, 0x4000 + r];
    Position(chunks, 0, Initial(bases), bases, hi);
    MovedRun(c, chunks, bases, 2, a, r, k, p);
  }

  // ---- words are big-endian ------------------------------------------------------------------------------------

  /** The last byte of a word counts once, and a byte counts 256 times what its successor counts. */
  lemma BigEndianWord(c: seq<byte>, a: nat)
    requires a + 4 <= |c|
    ensures (forall i | a <= i < a + 3 :: c[i] == 0) ==> WordAt(c, a) as int == c[a + 3] as int
    ensures a + 5 <= |c| && c[a] == 0 ==> WordAt(c, a + 1) as int == 256 * WordAt(c, a) + c[a + 4]
  {
  }
}
