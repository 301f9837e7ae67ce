/** The loops of the relocation simulator, updating the content in place. */
module RelocRun {
  import opened Words
  import opened Reloc

  /** One write; a word that is not wholly inside the content is left alone and noted. */
  method AddWordAt(content: array<byte>, addr: nat, v: word) returns (notes: seq<Note>)
    modifies content
    ensures content[..] == AddWord(old(content[..]), Write(addr, v))
    ensures notes == WriteNotes([Write(addr, v)], content.Length)
  {
    assert [Write(addr, v)][1..] == [];
    if addr + 4 <= content.Length {
      var b := BytesOf(Wrap(WordAt(content[..], addr) + v));
      content[addr] := b[0];
      content[addr + 1] := b[1];
      content[addr + 2] := b[2];
      content[addr + 3] := b[3];
      return [];
    }
    notes := [Beyond(addr)];
  }

  lemma ApplyOne(c: seq<byte>, ws: seq<Write>, w: Write)
    ensures ApplyAll(c, ws + [w]) == AddWord(ApplyAll(c, ws), w)
  {
    ApplyAppend(c, ws, [w]);
    assert [w][1..] == [];
  }

  lemma {:induction false} NotesAppend(xs: seq<Write>, ys: seq<Write>, len: nat)
    ensures WriteNotes(xs + ys, len) == WriteNotes(xs, len) + WriteNotes(ys, len)
    decreases |xs|
  {
    if xs == [] {
      assert xs + ys == ys;
    } else {
      assert (xs + ys)[1..] == xs[1..] + ys;
      NotesAppend(xs[1..], ys, len);
    }
  }

  /** What has been applied so far and what is left are the whole list. */
  predicate Splits(whole: seq<Write>, done: seq<Write>, rest: seq<Write>) {
    whole == done + rest
  }

  /** The content has been through these writes, and those beyond it have been noted. */
  twostate predicate Written(content: array<byte>, ws: seq<Write>, notes: seq<Note>)
    reads content
  {
    content[..] == ApplyAll(old(content[..]), ws) && notes == WriteNotes(ws, content.Length)
  }

  /** One write more. */
  method WriteMore(content: array<byte>, given: seq<Note>, addr: nat, v: word, ghost was: seq<byte>, ghost done: seq<Write>)
    returns (notes: seq<Note>)
    requires content[..] == ApplyAll(was, done) && given == WriteNotes(done, content.Length)
    modifies content
    ensures content[..] == ApplyAll(was, done + [Write(addr, v)])
    ensures notes == WriteNotes(done + [Write(addr, v)], content.Length)
  {
    var more := AddWordAt(content, addr, v);
    ApplyOne(was, done, Write(addr, v));
    NotesAppend(done, [Write(addr, v)], content.Length);
    notes := given + more;
  }

  /** One word per turn, then a gap: the loops over section C, section D and the 8-byte virtual tables. */
  method RunOne(content: array<byte>, start: nat, v: word, gap: nat, n: nat) returns (notes: seq<Note>)
    modifies content
    ensures Written(content, OneRun(v, gap, start, n), notes)
  {
    ghost var was, whole, done := content[..], OneRun(v, gap, start, n), [];
    var addr: nat, i: nat := start, 0;
    notes := [];
    while i < n
      invariant i <= n && Splits(whole, done, OneRun(v, gap, addr, n - i))
      invariant content[..] == ApplyAll(was, done) && notes == WriteNotes(done, content.Length)
    {
      notes := WriteMore(content, notes, addr, v, was, done);
      OneNext(whole, done, v, gap, addr, n - i);
      done := done + [Write(addr, v)];
      addr := addr + 4 + gap;
      i := i + 1;
    }
    assert done == whole;
  }

  lemma OneNext(whole: seq<Write>, done: seq<Write>, v: word, gap: nat, addr: nat, n: nat)
    requires n > 0 && Splits(whole, done, OneRun(v, gap, addr, n))
    ensures Splits(whole, done + [Write(addr, v)], OneRun(v, gap, addr + 4 + gap, n - 1))
  {
    Assoc(done, [Write(addr, v)], OneRun(v, gap, addr + 4 + gap, n - 1));
  }

  /** Two adjacent words per turn, then a gap: the transition-vector loops. */
  method RunTwo(content: array<byte>, start: nat, c: word, d: word, gap: nat, n: nat) returns (notes: seq<Note>)
    modifies content
    ensures Written(content, TwoRun(c, d, gap, start, n), notes)
  {
    ghost var was, whole, done := content[..], TwoRun(c, d, gap, start, n), [];
    var addr: nat, i: nat := start, 0;
    notes := [];
    while i < n
      invariant i <= n && Splits(whole, done, TwoRun(c, d, gap, addr, n - i))
      invariant content[..] == ApplyAll(was, done) && notes == WriteNotes(done, content.Length)
    {
      notes := WriteMore(content, notes, addr, c, was, done);
      notes := WriteMore(content, notes, addr + 4, d, was, done + [Write(addr, c)]);
      TwoNext(whole, done, c, d, gap, addr, n - i);
      done := done + [Write(addr, c)] + [Write(addr + 4, d)];
      addr := addr + 8 + gap;
      i := i + 1;
    }
    assert done == whole;
  }

  lemma TwoNext(whole: seq<Write>, done: seq<Write>, c: word, d: word, gap: nat, addr: nat, n: nat)
    requires n > 0 && Splits(whole, done, TwoRun(c, d, gap, addr, n))
    ensures Splits(whole, done + [Write(addr, c)] + [Write(addr + 4, d)], TwoRun(c, d, gap, addr + 8 + gap, n - 1))
  {
    var rest := TwoRun(c, d, gap, addr + 8 + gap, n - 1);
    assert TwoRun(c, d, gap, addr, n) == [Write(addr, c)] + ([Write(addr + 4, d)] + rest);
    Assoc(done, [Write(addr, c)], [Write(addr + 4, d)] + rest);
    Assoc(done + [Write(addr, c)], [Write(addr + 4, d)], rest);
  }

  method RunImports(start: nat, first: nat, n: nat) returns (fixups: seq<Fixup>)
    ensures fixups == ImportRun(start, first, n)
  {
    fixups := [];
    var addr, imp, i := start, first, 0;
    while i < n
      invariant i <= n && ImportRun(start, first, n) == fixups + ImportRun(addr, imp, n - i)
    {
      Assoc(fixups, [Fixup(addr, imp)], ImportRun(addr + 4, imp + 1, n - i - 1));
      fixups := fixups + [Fixup(addr, imp)];
      addr, imp, i := addr + 4, imp + 1, i + 1;
    }
  }

  /** The results of one instruction: fixups, registers, notes. */
  datatype Done = Done(fixups: seq<Fixup>, m: Machine, notes: seq<Note>)

  /** The content has been through the writes of an effect; its fixups and registers are returned, the notes are
      `before` and those of the writes. */
  twostate predicate Performed(content: array<byte>, e: Effect, before: seq<Note>, d: Done)
    reads content
  {
    && content[..] == ApplyAll(old(content[..]), e.writes) && d.fixups == e.fixups && d.m == e.m
    && d.notes == before + WriteNotes(e.writes, content.Length)
  }

  method ValueGroupAt(content: array<byte>, v: chunk, m: Machine) returns (d: Done)
    modifies content
    ensures Performed(content, ValueGroup(v, m), if v / 512 % 16 <= 5 then [] else [Unsupported(v)], d)
  {
    var sub, run := v / 512 % 16, v % 512 + 1;
    if sub == 0 {
      var notes := RunOne(content, m.addr, m.sectC, 0, run);
      d := Done([], m.(addr := m.addr + 4 * run), notes);
    } else if sub == 1 {
      var notes := RunOne(content, m.addr, m.sectD, 0, run);
      d := Done([], m.(addr := m.addr + 4 * run), notes);
    } else if sub == 2 {
      var notes := RunTwo(content, m.addr, m.sectC, m.sectD, 4, run);
      d := Done([], m.(addr := m.addr + 12 * run), notes);
    } else if sub == 3 {
      var notes := RunTwo(content, m.addr, m.sectC, m.sectD, 0, run);
      d := Done([], m.(addr := m.addr + 8 * run), notes);
    } else if sub == 4 {
      var notes := RunOne(content, m.addr, m.sectD, 4, run);
      d := Done([], m.(addr := m.addr + 8 * run), notes);
    } else if sub == 5 {
      var fixups := RunImports(m.addr, m.imp, run);
      d := Done(fixups, m.(addr := m.addr + 4 * run, imp := m.imp + run), []);
    } else {
      d := Done([], m, [Unsupported(v)]);
    }
  }

  /** A base, and a note when the section does not exist. */
  method BaseAt(bases: seq<word>, idx: nat) returns (base: word, notes: seq<Note>)
    ensures base == BaseOf(bases, idx) && notes == BaseNotes(bases, idx)
  {
    if idx < |bases| { return bases[idx], []; }
    base, notes := 0, [BadSection(idx)];
  }

  method SectionWord(content: array<byte>, idx: nat, m: Machine, bases: seq<word>) returns (d: Done)
    modifies content
    ensures Performed(content, BySection(BaseOf(bases, idx), m), BaseNotes(bases, idx), d)
  {
    var base, notes := BaseAt(bases, idx);
    var more := AddWordAt(content, m.addr, base);
    ApplyOne(old(content[..]), [], Write(m.addr, base));
    assert [] + [Write(m.addr, base)] == [Write(m.addr, base)];
    d := Done([], m.(addr := m.addr + 4), notes + more);
  }

  /** The notes that do not come from writes. */
  function OtherNotes(v: chunk, next: chunk, bases: seq<word>): seq<Note> {
    match KindOf(v)
    case SmallRepeat => [NotReplayed(v)]
    case LargeRepeat => [NotReplayed(v)]
    case Undefined => [Unknown(v)]
    case _ =>
      if !Supported(v) then [Unsupported(v)]
      else match SectionOf(v, next) case Some(idx) => BaseNotes(bases, idx) case None => []
  }

  method IndexGroupAt(content: array<byte>, v: chunk, m: Machine, bases: seq<word>) returns (d: Done)
    requires KindOf(v) == Index
    modifies content
    ensures Performed(content, IndexGroup(v, m, bases), OtherNotes(v, 0, bases), d)
  {
    var sub, idx := v / 512 % 16, v % 512;
    if sub == 0 {
      d := Done([Fixup(m.addr, idx)], m.(addr := m.addr + 4, imp := idx + 1), []);
    } else if sub == 1 {
      var base, notes := BaseAt(bases, idx);
      d := Done([], m.(sectC := base), notes);
    } else if sub == 2 {
      var base, notes := BaseAt(bases, idx);
      d := Done([], m.(sectD := base), notes);
    } else if sub == 3 {
      d := SectionWord(content, idx, m, bases);
    } else {
      d := Done([], m, [Unsupported(v)]);
    }
  }

  method LargeSectionAt(content: array<byte>, v: chunk, next: chunk, m: Machine, bases: seq<word>) returns (d: Done)
    requires KindOf(v) == LargeSection
    modifies content
    ensures Performed(content, SetOrBySection(v / 64 % 16, v % 64 * 0x1_0000 + next, m, bases), OtherNotes(v, next, bases), d)
  {
    var sub, idx := v / 64 % 16, v % 64 * 0x1_0000 + next;
    if sub == 0 {
      d := SectionWord(content, idx, m, bases);
    } else if sub == 1 {
      var base, notes := BaseAt(bases, idx);
      d := Done([], m.(sectC := base), notes);
    } else if sub == 2 {
      var base, notes := BaseAt(bases, idx);
      d := Done([], m.(sectD := base), notes);
    } else {
      d := Done([], m, [Unsupported(v)]);
    }
  }

  /** The opcode dispatch of one turn; repeats and undefined opcodes are only noted here. */
  method Dispatch(content: array<byte>, v: chunk, next: chunk, m: Machine, bases: seq<word>) returns (d: Done)
    modifies content
    ensures Performed(content, Execute(v, next, m, bases), OtherNotes(v, next, bases), d)
  {
    match KindOf(v)
    case Skip =>
      var addr, n := m.addr + (v / 64 % 256) * 4, v % 64;
      var notes := RunOne(content, addr, m.sectD, 0, n);
      d := Done([], m.(addr := addr + 4 * n), notes);
    case Values => d := ValueGroupAt(content, v, m);
    case Index => d := IndexGroupAt(content, v, m, bases);
    case Advance => d := Done([], m.(addr := m.addr + v % 0x1000 + 1), []);
    case LargeImport =>
      var idx := v % 0x400 * 0x1_0000 + next;
      d := Done([Fixup(m.addr, idx)], m.(addr := m.addr + 4, imp := idx + 1), []);
    case SetPosition => d := Done([], m.(addr := v % 0x400 * 0x1_0000 + next), []);
    case LargeSection => d := LargeSectionAt(content, v, next, m, bases);
    case Undefined => d := Done([], m, [Unknown(v)]);
    case _ => d := Done([], m, [NotReplayed(v)]);
  }

  /** The notes of an instruction are those, and then those of its writes. */
  lemma NotesSplit(v: chunk, next: chunk, m: Machine, bases: seq<word>, len: nat)
    ensures NotesOf(v, next, m, bases, len) == OtherNotes(v, next, bases) + WriteNotes(Execute(v, next, m, bases).writes, len)
  {
  }

  /** What the loop has done and what the rest of the program does. */
  predicate Continues(whole: Result, done: Result, rest: Result) {
    && whole.writes == done.writes + rest.writes
    && whole.fixups == done.fixups + rest.fixups
    && (whole.complete <==> done.complete && rest.complete)
  }

  function Then(done: Result, e: Effect, k: Kind): Result {
    Result(done.writes + e.writes, done.fixups + e.fixups, done.complete && Replayed(k))
  }

  lemma TraceNext(whole: Result, done: Result, chunks: seq<chunk>, i: nat, m: Machine, bases: seq<word>)
    requires i < |chunks| && Continues(whole, done, Trace(chunks, i, m, bases))
    ensures var k, e := KindOf(chunks[i]), Execute(chunks[i], ChunkAt(chunks, i + 1), m, bases);
      Continues(whole, Then(done, e, k), Trace(chunks, i + Width(k), e.m, bases))
  {
    var k, e := KindOf(chunks[i]), Execute(chunks[i], ChunkAt(chunks, i + 1), m, bases);
    var rest := Trace(chunks, i + Width(k), e.m, bases);
    Assoc(done.writes, e.writes, rest.writes);
    Assoc(done.fixups, e.fixups, rest.fixups);
  }

  /** One turn of the executor. */
  method Turn(content: array<byte>, chunks: seq<chunk>, i: nat, m: Machine, bases: seq<word>, given: seq<Note>,
              ghost was: seq<byte>, ghost whole: Result, ghost said: seq<Note>, ghost done: Result)
    returns (d: Done, replayed: bool, after: nat, ghost more: Result)
    requires i < |chunks| && Continues(whole, done, Trace(chunks, i, m, bases)) && content[..] == ApplyAll(was, done.writes)
    requires Says(said, given, TraceNotes(chunks, i, m, bases, content.Length))
    modifies content
    ensures content[..] == ApplyAll(was, more.writes) && more.fixups == done.fixups + d.fixups
    ensures more.complete == (done.complete && replayed) && after > i
    ensures Continues(whole, more, Trace(chunks, after, d.m, bases))
    ensures Says(said, given + d.notes, TraceNotes(chunks, after, d.m, bases, content.Length))
  {
    ghost var e := Execute(chunks[i], ChunkAt(chunks, i + 1), m, bases);
    TraceNext(whole, done, chunks, i, m, bases);
    NotesNext(said, given, chunks, i, m, bases, content.Length);
    ApplyAppend(was, done.writes, e.writes);
    d := Dispatch(content, chunks[i], ChunkAt(chunks, i + 1), m, bases);
    replayed, after := Replayed(KindOf(chunks[i])), i + Width(KindOf(chunks[i]));
    more := Then(done, e, KindOf(chunks[i]));
  }

  lemma NothingDone(whole: Result, said: seq<Note>) returns (done: Result)
    ensures done == Result([], [], true) && Continues(whole, done, whole) && Says(said, [], said)
  {
    done := Result([], [], true);
  }

  /** At the end of the program there is nothing more to do or to say. */
  lemma NothingFollows(whole: Result, done: Result, said: seq<Note>, notes: seq<Note>,
                       chunks: seq<chunk>, i: nat, m: Machine, bases: seq<word>, len: nat)
    requires i >= |chunks| && Continues(whole, done, Trace(chunks, i, m, bases)) && Says(said, notes, TraceNotes(chunks, i, m, bases, len))
    ensures whole.writes == done.writes && whole.fixups == done.fixups && said == notes
    ensures whole.complete == (done.complete && i == |chunks|)
  {
  }

  /** The executor: the content goes through exactly the writes of the trace. */
  method ApplyProgram(content: array<byte>, chunks: seq<chunk>, bases: seq<word>)
    returns (fixups: seq<Fixup>, notes: seq<Note>, complete: bool)
    modifies content
    ensures var t := Trace(chunks, 0, Initial(bases), bases);
      content[..] == ApplyAll(old(content[..]), t.writes) && fixups == t.fixups && complete == t.complete
    ensures notes == TraceNotes(chunks, 0, Initial(bases), bases, content.Length)
  {
    var m, i: nat := Initial(bases), 0;
    ghost var was, whole := content[..], Trace(chunks, i, m, bases);
    ghost var said := TraceNotes(chunks, i, m, bases, content.Length);
    ghost var done := NothingDone(whole, said);
    complete, fixups, notes := true, [], [];
    while i < |chunks|
      invariant Continues(whole, done, Trace(chunks, i, m, bases))
      invariant content[..] == ApplyAll(was, done.writes) && fixups == done.fixups && complete == done.complete
      invariant Says(said, notes, TraceNotes(chunks, i, m, bases, content.Length))
      decreases |chunks| - i
    {
      var d, replayed, after, more := Turn(content, chunks, i, m, bases, notes, was, whole, said, done);
      fixups, notes, m, i := fixups + d.fixups, notes + d.notes, d.m, after;
      if !replayed { complete := false; }
      done := more;
    }
    NothingFollows(whole, done, said, notes, chunks, i, m, bases, content.Length);
    complete := complete && i == |chunks|;
  }

  /** What has been noted and what is still to be noted. */
  predicate Says(whole: seq<Note>, done: seq<Note>, rest: seq<Note>) { whole == done + rest }

  lemma NotesNext(whole: seq<Note>, done: seq<Note>, chunks: seq<chunk>, i: nat, m: Machine, bases: seq<word>, len: nat)
    requires i < |chunks| && Says(whole, done, TraceNotes(chunks, i, m, bases, len))
    ensures var v, next := chunks[i], ChunkAt(chunks, i + 1);
      var e := Execute(v, next, m, bases);
      Says(whole, done + (OtherNotes(v, next, bases) + WriteNotes(e.writes, len)),
           TraceNotes(chunks, i + Width(KindOf(v)), e.m, bases, len))
  {
    var v, next := chunks[i], ChunkAt(chunks, i + 1);
    NotesSplit(v, next, m, bases, len);
    Assoc(done, NotesOf(v, next, m, bases, len), TraceNotes(chunks, i + Width(KindOf(v)), Execute(v, next, m, bases).m, bases, len));
  }
}
