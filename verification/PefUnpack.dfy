/** The Rust decompressor: what it produces and accepts, and the loops that compute it. */
module PefUnpack {
  import opened Words
  import opened PefFormat

  /** Bytes produced so far and, unless the stream failed, where it goes on. */
  datatype Run = Run(out: seq<byte>, next: Option<nat>)

  function WovenSize(common: nat, size: nat, k: nat): (n: nat) {
    if k == 0 then common else common + size + WovenSize(common, size, k - 1)
  }

  /** The length the instruction announces; what `grow` compares with the space left. */
  function Size(s: Shape): (n: nat) {
    match s
    case Done(i) => |Expand(i)|
    case Mixed(common, _, size, k) => WovenSize(|common|, size, k)
  }

  /** Common blocks with fresh custom blocks between them. A literal common block is written after
      its custom block has been found, a zero block before it. */
  function Weave(data: seq<byte>, pos: nat, common: seq<byte>, literal: bool, size: nat, k: nat): (r: Run)
    ensures |r.out| <= WovenSize(|common|, size, k)
    ensures r.next.Some? ==> pos <= r.next.value && (pos <= |data| ==> r.next.value <= |data|)
    decreases k
  {
    if k == 0 then Run(common, Some(pos))
    else if pos + size > |data| then Run(if literal then [] else common, None)
    else
      var rest := Weave(data, pos + size, common, literal, size, k - 1);
      Run(common + data[pos..pos + size] + rest.out, rest.next)
  }

  function Emit(data: seq<byte>, s: Start): (r: Run)
    requires s.next <= |data|
    ensures |r.out| <= Size(s.shape)
    ensures r.next.Some? ==> s.next <= r.next.value <= |data|
  {
    match s.shape
    case Done(i) => Run(Expand(i), Some(s.next))
    case Mixed(common, literal, size, k) => Weave(data, s.next, common, literal, size, k)
  }

  /** The announced length of an instruction and the run it makes. */
  datatype Announced = Announced(size: nat, run: Run)

  function Announce(data: seq<byte>, pos: nat): (r: Option<Announced>)
    requires pos < |data|
  {
    var s := ReadStart(data, pos, VARINT_MAX);
    if s.None? then None else Some(Announced(Size(s.value.shape), Emit(data, s.value)))
  }

  /** A run keeps to the announced length and moves forward. */
  predicate Sound(a: Announced, pos: nat, len: nat) {
    |a.run.out| <= a.size && (a.run.next.Some? ==> pos < a.run.next.value <= len)
  }

  predicate AllSound(t: seq<Option<Announced>>) {
    forall p | 0 <= p < |t| && t[p].Some? :: Sound(t[p].value, p, |t|)
  }

  /** What the decoder would do at each position of the stream. */
  function Runs(data: seq<byte>): (t: seq<Option<Announced>>)
    ensures |t| == |data| && AllSound(t)
  {
    seq(|data|, p requires 0 <= p < |data| => Announce(data, p))
  }

  /** One instruction, with `room` bytes of output still allowed. */
  function Step(a: Option<Announced>, room: nat): (r: Run)
  {
    if a.None? || a.value.size > room then Run([], None) else a.value.run
  }

  datatype Outcome = Outcome(out: seq<byte>, ok: bool)

  function Prefixed(out: seq<byte>, rest: Outcome): Outcome {
    Outcome(out + rest.out, rest.ok)
  }

  function Unpack(t: seq<Option<Announced>>, pos: nat, room: nat): (r: Outcome)
    requires pos <= |t| && AllSound(t)
    ensures |r.out| <= room
    ensures r.ok ==> |r.out| == room
    decreases |t| - pos
  {
    if room == 0 then Outcome([], pos == |t|)
    else if pos == |t| then Outcome([], false)
    else
      var s := Step(t[pos], room);
      if s.next.None? then Outcome(s.out, false)
      else Prefixed(s.out, Unpack(t, s.next.value, room - |s.out|))
  }

  // ---- what is accepted --------------------------------------------------------------------

  lemma {:induction false} WeaveFails(data: seq<byte>, pos: nat, common: seq<byte>, literal: bool, size: nat, k: nat)
    requires ReadCustoms(data, pos, size, k).None?
    ensures Weave(data, pos, common, literal, size, k).next.None?
    decreases k
  {
    if pos + size <= |data| {
      WeaveFails(data, pos + size, common, literal, size, k - 1);
    }
  }

  lemma {:induction false} WeaveIsInterleave(data: seq<byte>, pos: nat, common: seq<byte>, literal: bool,
                                             size: nat, cs: seq<seq<byte>>, next: nat)
    requires var r := ReadCustoms(data, pos, size, |cs|); r.Some? && r.value.customs == cs && r.value.next == next
    ensures Weave(data, pos, common, literal, size, |cs|).out == Interleave(common, cs)
    ensures Weave(data, pos, common, literal, size, |cs|).next == Some(next)
    ensures |Interleave(common, cs)| == WovenSize(|common|, size, |cs|)
    decreases |cs|
  {
    if cs != [] {
      CustomsHead(data, pos, size, cs);
      WeaveIsInterleave(data, pos + size, common, literal, size, cs[1..], next);
    }
  }

  lemma CustomsHead(data: seq<byte>, pos: nat, size: nat, cs: seq<seq<byte>>)
    requires cs != []
    requires var r := ReadCustoms(data, pos, size, |cs|); r.Some? && r.value.customs == cs
    ensures pos + size <= |data| && cs[0] == data[pos..pos + size]
    ensures var r := ReadCustoms(data, pos + size, size, |cs| - 1);
      r.Some? && r.value.customs == cs[1..] && r.value.next == ReadCustoms(data, pos, size, |cs|).value.next
  {
    var rest := ReadCustoms(data, pos + size, size, |cs| - 1).value.customs;
    assert cs == [data[pos..pos + size]] + rest;
    assert cs[1..] == rest;
  }

  /** A complete instruction emits its expansion, of the announced length. */
  lemma EmitIsExpand(data: seq<byte>, s: Start)
    requires s.next <= |data|
    requires s.shape.Mixed? && !s.shape.literal ==> s.shape.common == Zeros(|s.shape.common|)
    ensures Emit(data, s).next.Some? <==> Finish(data, s).Some?
    ensures Finish(data, s).Some? ==>
      Emit(data, s) == Run(Expand(Finish(data, s).value.instr), Some(Finish(data, s).value.next))
    ensures Finish(data, s).Some? ==> |Emit(data, s).out| == Size(s.shape)
  {
    match s.shape
    case Done(_) =>
    case Mixed(common, literal, size, k) =>
      var r := ReadCustoms(data, s.next, size, k);
      if r.None? {
        WeaveFails(data, s.next, common, literal, size, k);
      } else {
        WeaveIsInterleave(data, s.next, common, literal, size, r.value.customs, r.value.next);
      }
  }

  lemma ZeroBlocks(data: seq<byte>, pos: nat, max: nat)
    requires pos < |data| && ReadStart(data, pos, max).Some?
    ensures var s := ReadStart(data, pos, max).value.shape;
      s.Mixed? && !s.literal ==> s.common == Zeros(|s.common|)
  {
  }

  /** The decoder's table and the instruction table say the same at a position. */
  predicate Agree(a: Option<Announced>, i: Option<Parsed>) {
    && (a.Some? && a.value.run.next.Some? <==> i.Some?)
    && (i.Some? ==> a.value.size == |Expand(i.value.instr)| && a.value.run == Run(Expand(i.value.instr), Some(i.value.next)))
  }

  predicate Tables(t: seq<Option<Announced>>, u: seq<Option<Parsed>>) {
    |t| == |u| && AllSound(t) && forall p | 0 <= p < |t| :: Agree(t[p], u[p])
  }

  lemma AnnounceAgrees(data: seq<byte>, pos: nat)
    requires pos < |data|
    ensures Agree(Announce(data, pos), ReadInstr(data, pos, VARINT_MAX))
  {
    var s := ReadStart(data, pos, VARINT_MAX);
    if s.Some? {
      ZeroBlocks(data, pos, VARINT_MAX);
      EmitIsExpand(data, s.value);
    }
  }

  lemma TablesAgree(data: seq<byte>)
    ensures Tables(Runs(data), Instrs(data, VARINT_MAX))
  {
    forall p | 0 <= p < |data| ensures Agree(Runs(data)[p], Instrs(data, VARINT_MAX)[p]) {
      AnnounceAgrees(data, p);
    }
  }

  /** `prog` is the whole stream from `pos` on, expands to `room` bytes and ends with an instruction
      that produces something. */
  predicate Exact(u: seq<Option<Parsed>>, pos: nat, room: int, prog: seq<Instr>) {
    Reads(u, pos, prog) && |ExpandAll(prog)| == room && LastEmits(prog)
  }

  /** An accepted stream is a program that expands to the output. */
  lemma {:induction false} AcceptedIsProgram(t: seq<Option<Announced>>, u: seq<Option<Parsed>>, pos: nat, room: nat)
    returns (prog: seq<Instr>)
    requires pos <= |t| && Tables(t, u) && Unpack(t, pos, room).ok
    ensures Exact(u, pos, room, prog) && Unpack(t, pos, room).out == ExpandAll(prog)
    decreases |t| - pos
  {
    if room == 0 {
      prog := [];
    } else {
      assert Agree(t[pos], u[pos]);
      var i := u[pos].value;
      var rest := AcceptedIsProgram(t, u, i.next, room - |Expand(i.instr)|);
      prog := [i.instr] + rest;
      Prepend(u, pos, room, i, rest);
    }
  }

  lemma Prepend(u: seq<Option<Parsed>>, pos: nat, room: int, i: Parsed, rest: seq<Instr>)
    requires pos < |u| && u[pos] == Some(i) && room > 0
    requires Exact(u, i.next, room - |Expand(i.instr)|, rest)
    ensures Exact(u, pos, room, [i.instr] + rest)
    ensures ExpandAll([i.instr] + rest) == Expand(i.instr) + ExpandAll(rest)
  {
    var prog := [i.instr] + rest;
    assert prog[1..] == rest && prog[0] == i.instr;
    if rest != [] { assert prog[|prog| - 1] == rest[|rest| - 1]; }
  }

  lemma LastEmitsSome(prog: seq<Instr>)
    requires prog != [] && LastEmits(prog)
    ensures ExpandAll(prog) != [] && LastEmits(prog[1..])
  {
    if |prog| > 1 {
      assert prog[1..][|prog| - 2] == prog[|prog| - 1];
      LastEmitsSome(prog[1..]);
    }
  }

  /** A program of the right length, ending with output, is accepted and expanded. */
  lemma {:induction false} ProgramIsAccepted(t: seq<Option<Announced>>, u: seq<Option<Parsed>>, pos: nat, room: nat,
                                             prog: seq<Instr>)
    requires pos <= |t| && Tables(t, u) && Exact(u, pos, room, prog)
    ensures Unpack(t, pos, room) == Outcome(ExpandAll(prog), true)
    decreases |prog|
  {
    if prog != [] {
      LastEmitsSome(prog);
      assert Agree(t[pos], u[pos]);
      ProgramIsAccepted(t, u, u[pos].value.next, room - |Expand(prog[0])|, prog[1..]);
    }
  }

  /** The stream is a program of `room` bytes that expands to `out`. */
  ghost predicate Decodes(u: seq<Option<Parsed>>, room: nat, out: seq<byte>) {
    exists prog :: Exact(u, 0, room, prog) && out == ExpandAll(prog)
  }

  lemma TableExactness(t: seq<Option<Announced>>, u: seq<Option<Parsed>>, room: nat, out: seq<byte>)
    requires Tables(t, u)
    ensures Unpack(t, 0, room) == Outcome(out, true) <==> Decodes(u, room, out)
  {
    if Unpack(t, 0, room) == Outcome(out, true) {
      var prog := AcceptedIsProgram(t, u, 0, room);
      assert Exact(u, 0, room, prog) && out == ExpandAll(prog);
    }
    if prog :| Exact(u, 0, room, prog) && out == ExpandAll(prog) {
      ProgramIsAccepted(t, u, 0, room, prog);
    }
  }

  /** Exactly the streams that are a program of `room` bytes ending with output are accepted. */
  lemma Exactness(data: seq<byte>, room: nat, out: seq<byte>)
    ensures Unpack(Runs(data), 0, room) == Outcome(out, true) <==> Decodes(Instrs(data, VARINT_MAX), room, out)
  {
    TablesAgree(data);
    TableExactness(Runs(data), Instrs(data, VARINT_MAX), room, out);
  }

  /** Decoding the encoding of a program gives its expansion. */
  lemma DecodeEncoded(prog: seq<Instr>)
    requires AllEncodable(prog) && LastEmits(prog)
    ensures Unpack(Runs(WriteAll(prog)), 0, |ExpandAll(prog)|) == Outcome(ExpandAll(prog), true)
  {
    var data := WriteAll(prog);
    ReadAllBack(data, 0, prog);
    TablesAgree(data);
    ProgramIsAccepted(Runs(data), Instrs(data, VARINT_MAX), 0, |ExpandAll(prog)|, prog);
  }

  // ---- partial results -----------------------------------------------------------------------

  ghost predicate Extends(data: seq<byte>, more: seq<byte>) {
    |data| <= |more| && forall k | 0 <= k < |data| :: more[k] == data[k]
  }

  lemma {:induction false} VarintExtends(data: seq<byte>, more: seq<byte>, pos: nat, v: nat, max: nat, wide: nat)
    requires Extends(data, more) && max <= wide && Varint(data, pos, v, max).Some?
    ensures Varint(more, pos, v, wide) == Varint(data, pos, v, max)
    decreases max
  {
    if data[pos] >= 128 { VarintExtends(data, more, pos + 1, v * 128 + data[pos] % 128, max - 1, wide - 1); }
  }

  lemma TakeExtends(data: seq<byte>, more: seq<byte>, pos: nat, n: nat)
    requires Extends(data, more) && Take(data, pos, n).Some?
    ensures Take(more, pos, n) == Take(data, pos, n)
  {
    assert more[pos..pos + n] == data[pos..pos + n];
  }

  lemma HeadExtends(data: seq<byte>, more: seq<byte>, pos: nat, max: nat, wide: nat)
    requires Extends(data, more) && max <= wide && pos < |data| && ReadHead(data, pos, max).Some?
    ensures ReadHead(more, pos, wide) == ReadHead(data, pos, max)
  {
    if data[pos] % 32 == 0 { VarintExtends(data, more, pos + 1, 0, max, wide); }
  }

  lemma CountsExtend(data: seq<byte>, more: seq<byte>, pos: nat, max: nat, wide: nat)
    requires Extends(data, more) && max <= wide && ReadCounts(data, pos, max).Some?
    ensures ReadCounts(more, pos, wide) == ReadCounts(data, pos, max)
  {
    VarintExtends(data, more, pos, 0, max, wide);
    VarintExtends(data, more, Varint(data, pos, 0, max).value.next, 0, max, wide);
  }

  lemma OperandsExtend(data: seq<byte>, more: seq<byte>, h: Head, max: nat, wide: nat)
    requires Extends(data, more) && max <= wide && h.next <= |data| && StartOf(data, h, max).Some?
    ensures StartOf(more, h, wide) == StartOf(data, h, max)
  {
    match h.opcode
    case 0 =>
    case 1 => TakeExtends(data, more, h.next, h.value);
    case 2 =>
      VarintExtends(data, more, h.next, 0, max, wide);
      TakeExtends(data, more, Varint(data, h.next, 0, max).value.next, h.value);
    case 3 =>
      CountsExtend(data, more, h.next, max, wide);
      TakeExtends(data, more, ReadCounts(data, h.next, max).value.next, h.value);
    case 4 => CountsExtend(data, more, h.next, max, wide);
    case _ => assert false;
  }

  /** Neither more input nor room for longer varints changes a start that can be read. */
  lemma StartExtends(data: seq<byte>, more: seq<byte>, pos: nat, max: nat, wide: nat)
    requires Extends(data, more) && max <= wide && pos < |data| && ReadStart(data, pos, max).Some?
    ensures ReadStart(more, pos, wide) == ReadStart(data, pos, max)
  {
    HeadExtends(data, more, pos, max, wide);
    OperandsExtend(data, more, ReadHead(data, pos, max).value, max, wide);
  }

  /** More input lets a run go on, with `rest`; it does not change what the run has produced. */
  predicate Continues(r: Run, s: Run, rest: seq<byte>) {
    s.out == r.out + rest && (r.next.Some? ==> s == r)
  }

  lemma {:induction false} WeaveExtends(data: seq<byte>, more: seq<byte>, pos: nat, common: seq<byte>, literal: bool,
                                        size: nat, k: nat) returns (rest: seq<byte>)
    requires Extends(data, more)
    ensures Continues(Weave(data, pos, common, literal, size, k), Weave(more, pos, common, literal, size, k), rest)
    decreases k
  {
    rest := [];
    if k > 0 {
      if pos + size <= |data| {
        rest := WeaveExtends(data, more, pos + size, common, literal, size, k - 1);
        assert more[pos..pos + size] == data[pos..pos + size];
        var w := Weave(data, pos + size, common, literal, size, k - 1).out;
        Assoc(common + data[pos..pos + size], w, rest);
      } else {
        rest := WeaveShort(data, more, pos, common, literal, size, k);
      }
    }
  }

  lemma WeaveShort(data: seq<byte>, more: seq<byte>, pos: nat, common: seq<byte>, literal: bool, size: nat, k: nat)
    returns (rest: seq<byte>)
    requires Extends(data, more) && k > 0 && pos + size > |data|
    ensures Continues(Weave(data, pos, common, literal, size, k), Weave(more, pos, common, literal, size, k), rest)
  {
    var w := Weave(more, pos, common, literal, size, k);
    if pos + size > |more| {
      rest := [];
    } else if literal {
      rest := w.out;
    } else {
      rest := w.out[|common|..];
      assert w.out == common + rest;
    }
  }

  /** The same instruction seen with more input behind it. */
  ghost predicate Grown(a: Option<Announced>, b: Option<Announced>) {
    a.Some? ==> b.Some? && a.value.size == b.value.size && exists rest :: Continues(a.value.run, b.value.run, rest)
  }

  lemma AnnounceGrows(data: seq<byte>, more: seq<byte>, pos: nat)
    requires Extends(data, more) && pos < |data|
    ensures Grown(Announce(data, pos), Announce(more, pos))
  {
    var s := ReadStart(data, pos, VARINT_MAX);
    if s.Some? {
      StartExtends(data, more, pos, VARINT_MAX, VARINT_MAX);
      if s.value.shape.Mixed? {
        var rest := WeaveExtends(data, more, s.value.next, s.value.shape.common, s.value.shape.literal,
                                 s.value.shape.size, s.value.shape.k);
        assert Continues(Announce(data, pos).value.run, Announce(more, pos).value.run, rest);
      } else {
        assert Continues(Announce(data, pos).value.run, Announce(more, pos).value.run, []);
      }
    }
  }

  ghost predicate AllGrown(t: seq<Option<Announced>>, u: seq<Option<Announced>>) {
    |t| <= |u| && AllSound(t) && AllSound(u) && forall p | 0 <= p < |t| :: Grown(t[p], u[p])
  }

  lemma {:induction false} PartialFrom(t: seq<Option<Announced>>, u: seq<Option<Announced>>, pos: nat, room: nat)
    returns (rest: seq<byte>)
    requires pos <= |t| && AllGrown(t, u)
    ensures Unpack(u, pos, room).out == Unpack(t, pos, room).out + rest
    decreases |t| - pos
  {
    if room == 0 || pos == |t| || t[pos].None? || t[pos].value.size > room {
      rest := Unpack(u, pos, room).out;
    } else {
      assert Grown(t[pos], u[pos]);
      var a, b := t[pos].value.run, u[pos].value.run;
      var r :| Continues(a, b, r);
      if a.next.Some? {
        rest := PartialFrom(t, u, a.next.value, room - |a.out|);
        Assoc(a.out, Unpack(t, a.next.value, room - |a.out|).out, rest);
      } else if b.next.None? {
        rest := r;
      } else {
        var tail := Unpack(u, b.next.value, room - |b.out|).out;
        rest := r + tail;
        Assoc(a.out, r, tail);
      }
    }
  }

  /** The output on a stream is a prefix of the output on every extension of it. */
  lemma PartialIsPrefix(data: seq<byte>, ext: seq<byte>, room: nat)
    ensures Unpack(Runs(data), 0, room).out <= Unpack(Runs(data + ext), 0, room).out
  {
    var t, u := Runs(data), Runs(data + ext);
    forall p | 0 <= p < |t| ensures Grown(t[p], u[p]) {
      AnnounceGrows(data, data + ext, p);
    }
    var rest := PartialFrom(t, u, 0, room);
  }

  /** Skipping an instruction that announces no bytes drops nothing: it would read and emit nothing. */
  lemma {:induction false} SkipDropsNothing(data: seq<byte>, pos: nat, common: seq<byte>, literal: bool, size: nat, k: nat)
    requires pos <= |data| && WovenSize(|common|, size, k) == 0
    ensures Weave(data, pos, common, literal, size, k) == Run([], Some(pos))
    decreases k
  {
    if k > 0 {
      assert common == [] && size == 0;
      SkipDropsNothing(data, pos, common, literal, size, k - 1);
    }
  }

  /** The whole run is what is out and what is still to come. */
  predicate Goes(whole: Run, out: seq<byte>, rest: Run) {
    whole.out == out + rest.out && whole.next == rest.next
  }

  /** One turn of the interleaving loops. */
  lemma WeaveNext(data: seq<byte>, whole: Run, out: seq<byte>, pos: nat, common: seq<byte>, literal: bool, size: nat, k: nat)
    requires k > 0 && pos + size <= |data| && Goes(whole, out, Weave(data, pos, common, literal, size, k))
    ensures Goes(whole, out + (common + data[pos..pos + size]), Weave(data, pos + size, common, literal, size, k - 1))
  {
    Assoc(out, common + data[pos..pos + size], Weave(data, pos + size, common, literal, size, k - 1).out);
  }
}
