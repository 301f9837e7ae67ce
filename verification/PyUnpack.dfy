/** The Python decompressor: the same instructions with varints of any length and no partial results. */
module PyUnpack {
  import opened Words
  import opened PefFormat
  import opened PefUnpack

  /** More than the varints of `data` can be long. */
  function Unbounded(data: seq<byte>): nat { |data| + VARINT_MAX }

  predicate Forward(u: seq<Option<Parsed>>) {
    forall p | 0 <= p < |u| && u[p].Some? :: p < u[p].value.next <= |u|
  }

  lemma InstrsForward(data: seq<byte>, max: nat)
    ensures Forward(Instrs(data, max))
  {
  }

  /** The loop runs until the output is long enough and then checks both lengths. */
  function Decode(u: seq<Option<Parsed>>, pos: nat, room: int): (r: Option<seq<byte>>)
    requires pos <= |u| && Forward(u)
    decreases |u| - pos
  {
    if room <= 0 then if room == 0 && pos == |u| then Some([]) else None
    else if pos == |u| || u[pos].None? then None
    else
      var out := Expand(u[pos].value.instr);
      var rest := Decode(u, u[pos].value.next, room - |out|);
      if rest.None? then None else Some(out + rest.value)
  }

  lemma {:induction false} DecodedIsProgram(u: seq<Option<Parsed>>, pos: nat, room: int) returns (prog: seq<Instr>)
    requires pos <= |u| && Forward(u) && Decode(u, pos, room).Some?
    ensures Exact(u, pos, room, prog) && Decode(u, pos, room).value == ExpandAll(prog)
    decreases |u| - pos
  {
    if room == 0 {
      prog := [];
    } else {
      var i := u[pos].value;
      var rest := DecodedIsProgram(u, i.next, room - |Expand(i.instr)|);
      prog := [i.instr] + rest;
      Prepend(u, pos, room, i, rest);
    }
  }

  lemma {:induction false} ProgramIsDecoded(u: seq<Option<Parsed>>, pos: nat, room: nat, prog: seq<Instr>)
    requires pos <= |u| && Forward(u) && Exact(u, pos, room, prog)
    ensures Decode(u, pos, room) == Some(ExpandAll(prog))
    decreases |prog|
  {
    if prog != [] {
      LastEmitsSome(prog);
      ProgramIsDecoded(u, u[pos].value.next, room - |Expand(prog[0])|, prog[1..]);
    }
  }

  /** Without the space check before each instruction, the same programs are accepted. */
  lemma PyExactness(u: seq<Option<Parsed>>, room: nat, out: seq<byte>)
    requires Forward(u)
    ensures Decode(u, 0, room) == Some(out) <==> Decodes(u, room, out)
  {
    if Decode(u, 0, room) == Some(out) {
      var prog := DecodedIsProgram(u, 0, room);
      assert Exact(u, 0, room, prog) && out == ExpandAll(prog);
    }
    if prog :| Exact(u, 0, room, prog) && out == ExpandAll(prog) {
      ProgramIsDecoded(u, 0, room, prog);
    }
  }

  // ---- agreement with the Rust decoder -----------------------------------------------------

  lemma WiderInstr(data: seq<byte>, pos: nat, max: nat, wide: nat)
    requires pos < |data| && max <= wide && ReadInstr(data, pos, max).Some?
    ensures ReadInstr(data, pos, wide) == ReadInstr(data, pos, max)
  {
    StartExtends(data, data, pos, max, wide);
  }

  /** `w` reads at least what `u` reads. */
  predicate Wider(u: seq<Option<Parsed>>, w: seq<Option<Parsed>>) {
    |u| == |w| && forall p | 0 <= p < |u| && u[p].Some? :: w[p] == u[p]
  }

  lemma InstrsWider(data: seq<byte>, max: nat, wide: nat)
    requires max <= wide
    ensures Wider(Instrs(data, max), Instrs(data, wide))
  {
    forall p | 0 <= p < |data| && Instrs(data, max)[p].Some? ensures Instrs(data, wide)[p] == Instrs(data, max)[p] {
      WiderInstr(data, p, max, wide);
    }
  }

  lemma {:induction false} ReadsWider(u: seq<Option<Parsed>>, w: seq<Option<Parsed>>, pos: nat, prog: seq<Instr>)
    requires Wider(u, w) && Reads(u, pos, prog)
    ensures Reads(w, pos, prog)
    decreases |prog|
  {
    if prog != [] { ReadsWider(u, w, u[pos].value.next, prog[1..]); }
  }

  /** A stream is at most one program. */
  lemma {:induction false} ReadsUnique(u: seq<Option<Parsed>>, pos: nat, a: seq<Instr>, b: seq<Instr>)
    requires Reads(u, pos, a) && Reads(u, pos, b)
    ensures a == b
    decreases |a|
  {
    if a != [] { ReadsUnique(u, u[pos].value.next, a[1..], b[1..]); }
  }

  /** The stream is a sequence of complete instructions. */
  ghost predicate Parses(u: seq<Option<Parsed>>) {
    exists prog :: Reads(u, 0, prog)
  }

  lemma DecodesAgree(u: seq<Option<Parsed>>, w: seq<Option<Parsed>>, room: nat, out: seq<byte>)
    requires Wider(u, w)
    ensures Decodes(u, room, out) <==> Decodes(w, room, out) && Parses(u)
  {
    if prog :| Exact(u, 0, room, prog) && out == ExpandAll(prog) {
      ReadsWider(u, w, 0, prog);
      assert Exact(w, 0, room, prog) && Reads(u, 0, prog);
    }
    if prog :| Exact(w, 0, room, prog) && out == ExpandAll(prog) {
      if q :| Reads(u, 0, q) {
        ReadsWider(u, w, 0, q);
        ReadsUnique(w, 0, prog, q);
        assert Exact(u, 0, room, prog);
      }
    }
  }

  lemma TablesAgreement(t: seq<Option<Announced>>, u: seq<Option<Parsed>>, w: seq<Option<Parsed>>, room: nat, out: seq<byte>)
    requires Tables(t, u) && Wider(u, w) && Forward(w)
    ensures PefUnpack.Unpack(t, 0, room) == Outcome(out, true) <==> Decode(w, 0, room) == Some(out) && Parses(u)
  {
    TableExactness(t, u, room, out);
    PyExactness(w, room, out);
    DecodesAgree(u, w, room, out);
  }

  /** The Rust decoder accepts what the Python decoder accepts, with the same output, exactly when
      every varint of the stream has at most five bytes. */
  lemma Agreement(data: seq<byte>, room: nat, out: seq<byte>)
    ensures Forward(Instrs(data, Unbounded(data)))
    ensures PefUnpack.Unpack(Runs(data), 0, room) == Outcome(out, true)
       <==> Decode(Instrs(data, Unbounded(data)), 0, room) == Some(out) && Parses(Instrs(data, VARINT_MAX))
  {
    InstrsForward(data, Unbounded(data));
    TablesAgree(data);
    InstrsWider(data, VARINT_MAX, Unbounded(data));
    TablesAgreement(Runs(data), Instrs(data, VARINT_MAX), Instrs(data, Unbounded(data)), room, out);
  }

  /** The condition is needed: a varint of six bytes is read by one decoder and refused by the other. */
  lemma SixByteVarint(data: seq<byte>)
    requires data == [0, 128, 128, 128, 128, 128, 1]
    ensures Forward(Instrs(data, Unbounded(data))) && Decode(Instrs(data, Unbounded(data)), 0, 1) == Some([0])
    ensures PefUnpack.Unpack(Runs(data), 0, 1) == Outcome([], false)
  {
    assert Varint(data, 5, 0, 8) == Some(Var(1, 7));
    assert Varint(data, 3, 0, 10) == Some(Var(1, 7));
    assert Varint(data, 1, 0, 12) == Some(Var(1, 7));
    InstrsForward(data, 12);
    ZeroOne(Instrs(data, 12));
    assert Varint(data, 5, 0, 1).None?;
    assert Varint(data, 3, 0, 3).None?;
    assert Varint(data, 1, 0, 5).None?;
    NothingRead(Runs(data), 1);
  }

  lemma NothingRead(t: seq<Option<Announced>>, room: nat)
    requires |t| > 0 && AllSound(t) && t[0].None? && room > 0
    ensures PefUnpack.Unpack(t, 0, room) == Outcome([], false)
  {
  }

  lemma ZeroOne(u: seq<Option<Parsed>>)
    requires |u| == 7 && Forward(u) && u[0] == Some(Parsed(Zero(1), 7))
    ensures Decode(u, 0, 1) == Some([0])
  {
    var out := Expand(u[0].value.instr);
    assert out == [0];
    assert Decode(u, 7, 1 - |out|) == Some([]);
    assert out + [] == [0];
  }

  // ---- the loops -------------------------------------------------------------------------------

  method ReadNextValue(data: seq<byte>, start: nat) returns (r: Option<Var>)
    ensures r == Varint(data, start, 0, Unbounded(data))
  {
    var pos: nat, v: nat := start, 0;
    while true
      invariant start <= pos && (pos > start ==> pos <= |data|)
      invariant Varint(data, start, 0, Unbounded(data)) == Varint(data, pos, v, Unbounded(data) - (pos - start))
      decreases |data| - pos
    {
      if pos >= |data| { return None; }
      var b := data[pos];
      pos := pos + 1;
      v := v * 128 + b % 128;
      if b < 128 { return Some(Var(v, pos)); }
    }
  }

  /** What one instruction contributes and where the next one starts. */
  datatype Piece = Piece(out: seq<byte>, next: nat)

  function PieceOf(r: Run): Option<Piece> {
    if r.next.None? then None else Some(Piece(r.out, r.next.value))
  }

  method Repeated(block: seq<byte>, count: nat) returns (out: seq<byte>)
    ensures out == Times(block, count + 1)
  {
    out := [];
    var i: nat := 0;
    while i < count + 1
      invariant i <= count + 1 && Times(block, count + 1) == out + Times(block, count + 1 - i)
    {
      Assoc(out, block, Times(block, count - i));
      out := out + block;
      i := i + 1;
    }
  }

  method Woven(data: seq<byte>, start: nat, common: seq<byte>, literal: bool, size: nat, k: nat) returns (r: Option<Piece>)
    requires start <= |data|
    ensures r == PieceOf(Weave(data, start, common, literal, size, k))
  {
    ghost var whole := Weave(data, start, common, literal, size, k);
    var out, pos: nat, i: nat := [], start, 0;
    while i < k
      invariant i <= k && pos <= |data|
      invariant Goes(whole, out, Weave(data, pos, common, literal, size, k - i))
    {
      if pos + size > |data| { return None; }
      WeaveNext(data, whole, out, pos, common, literal, size, k - i);
      var more := common + data[pos..pos + size];
      out := out + more;
      pos := pos + size;
      i := i + 1;
    }
    r := Some(Piece(out + common, pos));
  }

  method ReadN(data: seq<byte>, pos: nat, n: nat) returns (r: Option<Part>)
    ensures r == Take(data, pos, n)
  {
    if pos + n > |data| { return None; }
    r := Some(Part(data[pos..pos + n], pos + n));
  }

  method CountsAt(data: seq<byte>, pos: nat) returns (r: Option<Counts>)
    ensures r == ReadCounts(data, pos, Unbounded(data))
  {
    var s := ReadNextValue(data, pos);
    if s.None? { return None; }
    var k := ReadNextValue(data, s.value.next);
    if k.None? { return None; }
    r := Some(Counts(s.value.value, k.value.value, k.value.next));
  }

  /** Which instruction a result is the piece of. */
  ghost predicate Makes(r: Option<Piece>, i: Option<Parsed>) {
    && (r.Some? <==> i.Some?)
    && (r.Some? ==> r.value.out == Expand(i.value.instr) && r.value.next == i.value.next)
  }

  function Completed(data: seq<byte>, s: Option<Start>): Option<Parsed>
    requires s.Some? ==> s.value.next <= |data|
  {
    if s.None? then None else Finish(data, s.value)
  }

  method RepeatAt(data: seq<byte>, pos: nat, value: nat) returns (r: Option<Piece>)
    ensures Makes(r, Completed(data, StartRepeat(data, pos, value, Unbounded(data))))
  {
    var count := ReadNextValue(data, pos);
    if count.None? { return None; }
    var block := ReadN(data, count.value.next, value);
    if block.None? { return None; }
    var out := Repeated(block.value.bytes, count.value.value);
    r := Some(Piece(out, block.value.next));
  }

  lemma MakesWoven(data: seq<byte>, s: Start)
    requires s.next <= |data| && s.shape.Mixed?
    requires !s.shape.literal ==> s.shape.common == Zeros(|s.shape.common|)
    ensures Makes(PieceOf(Weave(data, s.next, s.shape.common, s.shape.literal, s.shape.size, s.shape.k)),
                  Completed(data, Some(s)))
  {
    EmitIsExpand(data, s);
  }

  method RepeatBlockAt(data: seq<byte>, pos: nat, value: nat) returns (r: Option<Piece>)
    ensures Makes(r, Completed(data, StartRepeatBlock(data, pos, value, Unbounded(data))))
  {
    var c := CountsAt(data, pos);
    if c.None? { return None; }
    var common := ReadN(data, c.value.next, value);
    if common.None? { return None; }
    r := Woven(data, common.value.next, common.value.bytes, true, c.value.size, c.value.k);
    MakesWoven(data, Start(Mixed(common.value.bytes, true, c.value.size, c.value.k), common.value.next));
  }

  method RepeatZeroAt(data: seq<byte>, pos: nat, value: nat) returns (r: Option<Piece>)
    ensures Makes(r, Completed(data, StartRepeatZero(data, pos, value, Unbounded(data))))
  {
    var c := CountsAt(data, pos);
    if c.None? { return None; }
    r := Woven(data, c.value.next, Zeros(value), false, c.value.size, c.value.k);
    MakesWoven(data, Start(Mixed(Zeros(value), false, c.value.size, c.value.k), c.value.next));
  }

  method OperandsAt(data: seq<byte>, h: Head) returns (r: Option<Piece>)
    requires h.next <= |data|
    ensures Makes(r, Completed(data, StartOf(data, h, Unbounded(data))))
  {
    if h.opcode == 0 {
      r := Some(Piece(Zeros(h.value), h.next));
    } else if h.opcode == 1 {
      var block := ReadN(data, h.next, h.value);
      r := if block.None? then None else Some(Piece(block.value.bytes, block.value.next));
    } else if h.opcode == 2 {
      r := RepeatAt(data, h.next, h.value);
    } else if h.opcode == 3 {
      r := RepeatBlockAt(data, h.next, h.value);
    } else if h.opcode == 4 {
      r := RepeatZeroAt(data, h.next, h.value);
    } else {
      r := None;
    }
  }

  method InstructionAt(data: seq<byte>, pos: nat) returns (r: Option<Piece>)
    requires pos < |data|
    ensures Makes(r, ReadInstr(data, pos, Unbounded(data)))
  {
    var h := Head(data[pos] / 32, data[pos] % 32, pos + 1);
    if h.value == 0 {
      var v := ReadNextValue(data, pos + 1);
      if v.None? { return None; }
      h := Head(h.opcode, v.value.value, v.value.next);
    }
    r := OperandsAt(data, h);
    InstrIsCompleted(data, pos, h);
  }

  lemma InstrIsCompleted(data: seq<byte>, pos: nat, h: Head)
    requires pos < |data| && ReadHead(data, pos, Unbounded(data)) == Some(h)
    ensures ReadInstr(data, pos, Unbounded(data)) == Completed(data, StartOf(data, h, Unbounded(data)))
  {
  }

  /** `u` is the instruction table of `data`. */
  ghost predicate TableOf(data: seq<byte>, u: seq<Option<Parsed>>) {
    && |u| == |data| && Forward(u)
    && forall p {:trigger ReadInstr(data, p, Unbounded(data))} | 0 <= p < |data| :: u[p] == ReadInstr(data, p, Unbounded(data))
  }

  lemma InstrsIsTable(data: seq<byte>)
    ensures TableOf(data, Instrs(data, Unbounded(data)))
  {
  }

  method PieceAt(data: seq<byte>, ghost u: seq<Option<Parsed>>, pos: nat) returns (r: Option<Piece>)
    requires pos < |data| && TableOf(data, u)
    ensures Makes(r, u[pos])
  {
    r := InstructionAt(data, pos);
  }

  /** What the loop has gathered and what the rest of the stream decodes to. */
  predicate Gathers(whole: Option<seq<byte>>, out: seq<byte>, rest: Option<seq<byte>>) {
    && (whole.Some? <==> rest.Some?)
    && (whole.Some? ==> whole.value == out + rest.value)
  }

  lemma GatherNext(u: seq<Option<Parsed>>, whole: Option<seq<byte>>, out: seq<byte>, pos: nat, room: int, r: Option<Piece>)
    requires pos < |u| && Forward(u) && room > 0 && Makes(r, u[pos]) && Gathers(whole, out, Decode(u, pos, room))
    ensures r.None? ==> whole.None?
    ensures r.Some? ==> pos < r.value.next <= |u|
    ensures r.Some? ==> Gathers(whole, out + r.value.out, Decode(u, r.value.next, room - |r.value.out|))
  {
    if r.Some? {
      var rest := Decode(u, r.value.next, room - |r.value.out|);
      if rest.Some? { Assoc(out, r.value.out, rest.value); }
    }
  }

  method UnpackTable(data: seq<byte>, ghost u: seq<Option<Parsed>>, outLen: int) returns (r: Option<seq<byte>>)
    requires TableOf(data, u)
    ensures r == Decode(u, 0, outLen)
  {
    ghost var whole := Decode(u, 0, outLen);
    var out: seq<byte>, pos: nat := [], 0;
    while |out| < outLen
      invariant pos <= |data|
      invariant Gathers(whole, out, Decode(u, pos, outLen - |out|))
      decreases |data| - pos
    {
      if pos >= |data| { return None; }
      var p := PieceAt(data, u, pos);
      GatherNext(u, whole, out, pos, outLen - |out|, p);
      if p.None? { return None; }
      out := out + p.value.out;
      pos := p.value.next;
    }
    if |out| > outLen || pos != |data| { return None; }
    assert out + [] == out;
    r := Some(out);
  }

  /** The decoder answers with the expansion of the program the stream is, if it is one of that length. */
  method Unpack(data: seq<byte>, outLen: nat) returns (r: Option<seq<byte>>)
    ensures forall out :: r == Some(out) <==> Decodes(Instrs(data, Unbounded(data)), outLen, out)
  {
    InstrsIsTable(data);
    r := UnpackTable(data, Instrs(data, Unbounded(data)), outLen);
    forall out ensures r == Some(out) <==> Decodes(Instrs(data, Unbounded(data)), outLen, out) {
      PyExactness(Instrs(data, Unbounded(data)), outLen, out);
    }
  }
}
