/** Pattern-initialized data: instructions, what they expand to, and how they are written and read. */
module PefFormat {
  import opened Words

  const VARINT_MAX := 5

  /** One instruction of the packed stream. */
  datatype Instr =
    | Zero(n: nat)
    | Block(bytes: seq<byte>)
    | Repeat(block: seq<byte>, extra: nat)                                  // the block, 1 + extra times
    | RepeatBlock(common: seq<byte>, size: nat, customs: seq<seq<byte>>)    // fresh blocks of `size` bytes
    | RepeatZero(zeros: nat, size: nat, customs: seq<seq<byte>>)

  predicate Uniform(size: nat, customs: seq<seq<byte>>) { forall c <- customs :: |c| == size }

  predicate WellFormed(i: Instr) {
    match i
    case RepeatBlock(_, size, customs) => Uniform(size, customs)
    case RepeatZero(_, size, customs) => Uniform(size, customs)
    case _ => true
  }

  function Zeros(n: nat): (z: seq<byte>)
    ensures |z| == n
  {
    seq(n, _ => 0)
  }

  function Times(b: seq<byte>, k: nat): (r: seq<byte>) {
    if k == 0 then [] else b + Times(b, k - 1)
  }

  /** The common block before, between and after the custom blocks. */
  function Interleave(common: seq<byte>, customs: seq<seq<byte>>): seq<byte> {
    if customs == [] then common else common + customs[0] + Interleave(common, customs[1..])
  }

  function Expand(i: Instr): seq<byte> {
    match i
    case Zero(n) => Zeros(n)
    case Block(b) => b
    case Repeat(b, extra) => Times(b, extra + 1)
    case RepeatBlock(common, _, customs) => Interleave(common, customs)
    case RepeatZero(zeros, _, customs) => Interleave(Zeros(zeros), customs)
  }

  function ExpandAll(prog: seq<Instr>): seq<byte> {
    if prog == [] then [] else Expand(prog[0]) + ExpandAll(prog[1..])
  }

  // ---- reading ----------------------------------------------------------------------------

  datatype Var = Var(value: nat, next: nat)

  /** Big-endian groups of seven bits, high bit set on all but the last; at most `max` bytes. */
  function Varint(data: seq<byte>, pos: nat, v: nat, max: nat): (r: Option<Var>)
    ensures r.Some? ==> pos < r.value.next <= |data|
    decreases max
  {
    if pos >= |data| || max == 0 then None
    else
      var w := v * 128 + data[pos] % 128;
      if data[pos] < 128 then Some(Var(w, pos + 1)) else Varint(data, pos + 1, w, max - 1)
  }

  datatype Part = Part(bytes: seq<byte>, next: nat)

  function Take(data: seq<byte>, pos: nat, n: nat): (r: Option<Part>)
    ensures r.Some? ==> r.value.next == pos + n <= |data| && |r.value.bytes| == n
  {
    if pos + n > |data| then None else Some(Part(data[pos..pos + n], pos + n))
  }

  datatype Head = Head(opcode: nat, value: nat, next: nat)

  /** Opcode and first operand; operand 0 means that a varint follows. */
  function ReadHead(data: seq<byte>, pos: nat, max: nat): (r: Option<Head>)
    requires pos < |data|
    ensures r.Some? ==> pos < r.value.next <= |data|
  {
    var opcode, value := data[pos] / 32, data[pos] % 32;
    if value != 0 then Some(Head(opcode, value, pos + 1))
    else
      var v := Varint(data, pos + 1, 0, max);
      if v.None? then None else Some(Head(opcode, v.value.value, v.value.next))
  }

  datatype Blocks = Blocks(customs: seq<seq<byte>>, next: nat)

  /** `k` consecutive blocks of `size` bytes. */
  function ReadCustoms(data: seq<byte>, pos: nat, size: nat, k: nat): (r: Option<Blocks>)
    ensures r.Some? ==> |r.value.customs| == k && Uniform(size, r.value.customs)
    ensures r.Some? ==> pos <= r.value.next && (pos <= |data| ==> r.value.next <= |data|)
    decreases k
  {
    if k == 0 then Some(Blocks([], pos))
    else if pos + size > |data| then None
    else
      var rest := ReadCustoms(data, pos + size, size, k - 1);
      if rest.None? then None
      else Some(Blocks([data[pos..pos + size]] + rest.value.customs, rest.value.next))
  }

  datatype Counts = Counts(size: nat, k: nat, next: nat)

  /** The custom size and the repeat count of the interleaving instructions. */
  function ReadCounts(data: seq<byte>, pos: nat, max: nat): (r: Option<Counts>)
    ensures r.Some? ==> pos < r.value.next <= |data|
  {
    var s := Varint(data, pos, 0, max);
    if s.None? then None
    else
      var k := Varint(data, s.value.next, 0, max);
      if k.None? then None else Some(Counts(s.value.value, k.value.value, k.value.next))
  }

  /** What an instruction has fixed before its custom blocks are read. */
  datatype Shape =
    | Done(instr: Instr)
    | Mixed(common: seq<byte>, literal: bool, size: nat, k: nat)

  datatype Start = Start(shape: Shape, next: nat)

  function StartBlock(data: seq<byte>, pos: nat, value: nat): (r: Option<Start>)
    ensures r.Some? ==> pos <= r.value.next <= |data|
  {
    var t := Take(data, pos, value);
    if t.None? then None else Some(Start(Done(Block(t.value.bytes)), t.value.next))
  }

  function StartRepeat(data: seq<byte>, pos: nat, value: nat, max: nat): (r: Option<Start>)
    ensures r.Some? ==> pos <= r.value.next <= |data|
  {
    var c := Varint(data, pos, 0, max);
    if c.None? then None
    else
      var t := Take(data, c.value.next, value);
      if t.None? then None else Some(Start(Done(Repeat(t.value.bytes, c.value.value)), t.value.next))
  }

  function StartRepeatBlock(data: seq<byte>, pos: nat, value: nat, max: nat): (r: Option<Start>)
    ensures r.Some? ==> pos <= r.value.next <= |data|
  {
    var c := ReadCounts(data, pos, max);
    if c.None? then None
    else
      var t := Take(data, c.value.next, value);
      if t.None? then None
      else Some(Start(Mixed(t.value.bytes, true, c.value.size, c.value.k), t.value.next))
  }

  function StartRepeatZero(data: seq<byte>, pos: nat, value: nat, max: nat): (r: Option<Start>)
    ensures r.Some? ==> pos <= r.value.next <= |data|
  {
    var c := ReadCounts(data, pos, max);
    if c.None? then None
    else Some(Start(Mixed(Zeros(value), false, c.value.size, c.value.k), c.value.next))
  }

  function StartOf(data: seq<byte>, h: Head, max: nat): (r: Option<Start>)
    requires h.next <= |data|
    ensures r.Some? ==> h.next <= r.value.next <= |data|
  {
    match h.opcode
    case 0 => Some(Start(Done(Zero(h.value)), h.next))
    case 1 => StartBlock(data, h.next, h.value)
    case 2 => StartRepeat(data, h.next, h.value, max)
    case 3 => StartRepeatBlock(data, h.next, h.value, max)
    case 4 => StartRepeatZero(data, h.next, h.value, max)
    case _ => None
  }

  /** The fixed part of the instruction at `pos`; opcodes 5 to 7 are reserved. */
  function ReadStart(data: seq<byte>, pos: nat, max: nat): (r: Option<Start>)
    requires pos < |data|
    ensures r.Some? ==> pos < r.value.next <= |data|
  {
    var h := ReadHead(data, pos, max);
    if h.None? then None else StartOf(data, h.value, max)
  }

  datatype Parsed = Parsed(instr: Instr, next: nat)

  function Finish(data: seq<byte>, s: Start): (r: Option<Parsed>)
    requires s.next <= |data|
    ensures r.Some? ==> s.next <= r.value.next <= |data|
  {
    match s.shape
    case Done(i) => Some(Parsed(i, s.next))
    case Mixed(common, literal, size, k) =>
      var cs := ReadCustoms(data, s.next, size, k);
      if cs.None? then None
      else Some(Parsed(Filled(common, literal, size, cs.value.customs), cs.value.next))
  }

  function Filled(common: seq<byte>, literal: bool, size: nat, customs: seq<seq<byte>>): Instr {
    if literal then RepeatBlock(common, size, customs) else RepeatZero(|common|, size, customs)
  }

  /** The instruction at `pos`, if it is complete and its varints have at most `max` bytes. */
  function ReadInstr(data: seq<byte>, pos: nat, max: nat): (r: Option<Parsed>)
    requires pos < |data|
    ensures r.Some? ==> pos < r.value.next <= |data|
  {
    var s := ReadStart(data, pos, max);
    if s.None? then None else Finish(data, s.value)
  }

  /** What can be read at each position of the stream. */
  function Instrs(data: seq<byte>, max: nat): (t: seq<Option<Parsed>>)
    ensures |t| == |data|
  {
    seq(|data|, p requires 0 <= p < |data| => ReadInstr(data, p, max))
  }

  /** The stream from `pos` on is a sequence of complete instructions, namely `prog`. */
  predicate Reads(t: seq<Option<Parsed>>, pos: nat, prog: seq<Instr>)
    decreases |prog|
  {
    if prog == [] then pos == |t|
    else pos < |t| && t[pos].Some? && t[pos].value.instr == prog[0] && Reads(t, t[pos].value.next, prog[1..])
  }

  /** The last instruction produces at least one byte. */
  predicate LastEmits(prog: seq<Instr>) {
    prog != [] ==> Expand(prog[|prog| - 1]) != []
  }

  // ---- writing -------------------------------------------------------------------------------

  function HighGroups(v: nat): seq<byte> {
    if v == 0 then [] else HighGroups(v / 128) + [128 + v % 128]
  }

  function WriteVarint(v: nat): seq<byte> {
    HighGroups(v / 128) + [v % 128]
  }

  /** The header byte with a small operand inside, or operand 0 and a varint. */
  function WriteHead(opcode: nat, value: nat): seq<byte>
    requires opcode <= 4
  {
    if 1 <= value <= 31 then [opcode * 32 + value] else [opcode * 32] + WriteVarint(value)
  }

  function Flatten(cs: seq<seq<byte>>): seq<byte> {
    if cs == [] then [] else cs[0] + Flatten(cs[1..])
  }

  function WriteInstr(i: Instr): seq<byte> {
    match i
    case Zero(n) => WriteHead(0, n)
    case Block(b) => WriteHead(1, |b|) + b
    case Repeat(b, extra) => WriteHead(2, |b|) + (WriteVarint(extra) + b)
    case RepeatBlock(common, size, customs) =>
      WriteHead(3, |common|) + (WriteVarint(size) + (WriteVarint(|customs|) + (common + Flatten(customs))))
    case RepeatZero(zeros, size, customs) =>
      WriteHead(4, zeros) + (WriteVarint(size) + (WriteVarint(|customs|) + Flatten(customs)))
  }

  function WriteAll(prog: seq<Instr>): seq<byte> {
    if prog == [] then [] else WriteInstr(prog[0]) + WriteAll(prog[1..])
  }

  /** A value that fits a varint of five bytes. */
  predicate Fits(v: nat) { v < 0x8_0000_0000 }

  predicate Encodable(i: Instr) {
    WellFormed(i) &&
    match i
    case Zero(n) => Fits(n)
    case Block(b) => Fits(|b|)
    case Repeat(b, extra) => Fits(|b|) && Fits(extra)
    case RepeatBlock(common, size, customs) => Fits(|common|) && Fits(size) && Fits(|customs|)
    case RepeatZero(zeros, size, customs) => Fits(zeros) && Fits(size) && Fits(|customs|)
  }

  // ---- reading back what was written ---------------------------------------------------------------

  /** `w` stands in `data` at `pos`. */
  ghost predicate Stands(data: seq<byte>, pos: nat, w: seq<byte>) {
    pos + |w| <= |data| && forall j | 0 <= j < |w| :: data[pos + j] == w[j]
  }

  lemma StandsSplit(data: seq<byte>, pos: nat, a: seq<byte>, b: seq<byte>)
    requires Stands(data, pos, a + b)
    ensures Stands(data, pos, a) && Stands(data, pos + |a|, b)
  {
    forall j | 0 <= j < |a| ensures data[pos + j] == a[j] {
      assert (a + b)[j] == a[j];
    }
    forall j | 0 <= j < |b| ensures data[pos + |a| + j] == b[j] {
      assert (a + b)[|a| + j] == b[j];
    }
  }

  lemma StandsByte(data: seq<byte>, pos: nat, b: byte)
    requires Stands(data, pos, [b])
    ensures pos < |data| && data[pos] == b
  {
    assert data[pos + 0] == [b][0];
  }

  lemma TakeBack(data: seq<byte>, pos: nat, w: seq<byte>)
    requires Stands(data, pos, w)
    ensures Take(data, pos, |w|) == Some(Part(w, pos + |w|))
  {
    assert data[pos..pos + |w|] == w;
  }

  /** Reading the high groups of `v` shifts them in front of what follows. */
  lemma {:induction false} ReadHighGroups(data: seq<byte>, pos: nat, v: nat, last: byte, max: nat)
    requires last < 128 && Stands(data, pos, HighGroups(v) + [last]) && |HighGroups(v)| < max
    ensures Varint(data, pos, 0, max) == Some(Var(v * 128 + last, pos + |HighGroups(v)| + 1))
  {
    StandsSplit(data, pos, HighGroups(v), [last]);
    Groups(data, pos, v, max);
    StandsByte(data, pos + |HighGroups(v)|, last);
  }

  lemma {:induction false} Groups(data: seq<byte>, pos: nat, v: nat, max: nat)
    requires Stands(data, pos, HighGroups(v)) && |HighGroups(v)| <= max
    ensures Varint(data, pos, 0, max) == Varint(data, pos + |HighGroups(v)|, v, max - |HighGroups(v)|)
  {
    if v > 0 {
      StandsSplit(data, pos, HighGroups(v / 128), [128 + v % 128]);
      Groups(data, pos, v / 128, max);
      StandsByte(data, pos + |HighGroups(v / 128)|, 128 + v % 128);
      assert (128 + v % 128) % 128 == v % 128;
    }
  }

  lemma {:induction false} GroupCount(v: nat, k: nat)
    requires v < Pow2(7 * k)
    ensures |HighGroups(v)| <= k
  {
    if v > 0 {
      if k == 0 { assert false; }
      Pow2Add(7, 7 * (k - 1));
      assert Pow2(7) == 128;
      assert v / 128 < Pow2(7 * (k - 1));
      GroupCount(v / 128, k - 1);
    }
  }

  lemma PowSeven()
    ensures Pow2(7) == 128 && Pow2(14) == 0x4000
  {
    assert Pow2(3) == 8;
    Pow2Add(3, 4);
    Pow2Add(7, 7);
  }

  lemma VarintLimits()
    ensures Pow2(7) == 128 && Pow2(28) == 0x1000_0000 && Pow2(35) == 0x8_0000_0000
  {
    PowSeven();
    Pow2Add(14, 14);
    Pow2Add(28, 7);
  }

  /** A value that fits is read back from its varint. */
  lemma ReadVarint(data: seq<byte>, pos: nat, v: nat)
    requires Fits(v) && Stands(data, pos, WriteVarint(v))
    ensures Varint(data, pos, 0, VARINT_MAX) == Some(Var(v, pos + |WriteVarint(v)|))
  {
    VarintLimits();
    GroupCount(v / 128, 4);
    ReadHighGroups(data, pos, v / 128, v % 128, VARINT_MAX);
  }

  lemma ReadHeadBack(data: seq<byte>, pos: nat, opcode: nat, value: nat)
    requires opcode <= 4 && Fits(value) && Stands(data, pos, WriteHead(opcode, value))
    ensures pos < |data|
    ensures ReadHead(data, pos, VARINT_MAX) == Some(Head(opcode, value, pos + |WriteHead(opcode, value)|))
  {
    if 1 <= value <= 31 {
      StandsByte(data, pos, opcode * 32 + value);
    } else {
      StandsSplit(data, pos, [opcode * 32], WriteVarint(value));
      StandsByte(data, pos, opcode * 32);
      ReadVarint(data, pos + 1, value);
    }
  }

  /** The blocks `cs` are read at `pos`, ending at `next`. */
  predicate Customs(data: seq<byte>, pos: nat, size: nat, cs: seq<seq<byte>>, next: nat) {
    var r := ReadCustoms(data, pos, size, |cs|);
    r.Some? && r.value.customs == cs && r.value.next == next
  }

  lemma CustomsStep(data: seq<byte>, pos: nat, size: nat, cs: seq<seq<byte>>, next: nat)
    requires cs != [] && Stands(data, pos, cs[0]) && |cs[0]| == size && Customs(data, pos + size, size, cs[1..], next)
    ensures Customs(data, pos, size, cs, next)
  {
    TakeBack(data, pos, cs[0]);
    assert [cs[0]] + cs[1..] == cs;
  }

  lemma {:induction false} ReadCustomsBack(data: seq<byte>, pos: nat, size: nat, cs: seq<seq<byte>>)
    requires Uniform(size, cs) && Stands(data, pos, Flatten(cs))
    ensures Customs(data, pos, size, cs, pos + |Flatten(cs)|)
    decreases |cs|
  {
    if cs != [] {
      StandsSplit(data, pos, cs[0], Flatten(cs[1..]));
      assert |cs[0]| == size by { assert cs[0] in cs; }
      ReadCustomsBack(data, pos + size, size, cs[1..]);
      CustomsStep(data, pos, size, cs, pos + size + |Flatten(cs[1..])|);
    }
  }

  /** The varint `v` is read at `pos`, ending at `next`. */
  predicate Codes(data: seq<byte>, pos: nat, v: nat, next: nat) {
    var r := Varint(data, pos, 0, VARINT_MAX);
    r.Some? && r.value.value == v && r.value.next == next
  }

  predicate Heads(data: seq<byte>, pos: nat, opcode: nat, value: nat, next: nat) {
    pos < |data| &&
    var r := ReadHead(data, pos, VARINT_MAX);
    r.Some? && r.value.opcode == opcode && r.value.value == value && r.value.next == next
  }

  predicate Instructs(data: seq<byte>, pos: nat, i: Instr, next: nat) {
    pos < |data| &&
    var r := ReadInstr(data, pos, VARINT_MAX);
    r.Some? && r.value.instr == i && r.value.next == next
  }

  /** Each opcode: from its operands, one after the other, to the instruction. */
  lemma ReadZeroBack(data: seq<byte>, pos: nat, n: nat, next: nat)
    requires Heads(data, pos, 0, n, next)
    ensures Instructs(data, pos, Zero(n), next)
  {
  }

  lemma ReadBlockBack(data: seq<byte>, pos: nat, b: seq<byte>, p: nat)
    requires Heads(data, pos, 1, |b|, p) && Stands(data, p, b)
    ensures Instructs(data, pos, Block(b), p + |b|)
  {
    TakeBack(data, p, b);
  }

  lemma ReadRepeatBack(data: seq<byte>, pos: nat, b: seq<byte>, p: nat, extra: nat, q: nat)
    requires Heads(data, pos, 2, |b|, p) && Codes(data, p, extra, q) && Stands(data, q, b)
    ensures Instructs(data, pos, Repeat(b, extra), q + |b|)
  {
    TakeBack(data, q, b);
  }

  lemma ReadRepeatBlockBack(data: seq<byte>, pos: nat, b: seq<byte>, p: nat, size: nat, q: nat, k: nat, r: nat,
                            customs: seq<seq<byte>>, next: nat)
    requires Heads(data, pos, 3, |b|, p) && Codes(data, p, size, q) && Codes(data, q, k, r) && Stands(data, r, b)
    requires |customs| == k && Customs(data, r + |b|, size, customs, next)
    ensures Instructs(data, pos, RepeatBlock(b, size, customs), next)
  {
    TakeBack(data, r, b);
  }

  lemma ReadRepeatZeroBack(data: seq<byte>, pos: nat, zeros: nat, p: nat, size: nat, q: nat, k: nat, r: nat,
                           customs: seq<seq<byte>>, next: nat)
    requires Heads(data, pos, 4, zeros, p) && Codes(data, p, size, q) && Codes(data, q, k, r)
    requires |customs| == k && Customs(data, r, size, customs, next)
    ensures Instructs(data, pos, RepeatZero(zeros, size, customs), next)
  {
  }

  lemma HeadThen(data: seq<byte>, pos: nat, opcode: nat, value: nat, rest: seq<byte>)
    requires opcode <= 4 && Fits(value) && Stands(data, pos, WriteHead(opcode, value) + rest)
    ensures Heads(data, pos, opcode, value, pos + |WriteHead(opcode, value)|)
    ensures Stands(data, pos + |WriteHead(opcode, value)|, rest)
  {
    StandsSplit(data, pos, WriteHead(opcode, value), rest);
    ReadHeadBack(data, pos, opcode, value);
  }

  lemma VarintThen(data: seq<byte>, pos: nat, v: nat, rest: seq<byte>)
    requires Fits(v) && Stands(data, pos, WriteVarint(v) + rest)
    ensures Codes(data, pos, v, pos + |WriteVarint(v)|) && Stands(data, pos + |WriteVarint(v)|, rest)
  {
    StandsSplit(data, pos, WriteVarint(v), rest);
    ReadVarint(data, pos, v);
  }

  lemma BlockBack(data: seq<byte>, pos: nat, b: seq<byte>)
    requires Fits(|b|) && Stands(data, pos, WriteHead(1, |b|) + b)
    ensures Instructs(data, pos, Block(b), pos + |WriteHead(1, |b|)| + |b|)
  {
    HeadThen(data, pos, 1, |b|, b);
    ReadBlockBack(data, pos, b, pos + |WriteHead(1, |b|)|);
  }

  lemma RepeatBack(data: seq<byte>, pos: nat, b: seq<byte>, extra: nat)
    requires Fits(|b|) && Fits(extra) && Stands(data, pos, WriteHead(2, |b|) + (WriteVarint(extra) + b))
    ensures Instructs(data, pos, Repeat(b, extra), pos + |WriteHead(2, |b|)| + |WriteVarint(extra)| + |b|)
  {
    var p := pos + |WriteHead(2, |b|)|;
    HeadThen(data, pos, 2, |b|, WriteVarint(extra) + b);
    VarintThen(data, p, extra, b);
    ReadRepeatBack(data, pos, b, p, extra, p + |WriteVarint(extra)|);
  }

  /** Head, custom size and count of the two interleaving instructions, one after the other. */
  lemma MixedThen(data: seq<byte>, pos: nat, opcode: nat, value: nat, size: nat, k: nat, rest: seq<byte>)
    returns (p: nat, q: nat, r: nat)
    requires opcode <= 4 && Fits(value) && Fits(size) && Fits(k)
    requires Stands(data, pos, WriteHead(opcode, value) + (WriteVarint(size) + (WriteVarint(k) + rest)))
    ensures Heads(data, pos, opcode, value, p) && Codes(data, p, size, q) && Codes(data, q, k, r)
    ensures Stands(data, r, rest)
    ensures r == pos + |WriteHead(opcode, value)| + |WriteVarint(size)| + |WriteVarint(k)|
  {
    p := pos + |WriteHead(opcode, value)|;
    q := p + |WriteVarint(size)|;
    r := q + |WriteVarint(k)|;
    HeadThen(data, pos, opcode, value, WriteVarint(size) + (WriteVarint(k) + rest));
    VarintThen(data, p, size, WriteVarint(k) + rest);
    VarintThen(data, q, k, rest);
  }

  lemma CommonThen(data: seq<byte>, pos: nat, b: seq<byte>, size: nat, customs: seq<seq<byte>>)
    requires Uniform(size, customs) && Stands(data, pos, b + Flatten(customs))
    ensures Stands(data, pos, b) && Customs(data, pos + |b|, size, customs, pos + |b| + |Flatten(customs)|)
  {
    StandsSplit(data, pos, b, Flatten(customs));
    ReadCustomsBack(data, pos + |b|, size, customs);
  }

  lemma RepeatBlockBack(data: seq<byte>, pos: nat, b: seq<byte>, size: nat, customs: seq<seq<byte>>)
    requires Fits(|b|) && Fits(size) && Fits(|customs|) && Uniform(size, customs)
    requires Stands(data, pos,
                    WriteHead(3, |b|) + (WriteVarint(size) + (WriteVarint(|customs|) + (b + Flatten(customs)))))
    ensures Instructs(data, pos, RepeatBlock(b, size, customs),
                      pos + |WriteHead(3, |b|)| + |WriteVarint(size)| + |WriteVarint(|customs|)| + |b| + |Flatten(customs)|)
  {
    var p, q, r := MixedThen(data, pos, 3, |b|, size, |customs|, b + Flatten(customs));
    CommonThen(data, r, b, size, customs);
    ReadRepeatBlockBack(data, pos, b, p, size, q, |customs|, r, customs, r + |b| + |Flatten(customs)|);
  }

  lemma RepeatZeroBack(data: seq<byte>, pos: nat, zeros: nat, size: nat, customs: seq<seq<byte>>)
    requires Fits(zeros) && Fits(size) && Fits(|customs|) && Uniform(size, customs)
    requires Stands(data, pos, WriteHead(4, zeros) + (WriteVarint(size) + (WriteVarint(|customs|) + Flatten(customs))))
    ensures Instructs(data, pos, RepeatZero(zeros, size, customs),
                      pos + |WriteHead(4, zeros)| + |WriteVarint(size)| + |WriteVarint(|customs|)| + |Flatten(customs)|)
  {
    var p, q, r := MixedThen(data, pos, 4, zeros, size, |customs|, Flatten(customs));
    ReadCustomsBack(data, r, size, customs);
    ReadRepeatZeroBack(data, pos, zeros, p, size, q, |customs|, r, customs, r + |Flatten(customs)|);
  }

  /** The instruction reader inverts the writer. */
  lemma ReadInstrBack(data: seq<byte>, pos: nat, i: Instr)
    requires Encodable(i) && Stands(data, pos, WriteInstr(i))
    ensures Instructs(data, pos, i, pos + |WriteInstr(i)|)
  {
    match i
    case Zero(n) =>
      ReadHeadBack(data, pos, 0, n);
      ReadZeroBack(data, pos, n, pos + |WriteHead(0, n)|);
    case Block(b) => BlockBack(data, pos, b);
    case Repeat(b, extra) => RepeatBack(data, pos, b, extra);
    case RepeatBlock(b, size, customs) => RepeatBlockBack(data, pos, b, size, customs);
    case RepeatZero(zeros, size, customs) => RepeatZeroBack(data, pos, zeros, size, customs);
  }

  lemma InstrThen(data: seq<byte>, pos: nat, i: Instr, rest: seq<byte>) returns (next: nat)
    requires Encodable(i) && Stands(data, pos, WriteInstr(i) + rest)
    ensures Instructs(data, pos, i, next) && Stands(data, next, rest) && next == pos + |WriteInstr(i)|
  {
    next := StandsThen(data, pos, WriteInstr(i), rest);
    ReadInstrBack(data, pos, i);
  }

  lemma StandsThen(data: seq<byte>, pos: nat, w: seq<byte>, rest: seq<byte>) returns (next: nat)
    requires Stands(data, pos, w + rest)
    ensures Stands(data, pos, w) && Stands(data, next, rest) && next == pos + |w|
  {
    StandsSplit(data, pos, w, rest);
    next := pos + |w|;
  }

  predicate AllEncodable(prog: seq<Instr>) { forall i <- prog :: Encodable(i) }

  /** Reading a written program gives the program back. */
  lemma {:induction false} ReadAllBack(data: seq<byte>, pos: nat, prog: seq<Instr>)
    requires AllEncodable(prog) && pos + |WriteAll(prog)| == |data| && Stands(data, pos, WriteAll(prog))
    ensures Reads(Instrs(data, VARINT_MAX), pos, prog)
    decreases |prog|
  {
    if prog != [] {
      assert AllEncodable(prog[1..]) && Encodable(prog[0]);
      var next := InstrThen(data, pos, prog[0], WriteAll(prog[1..]));
      ReadAllBack(data, next, prog[1..]);
      ReadsStep(Instrs(data, VARINT_MAX), pos, prog, next);
    }
  }

  lemma ReadsStep(t: seq<Option<Parsed>>, pos: nat, prog: seq<Instr>, next: nat)
    requires prog != [] && pos < |t| && t[pos].Some? && t[pos].value.instr == prog[0] && t[pos].value.next == next
    requires Reads(t, next, prog[1..])
    ensures Reads(t, pos, prog)
  {
  }
}
