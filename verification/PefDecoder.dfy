/** The loops of the Rust decompressor, proved against PefUnpack. Indices and sizes are 64-bit
    `usize` values; slices and vectors hold at most `isize::MAX` bytes. */
module PefDecoder {
  import opened Words
  import opened PefFormat
  import opened PefUnpack

  const ISIZE_LIMIT := 0x8000_0000_0000_0000
  const USIZE_LIMIT := 0x1_0000_0000_0000_0000

  lemma {:induction false} TimesLength(b: seq<byte>, k: nat)
    ensures |Times(b, k)| == k * |b|
  {
    if k > 0 { TimesLength(b, k - 1); }
  }

  lemma {:induction false} TimesSnoc(b: seq<byte>, k: nat)
    ensures Times(b, k) + b == Times(b, k + 1)
  {
    if k > 0 {
      TimesSnoc(b, k - 1);
      Assoc(b, Times(b, k - 1), b);
    }
  }

  lemma {:induction false} WovenLength(common: nat, size: nat, k: nat)
    ensures WovenSize(common, size, k) == k * (common + size) + common
  {
    if k > 0 {
      WovenLength(common, size, k - 1);
      assert k * (common + size) == (k - 1) * (common + size) + (common + size);
    }
  }

  /** Five groups of seven bits at most, so the value stays far below the overflow check. */
  method ReadVar(data: seq<byte>, start: nat) returns (r: Option<Var>)
    ensures r == Varint(data, start, 0, VARINT_MAX)
    ensures r.Some? ==> r.value.value < 0x8_0000_0000
  {
    var pos: nat, v: nat, count: nat := start, 0, 0;
    while true
      invariant count <= 4 && v < Pow2(7 * count)
      invariant Varint(data, start, 0, VARINT_MAX) == Varint(data, pos, v, VARINT_MAX - count)
      decreases 5 - count
    {
      if pos >= |data| { return None; }
      var b := data[pos];
      VarintStep(data, pos, v, VARINT_MAX - count);
      pos := pos + 1;
      VarBound(v, b, count);
      if v * 128 + b % 128 >= USIZE_LIMIT { assert false; }
      v := v * 128 + b % 128;
      if b < 128 { return Some(Var(v, pos)); }
      count := count + 1;
      if count > 4 { return None; }
    }
  }

  lemma VarintStep(data: seq<byte>, pos: nat, v: nat, left: nat)
    requires pos < |data| && left >= 1
    ensures Varint(data, pos, v, left)
         == if data[pos] < 128 then Some(Var(v * 128 + data[pos] % 128, pos + 1)) else Varint(data, pos + 1, v * 128 + data[pos] % 128, left - 1)
  {
  }

  lemma VarBound(v: nat, b: byte, count: nat)
    requires count <= 4 && v < Pow2(7 * count)
    ensures v * 128 + b % 128 < Pow2(7 * (count + 1)) <= 0x8_0000_0000
  {
    VarintLimits();
    Pow2Add(7, 7 * count);
    Pow2Monotone(7 * (count + 1), 35);
  }

  method TakeAt(data: seq<byte>, pos: nat, n: nat) returns (r: Option<Part>)
    requires |data| < ISIZE_LIMIT
    ensures r == Take(data, pos, n)
  {
    if pos + n >= USIZE_LIMIT || pos + n > |data| { return None; }
    r := Some(Part(data[pos..pos + n], pos + n));
  }

  /** A saturating sum against the limit decides as the exact sum does. */
  method Grow(have: nat, outLen: nat, add: nat) returns (fits: bool)
    requires have <= outLen < ISIZE_LIMIT
    ensures fits <==> add <= outLen - have
  {
    var sum := if have + add >= USIZE_LIMIT then USIZE_LIMIT - 1 else have + add;
    fits := sum <= outLen;
  }

  function Within(data: seq<byte>, s: Option<Start>, room: nat): (r: Run)
    requires s.Some? ==> s.value.next <= |data|
  {
    if s.None? || Size(s.value.shape) > room then Run([], None) else Emit(data, s.value)
  }

  method Copies(block: seq<byte>, count: nat) returns (out: seq<byte>)
    ensures out == Times(block, count + 1)
  {
    out := [];
    var i := 0;
    while i <= count
      invariant i <= count + 1 && out == Times(block, i)
    {
      TimesSnoc(block, i);
      out := out + block;
      i := i + 1;
    }
  }

  method Repeated(data: seq<byte>, pos: nat, value: nat, have: nat, outLen: nat) returns (r: Run)
    requires |data| < ISIZE_LIMIT && have <= outLen < ISIZE_LIMIT
    ensures r == Within(data, StartRepeat(data, pos, value, VARINT_MAX), outLen - have)
  {
    var count := ReadVar(data, pos);
    if count.None? { return Run([], None); }
    var t := TakeAt(data, count.value.next, value);
    if t.None? { return Run([], None); }
    var block := t.value.bytes;
    var n := (count.value.value + 1) * |block|;
    TimesLength(block, count.value.value + 1);
    if n >= USIZE_LIMIT { return Run([], None); }
    var fits := Grow(have, outLen, n);
    if !fits { return Run([], None); }
    var out := [];
    if n > 0 { out := Copies(block, count.value.value); }
    r := Run(out, Some(t.value.next));
  }

  method WeaveLiteral(data: seq<byte>, start: nat, common: seq<byte>, size: nat, k: nat) returns (r: Run)
    requires |data| < ISIZE_LIMIT
    ensures r == Weave(data, start, common, true, size, k)
  {
    ghost var whole := Weave(data, start, common, true, size, k);
    var out, pos, i := [], start, 0;
    while i < k
      invariant i <= k
      invariant Goes(whole, out, Weave(data, pos, common, true, size, k - i))
    {
      var custom := TakeAt(data, pos, size);
      if custom.None? { return Run(out, None); }
      WeaveNext(data, whole, out, pos, common, true, size, k - i);
      pos := custom.value.next;
      out := out + (common + custom.value.bytes);
      i := i + 1;
    }
    r := Run(out + common, Some(pos));
  }

  method WeaveZeros(data: seq<byte>, start: nat, zeros: seq<byte>, size: nat, k: nat) returns (r: Run)
    requires |data| < ISIZE_LIMIT
    ensures r == Weave(data, start, zeros, false, size, k)
  {
    ghost var whole := Weave(data, start, zeros, false, size, k);
    var out, pos, i := [], start, 0;
    while i < k
      invariant i <= k
      invariant Goes(whole, out, Weave(data, pos, zeros, false, size, k - i))
    {
      var custom := TakeAt(data, pos, size);
      if custom.None? { return Run(out + zeros, None); }
      WeaveNext(data, whole, out, pos, zeros, false, size, k - i);
      pos := custom.value.next;
      out := out + (zeros + custom.value.bytes);
      i := i + 1;
    }
    r := Run(out + zeros, Some(pos));
  }

  /** The two interleaving instructions once their fixed part is known. */
  method Woven(data: seq<byte>, s: Start, have: nat, outLen: nat) returns (r: Run)
    requires |data| < ISIZE_LIMIT && have <= outLen < ISIZE_LIMIT
    requires s.next <= |data| && s.shape.Mixed? && |s.shape.common| < ISIZE_LIMIT && s.shape.size < ISIZE_LIMIT
    requires !s.shape.literal ==> s.shape.common == Zeros(|s.shape.common|)
    ensures r == Within(data, Some(s), outLen - have)
  {
    var common, size, k := |s.shape.common|, s.shape.size, s.shape.k;
    WovenLength(common, size, k);
    if common + size >= USIZE_LIMIT { assert false; }
    var n := k * (common + size) + common;
    if n >= USIZE_LIMIT { return Run([], None); }
    var fits := Grow(have, outLen, n);
    if !fits { return Run([], None); }
    if n == 0 {
      SkipDropsNothing(data, s.next, s.shape.common, s.shape.literal, size, k);
      return Run([], Some(s.next));
    }
    if s.shape.literal {
      r := WeaveLiteral(data, s.next, s.shape.common, size, k);
    } else {
      r := WeaveZeros(data, s.next, Zeros(common), size, k);
    }
  }

  method CountsAt(data: seq<byte>, pos: nat) returns (r: Option<Counts>)
    ensures r == ReadCounts(data, pos, VARINT_MAX)
    ensures r.Some? ==> r.value.size < 0x8_0000_0000
  {
    var s := ReadVar(data, pos);
    if s.None? { return None; }
    var k := ReadVar(data, s.value.next);
    if k.None? { return None; }
    r := Some(Counts(s.value.value, k.value.value, k.value.next));
  }

  method RepeatedBlock(data: seq<byte>, pos: nat, value: nat, have: nat, outLen: nat) returns (r: Run)
    requires |data| < ISIZE_LIMIT && have <= outLen < ISIZE_LIMIT
    ensures r == Within(data, StartRepeatBlock(data, pos, value, VARINT_MAX), outLen - have)
  {
    var c := CountsAt(data, pos);
    if c.None? { return Run([], None); }
    var t := TakeAt(data, c.value.next, value);
    if t.None? { return Run([], None); }
    r := Woven(data, Start(Mixed(t.value.bytes, true, c.value.size, c.value.k), t.value.next), have, outLen);
  }

  method RepeatedZero(data: seq<byte>, pos: nat, value: nat, have: nat, outLen: nat) returns (r: Run)
    requires |data| < ISIZE_LIMIT && have <= outLen < ISIZE_LIMIT && value < 0x8_0000_0000
    ensures r == Within(data, StartRepeatZero(data, pos, value, VARINT_MAX), outLen - have)
  {
    var c := CountsAt(data, pos);
    if c.None? { return Run([], None); }
    r := Woven(data, Start(Mixed(Zeros(value), false, c.value.size, c.value.k), c.value.next), have, outLen);
  }

  method Plain(data: seq<byte>, h: Head, have: nat, outLen: nat) returns (r: Run)
    requires |data| < ISIZE_LIMIT && have <= outLen < ISIZE_LIMIT && h.next <= |data| && h.opcode <= 1
    ensures r == Within(data, StartOf(data, h, VARINT_MAX), outLen - have)
  {
    if h.opcode == 0 {
      var fits := Grow(have, outLen, h.value);
      if !fits { return Run([], None); }
      r := Run(Zeros(h.value), Some(h.next));
    } else {
      var t := TakeAt(data, h.next, h.value);
      if t.None? { return Run([], None); }
      var fits := Grow(have, outLen, h.value);
      if !fits { return Run([], None); }
      r := Run(t.value.bytes, Some(t.value.next));
    }
  }

  method Operands(data: seq<byte>, h: Head, have: nat, outLen: nat) returns (r: Run)
    requires |data| < ISIZE_LIMIT && have <= outLen < ISIZE_LIMIT && h.next <= |data| && h.value < 0x8_0000_0000
    ensures r == Within(data, StartOf(data, h, VARINT_MAX), outLen - have)
  {
    if h.opcode <= 1 {
      r := Plain(data, h, have, outLen);
    } else if h.opcode == 2 {
      r := Repeated(data, h.next, h.value, have, outLen);
    } else if h.opcode == 3 {
      r := RepeatedBlock(data, h.next, h.value, have, outLen);
    } else if h.opcode == 4 {
      r := RepeatedZero(data, h.next, h.value, have, outLen);
    } else {
      r := Run([], None);
    }
  }

  /** One turn of the main loop, from the opcode byte on. */
  method Instruction(data: seq<byte>, ghost t: seq<Option<Announced>>, pos: nat, have: nat, outLen: nat) returns (r: Run)
    requires |data| < ISIZE_LIMIT && have <= outLen < ISIZE_LIMIT && pos < |data| && TableOf(data, t)
    ensures r == Step(t[pos], outLen - have)
  {
    var h := Head(data[pos] / 32, data[pos] % 32, pos + 1);
    if h.value == 0 {
      var v := ReadVar(data, pos + 1);
      if v.None? {
        NoHead(data, t, pos, outLen - have);
        return Run([], None);
      }
      h := Head(h.opcode, v.value.value, v.value.next);
    }
    r := Operands(data, h, have, outLen);
    StepIsWithin(data, t, pos, h, outLen - have);
  }

  /** `t` is the table of runs of `data`. */
  ghost predicate TableOf(data: seq<byte>, t: seq<Option<Announced>>) {
    |t| == |data| && AllSound(t) && forall p {:trigger Announce(data, p)} | 0 <= p < |data| :: t[p] == Announce(data, p)
  }

  lemma RunsIsTable(data: seq<byte>)
    ensures TableOf(data, Runs(data))
  {
  }

  lemma NoHead(data: seq<byte>, t: seq<Option<Announced>>, pos: nat, room: nat)
    requires pos < |data| && TableOf(data, t) && ReadHead(data, pos, VARINT_MAX).None?
    ensures Step(t[pos], room) == Run([], None)
  {
    assert t[pos] == Announce(data, pos);
  }

  lemma StepIsWithin(data: seq<byte>, t: seq<Option<Announced>>, pos: nat, h: Head, room: nat)
    requires pos < |data| && TableOf(data, t) && ReadHead(data, pos, VARINT_MAX) == Some(h)
    ensures Step(t[pos], room) == Within(data, StartOf(data, h, VARINT_MAX), room)
  {
    assert t[pos] == Announce(data, pos);
  }

  /** What is out already and what the rest of the stream adds make the whole. */
  predicate Splits(whole: Outcome, out: seq<byte>, rest: Outcome) {
    whole.out == out + rest.out && whole.ok == rest.ok
  }

  /** One turn of the main loop, as a change of what is out and what is still to come. */
  lemma DecodeNext(t: seq<Option<Announced>>, whole: Outcome, out: seq<byte>, pos: nat, room: nat, r: Run)
    requires pos < |t| && AllSound(t) && room > 0 && r == Step(t[pos], room)
    requires Splits(whole, out, Unpack(t, pos, room))
    ensures |r.out| <= room && (r.next.Some? ==> pos < r.next.value <= |t|)
    ensures r.next.None? ==> whole.out == out + r.out && !whole.ok
    ensures r.next.Some? ==> Splits(whole, out + r.out, Unpack(t, r.next.value, room - |r.out|))
  {
    assert t[pos].Some? ==> Sound(t[pos].value, pos, |t|);
    if r.next.Some? { Assoc(out, r.out, Unpack(t, r.next.value, room - |r.out|).out); }
  }

  method Turn(data: seq<byte>, ghost t: seq<Option<Announced>>, ghost whole: Outcome, out: seq<byte>, pos: nat, outLen: nat)
    returns (r: Run)
    requires |data| < ISIZE_LIMIT && |out| < outLen < ISIZE_LIMIT && pos < |data| && TableOf(data, t)
    requires Splits(whole, out, Unpack(t, pos, outLen - |out|))
    ensures |r.out| <= outLen - |out| && (r.next.Some? ==> pos < r.next.value <= |t|)
    ensures r.next.None? ==> whole.out == out + r.out && !whole.ok
    ensures r.next.Some? ==> Splits(whole, out + r.out, Unpack(t, r.next.value, outLen - |out| - |r.out|))
  {
    r := Instruction(data, t, pos, |out|, outLen);
    DecodeNext(t, whole, out, pos, outLen - |out|, r);
  }

  method Decode(data: seq<byte>, ghost t: seq<Option<Announced>>, outLen: nat) returns (out: seq<byte>, ok: bool)
    requires |data| < ISIZE_LIMIT && outLen < ISIZE_LIMIT && TableOf(data, t)
    ensures Outcome(out, ok) == Unpack(t, 0, outLen)
  {
    ghost var whole := Unpack(t, 0, outLen);
    var pos: nat := 0;
    out := [];
    while true
      invariant pos <= |data| && |out| <= outLen
      invariant Splits(whole, out, Unpack(t, pos, outLen - |out|))
      decreases |data| - pos
    {
      if |out| >= outLen { return out, pos == |data|; }
      if pos >= |data| { return out, false; }
      var r := Turn(data, t, whole, out, pos, outLen);
      out := out + r.out;
      if r.next.None? { return out, false; }
      pos := r.next.value;
    }
  }

  /** The decoder: the longest decodable prefix, and whether the decode is complete. */
  method UnpackPartial(data: seq<byte>, outLen: nat) returns (out: seq<byte>, ok: bool)
    requires |data| < ISIZE_LIMIT && outLen < ISIZE_LIMIT
    ensures Outcome(out, ok) == Unpack(Runs(data), 0, outLen)
  {
    RunsIsTable(data);
    out, ok := Decode(data, Runs(data), outLen);
  }

  /** The strict entry point answers with the expansion of the program the stream is, if it is one. */
  method UnpackPacked(data: seq<byte>, outLen: nat) returns (r: Option<seq<byte>>)
    requires |data| < ISIZE_LIMIT && outLen < ISIZE_LIMIT
    ensures forall out :: r == Some(out) <==> Decodes(Instrs(data, VARINT_MAX), outLen, out)
  {
    var out, ok := UnpackPartial(data, outLen);
    ExactnessAll(data, outLen, Outcome(out, ok));
    r := if ok then Some(out) else None;
  }

  lemma ExactnessAll(data: seq<byte>, outLen: nat, r: Outcome)
    requires r == Unpack(Runs(data), 0, outLen)
    ensures forall out :: (r.ok && r.out == out) <==> Decodes(Instrs(data, VARINT_MAX), outLen, out)
  {
    forall out ensures (r.ok && r.out == out) <==> Decodes(Instrs(data, VARINT_MAX), outLen, out) {
      Exactness(data, outLen, out);
    }
  }
}
