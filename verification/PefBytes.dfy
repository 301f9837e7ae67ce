/** Pattern-initialized data byte by byte: what each opcode makes of the bytes behind it. */
module PefBytes {
  import opened Words
  import opened PefFormat
  import opened PefUnpack

  // ---- varints --------------------------------------------------------------------------------

  /** Seven bits of each byte, the first the most significant. */
  function Sevens(s: seq<byte>): nat {
    if s == [] then 0 else Sevens(s[..|s| - 1]) * 128 + s[|s| - 1] % 128
  }

  /** A varint is the bytes with the high bit set and the first one without. */
  predicate IsVarint(s: seq<byte>) {
    s != [] && s[|s| - 1] < 128 && forall k | 0 <= k < |s| - 1 :: s[k] >= 128
  }

  function Raised(v: nat, n: nat): nat
    decreases n
  {
    if n == 0 then v else Raised(v * 128, n - 1)
  }

  lemma {:induction false} SevensCons(b: byte, s: seq<byte>, v: nat)
    ensures Raised(v, |s| + 1) + Sevens([b] + s) == Raised(v * 128 + b % 128, |s|) + Sevens(s)
    decreases |s|
  {
    if s == [] {
      assert ([b] + s)[..0] == [] && [b] + s == [b];
    } else {
      var t := s[..|s| - 1];
      assert ([b] + s)[..|s|] == [b] + t;
      SevensCons(b, t, v);
      RaisedOut(v, |s|);
      RaisedOut(v * 128 + b % 128, |t|);
    }
  }

  lemma {:induction false} RaisedOut(v: nat, n: nat)
    ensures Raised(v, n + 1) == Raised(v, n) * 128
    decreases n
  {
    if n > 0 { RaisedOut(v * 128, n - 1); }
  }

  lemma {:induction false} VarintFrom(data: seq<byte>, pos: nat, v: nat, s: seq<byte>, max: nat)
    requires IsVarint(s) && |s| <= max && Stands(data, pos, s)
    ensures Varint(data, pos, v, max) == Some(Var(Raised(v, |s|) + Sevens(s), pos + |s|))
    decreases |s|
  {
    assert data[pos + 0] == s[0];
    assert s == [s[0]] + s[1..];
    SevensCons(s[0], s[1..], v);
    if |s| > 1 {
      assert Stands(data, pos + 1, s[1..]) by {
        forall j | 0 <= j < |s| - 1 ensures data[pos + 1 + j] == s[1..][j] { assert data[pos + (j + 1)] == s[j + 1]; }
      }
      VarintFrom(data, pos + 1, v * 128 + s[0] % 128, s[1..], max - 1);
    } else {
      assert Raised(v * 128 + s[0] % 128, 0) == v * 128 + s[0] % 128 && s[1..] == [];
    }
  }

  lemma {:induction false} RaisedZero(n: nat)
    ensures Raised(0, n) == 0
    decreases n
  {
    if n > 0 { RaisedZero(n - 1); }
  }

  /** A varint of at most `max` bytes is read as the number its groups of seven bits spell. */
  lemma VarintIs(data: seq<byte>, pos: nat, s: seq<byte>, max: nat)
    requires IsVarint(s) && |s| <= max && Stands(data, pos, s)
    ensures Varint(data, pos, 0, max) == Some(Var(Sevens(s), pos + |s|))
  {
    VarintFrom(data, pos, 0, s, max);
    RaisedZero(|s|);
  }

  // ---- what the patterns look like --------------------------------------------------------------

  function Turn(size: nat, q: nat): nat { q * size }

  lemma NextTurn(size: nat, q: nat)
    ensures Turn(size, q + 1) == size + Turn(size, q) && Turn(size, 0) == 0
  {
  }

  /** Copy `q` of a repeated block stands behind the `q` before it. */
  lemma {:induction false} TimesAt(b: seq<byte>, n: nat, q: nat, i: nat)
    requires q < n && i < |b|
    ensures |Times(b, n)| == Turn(|b|, n) && Turn(|b|, q) + i < |Times(b, n)| && Times(b, n)[Turn(|b|, q) + i] == b[i]
    decreases n
  {
    NextTurn(|b|, n - 1);
    TimesLength(b, n - 1);
    if q > 0 {
      NextTurn(|b|, q - 1);
      TimesAt(b, n - 1, q - 1, i);
    }
  }

  lemma {:induction false} TimesLength(b: seq<byte>, n: nat)
    ensures |Times(b, n)| == Turn(|b|, n)
    decreases n
  {
    if n > 0 {
      NextTurn(|b|, n - 1);
      TimesLength(b, n - 1);
    }
  }

  lemma {:induction false} InterleaveLength(c: seq<byte>, ks: seq<seq<byte>>, size: nat)
    requires Uniform(size, ks)
    ensures |Interleave(c, ks)| == Turn(|c| + size, |ks|) + |c|
    decreases |ks|
  {
    if ks != [] {
      assert |ks[0]| == size by { assert ks[0] in ks; }
      NextTurn(|c| + size, |ks| - 1);
      InterleaveLength(c, ks[1..], size);
    }
  }

  lemma InterleaveHead(c: seq<byte>, ks: seq<seq<byte>>)
    requires ks != []
    ensures Interleave(c, ks) == c + (ks[0] + Interleave(c, ks[1..]))
  {
    Assoc(c, ks[0], Interleave(c, ks[1..]));
  }

  lemma ThreeParts(a: seq<byte>, b: seq<byte>, c: seq<byte>, i: nat)
    ensures i < |a| ==> (a + (b + c))[i] == a[i]
    ensures i < |b| ==> (a + (b + c))[|a| + i] == b[i]
    ensures i < |c| ==> (a + (b + c))[|a| + |b| + i] == c[i]
  {
  }

  /** The common block opens every turn and closes the whole. */
  lemma {:induction false} CommonAt(c: seq<byte>, ks: seq<seq<byte>>, size: nat, q: nat, i: nat)
    requires Uniform(size, ks) && q <= |ks| && i < |c|
    ensures var r, at := Interleave(c, ks), Turn(|c| + size, q); at + i < |r| && r[at + i] == c[i]
    decreases |ks|
  {
    NextTurn(|c| + size, 0);
    if ks != [] {
      InterleaveHead(c, ks);
      assert |ks[0]| == size by { assert ks[0] in ks; }
      var rest := Interleave(c, ks[1..]);
      if q > 0 {
        NextTurn(|c| + size, q - 1);
        CommonAt(c, ks[1..], size, q - 1, i);
        ThreeParts(c, ks[0], rest, Turn(|c| + size, q - 1) + i);
      } else {
        ThreeParts(c, ks[0], rest, i);
      }
    }
  }

  /** Custom block `q` ends turn `q`. */
  lemma {:induction false} CustomAt(c: seq<byte>, ks: seq<seq<byte>>, size: nat, q: nat, i: nat)
    requires Uniform(size, ks) && q < |ks| && i < size
    ensures var r, at := Interleave(c, ks), Turn(|c| + size, q) + |c|; |ks[q]| == size && at + i < |r| && r[at + i] == ks[q][i]
    decreases |ks|
  {
    NextTurn(|c| + size, 0);
    InterleaveHead(c, ks);
    assert |ks[0]| == size by { assert ks[0] in ks; }
    var rest := Interleave(c, ks[1..]);
    if q > 0 {
      NextTurn(|c| + size, q - 1);
      CustomAt(c, ks[1..], size, q - 1, i);
      ThreeParts(c, ks[0], rest, Turn(|c| + size, q - 1) + |c| + i);
    } else {
      ThreeParts(c, ks[0], rest, i);
    }
  }

  // ---- streams of one instruction -----------------------------------------------------------------------

  lemma OneInstruction(data: seq<byte>, i: Instr)
    requires Encodable(i) && Expand(i) != [] && data == WriteInstr(i)
    ensures Unpack(Runs(data), 0, |Expand(i)|) == Outcome(Expand(i), true)
  {
    assert [i][1..] == [] && WriteAll([]) == [] && ExpandAll([]) == [];
    assert WriteAll([i]) == data + [] == data && ExpandAll([i]) == Expand(i) + [] == Expand(i);
    DecodeEncoded([i]);
  }

  lemma SmallVarint(v: byte)
    requires v < 128
    ensures WriteVarint(v) == [v]
  {
  }

  /** 0x00 + n: so many zeros. */
  lemma ZeroStream(n: byte, data: seq<byte>) returns (out: seq<byte>)
    requires 1 <= n <= 31 && data == [n]
    ensures Unpack(Runs(data), 0, n) == Outcome(out, true) && |out| == n as int && forall k | 0 <= k < |out| :: out[k] == 0
  {
    OneInstruction(data, Zero(n));
    out := Zeros(n);
  }

  /** 0x20 + n: the next n bytes. */
  lemma BlockStream(b: seq<byte>, data: seq<byte>)
    requires 1 <= |b| <= 31 && data == [0x20 + |b|] + b
    ensures Unpack(Runs(data), 0, |b|) == Outcome(b, true)
  {
    OneInstruction(data, Block(b));
  }

  /** 0x40 + n and a count: the next n bytes, once more than the count says; copy `q` stands behind the `q` before it. */
  lemma RepeatStream(b: seq<byte>, count: byte, data: seq<byte>, q: nat, i: nat) returns (out: seq<byte>)
    requires 1 <= |b| <= 31 && count < 128 && data == [0x40 + |b|, count] + b && q <= count as int && i < |b|
    ensures Unpack(Runs(data), 0, |out|) == Outcome(out, true) && |out| == Turn(|b|, count as nat + 1)
    ensures Turn(|b|, q) + i < |out| && out[Turn(|b|, q) + i] == b[i]
  {
    var n: nat := count;
    RepeatWritten(b, count, data);
    TimesAt(b, n + 1, q, i);
    OneInstruction(data, Repeat(b, n));
    out := Times(b, n + 1);
  }

  lemma RepeatWritten(b: seq<byte>, count: byte, data: seq<byte>)
    requires 1 <= |b| <= 31 && count < 128 && data == [0x40 + |b|, count] + b
    ensures WriteInstr(Repeat(b, count)) == data && Encodable(Repeat(b, count))
  {
    SmallVarint(count);
    assert [0x40 + |b|] + ([count] + b) == data;
  }

  /** 0x60 + n, a size and a count: the next n bytes are the common block, and behind them come the custom blocks. The common
      block opens every turn and closes the whole, and custom block `q` ends turn `q`. */
  lemma MixedStream(b: seq<byte>, size: byte, ks: seq<seq<byte>>, data: seq<byte>, q: nat, i: nat) returns (out: seq<byte>)
    requires 1 <= |b| <= 31 && size < 128 && |ks| < 128 && Uniform(size, ks)
    requires data == [0x60 + |b|, size, |ks|] + (b + Flatten(ks))
    ensures Unpack(Runs(data), 0, |out|) == Outcome(out, true) && |out| == Turn(|b| + size as nat, |ks|) + |b|
    ensures q <= |ks| && i < |b| ==> var at := Turn(|b| + size as nat, q); at + i < |out| && out[at + i] == b[i]
    ensures q < |ks| && i < size as nat ==>
      (var at := Turn(|b| + size as nat, q) + |b|; |ks[q]| == size as nat && at + i < |out| && out[at + i] == ks[q][i])
  {
    MixedWritten(b, size, ks, data);
    out := Woven(b, ks, size, q, i);
    OneInstruction(data, RepeatBlock(b, size, ks));
  }

  lemma Woven(b: seq<byte>, ks: seq<seq<byte>>, size: nat, q: nat, i: nat) returns (out: seq<byte>)
    requires Uniform(size, ks)
    ensures out == Interleave(b, ks) && |out| == Turn(|b| + size, |ks|) + |b|
    ensures q <= |ks| && i < |b| ==> var at := Turn(|b| + size, q); at + i < |out| && out[at + i] == b[i]
    ensures q < |ks| && i < size ==>
      (var at := Turn(|b| + size, q) + |b|; |ks[q]| == size && at + i < |out| && out[at + i] == ks[q][i])
  {
    out := Interleave(b, ks);
    InterleaveLength(b, ks, size);
    if q <= |ks| && i < |b| { CommonAt(b, ks, size, q, i); }
    if q < |ks| && i < size { CustomAt(b, ks, size, q, i); }
  }

  lemma ThreeBytes(x: byte, y: byte, z: byte, t: seq<byte>)
    ensures [x] + ([y] + ([z] + t)) == [x, y, z] + t
  {
  }

  lemma SmallHead(opcode: nat, value: nat)
    requires opcode <= 4 && 1 <= value <= 31
    ensures WriteHead(opcode, value) == [opcode * 32 + value]
  {
  }

  lemma RepeatBlockBytes(b: seq<byte>, size: nat, ks: seq<seq<byte>>, t: seq<byte>)
    requires t == b + Flatten(ks)
    ensures WriteInstr(RepeatBlock(b, size, ks)) == WriteHead(3, |b|) + (WriteVarint(size) + (WriteVarint(|ks|) + t))
  {
  }

  lemma RepeatZeroBytes(n: nat, size: nat, ks: seq<seq<byte>>, t: seq<byte>)
    requires t == Flatten(ks)
    ensures WriteInstr(RepeatZero(n, size, ks)) == WriteHead(4, n) + (WriteVarint(size) + (WriteVarint(|ks|) + t))
  {
  }

  lemma MixedWritten(b: seq<byte>, size: byte, ks: seq<seq<byte>>, data: seq<byte>)
    requires 1 <= |b| <= 31 && size < 128 && |ks| < 128 && Uniform(size, ks)
    requires data == [0x60 + |b|, size, |ks|] + (b + Flatten(ks))
    ensures WriteInstr(RepeatBlock(b, size, ks)) == data && Encodable(RepeatBlock(b, size, ks))
  {
    SmallHead(3, |b|);
    SmallVarint(size);
    SmallVarint(|ks|);
    ThreeBytes(0x60 + |b|, size, |ks|, b + Flatten(ks));
    RepeatBlockBytes(b, size, ks, b + Flatten(ks));
  }

  lemma ZerosWoven(n: nat, ks: seq<seq<byte>>, size: nat, q: nat, i: nat) returns (out: seq<byte>)
    requires Uniform(size, ks)
    ensures out == Interleave(Zeros(n), ks) && |out| == Turn(n + size, |ks|) + n
    ensures q <= |ks| && i < n ==> var at := Turn(n + size, q); at + i < |out| && out[at + i] == 0
    ensures q < |ks| && i < size ==>
      (var at := Turn(n + size, q) + n; |ks[q]| == size && at + i < |out| && out[at + i] == ks[q][i])
  {
    var z := Zeros(n);
    out := Woven(z, ks, size, q, i);
  }

  /** 0x80 + n: the same with n zeros for the common block. */
  lemma MixedZeroStream(n: byte, size: byte, ks: seq<seq<byte>>, data: seq<byte>, q: nat, i: nat) returns (out: seq<byte>)
    requires 1 <= n <= 31 && size < 128 && |ks| < 128 && Uniform(size, ks)
    requires data == [0x80 + n, size, |ks|] + Flatten(ks)
    ensures Unpack(Runs(data), 0, |out|) == Outcome(out, true) && |out| == Turn(n as nat + size as nat, |ks|) + n as nat
    ensures q <= |ks| && i < n as nat ==> var at := Turn(n as nat + size as nat, q); at + i < |out| && out[at + i] == 0
    ensures q < |ks| && i < size as nat ==>
      (var at := Turn(n as nat + size as nat, q) + n as nat; |ks[q]| == size as nat && at + i < |out| && out[at + i] == ks[q][i])
  {
    var m: nat, w: nat := n, size;
    MixedZeroWritten(n, size, ks, data);
    out := ZerosWoven(m, ks, w, q, i);
    OneInstruction(data, RepeatZero(m, w, ks));
  }

  lemma MixedZeroWritten(n: byte, size: byte, ks: seq<seq<byte>>, data: seq<byte>)
    requires 1 <= n <= 31 && size < 128 && |ks| < 128 && Uniform(size, ks)
    requires data == [0x80 + n, size, |ks|] + Flatten(ks)
    ensures WriteInstr(RepeatZero(n, size, ks)) == data && Encodable(RepeatZero(n, size, ks))
  {
    SmallHead(4, n);
    SmallVarint(size);
    SmallVarint(|ks|);
    ThreeBytes(0x80 + n, size, |ks|, Flatten(ks));
    RepeatZeroBytes(n, size, ks, Flatten(ks));
  }

  /** From 0xa0 on no opcode is defined: such a stream is refused, and nothing of it decoded. */
  lemma ReservedRefused(data: seq<byte>, room: nat)
    requires data != [] && data[0] >= 0xa0 && room > 0
    ensures Unpack(Runs(data), 0, room) == Outcome([], false)
  {
    assert ReadStart(data, 0, VARINT_MAX) == None;
  }

  /** A zero in the place of n: a varint with the number follows. */
  lemma LongHead(data: seq<byte>, pos: nat, s: seq<byte>)
    requires pos < |data| && data[pos] % 32 == 0 && IsVarint(s) && |s| <= 5 && Stands(data, pos + 1, s)
    ensures ReadHead(data, pos, VARINT_MAX) == Some(Head(data[pos] / 32, Sevens(s), pos + 1 + |s|))
  {
    VarintIs(data, pos + 1, s, VARINT_MAX);
  }
}
