/** The run-length layer of BinHex 4.0: what the encoder writes and how the decoder reads it. */
module BinHexRle {
  import opened Words

  const RUN: byte := 0x90

  function Rep(b: byte, n: nat): (s: seq<byte>)
    ensures |s| == n
  {
    seq(n, _ => b)
  }

  /** The last index of the run that starts at `i`, at most 254 further. */
  function RunEnd(data: seq<byte>, i: nat, j: nat): (e: nat)
    requires i <= j < |data| && j - i <= 254
    ensures j <= e < |data| && e - i <= 254
    decreases |data| - j
  {
    if j + 1 < |data| && data[j + 1] == data[i] && j - i < 254 then RunEnd(data, i, j + 1) else j
  }

  /** A literal 0x90, escaped, so many times. */
  function Escapes(n: nat): seq<byte> {
    if n == 0 then [] else [RUN, 0] + Escapes(n - 1)
  }

  function Token(b: byte, run: nat): seq<byte>
    requires run <= 255
  {
    if b == RUN then Escapes(run) else if run >= 3 then [b, RUN, run] else Rep(b, run)
  }

  datatype Run = Run(value: byte, length: nat)

  predicate Sized(r: Run) { 1 <= r.length <= 255 }

  predicate AllSized(rs: seq<Run>) { forall k | 0 <= k < |rs| :: Sized(rs[k]) }

  /** The runs from `i` on, cut at 255. */
  function Runs(data: seq<byte>, i: nat): (rs: seq<Run>)
    requires i <= |data|
    ensures AllSized(rs)
    decreases |data| - i
  {
    if i == |data| then []
    else
      var j := RunEnd(data, i, i);
      [Run(data[i], j - i + 1)] + Runs(data, j + 1)
  }

  /** What is written for a list of runs, and what it stands for. */
  function Written(rs: seq<Run>): seq<byte>
    requires AllSized(rs)
  {
    if rs == [] then [] else Token(rs[0].value, rs[0].length) + Written(rs[1..])
  }

  function Text(rs: seq<Run>): seq<byte> {
    if rs == [] then [] else Rep(rs[0].value, rs[0].length) + Text(rs[1..])
  }

  function Rle(data: seq<byte>): seq<byte> { Written(Runs(data, 0)) }

  /** The decoder: `run` says that the last byte was a run mark, `last` is the byte a run repeats. */
  function Expand(packed: seq<byte>, run: bool, last: byte): seq<byte> {
    if packed == [] then []
    else
      var b, rest := packed[0], packed[1..];
      if !run then
        if b == RUN then Expand(rest, true, last) else [b] + Expand(rest, false, b)
      else if b == 0 then [RUN] + Expand(rest, false, RUN)
      else Rep(last, b - 1) + Expand(rest, false, last)
  }

  lemma ConsPlus(b: byte, s: seq<byte>, t: seq<byte>)
    ensures ([b] + s) + t == [b] + (s + t)
    ensures ([b] + s)[0] == b && ([b] + s)[1..] == s
  {
  }

  lemma ExpandLiteral(b: byte, rest: seq<byte>, last: byte)
    requires b != RUN
    ensures Expand([b] + rest, false, last) == [b] + Expand(rest, false, b)
  {
    ConsPlus(b, rest, []);
  }

  lemma ExpandRun(n: byte, rest: seq<byte>, last: byte)
    ensures Expand([RUN, n] + rest, false, last)
         == if n == 0 then [RUN] + Expand(rest, false, RUN) else Rep(last, n - 1) + Expand(rest, false, last)
  {
    var s := [n] + rest;
    assert [RUN, n] + rest == [RUN] + s;
    ConsPlus(RUN, s, []);
    ConsPlus(n, rest, []);
  }

  lemma {:induction false} ExpandEscapes(n: nat, rest: seq<byte>, last: byte)
    requires n > 0
    ensures Expand(Escapes(n) + rest, false, last) == Rep(RUN, n) + Expand(rest, false, RUN)
    decreases n
  {
    Assoc([RUN, 0], Escapes(n - 1), rest);
    ExpandRun(0, Escapes(n - 1) + rest, last);
    if n == 1 {
      assert Escapes(0) + rest == rest;
      assert Rep(RUN, 1) == [RUN];
    } else {
      ExpandEscapes(n - 1, rest, RUN);
      Assoc([RUN], Rep(RUN, n - 1), Expand(rest, false, RUN));
      assert [RUN] + Rep(RUN, n - 1) == Rep(RUN, n);
    }
  }

  lemma ExpandToken(b: byte, run: nat, rest: seq<byte>, last: byte)
    requires 1 <= run <= 255
    ensures Expand(Token(b, run) + rest, false, last) == Rep(b, run) + Expand(rest, false, b)
  {
    if b == RUN {
      ExpandEscapes(run, rest, last);
    } else if run >= 3 {
      ExpandLongRun(b, run, rest, last);
    } else if run == 1 {
      assert Rep(b, 1) == [b];
      ExpandLiteral(b, rest, last);
    } else {
      assert Rep(b, 2) + rest == [b] + ([b] + rest);
      ExpandLiteral(b, [b] + rest, last);
      ExpandLiteral(b, rest, b);
      assert Rep(b, 2) + Expand(rest, false, b) == [b] + ([b] + Expand(rest, false, b));
    }
  }

  lemma ExpandLongRun(b: byte, run: nat, rest: seq<byte>, last: byte)
    requires 3 <= run <= 255 && b != RUN
    ensures Expand([b, RUN, run] + rest, false, last) == Rep(b, run) + Expand(rest, false, b)
  {
    assert [b, RUN, run] + rest == [b] + ([RUN, run] + rest);
    ExpandLiteral(b, [RUN, run] + rest, last);
    ExpandRun(run, rest, b);
    Assoc([b], Rep(b, run - 1), Expand(rest, false, b));
    assert [b] + Rep(b, run - 1) == Rep(b, run);
  }

  lemma {:induction false} RunIsRep(data: seq<byte>, i: nat, j: nat)
    requires i <= j < |data| && j - i <= 254 && data[i..j + 1] == Rep(data[i], j - i + 1)
    ensures var e := RunEnd(data, i, j); data[i..e + 1] == Rep(data[i], e - i + 1)
    decreases |data| - j
  {
    if j + 1 < |data| && data[j + 1] == data[i] && j - i < 254 {
      assert data[i..j + 2] == data[i..j + 1] + [data[i]];
      assert Rep(data[i], j - i + 2) == Rep(data[i], j - i + 1) + [data[i]];
      RunIsRep(data, i, j + 1);
    }
  }

  /** The byte a run would repeat after `data`. */
  function Last(data: seq<byte>, last: byte): byte {
    if data == [] then last else data[|data| - 1]
  }

  /** Read in the clear state after `last`, the bytes decode to `out`, whatever follows. */
  ghost predicate Yields(packed: seq<byte>, last: byte, out: seq<byte>, next: byte) {
    forall rest {:trigger Expand(packed + rest, false, last)} ::
      Expand(packed + rest, false, last) == out + Expand(rest, false, next)
  }

  lemma Compose(p: seq<byte>, a: seq<byte>, b: seq<byte>, out: seq<byte>, x: seq<byte>, y: seq<byte>,
                last: byte, mid: byte, next: byte)
    requires p == a + b && out == x + y && Yields(a, last, x, mid) && Yields(b, mid, y, next)
    ensures Yields(p, last, out, next)
  {
    forall rest ensures Expand(p + rest, false, last) == out + Expand(rest, false, next) {
      Assoc(a, b, rest);
      assert Expand(a + (b + rest), false, last) == x + Expand(b + rest, false, mid);
      Assoc(x, y, Expand(rest, false, next));
    }
  }

  lemma TokenYields(b: byte, run: nat, last: byte)
    requires 1 <= run <= 255
    ensures Yields(Token(b, run), last, Rep(b, run), b)
  {
    forall rest ensures Expand(Token(b, run) + rest, false, last) == Rep(b, run) + Expand(rest, false, b) {
      ExpandToken(b, run, rest, last);
    }
  }

  lemma EmptyYields(last: byte)
    ensures Yields([], last, [], last)
  {
    forall rest: seq<byte> ensures Expand([] + rest, false, last) == [] + Expand(rest, false, last) {
      assert [] + rest == rest;
    }
  }

  /** The byte a run mark would repeat after these runs. */
  function LastOf(rs: seq<Run>, last: byte): byte {
    if rs == [] then last else rs[|rs| - 1].value
  }

  lemma {:induction false} WrittenYields(rs: seq<Run>, last: byte)
    requires AllSized(rs)
    ensures Yields(Written(rs), last, Text(rs), LastOf(rs, last))
    decreases |rs|
  {
    if rs == [] {
      EmptyYields(last);
    } else {
      assert Sized(rs[0]);
      TokenYields(rs[0].value, rs[0].length, last);
      WrittenYields(rs[1..], rs[0].value);
      Compose(Written(rs), Token(rs[0].value, rs[0].length), Written(rs[1..]),
              Text(rs), Rep(rs[0].value, rs[0].length), Text(rs[1..]), last, rs[0].value, LastOf(rs, last));
    }
  }

  /** The runs make up the data. */
  lemma {:induction false} RunsText(data: seq<byte>, i: nat)
    requires i <= |data|
    ensures Text(Runs(data, i)) == data[i..]
    decreases |data| - i
  {
    if i < |data| {
      var j := RunText(data, i);
      RunsText(data, j + 1);
      TextCons(Run(data[i], j - i + 1), Runs(data, j + 1));
      assert data[i..] == data[i..j + 1] + data[j + 1..];
    }
  }

  lemma TextCons(r: Run, rs: seq<Run>)
    ensures Text([r] + rs) == Rep(r.value, r.length) + Text(rs)
  {
    assert ([r] + rs)[1..] == rs;
  }

  /** Decoding undoes encoding for every byte string, with any state before and anything after. */
  lemma ExpandRle(data: seq<byte>, last: byte) returns (next: byte)
    ensures Yields(Rle(data), last, data, next)
  {
    RunsText(data, 0);
    assert data[0..] == data;
    next := LastOf(Runs(data, 0), last);
    WrittenYields(Runs(data, 0), last);
  }

  lemma RunText(data: seq<byte>, i: nat) returns (j: nat)
    requires i < |data|
    ensures j == RunEnd(data, i, i) && data[i..j + 1] == Rep(data[i], j - i + 1)
  {
    assert data[i..i + 1] == Rep(data[i], 1);
    RunIsRep(data, i, i);
    j := RunEnd(data, i, i);
  }

  predicate Clean(s: seq<byte>) { forall i | 0 <= i < |s| :: s[i] != RUN }

  lemma LiteralYields(b: byte, last: byte)
    requires b != RUN
    ensures Yields([b], last, [b], b)
  {
    forall rest ensures Expand([b] + rest, false, last) == [b] + Expand(rest, false, b) {
      ExpandLiteral(b, rest, last);
    }
  }

  /** Bytes that are not escaped survive when none of them is the run mark. */
  lemma {:induction false} CleanYields(s: seq<byte>, last: byte)
    requires Clean(s)
    ensures Yields(s, last, s, Last(s, last))
    decreases |s|
  {
    if s == [] {
      EmptyYields(last);
    } else {
      LiteralYields(s[0], last);
      CleanYields(s[1..], s[0]);
      assert s == [s[0]] + s[1..];
      Compose(s, [s[0]], s[1..], s, [s[0]], s[1..], last, s[0], Last(s, last));
    }
  }

  /** What an unescaped run mark and the byte after it turn into. */
  function Marked(b: byte, last: byte): (s: seq<byte>) { if b == 0 then [RUN] else Rep(last, b - 1) }

  /** With one unescaped run mark in front, the decoded bytes are never the ones that were meant. */
  lemma OneMarkLost(u: seq<byte>, b: byte, v: seq<byte>, rest: seq<byte>, last: byte, next: byte)
    requires Clean(u) && Clean(v) && b != RUN && last != RUN
    requires next == Last(v, if b == 0 then RUN else Last(u, last))
    ensures Expand(u + ([RUN, b] + (v + rest)), false, last) != (u + [RUN, b]) + (v + Expand(rest, false, next))
  {
    CleanYields(u, last);
    var l := Last(u, last);
    ExpandRun(b, v + rest, l);
    CleanYields(v, if b == 0 then RUN else l);
    var tail := v + Expand(rest, false, next);
    assert Expand(u + ([RUN, b] + (v + rest)), false, last) == u + (Marked(b, l) + tail);
    DifferInMiddle(u, Marked(b, l), [RUN, b], tail);
  }

  lemma DifferInMiddle(u: seq<byte>, x: seq<byte>, y: seq<byte>, v: seq<byte>)
    requires |x| != |y| || exists k | 0 <= k < |x| :: x[k] != y[k]
    ensures u + (x + v) != (u + y) + v
  {
    if |x| == |y| {
      var k :| 0 <= k < |x| && x[k] != y[k];
      assert (u + (x + v))[|u| + k] == x[k] && ((u + y) + v)[|u| + k] == y[k];
    } else {
      assert |u + (x + v)| != |(u + y) + v|;
    }
  }
}
