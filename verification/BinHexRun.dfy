/** The loops of the BinHex encoder and decoder. */
module BinHexRun {
  import opened Words
  import opened Bits
  import opened Canonical
  import opened BinHexRle
  import opened BinHexText
  import opened BinHexFile
  import Crc

  // ---- run lengths ----------------------------------------------------------------------------

  method Escaped(n: nat) returns (out: seq<byte>)
    ensures out == Escapes(n)
  {
    out := [];
    var i: nat := 0;
    while i < n
      invariant i <= n && Escapes(n) == out + Escapes(n - i)
    {
      Assoc(out, [RUN, 0], Escapes(n - i - 1));
      out := out + [RUN, 0];
      i := i + 1;
    }
  }

  method FindRun(data: seq<byte>, i: nat) returns (j: nat)
    requires i < |data|
    ensures i <= j < |data| && j - i <= 254 && j == RunEnd(data, i, i)
  {
    j := i;
    while j + 1 < |data| && data[j + 1] == data[i] && j - i < 254
      invariant i <= j < |data| && j - i <= 254 && RunEnd(data, i, i) == RunEnd(data, i, j)
      decreases |data| - j
    {
      j := j + 1;
    }
  }

  method TokenOf(b: byte, text: seq<byte>) returns (token: seq<byte>)
    requires 1 <= |text| <= 255 && text == Rep(b, |text|)
    ensures token == Token(b, |text|)
  {
    if b == RUN {
      token := Escaped(|text|);
    } else if |text| >= 3 {
      token := [b, RUN, |text|];
    } else {
      token := text;
    }
  }

  predicate Splits(whole: seq<byte>, out: seq<byte>, rest: seq<byte>) { whole == out + rest }

  lemma SplitToken(whole: seq<byte>, out: seq<byte>, r: Run, rs: seq<Run>)
    requires Sized(r) && AllSized(rs) && AllSized([r] + rs) && Splits(whole, out, Written([r] + rs))
    ensures Splits(whole, out + Token(r.value, r.length), Written(rs))
  {
    WrittenCons(r, rs);
    Assoc(out, Token(r.value, r.length), Written(rs));
  }

  method PutRun(out: seq<byte>, b: byte, text: seq<byte>, ghost whole: seq<byte>, ghost rs: seq<Run>) returns (more: seq<byte>)
    requires 1 <= |text| <= 255 && text == Rep(b, |text|)
    requires AllSized(rs) && AllSized([Run(b, |text|)] + rs) && Splits(whole, out, Written([Run(b, |text|)] + rs))
    ensures Splits(whole, more, Written(rs))
  {
    SplitToken(whole, out, Run(b, |text|), rs);
    var token := TokenOf(b, text);
    more := out + token;
  }

  lemma NextRun(data: seq<byte>, i: nat, whole: seq<byte>, out: seq<byte>)
    requires i < |data| && Splits(whole, out, Written(Runs(data, i)))
    ensures var j := RunEnd(data, i, i);
      && data[i..j + 1] == Rep(data[i], j - i + 1)
      && AllSized([Run(data[i], j - i + 1)] + Runs(data, j + 1))
      && Splits(whole, out, Written([Run(data[i], j - i + 1)] + Runs(data, j + 1)))
  {
    RunSlice(data, i);
  }

  method RleEncode(data: seq<byte>) returns (out: seq<byte>)
    ensures out == Rle(data)
  {
    ghost var whole := Rle(data);
    out := [];
    var i: nat := 0;
    while i < |data|
      invariant i <= |data| && Splits(whole, out, Written(Runs(data, i)))
    {
      i, out := EncodeRun(data, i, out, whole);
    }
    assert out + [] == out;
  }

  /** One turn of the loop. */
  method EncodeRun(data: seq<byte>, i: nat, out: seq<byte>, ghost whole: seq<byte>) returns (next: nat, more: seq<byte>)
    requires i < |data| && Splits(whole, out, Written(Runs(data, i)))
    ensures i < next <= |data| && Splits(whole, more, Written(Runs(data, next)))
  {
    var j := FindRun(data, i);
    NextRun(data, i, whole, out);
    more := PutRun(out, data[i], data[i..j + 1], whole, Runs(data, j + 1));
    next := j + 1;
  }

  lemma WrittenCons(r: Run, rs: seq<Run>)
    requires Sized(r) && AllSized(rs)
    ensures AllSized([r] + rs) && Written([r] + rs) == Token(r.value, r.length) + Written(rs)
  {
    assert ([r] + rs)[1..] == rs;
  }

  lemma RunSlice(data: seq<byte>, i: nat)
    requires i < |data|
    ensures var e := RunEnd(data, i, i); data[i..e + 1] == Rep(data[i], e - i + 1)
  {
    var e := RunText(data, i);
  }

  method RleDecode(packed: seq<byte>) returns (raw: seq<byte>)
    ensures raw == Expand(packed, false, 0)
  {
    raw := [];
    var run, last: byte, k: nat := false, 0, 0;
    while k < |packed|
      invariant k <= |packed| && Expand(packed, false, 0) == raw + Expand(packed[k..], run, last)
    {
      var b := packed[k];
      DropOne(packed, k);
      ExpandStep(packed[k..], run, last);
      ghost var rest := packed[k + 1..];
      if !run {
        if b == RUN {
          run := true;
        } else {
          Assoc(raw, [b], Expand(rest, false, b));
          raw := raw + [b];
          last := b;
        }
      } else {
        if b == 0 {
          Assoc(raw, [RUN], Expand(rest, false, RUN));
          raw := raw + [RUN];
          last := RUN;
        } else {
          Assoc(raw, Rep(last, b - 1), Expand(rest, false, last));
          raw := AppendCopies(raw, last, b - 1);
        }
        run := false;
      }
      k := k + 1;
    }
    assert packed[k..] == [];
  }

  lemma ExpandStep(s: seq<byte>, run: bool, last: byte)
    requires s != []
    ensures !run && s[0] == RUN ==> Expand(s, run, last) == Expand(s[1..], true, last)
    ensures !run && s[0] != RUN ==> Expand(s, run, last) == [s[0]] + Expand(s[1..], false, s[0])
    ensures run && s[0] == 0 ==> Expand(s, run, last) == [RUN] + Expand(s[1..], false, RUN)
    ensures run && s[0] != 0 ==> Expand(s, run, last) == Rep(last, s[0] - 1) + Expand(s[1..], false, last)
  {
  }

  method AppendCopies(raw: seq<byte>, b: byte, n: nat) returns (out: seq<byte>)
    ensures out == raw + Rep(b, n)
  {
    out := raw;
    var i: nat := 0;
    while i < n
      invariant i <= n && out == raw + Rep(b, i)
    {
      assert Rep(b, i) + [b] == Rep(b, i + 1);
      Assoc(raw, Rep(b, i), [b]);
      out := out + [b];
      i := i + 1;
    }
  }

  // ---- six and eight bits ------------------------------------------------------------------------

  lemma {:induction false} CodeBitsSplit(c: nat, m: nat, k: nat)
    ensures CodeBits(c, m + k) == CodeBits(Shift(c, k), m) + CodeBits(c, k)
    decreases k
  {
    if k == 0 {
      assert CodeBits(c, m) + [] == CodeBits(c, m);
    } else {
      CodeBitsSplit(c / 2, m, k - 1);
      Assoc(CodeBits(Shift(c, k), m), CodeBits(c / 2, k - 1), [c % 2]);
    }
  }

  lemma {:induction false} CodeBitsJoin(x: nat, y: nat, m: nat, k: nat)
    requires y < Pow2(k)
    ensures CodeBits(x * Pow2(k) + y, m + k) == CodeBits(x, m) + CodeBits(y, k)
    decreases k
  {
    if k == 0 {
      assert CodeBits(x, m) + [] == CodeBits(x, m);
    } else {
      var p := x * Pow2(k - 1);
      assert x * Pow2(k) == 2 * p;
      assert (2 * p + y) / 2 == p + y / 2 && (2 * p + y) % 2 == y % 2;
      CodeBitsJoin(x, y / 2, m, k - 1);
      Assoc(CodeBits(x, m), CodeBits(y / 2, k - 1), [y % 2]);
    }
  }

  lemma {:induction false} NumMod(x: nat, n: nat)
    ensures Num(CodeBits(x, n)) == x % Pow2(n)
    decreases n
  {
    if n > 0 {
      NumMod(x / 2, n - 1);
      HalfRemainder(x, Pow2(n - 1));
      assert CodeBits(x, n)[..n - 1] == CodeBits(x / 2, n - 1);
    }
  }

  lemma {:induction false} CodeBitsMod(x: nat, n: nat)
    ensures CodeBits(x % Pow2(n), n) == CodeBits(x, n)
    decreases n
  {
    if n > 0 {
      var p := Pow2(n - 1);
      HalfRemainder(x, p);
      CodeBitsMod(x / 2, n - 1);
      var y := x % (2 * p);
      assert y / 2 == (x / 2) % p && y % 2 == x % 2;
    }
  }

  lemma {:induction false} ShiftedIn(c: nat, n: nat, m: nat)
    ensures CodeBits(c * Pow2(m), n + m) == CodeBits(c, n) + Zeros(m)
  {
    if m == 0 {
      assert CodeBits(c, n) + [] == CodeBits(c, n);
    } else {
      ShiftedIn(c, n, m - 1);
      var p := c * Pow2(m - 1);
      assert c * Pow2(m) == 2 * p;
      assert Zeros(m) == Zeros(m - 1) + [0];
      Assoc(CodeBits(c, n), Zeros(m - 1), [0]);
    }
  }

  lemma SixesHead(h: seq<bit>, t: seq<bit>)
    requires |h| == 6
    ensures Num(h) < 64 && Sixes(h + t) == [Num(h)] + Sixes(t)
  {
    PowSix();
    NumBound(h);
    assert (h + t)[..6] == h && (h + t)[6..] == t;
  }

  lemma EightsHead(h: seq<bit>, t: seq<bit>)
    requires |h| == 8
    ensures Num(h) < 256 && Eights(h + t) == [Num(h)] + Eights(t)
  {
    PowSix();
    NumBound(h);
    assert (h + t)[..8] == h && (h + t)[8..] == t;
  }

  /** Values out already, and the bits waiting with those still to come. */
  predicate Sending(whole: seq<six>, vals: seq<six>, waiting: seq<bit>, rest: seq<bit>) {
    whole == vals + Sixes(waiting + rest)
  }

  lemma SendSix(whole: seq<six>, vals: seq<six>, bits: nat, n: nat, rest: seq<bit>)
    requires n >= 6 && Sending(whole, vals, CodeBits(bits, n), rest)
    ensures Sending(whole, vals + [Shift(bits, n - 6) % 64], CodeBits(bits, n - 6), rest)
  {
    var h, t := CodeBits(Shift(bits, n - 6), SIX), CodeBits(bits, n - 6);
    CodeBitsSplit(bits, SIX, n - 6);
    Assoc(h, t, rest);
    SixesHead(h, t + rest);
    PowSix();
    NumMod(Shift(bits, n - 6), SIX);
    Assoc(vals, [Num(h)], Sixes(t + rest));
  }

  lemma TakeByte(whole: seq<six>, vals: seq<six>, bits: nat, n: nat, b: byte, rest: seq<bit>)
    requires Sending(whole, vals, CodeBits(bits, n), CodeBits(b, EIGHT) + rest)
    ensures Sending(whole, vals, CodeBits(bits * 256 + b as int, n + 8), rest)
  {
    PowSix();
    CodeBitsJoin(bits, b, n, EIGHT);
    Assoc(CodeBits(bits, n), CodeBits(b, EIGHT), rest);
  }

  lemma ShortSix(s: seq<bit>, t: seq<bit>, v: six)
    requires 0 < |s| < 6 && t == s + Zeros(6 - |s|) && Num(t) == v as int
    ensures Sixes(s) == [v]
  {
  }

  lemma LastBits(bits: nat, n: nat, k: nat, w: nat)
    requires 0 < n && n + k == SIX && k > 0 && w == bits * Pow2(k)
    ensures Sixes(CodeBits(bits, n)) == [w % 64]
  {
    ShiftedIn(bits, n, k);
    ShiftedValue(w);
    ShortSix(CodeBits(bits, n), CodeBits(w, SIX), w % 64);
  }

  lemma ShiftedValue(w: nat)
    ensures Num(CodeBits(w, SIX)) == w % 64
  {
    PowSix();
    NumMod(w, SIX);
  }

  lemma LastSix(whole: seq<six>, vals: seq<six>, bits: nat, n: nat)
    requires n < 6 && Sending(whole, vals, CodeBits(bits, n), [])
    ensures n == 0 ==> whole == vals
    ensures n > 0 ==> whole == vals + [bits * Pow2(6 - n) % 64]
  {
    assert CodeBits(bits, n) + [] == CodeBits(bits, n);
    if n == 0 {
      assert vals + [] == vals;
    } else {
      LastBits(bits, n, 6 - n, bits * Pow2(6 - n));
    }
  }

  /** One byte in, groups of six out; the bits already sent stay in the accumulator. */
  method FeedByte(given: seq<six>, bits0: nat, n0: nat, b: byte, ghost whole: seq<six>, ghost rest: seq<bit>)
    returns (vals: seq<six>, bits: nat, nBits: nat)
    requires n0 < 6 && Sending(whole, given, CodeBits(bits0, n0), CodeBits(b, EIGHT) + rest)
    ensures nBits < 6 && Sending(whole, vals, CodeBits(bits, nBits), rest)
  {
    TakeByte(whole, given, bits0, n0, b, rest);
    vals := given;
    bits := bits0 * 256 + b as int;
    nBits := n0 + 8;
    while nBits >= 6
      invariant Sending(whole, vals, CodeBits(bits, nBits), rest)
    {
      SendSix(whole, vals, bits, nBits, rest);
      nBits := nBits - 6;
      vals := vals + [Shift(bits, nBits) % 64];
    }
  }

  method PackSix(raw: seq<byte>) returns (vals: seq<six>)
    ensures vals == Pack(raw)
  {
    ghost var whole := Pack(raw);
    vals := [];
    var bits: nat, nBits: nat, i: nat := 0, 0, 0;
    assert [] + BitsOf(raw, EIGHT) == BitsOf(raw, EIGHT) && raw[0..] == raw;
    while i < |raw|
      invariant i <= |raw| && nBits < 6 && Sending(whole, vals, CodeBits(bits, nBits), BitsOf(raw[i..], EIGHT))
    {
      DropOne(raw, i);
      vals, bits, nBits := FeedByte(vals, bits, nBits, raw[i], whole, BitsOf(raw[i + 1..], EIGHT));
      i := i + 1;
    }
    LastSix(whole, vals, bits, nBits);
    if nBits > 0 { vals := vals + [bits * Pow2(6 - nBits) % 64]; }
  }

  predicate Receiving(whole: seq<byte>, packed: seq<byte>, waiting: seq<bit>, rest: seq<bit>) {
    whole == packed + Eights(waiting + rest)
  }

  lemma TakeSix(whole: seq<byte>, packed: seq<byte>, bits: nat, n: nat, v: six, rest: seq<bit>)
    requires Receiving(whole, packed, CodeBits(bits, n), CodeBits(v, SIX) + rest)
    ensures Receiving(whole, packed, CodeBits(bits * 64 + v as int, n + 6), rest)
  {
    PowSix();
    CodeBitsJoin(bits, v, n, SIX);
    Assoc(CodeBits(bits, n), CodeBits(v, SIX), rest);
  }

  lemma ReceiveByte(whole: seq<byte>, packed: seq<byte>, bits: nat, n: nat, rest: seq<bit>)
    requires n >= 8 && Receiving(whole, packed, CodeBits(bits, n), rest)
    ensures Receiving(whole, packed + [Shift(bits, n - 8) % 256], CodeBits(bits, n - 8), rest)
  {
    var h, t := CodeBits(Shift(bits, n - 8), EIGHT), CodeBits(bits, n - 8);
    CodeBitsSplit(bits, EIGHT, n - 8);
    Assoc(h, t, rest);
    EightsHead(h, t + rest);
    PowSix();
    NumMod(Shift(bits, n - 8), EIGHT);
    Assoc(packed, [Num(h)], Eights(t + rest));
  }

  /** One value in, whole bytes out, the consumed high bits dropped. */
  method FeedSix(given: seq<byte>, bits0: nat, n0: nat, v: six, ghost whole: seq<byte>, ghost rest: seq<bit>)
    returns (packed: seq<byte>, bits: nat, nBits: nat)
    requires n0 < 8 && Receiving(whole, given, CodeBits(bits0, n0), CodeBits(v, SIX) + rest)
    ensures nBits < 8 && Receiving(whole, packed, CodeBits(bits, nBits), rest)
  {
    TakeSix(whole, given, bits0, n0, v, rest);
    packed := given;
    bits := bits0 * 64 + v as int;
    nBits := n0 + 6;
    while nBits >= 8
      invariant Receiving(whole, packed, CodeBits(bits, nBits), rest)
    {
      ReceiveByte(whole, packed, bits, nBits, rest);
      nBits := nBits - 8;
      packed := packed + [Shift(bits, nBits) % 256];
    }
    CodeBitsMod(bits, nBits);
    bits := bits % Pow2(nBits);
  }

  method UnpackSix(vals: seq<six>) returns (packed: seq<byte>)
    ensures packed == Unpack(vals)
  {
    ghost var whole := Unpack(vals);
    packed := [];
    var bits: nat, nBits: nat, i: nat := 0, 0, 0;
    assert [] + BitsOf(vals, SIX) == BitsOf(vals, SIX) && vals[0..] == vals;
    while i < |vals|
      invariant i <= |vals| && nBits < 8 && Receiving(whole, packed, CodeBits(bits, nBits), BitsOf(vals[i..], SIX))
    {
      DropOne(vals, i);
      packed, bits, nBits := FeedSix(packed, bits, nBits, vals[i], whole, BitsOf(vals[i + 1..], SIX));
      i := i + 1;
    }
    assert Eights(CodeBits(bits, nBits) + []) == [];
    assert packed + [] == packed;
  }

  // ---- text ------------------------------------------------------------------------------------------

  /** `r` with `done` in front. */
  predicate Gathers(whole: Option<seq<six>>, done: seq<six>, r: Option<seq<six>>) {
    (whole.Some? <==> r.Some?) && (whole.Some? ==> whole.value == done + r.value)
  }

  lemma GatherOne(whole: Option<seq<six>>, done: seq<six>, v: six, r: Option<seq<six>>)
    requires Gathers(whole, done, Prepend(v, r))
    ensures Gathers(whole, done + [v], r)
  {
    if r.Some? { Assoc(done, [v], r.value); }
  }

  method ReadText(text: string) returns (r: Option<seq<six>>)
    ensures r == DecodeText(text)
  {
    ghost var whole := DecodeText(text);
    var out: seq<six>, started, k: nat := [], false, 0;
    assert text[0..] == text;
    while k < |text|
      invariant k <= |text| && (!started ==> out == [] && whole == Collect(Body(text[k..])))
      invariant started ==> Gathers(whole, out, Collect(text[k..]))
    {
      DropOne(text, k);
      var c := text[k];
      if !started {
        if c == ':' { started := true; StartGather(whole, text[k + 1..]); }
      } else {
        if c == ':' { break; }
        if !White(c) {
          var v := LookupChar(c);
          if v.None? { return None; }
          GatherOne(whole, out, v.value, Collect(text[k + 1..]));
          out := out + [v.value];
        }
      }
      k := k + 1;
    }
    assert out + [] == out;
    r := Some(out);
  }

  lemma StartGather(whole: Option<seq<six>>, s: string)
    requires whole == Collect(s)
    ensures Gathers(whole, [], Collect(s))
  {
  }

  method LookupChar(c: char) returns (v: Option<six>)
    ensures v == Lookup(c, 0)
  {
    var i: nat := 0;
    while i < 64
      invariant i <= 64 && Lookup(c, 0) == Lookup(c, i)
    {
      if Alpha(i) == c { return Some(i); }
      i := i + 1;
    }
    v := None;
  }

  // ---- whole files -----------------------------------------------------------------------------------

  method WriteFile(f: File) returns (text: string)
    requires Writable(f)
    ensures text == EncodeHqx(f)
  {
    var data := RleEncode(f.data);
    var rsrc := RleEncode(f.rsrc);
    var raw := Checked(Header(f)) + (data + (Crc.Bytes(Crc.Of(f.data)) + (rsrc + Crc.Bytes(Crc.Of(f.rsrc)))));
    var vals := PackSix(raw);
    text := EncodeText(vals);
  }

  /** What the decoder's main program makes of a file's text. */
  method ReadFile(text: string) returns (r: Result)
    ensures r == ReadHqx(text)
    ensures forall f :: Writable(f) && CleanFields(f) && text == EncodeHqx(f) ==> r == Accepted(HeaderOf(f), f.data, f.rsrc)
  {
    var vals := ReadText(text);
    if vals.None? {
      r := BadText;
    } else {
      var packed := UnpackSix(vals.value);
      var raw := RleDecode(packed);
      r := Extract(raw);
    }
    AllReadBack(text);
  }

  lemma AllReadBack(text: string)
    ensures forall f :: Writable(f) && CleanFields(f) && text == EncodeHqx(f) ==>
      ReadHqx(text) == Accepted(HeaderOf(f), f.data, f.rsrc)
  {
    forall f | Writable(f) && CleanFields(f) && text == EncodeHqx(f)
      ensures ReadHqx(text) == Accepted(HeaderOf(f), f.data, f.rsrc)
    {
      FileRoundTrip(f);
    }
  }
}
