/** The six-bit packing of BinHex 4.0 and its text form. */
module BinHexText {
  import opened Words
  import opened Bits
  import opened Canonical

  type six = v: int | 0 <= v < 64

  const SIX := 6
  const EIGHT := 8

  // ---- packing ------------------------------------------------------------------------------

  /** The low `w` bits of each value, most significant first, one after the other. */
  function BitsOf(vals: seq<nat>, w: nat): (s: seq<bit>)
    ensures |s| == |vals| * w
  {
    if vals == [] then [] else CodeBits(vals[0], w) + BitsOf(vals[1..], w)
  }

  function Zeros(n: nat): (s: seq<bit>)
    ensures |s| == n
  {
    seq(n, _ => 0)
  }

  lemma {:induction false} NumBound(s: seq<bit>)
    ensures Num(s) < Pow2(|s|)
  {
    if s != [] { NumBound(s[..|s| - 1]); }
  }

  lemma {:induction false} BitsOfNum(s: seq<bit>)
    ensures CodeBits(Num(s), |s|) == s
  {
    if s != [] {
      var t := s[..|s| - 1];
      BitsOfNum(t);
      assert (2 * Num(t) + s[|s| - 1]) / 2 == Num(t);
      assert s == t + [s[|s| - 1]];
    }
  }

  lemma PowSix()
    ensures Pow2(6) == 64 && Pow2(8) == 256
  {
    assert Pow2(3) == 8;
    Pow2Add(3, 3);
    Pow2Add(3, 5);
  }

  /** Groups of six bits; the last one is filled up with zeros. */
  function Sixes(bits: seq<bit>): (v: seq<six>)
    decreases |bits|
  {
    PowSix();
    if bits == [] then []
    else if |bits| < 6 then
      NumBound(bits + Zeros(6 - |bits|));
      [Num(bits + Zeros(6 - |bits|))]
    else
      NumBound(bits[..6]);
      [Num(bits[..6])] + Sixes(bits[6..])
  }

  /** Groups of eight bits; what is left over is dropped. */
  function Eights(bits: seq<bit>): (v: seq<byte>)
    decreases |bits|
  {
    PowSix();
    if |bits| < 8 then []
    else
      NumBound(bits[..8]);
      [Num(bits[..8])] + Eights(bits[8..])
  }

  function Pack(raw: seq<byte>): seq<six> { Sixes(BitsOf(raw, EIGHT)) }

  function Unpack(vals: seq<six>): seq<byte> { Eights(BitsOf(vals, SIX)) }

  lemma BitsOfCons(v: nat, vals: seq<nat>, w: nat)
    ensures BitsOf([v] + vals, w) == CodeBits(v, w) + BitsOf(vals, w)
  {
    assert ([v] + vals)[1..] == vals;
  }

  lemma {:induction false} SixesBits(bits: seq<bit>) returns (pad: nat)
    ensures pad < 6 && BitsOf(Sixes(bits), SIX) == bits + Zeros(pad)
    decreases |bits|
  {
    pad := 0;
    if bits == [] {
    } else if |bits| < 6 {
      pad := 6 - |bits|;
      var s := bits + Zeros(pad);
      BitsOfNum(s);
      BitsOfCons(Num(s), [], SIX);
      assert [Num(s)] + [] == [Num(s)] && CodeBits(Num(s), SIX) + [] == s;
    } else {
      pad := SixesBits(bits[6..]);
      BitsOfNum(bits[..6]);
      BitsOfCons(Num(bits[..6]), Sixes(bits[6..]), SIX);
      Assoc(bits[..6], bits[6..], Zeros(pad));
      assert bits == bits[..6] + bits[6..];
    }
  }

  lemma {:induction false} EightsBits(raw: seq<byte>, left: seq<bit>)
    requires |left| < 8
    ensures Eights(BitsOf(raw, EIGHT) + left) == raw
    decreases |raw|
  {
    if raw == [] {
      assert [] + left == left;
    } else {
      var head, tail := CodeBits(raw[0], EIGHT), BitsOf(raw[1..], EIGHT);
      PowSix();
      NumOfCode(raw[0], EIGHT);
      Assoc(head, tail, left);
      assert (head + (tail + left))[..8] == head && (head + (tail + left))[8..] == tail + left;
      EightsBits(raw[1..], left);
      assert raw == [raw[0]] + raw[1..];
    }
  }

  /** Unpacking undoes packing: the padding never makes up another byte. */
  lemma UnpackPack(raw: seq<byte>)
    ensures Unpack(Pack(raw)) == raw
  {
    var pad := SixesBits(BitsOf(raw, EIGHT));
    EightsBits(raw, Zeros(pad));
  }

  // ---- the text ----------------------------------------------------------------------------------

  /** The alphabet, by its ranges. */
  function Alpha(v: six): (c: char) {
    if v < 13 then ('!' as int + v) as char
    else if v < 20 then ('0' as int + (v - 13)) as char
    else if v < 22 then ('8' as int + (v - 20)) as char
    else if v < 37 then ('@' as int + (v - 22)) as char
    else if v < 44 then ('P' as int + (v - 37)) as char
    else if v < 48 then ('X' as int + (v - 44)) as char
    else if v < 55 then ('`' as int + (v - 48)) as char
    else if v < 61 then ('h' as int + (v - 55)) as char
    else ('p' as int + (v - 61)) as char
  }

  /** The first value with this character, from `v` on. */
  function Lookup(c: char, v: nat): (r: Option<six>)
    requires v <= 64
    decreases 64 - v
  {
    if v == 64 then None else if Alpha(v) == c then Some(v) else Lookup(c, v + 1)
  }

  lemma AlphaIncreases(v: six, w: six)
    requires v < w
    ensures Alpha(v) < Alpha(w)
  {
  }

  lemma {:induction false} LookupAlpha(v: six, from: nat)
    requires from <= v
    ensures Lookup(Alpha(v), from) == Some(v)
    decreases v - from
  {
    if from < v {
      AlphaIncreases(from, v);
      LookupAlpha(v, from + 1);
    }
  }

  predicate White(c: char) { c == '\r' || c == '\n' || c == ' ' || c == '\t' }

  function Chars(vals: seq<six>): (s: string)
    ensures |s| == |vals|
  {
    seq(|vals|, i requires 0 <= i < |vals| => Alpha(vals[i]))
  }

  /** Lines of 64 characters. */
  function Lines(s: string): string
    decreases |s|
  {
    if |s| <= 64 then s else s[..64] + ("\r\n" + Lines(s[64..]))
  }

  const PREFIX := "(This file must be " + "converted with " + "BinHex 4.0)\r\n"

  function EncodeText(vals: seq<six>): string {
    PREFIX + (":" + (Lines(Chars(vals)) + ":\r\n"))
  }

  function Prepend(v: six, r: Option<seq<six>>): Option<seq<six>> {
    if r.None? then None else Some([v] + r.value)
  }

  /** The values up to the closing colon; a character outside the alphabet is an error. */
  function Collect(s: string): Option<seq<six>> {
    if s == "" || s[0] == ':' then Some([])
    else if White(s[0]) then Collect(s[1..])
    else
      var v := Lookup(s[0], 0);
      if v.None? then None else Prepend(v.value, Collect(s[1..]))
  }

  /** What follows the first colon. */
  function Body(s: string): string {
    if s == "" then "" else if s[0] == ':' then s[1..] else Body(s[1..])
  }

  function DecodeText(s: string): Option<seq<six>> { Collect(Body(s)) }

  predicate NoColon(s: string) { forall i | 0 <= i < |s| :: s[i] != ':' }

  lemma PrefixHasNoColon()
    ensures NoColon(PREFIX)
  {
  }

  lemma {:induction false} BodyAfter(s: string, t: string)
    requires NoColon(s)
    ensures Body(s + (":" + t)) == t
    decreases |s|
  {
    if s == "" {
      assert s + (":" + t) == ":" + t && (":" + t)[1..] == t;
    } else {
      assert (s + (":" + t))[1..] == s[1..] + (":" + t);
      BodyAfter(s[1..], t);
    }
  }

  lemma CollectChar(v: six, rest: string)
    ensures Collect([Alpha(v)] + rest) == Prepend(v, Collect(rest))
  {
    LookupAlpha(v, 0);
    assert ([Alpha(v)] + rest)[1..] == rest;
  }

  lemma {:induction false} CollectChars(vals: seq<six>, rest: string)
    requires Collect(rest).Some?
    ensures Collect(Chars(vals) + rest) == Some(vals + Collect(rest).value)
    decreases |vals|
  {
    if vals == [] {
      assert Chars(vals) + rest == rest && vals + Collect(rest).value == Collect(rest).value;
    } else {
      CharsSplit(vals, 1);
      assert Chars(vals[..1]) == [Alpha(vals[0])];
      Assoc([Alpha(vals[0])], Chars(vals[1..]), rest);
      CollectChars(vals[1..], rest);
      CollectChar(vals[0], Chars(vals[1..]) + rest);
      assert vals == [vals[0]] + vals[1..];
      Assoc([vals[0]], vals[1..], Collect(rest).value);
    }
  }

  lemma CharsSplit(vals: seq<six>, k: nat)
    requires k <= |vals|
    ensures Chars(vals) == Chars(vals[..k]) + Chars(vals[k..])
    ensures Chars(vals)[..k] == Chars(vals[..k]) && Chars(vals)[k..] == Chars(vals[k..])
  {
  }

  lemma SkipLineEnd(rest: string)
    ensures Collect("\r\n" + rest) == Collect(rest)
  {
    assert ("\r\n" + rest)[1..] == "\n" + rest && ("\n" + rest)[1..] == rest;
  }

  lemma {:induction false} CollectLines(vals: seq<six>, rest: string)
    requires Collect(rest).Some?
    ensures Collect(Lines(Chars(vals)) + rest) == Some(vals + Collect(rest).value)
    decreases |vals|
  {
    if |vals| <= 64 {
      CollectChars(vals, rest);
    } else {
      var head, tail := vals[..64], vals[64..];
      CharsSplit(vals, 64);
      var more := Lines(Chars(tail)) + rest;
      Assoc(Chars(head), "\r\n" + Lines(Chars(tail)), rest);
      Assoc("\r\n", Lines(Chars(tail)), rest);
      SkipLineEnd(more);
      CollectLines(tail, rest);
      CollectChars(head, "\r\n" + more);
      Assoc(head, tail, Collect(rest).value);
      assert head + tail == vals;
    }
  }

  /** The text decodes to the values it was made from. */
  lemma TextRoundTrip(vals: seq<six>)
    ensures DecodeText(EncodeText(vals)) == Some(vals)
  {
    PrefixHasNoColon();
    BodyAfter(PREFIX, Lines(Chars(vals)) + ":\r\n");
    assert Collect(":\r\n") == Some([]);
    CollectLines(vals, ":\r\n");
    assert vals + [] == vals;
  }
}
