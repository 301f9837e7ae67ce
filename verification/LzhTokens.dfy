/** What the tokens of a stream mean: matches of every length and distance, and every way to parse a payload. */
module LzhTokens {
  import opened Words
  import opened Bits
  import opened Canonical
  import opened Lzh
  import opened LzhRun
  import opened LzhDynamic
  import opened LzhCoder

  /** The word of this symbol is read back, whatever follows. */
  ghost predicate WordRead(table: map<nat, Entry>, words: seq<seq<bit>>, sym: nat)
    requires sym < |words|
  {
    forall rest: seq<bit> {:trigger Find(table, words[sym] + rest, 1)} :: Find(table, words[sym] + rest, 1) == Some(Symbol(sym, rest))
  }

  ghost predicate WordsRead(table: map<nat, Entry>, words: seq<seq<bit>>) {
    forall sym: nat | sym < |words| :: WordRead(table, words, sym)
  }

  /** Every word of the three codes is read back. */
  ghost predicate CodesRead(t: Tables, c: Codes) {
    Lzh.Complete(c) && WordsRead(t.first, c.first) && WordsRead(t.second, c.second) && WordsRead(t.offset, c.offset)
  }

  lemma EachWord(table: map<nat, Entry>, words: seq<seq<bit>>)
    requires Reads(table, words)
    ensures WordsRead(table, words)
  {
  }

  lemma WordFound(table: map<nat, Entry>, words: seq<seq<bit>>, sym: nat, after: seq<bit>)
    requires WordsRead(table, words) && sym < |words|
    ensures Find(table, words[sym] + after, 1) == Some(Symbol(sym, after))
  {
    assert WordRead(table, words, sym);
  }

  /** A byte, or a stretch that repeats what stands `dist` bytes before. The distance lies in bucket `bucket`; a long
      length may be sent with ten or with fifteen bits. */
  datatype Token = Byte(value: byte) | Match(length: nat, dist: nat, bucket: nat, wide: bool)

  /** Bucket 0 is distance 1, and bucket `s` the distances from 2^(s-1) + 1 to 2^s. */
  predicate InBucket(dist: nat, s: nat) {
    if s == 0 then dist == 1 else Pow2(s - 1) < dist <= Pow2(s)
  }

  predicate Sendable(k: Token, c: Codes) {
    k.Byte? || (3 <= k.length <= (if k.wide then 65 + 32767 else 65 + 1023) && (k.wide ==> k.length >= 65)
                && InBucket(k.dist, k.bucket) && k.bucket < |c.offset|)
  }

  /** The symbol of a length, and what stands behind it. */
  function LengthSymbol(k: Token): nat
    requires k.Match? && k.length >= 3
  {
    if k.wide then 0x13f else if k.length >= 65 then 0x13e else 0x100 + (k.length - 3)
  }

  function LengthExtra(k: Token): seq<bit>
    requires k.Match?
  {
    if k.length < 65 then [] else Lsb(k.length - 65, LengthWidth(k))
  }

  function LengthWidth(k: Token): nat
    requires k.Match?
  {
    if k.wide then 15 else 10
  }

  function BucketExtra(k: Token): seq<bit>
    requires k.Match? && InBucket(k.dist, k.bucket)
  {
    if k.bucket < 2 then [] else Lsb(k.dist - Pow2(k.bucket - 1) - 1, k.bucket - 1)
  }

  /** The bits of a token, in front of `rest`. */
  function Sent(c: Codes, k: Token, inSecond: bool, rest: seq<bit>): seq<bit>
    requires Lzh.Complete(c) && Sendable(k, c)
  {
    var words := if inSecond then c.second else c.first;
    if k.Byte? then words[k.value] + rest
    else words[LengthSymbol(k)] + (LengthExtra(k) + (c.offset[k.bucket] + (BucketExtra(k) + rest)))
  }

  /** The byte at `j` repeats the one `dist` before it. */
  predicate Echoes(p: seq<byte>, j: nat, dist: nat)
    requires dist <= j < |p|
  {
    p[j] == p[j - dist]
  }

  /** `r` is `out` and `n` more bytes, each of which repeats the one `dist` before it. */
  predicate Extends(out: seq<byte>, r: seq<byte>, n: nat, dist: nat) {
    && 1 <= dist <= |out| && |r| == |out| + n && out == r[..|out|]
    && forall j | |out| <= j < |r| :: Echoes(r, j, dist)
  }

  lemma {:induction false} CopyExtends(out: seq<byte>, dist: nat, n: nat)
    requires 1 <= dist <= |out|
    ensures Copy(out, dist, n).Some? && Extends(out, Copy(out, dist, n).value, n, dist)
    decreases n
  {
    if n > 0 {
      var next := out + [out[|out| - dist]];
      CopyExtends(next, dist, n - 1);
      var r := Copy(next, dist, n - 1).value;
      assert r[|out|] == next[|out|] && r[|out| - dist] == next[|out| - dist] by { assert r[..|next|] == next; }
      assert Echoes(r, |out|, dist);
      assert r[..|out|] == r[..|next|][..|out|] == next[..|out|] == out;
    }
  }

  lemma {:induction false} ExtensionUnique(out: seq<byte>, r: seq<byte>, s: seq<byte>, n: nat, dist: nat, k: nat)
    requires Extends(out, r, n, dist) && Extends(out, s, n, dist) && k < |r|
    ensures r[k] == s[k]
    decreases k
  {
    if k < |out| {
      assert r[k] == r[..|out|][k] && s[k] == s[..|out|][k];
    } else {
      ExtensionUnique(out, r, s, n, dist, k - dist);
      assert Echoes(r, k, dist) && Echoes(s, k, dist);
    }
  }

  // ---- one token ----------------------------------------------------------------------------------

  lemma ShortLength(k: Token, rest: seq<bit>)
    requires k.Match? && 3 <= k.length < 65 && !k.wide
    ensures ReadLength(LengthSymbol(k), LengthExtra(k) + rest) == Some(Got(k.length, rest))
  {
    assert [] + rest == rest;
  }

  lemma LongLength(k: Token, rest: seq<bit>)
    requires k.Match? && 65 <= k.length && k.length - 65 < (if k.wide then 32768 else 1024)
    ensures ReadLength(LengthSymbol(k), LengthExtra(k) + rest) == Some(Got(k.length, rest))
  {
    Powers15();
    ReadBackBits(k.length - 65, if k.wide then 15 else 10, rest);
  }

  lemma Powers15()
    ensures Pow2(10) == 1024 && Pow2(15) == 32768
  {
    assert Pow2(5) == 32;
    Pow2Add(5, 5);
    Pow2Add(5, 10);
  }

  lemma NearRead(t: Tables, c: Codes, k: Token, rest: seq<bit>)
    requires CodesRead(t, c) && k.Match? && Sendable(k, c) && k.bucket < 2
    ensures ReadDistance(t.offset, c.offset[k.bucket] + (BucketExtra(k) + rest)) == Some(Got(k.dist, rest))
  {
    WordFound(t.offset, c.offset, k.bucket, rest);
    assert [] + rest == rest && Pow2(1) == 2;
  }

  lemma FarRead(offset: map<nat, Entry>, bits: seq<bit>, s: nat, x: nat, rest: seq<bit>)
    requires s >= 2 && x < Pow2(s - 1) && Find(offset, bits, 1) == Some(Symbol(s, Lsb(x, s - 1) + rest))
    ensures ReadDistance(offset, bits) == Some(Got(Pow2(s - 1) + x + 1, rest))
  {
    ReadBackBits(x, s - 1, rest);
  }

  lemma BucketRead(t: Tables, c: Codes, k: Token, rest: seq<bit>)
    requires CodesRead(t, c) && k.Match? && Sendable(k, c)
    ensures ReadDistance(t.offset, c.offset[k.bucket] + (BucketExtra(k) + rest)) == Some(Got(k.dist, rest))
  {
    var s := k.bucket;
    if s < 2 {
      NearRead(t, c, k, rest);
    } else {
      DoublePow(s);
      WordFound(t.offset, c.offset, s, BucketExtra(k) + rest);
      FarRead(t.offset, c.offset[s] + (BucketExtra(k) + rest), s, k.dist - Pow2(s - 1) - 1, rest);
    }
  }

  lemma DoublePow(s: nat)
    requires s > 0
    ensures Pow2(s) == 2 * Pow2(s - 1)
  {
  }

  /** An index before the start counts from the end, as Python's do: `k` bytes too far back is the `k`-th last byte. */
  lemma BeforeTheStart(out: seq<byte>, k: nat)
    requires 1 <= k <= |out|
    ensures Copy(out, |out| + k, 1) == Some(out + [out[|out| - k]])
    ensures Copy(out, 2 * |out| + k, 1) == None
  {
    assert Copy(out + [out[|out| - k]], |out| + k, 0) == Some(out + [out[|out| - k]]);
  }

  /** A match of any length from 3 to 32832 at any distance the stream can reach back: what follows is decoded behind
      the bytes before it and the bytes it repeats. */
  lemma MatchMeans(t: Tables, c: Codes, k: Token, out: seq<byte>, inSecond: bool, size: nat, rest: seq<bit>) returns (r: seq<byte>)
    requires CodesRead(t, c) && k.Match? && Sendable(k, c) && k.dist <= |out| < size
    ensures Extends(out, r, k.length, k.dist)
    ensures Decode(t, Sent(c, k, inSecond, rest), out, inSecond, size) == Decode(t, rest, r, true, size)
  {
    assert k.dist >= 1;
    CopyExtends(out, k.dist, k.length);
    r := Copy(out, k.dist, k.length).value;
    MatchCopies(t, c, k, out, inSecond, size, rest, r);
  }

  lemma MatchCopies(t: Tables, c: Codes, k: Token, out: seq<byte>, inSecond: bool, size: nat, rest: seq<bit>, r: seq<byte>)
    requires CodesRead(t, c) && k.Match? && Sendable(k, c) && |out| < size && Copy(out, k.dist, k.length) == Some(r)
    ensures Decode(t, Sent(c, k, inSecond, rest), out, inSecond, size) == Decode(t, rest, r, true, size)
  {
    var far := c.offset[k.bucket] + (BucketExtra(k) + rest);
    if k.length < 65 { ShortLength(k, far); } else { LongLength(k, far); }
    BucketRead(t, c, k, rest);
    MatchTurn(t, c, k, out, inSecond, size, far, rest, r);
  }

  lemma MatchTurn(t: Tables, c: Codes, k: Token, out: seq<byte>, inSecond: bool, size: nat, far: seq<bit>, rest: seq<bit>, r: seq<byte>)
    requires CodesRead(t, c) && k.Match? && Sendable(k, c) && |out| < size
    requires far == c.offset[k.bucket] + (BucketExtra(k) + rest)
    requires ReadLength(LengthSymbol(k), LengthExtra(k) + far) == Some(Got(k.length, far))
    requires ReadDistance(t.offset, far) == Some(Got(k.dist, rest)) && Copy(out, k.dist, k.length) == Some(r)
    ensures Decode(t, Sent(c, k, inSecond, rest), out, inSecond, size) == Decode(t, rest, r, true, size)
  {
    var words, sym, after := Current(c, inSecond), LengthSymbol(k), LengthExtra(k) + far;
    WordFound(Table(t, inSecond), words, sym, after);
    SymbolTurn(t, words[sym] + after, out, inSecond, size, sym, after, r, rest);
  }

  lemma SymbolTurn(t: Tables, bits: seq<bit>, out: seq<byte>, inSecond: bool, size: nat, sym: nat, after: seq<bit>,
                   next: seq<byte>, rest: seq<bit>)
    requires Find(Table(t, inSecond), bits, 1) == Some(Symbol(sym, after)) && 0x100 <= sym < 0x140 && |out| < size
    requires ReadMatch(t, Symbol(sym, after), out) == Some(Copied(next, rest))
    ensures Decode(t, bits, out, inSecond, size) == Decode(t, rest, next, true, size)
  {
  }

  /** A byte is appended, and the first code is next. */
  lemma ByteMeans(t: Tables, c: Codes, b: byte, out: seq<byte>, inSecond: bool, size: nat, rest: seq<bit>)
    requires CodesRead(t, c) && |out| < size
    ensures Decode(t, Sent(c, Byte(b), inSecond, rest), out, inSecond, size) == Decode(t, rest, out + [b], false, size)
  {
    var words := Current(c, inSecond);
    WordFound(Table(t, inSecond), words, b, rest);
  }

  /** Symbol 0x140 ends the stream, however much is still missing. */
  lemma EndMeans(t: Tables, c: Codes, out: seq<byte>, inSecond: bool, size: nat, rest: seq<bit>)
    requires CodesRead(t, c) && |out| < size
    ensures Decode(t, (if inSecond then c.second else c.first)[0x140] + rest, out, inSecond, size) == Some(out)
  {
    var words := Current(c, inSecond);
    WordFound(Table(t, inSecond), words, 0x140, rest);
  }

  // ---- every parse of a payload ---------------------------------------------------------------------------

  /** The tokens say what the payload is from `i` on. */
  predicate Parses(p: seq<byte>, i: nat, ks: seq<Token>)
    decreases |ks|
  {
    i <= |p| &&
    if ks == [] then i == |p|
    else match ks[0]
      case Byte(b) => i < |p| && p[i] == b && Parses(p, i + 1, ks[1..])
      case Match(n, dist, _, _) => i + n <= |p| && dist <= i && RepeatsFor(p, i, n, dist) && Parses(p, i + n, ks[1..])
  }

  predicate RepeatsFor(p: seq<byte>, i: nat, n: nat, dist: nat)
    requires i + n <= |p| && dist <= i
  {
    forall j | i <= j < i + n :: Echoes(p, j, dist)
  }

  predicate AllSendable(ks: seq<Token>, c: Codes) { forall j | 0 <= j < |ks| :: Sendable(ks[j], c) }

  lemma SendableTail(ks: seq<Token>, c: Codes)
    requires ks != [] && AllSendable(ks, c)
    ensures Sendable(ks[0], c) && AllSendable(ks[1..], c)
  {
  }

  /** The tokens in order, and then anything. */
  function Stream(c: Codes, ks: seq<Token>, inSecond: bool, tail: seq<bit>): seq<bit>
    requires Lzh.Complete(c) && AllSendable(ks, c)
    decreases |ks|
  {
    if ks == [] then tail else Sent(c, ks[0], inSecond, Stream(c, ks[1..], ks[0].Match?, tail))
  }

  lemma MatchInPayload(p: seq<byte>, i: nat, n: nat, dist: nat)
    requires 1 <= dist <= i && i + n <= |p| && RepeatsFor(p, i, n, dist)
    ensures Copy(p[..i], dist, n) == Some(p[..i + n])
  {
    CopyExtends(p[..i], dist, n);
    var r, q := Copy(p[..i], dist, n).value, p[..i + n];
    assert forall j | i <= j < i + n :: Echoes(p, j, dist) ==> Echoes(q, j, dist);
    assert q[..i] == p[..i];
    forall k | 0 <= k < |r| ensures r[k] == q[k] {
      ExtensionUnique(p[..i], r, q, n, dist, k);
    }
    assert r == q;
  }

  lemma ByteParsed(t: Tables, c: Codes, p: seq<byte>, i: nat, b: byte, inSecond: bool, rest: seq<bit>)
    requires CodesRead(t, c) && i < |p| && p[i] == b
    ensures Decode(t, Sent(c, Byte(b), inSecond, rest), p[..i], inSecond, |p|) == Decode(t, rest, p[..i + 1], false, |p|)
  {
    ByteMeans(t, c, b, p[..i], inSecond, |p|, rest);
    assert p[..i] + [b] == p[..i + 1];
  }

  lemma MatchParsed(t: Tables, c: Codes, p: seq<byte>, i: nat, k: Token, inSecond: bool, rest: seq<bit>)
    requires CodesRead(t, c) && k.Match? && Sendable(k, c) && i + k.length <= |p| && k.dist <= i && RepeatsFor(p, i, k.length, k.dist)
    ensures Decode(t, Sent(c, k, inSecond, rest), p[..i], inSecond, |p|) == Decode(t, rest, p[..i + k.length], true, |p|)
  {
    assert k.dist >= 1;
    MatchInPayload(p, i, k.length, k.dist);
    MatchCopies(t, c, k, p[..i], inSecond, |p|, rest, p[..i + k.length]);
  }

  lemma WholePayload(t: Tables, p: seq<byte>, inSecond: bool, tail: seq<bit>)
    ensures Decode(t, tail, p[..|p|], inSecond, |p|) == Some(p)
  {
    assert p[..|p|] == p;
  }

  /** Where the first token leaves the payload. */
  function After(i: nat, k: Token): nat { if k.Byte? then i + 1 else i + k.length }

  lemma ParseTail(p: seq<byte>, i: nat, ks: seq<Token>)
    requires Parses(p, i, ks) && ks != []
    ensures Parses(p, After(i, ks[0]), ks[1..]) && Says(p, i, ks[0])
  {
  }

  /** The token says what the payload is at `i`. */
  predicate Says(p: seq<byte>, i: nat, k: Token) {
    && After(i, k) <= |p|
    && if k.Byte? then p[i] == k.value else k.dist <= i && RepeatsFor(p, i, k.length, k.dist)
  }

  lemma TokenSaid(t: Tables, c: Codes, p: seq<byte>, i: nat, k: Token, inSecond: bool, rest: seq<bit>)
    requires CodesRead(t, c) && Sendable(k, c) && Says(p, i, k)
    ensures Decode(t, Sent(c, k, inSecond, rest), p[..i], inSecond, |p|) == Decode(t, rest, p[..After(i, k)], k.Match?, |p|)
  {
    if k.Byte? { ByteParsed(t, c, p, i, k.value, inSecond, rest); } else { MatchParsed(t, c, p, i, k, inSecond, rest); }
  }

  /** One token of a parse. */
  lemma TokenParsed(t: Tables, c: Codes, p: seq<byte>, i: nat, ks: seq<Token>, inSecond: bool, tail: seq<bit>)
    requires CodesRead(t, c) && ks != [] && AllSendable(ks, c) && AllSendable(ks[1..], c) && Says(p, i, ks[0])
    ensures Decode(t, Stream(c, ks, inSecond, tail), p[..i], inSecond, |p|)
         == Decode(t, Stream(c, ks[1..], ks[0].Match?, tail), p[..After(i, ks[0])], ks[0].Match?, |p|)
  {
    TokenSaid(t, c, p, i, ks[0], inSecond, Stream(c, ks[1..], ks[0].Match?, tail));
  }

  /** However a payload is parsed, as bytes and matches of any lengths and distances, its stream decodes to it. */
  lemma {:induction false} AnyParse(t: Tables, c: Codes, p: seq<byte>, i: nat, ks: seq<Token>, inSecond: bool, tail: seq<bit>)
    requires CodesRead(t, c) && AllSendable(ks, c) && Parses(p, i, ks)
    ensures i <= |p| && Decode(t, Stream(c, ks, inSecond, tail), p[..i], inSecond, |p|) == Some(p)
    decreases |ks|
  {
    if ks == [] {
      WholePayload(t, p, inSecond, tail);
    } else {
      SendableTail(ks, c);
      ParseTail(p, i, ks);
      TokenParsed(t, c, p, i, ks, inSecond, tail);
      AnyParse(t, c, p, After(i, ks[0]), ks[1..], ks[0].Match?, tail);
    }
  }

  lemma UsableReads(t: Tables, s: Sets)
    requires Usable(s) && AreTables(t, s)
    ensures CodesRead(t, CodesOf(s))
  {
    TableReads(t.first, s.first);
    TableReads(t.second, s.second);
    TableReads(t.offset, s.offset);
    EachWord(t.first, CodesOf(s).first);
    EachWord(t.second, CodesOf(s).second);
    EachWord(t.offset, CodesOf(s).offset);
  }

  /** From bytes to bytes: any parse, sent with any of the five static sets behind its selector, decompresses to the payload. */
  lemma ParseDecompresses(meta: map<nat, Entry>, sets: seq<Sets>, val: byte, p: seq<byte>, ks: seq<Token>, data: seq<byte>,
                          tail: seq<bit>, r: Option<seq<byte>>)
    requires |sets| == 5 && 1 <= val / 16 <= 5 && Usable(sets[val / 16 - 1])
    requires AllSendable(ks, CodesOf(sets[val / 16 - 1])) && Parses(p, 0, ks)
    requires AllBits(data) == AllBits([val]) + Stream(CodesOf(sets[val / 16 - 1]), ks, false, tail)
    requires Decompresses(meta, sets, data, |p|, r)
    ensures r == Some(p)
  {
    var s := sets[val / 16 - 1];
    var bits := Stream(CodesOf(s), ks, false, tail);
    Selector(data, val, bits);
    StaticSet(meta, sets, data, val / 16, |p|, r);
    var t := TablesOf(s, bits, |p|, r);
    UsableReads(t, s);
    AnyParse(t, CodesOf(s), p, 0, ks, false, tail);
    assert p[..0] == [];
  }

  /** The same for a stream that brings its own tables. */
  lemma OwnTablesParse(meta: map<nat, Entry>, codes: seq<nat>, lengths: seq<nat>, sets: seq<Sets>, s: Sets, val: byte,
                       p: seq<byte>, ks: seq<Token>, data: seq<byte>, tail: seq<bit>, r: Option<seq<byte>>)
    requires |sets| == 5 && IsMetacode(meta, codes, lengths) && val / 16 == 0 && Announced(s, val)
    requires AllSendable(ks, CodesOf(s)) && Parses(p, 0, ks)
    requires AllBits(data) == AllBits([val]) + Announce(DirectWords(codes, lengths), s, val, Stream(CodesOf(s), ks, false, tail))
    requires Decompresses(meta, sets, data, |p|, r)
    ensures r == Some(p)
  {
    var words, bits := DirectWords(codes, lengths), Stream(CodesOf(s), ks, false, tail);
    MetaReads(meta, codes, lengths);
    Selector(data, val, Announce(words, s, val, bits));
    BringsBack(meta, words, s, val, bits);
    var t := TablesOf(s, bits, |p|, r);
    UsableReads(t, s);
    AnyParse(t, CodesOf(s), p, 0, ks, false, tail);
    assert p[..0] == [];
  }
}
