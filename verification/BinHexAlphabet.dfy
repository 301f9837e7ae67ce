/** The characters of BinHex 4.0 text: which they are, what they count for, and where they stand. */
module BinHexAlphabet {
  import opened Words
  import opened BinHexText

  // ---- the alphabet -------------------------------------------------------------------------

  /** From '!' to 'r' without the characters that are easily mistaken or mistreated. */
  predicate InAlphabet(c: char) {
    '!' <= c <= 'r' && c !in "./7:;<=>?OW\\]^_gno"
  }

  /** The alphabet has these characters and no others. */
  lemma AlphaIff(c: char)
    ensures InAlphabet(c) <==> exists v: six :: Alpha(v) == c
  {
    if InAlphabet(c) {
      var x := c as int;
      var v: six :=
        if c <= '-' then x - 33 else if c <= '6' then x - 35 else if c <= '9' then x - 36 else if c <= 'N' then x - 42
        else if c <= 'V' then x - 43 else if c <= '[' then x - 44 else if c <= 'f' then x - 48 else if c <= 'm' then x - 49
        else x - 51;
      assert Alpha(v) == c;
    }
  }

  lemma AlphaInside(v: six)
    ensures InAlphabet(Alpha(v))
  {
    AlphaIff(Alpha(v));
  }

  predicate IsCode(k: nat) { k < 128 && InAlphabet(k as char) }

  /** How many characters of the alphabet there are with a code below `n`. */
  function Below(n: nat): nat
    requires n <= 128
  {
    if n == 0 then 0 else Below(n - 1) + (if IsCode(n - 1) then 1 else 0)
  }

  lemma {:induction false} NoneBetween(m: nat, n: nat)
    requires m <= n <= 128 && forall k | m <= k < n :: !IsCode(k)
    ensures Below(m) == Below(n)
    decreases n
  {
    if m < n {
      assert !IsCode(n - 1);
      NoneBetween(m, n - 1);
    }
  }

  /** Between the characters of neighbouring values there is none. */
  lemma Neighbours(v: six, k: nat)
    requires (if v == 0 then 0 else Alpha(v - 1) as nat + 1) <= k < Alpha(v) as nat
    ensures !IsCode(k)
  {
    if IsCode(k) {
      AlphaIff(k as char);
      var w: six :| Alpha(w) == k as char;
      if w < v {
        if w < v - 1 { AlphaIncreases(w, v - 1); }
      } else if v < w {
        AlphaIncreases(v, w);
      }
      assert false;
    }
  }

  /** The value of a character is its rank in the alphabet. */
  lemma {:induction false} RankOf(v: six)
    ensures Alpha(v) as nat < 128 && Below(Alpha(v) as nat) == v as int
    decreases v
  {
    var low: nat := if v == 0 then 0 else Alpha(v - 1) as nat + 1;
    if v > 0 {
      RankOf(v - 1);
      AlphaInside(v - 1);
      AlphaIncreases(v - 1, v);
    }
    forall k | low <= k < Alpha(v) as nat ensures !IsCode(k) { Neighbours(v, k); }
    NoneBetween(low, Alpha(v) as nat);
  }

  lemma {:induction false} LookupNone(c: char, v: nat)
    requires v <= 64 && forall w: six :: Alpha(w) != c
    ensures Lookup(c, v) == None
    decreases 64 - v
  {
    if v < 64 { LookupNone(c, v + 1); }
  }

  /** Looking up a character gives its rank, and nothing for a character outside the alphabet. */
  lemma LookupIs(c: char)
    ensures Lookup(c, 0) == if InAlphabet(c) then Some(Below(c as nat)) else None
  {
    AlphaIff(c);
    if InAlphabet(c) {
      var v: six :| Alpha(v) == c;
      LookupAlpha(v, 0);
      RankOf(v);
    } else {
      LookupNone(c, 0);
    }
  }

  // ---- reading ------------------------------------------------------------------------------------

  /** The text before the next colon. */
  function UpToColon(s: string): string {
    if s == "" || s[0] == ':' then "" else [s[0]] + UpToColon(s[1..])
  }

  /** Reading begins behind the first colon. */
  lemma {:induction false} BodyIs(s: string)
    ensures UpToColon(s) == s ==> Body(s) == ""
    ensures UpToColon(s) != s ==> s == UpToColon(s) + (":" + Body(s))
    decreases |s|
  {
    if s != "" && s[0] != ':' {
      BodyIs(s[1..]);
      assert s == [s[0]] + s[1..];
    }
  }

  predicate Readable(s: string) { forall k | 0 <= k < |s| :: InAlphabet(s[k]) || s[k] in "\r\n \t" }

  /** The characters that are not white space. */
  function Inked(s: string): string {
    if s == "" then "" else (if s[0] in "\r\n \t" then "" else [s[0]]) + Inked(s[1..])
  }

  /** The values read are the ranks of these characters. */
  predicate Ranks(vals: seq<six>, s: string) {
    |vals| == |s| && forall k | 0 <= k < |s| :: InAlphabet(s[k]) && vals[k] as int == Below(s[k] as nat)
  }

  lemma ReadableCons(c: char, s: string)
    ensures Readable([c] + s) <==> (InAlphabet(c) || c in "\r\n \t") && Readable(s)
  {
    var t := [c] + s;
    if Readable(t) {
      assert InAlphabet(t[0]) || t[0] in "\r\n \t";
      assert forall k | 0 <= k < |s| :: s[k] == t[k + 1];
    }
  }

  /** Reading fails exactly if a character before the closing colon is neither white space nor in the alphabet, and
      otherwise gives the ranks of the characters in order. */
  lemma {:induction false} CollectIs(s: string)
    ensures Collect(s).Some? <==> Readable(UpToColon(s))
    ensures Collect(s).Some? ==> Ranks(Collect(s).value, Inked(UpToColon(s)))
    decreases |s|
  {
    if s != "" && s[0] != ':' {
      var rest := UpToColon(s[1..]);
      CollectIs(s[1..]);
      LookupIs(s[0]);
      ReadableCons(s[0], rest);
      assert UpToColon(s)[1..] == rest;
      assert s[0] in "\r\n \t" ==> Inked(UpToColon(s)) == "" + Inked(rest) == Inked(rest);
    }
  }

  // ---- writing --------------------------------------------------------------------------------------

  /** Where character `k` stands in lines of 64 characters with two more at the end of each. */
  function Place(k: nat): nat { k + 2 * (k / 64) }

  lemma PlaceNext(k: nat)
    ensures k >= 64 ==> Place(k) == 66 + Place(k - 64) && k % 64 == (k - 64) % 64
    ensures k < 64 ==> Place(k) == k
  {
  }

  lemma LinesCut(s: string, rest: string)
    requires |s| > 64 && rest == Lines(s[64..])
    ensures Lines(s) == s[..64] + ("\r\n" + rest)
    ensures |Lines(s)| == 66 + |rest| && forall k | 0 <= k < 64 :: Lines(s)[k] == s[k]
    ensures Lines(s)[64] == '\r' && Lines(s)[65] == '\n' && forall k | 0 <= k < |rest| :: Lines(s)[66 + k] == rest[k]
  {
    assert ("\r\n" + rest)[0] == '\r' && ("\r\n" + rest)[1] == '\n';
  }

  lemma {:induction false} LinesLength(s: string)
    requires s != ""
    ensures |Lines(s)| == Place(|s| - 1) + 1
    decreases |s|
  {
    PlaceNext(|s| - 1);
    if |s| > 64 {
      LinesLength(s[64..]);
      LinesCut(s, Lines(s[64..]));
    }
  }

  lemma LinesCutAt(s: string, rest: string, k: nat)
    requires |s| > 64 && rest == Lines(s[64..])
    ensures |Lines(s)| == 66 + |rest| && (k < 64 ==> Lines(s)[k] == s[k]) && (k < |rest| ==> Lines(s)[66 + k] == rest[k])
  {
    LinesCut(s, rest);
  }

  lemma FirstBreak(s: string, rest: string)
    requires |s| > 64 && rest == Lines(s[64..])
    ensures |Lines(s)| == 66 + |rest| && Lines(s)[64] == '\r' && Lines(s)[65] == '\n'
  {
    LinesCut(s, rest);
  }

  lemma CharBehind(s: string, k: nat)
    requires 64 <= k < |s|
    ensures s[64..][k - 64] == s[k]
  {
  }

  /** Every character is found at its place. */
  lemma {:induction false} LinesAt(s: string, k: nat)
    requires k < |s|
    ensures Place(k) < |Lines(s)| && Lines(s)[Place(k)] == s[k]
    decreases |s|
  {
    PlaceNext(k);
    if k >= 64 {
      LinesAt(s[64..], k - 64);
      LinesCutAt(s, Lines(s[64..]), Place(k - 64));
      CharBehind(s, k);
    } else if |s| > 64 {
      LinesCutAt(s, Lines(s[64..]), k);
    }
  }

  /** Behind each full line but the last there is a line end. */
  lemma {:induction false} LinesBreak(s: string, k: nat)
    requires k + 1 < |s| && k % 64 == 63
    ensures Place(k) + 2 < |Lines(s)| && Lines(s)[Place(k) + 1] == '\r' && Lines(s)[Place(k) + 2] == '\n'
    decreases |s|
  {
    PlaceNext(k);
    var rest := Lines(s[64..]);
    if k >= 64 {
      LinesBreak(s[64..], k - 64);
      LinesCutAt(s, rest, Place(k - 64) + 1);
      LinesCutAt(s, rest, Place(k - 64) + 2);
    } else {
      LinesAt(s[64..], 0);
      FirstBreak(s, rest);
    }
  }

  lemma FirstLine()
    ensures PREFIX == "(This file must be converted with BinHex 4.0)\r\n"
  {
  }

  /** The text: the customary first line, and between colons the characters of the values. */
  lemma TextIs(vals: seq<six>)
    ensures EncodeText(vals) == "(This file must be converted with BinHex 4.0)\r\n" + (":" + (Lines(Chars(vals)) + ":\r\n"))
  {
    FirstLine();
  }

  lemma CharsRank(vals: seq<six>)
    ensures Ranks(vals, Chars(vals))
  {
    forall k | 0 <= k < |vals| ensures InAlphabet(Chars(vals)[k]) && vals[k] as int == Below(Chars(vals)[k] as nat) {
      AlphaInside(vals[k]);
      RankOf(vals[k]);
    }
  }

  lemma {:induction false} LinesReadable(s: string, k: nat)
    requires k < |Lines(s)|
    ensures Lines(s)[k] in s || Lines(s)[k] in "\r\n"
    decreases |s|
  {
    if |s| > 64 {
      LinesCut(s, Lines(s[64..]));
      if k >= 66 { LinesReadable(s[64..], k - 66); }
    }
  }

  /** Apart from the first line and the colons every character written is in the alphabet or a line end. */
  lemma OnlyAlphabet(vals: seq<six>, k: nat)
    requires k < |Lines(Chars(vals))|
    ensures InAlphabet(Lines(Chars(vals))[k]) || Lines(Chars(vals))[k] in "\r\n"
  {
    LinesReadable(Chars(vals), k);
    CharsRank(vals);
    var c := Lines(Chars(vals))[k];
    if c in Chars(vals) {
      var j :| 0 <= j < |vals| && Chars(vals)[j] == c;
      assert InAlphabet(Chars(vals)[j]);
    }
  }
}
