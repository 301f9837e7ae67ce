/** The table builders of the decoder and the encoder, and the symbol reader. */
module CanonicalTables {
  import opened Words
  import opened Bits
  import opened Canonical

  lemma {:induction false} CodeBitsHead(c: nat, n: nat)
    ensures CodeBits(c, n + 1) == [Shift(c, n) % 2] + CodeBits(c, n)
    decreases n
  {
    if n > 0 {
      CodeBitsHead(c / 2, n - 1);
      Assoc([Shift(c, n) % 2], CodeBits(c / 2, n - 1), [c % 2]);
    }
  }

  /** The loop that turns a code around, bit by bit. */
  method Reverse(c: nat, length: nat) returns (rev: nat)
    ensures rev == Val(CodeBits(c, length))
  {
    rev := 0;
    var b: nat := 0;
    while b < length
      invariant b <= length && rev == Val(CodeBits(c, b))
    {
      CodeBitsHead(c, b);
      ValHead(Shift(c, b) % 2, CodeBits(c, b));
      rev := rev * 2 + Shift(c, b) % 2;
      b := b + 1;
    }
  }

  lemma ValHead(b: bit, s: seq<bit>)
    ensures Val([b] + s) == b + 2 * Val(s)
  {
    assert ([b] + s)[1..] == s;
  }

  /** The symbols numbered before the step (`l`, `i`) of the double loop. */
  predicate Numbered(lengths: seq<int>, l: nat, i: nat, j: nat) {
    j < |lengths| && (1 <= lengths[j] < l || (lengths[j] == l && l >= 1 && j < i))
  }

  function NumberedCount(lengths: seq<int>, l: nat, i: nat, k: nat): (c: nat)
    requires k <= |lengths|
    ensures c <= k
  {
    if k == 0 then 0 else NumberedCount(lengths, l, i, k - 1) + if Numbered(lengths, l, i, k - 1) then 1 else 0
  }

  lemma {:induction false} CountNext(lengths: seq<int>, l: nat, i: nat, k: nat)
    requires l >= 1 && i < |lengths| && k <= |lengths|
    ensures NumberedCount(lengths, l, i + 1, k)
         == NumberedCount(lengths, l, i, k) + if i < k && lengths[i] == l then 1 else 0
  {
    if k > 0 { CountNext(lengths, l, i, k - 1); }
  }

  lemma {:induction false} CountLevel(lengths: seq<int>, l: nat, k: nat)
    requires l >= 1 && k <= |lengths|
    ensures NumberedCount(lengths, l + 1, 0, k) == NumberedCount(lengths, l, |lengths|, k)
  {
    if k > 0 { CountLevel(lengths, l, k - 1); }
  }

  lemma {:induction false} CountZero(lengths: seq<int>, k: nat)
    requires k <= |lengths|
    ensures NumberedCount(lengths, 1, 0, k) == 0
  {
    if k > 0 { CountZero(lengths, k - 1); }
  }

  /** When the count is full, no symbol is left. */
  lemma {:induction false} CountFull(lengths: seq<int>, l: nat, i: nat, k: nat, j: nat)
    requires j < k <= |lengths| && NumberedCount(lengths, l, i, k) == k
    ensures Numbered(lengths, l, i, j)
  {
    if j < k - 1 { CountFull(lengths, l, i, k - 1, j); }
  }

  /** The table built by the steps before (`l`, `i`). */
  predicate PartTable(table: map<nat, Entry>, lengths: seq<int>, l: nat, i: nat) {
    && (forall k <- table :: Holds(table, lengths, k) && Numbered(lengths, l, i, table[k].symbol))
    && (forall j | 0 <= j < |lengths| && Coded(lengths, j) && Numbered(lengths, l, i, j) :: Key(lengths, j) in table)
  }

  /** The entry at `k` is that of a coded symbol with that key. */
  predicate Holds(table: map<nat, Entry>, lengths: seq<int>, k: nat) {
    && k in table && Coded(lengths, table[k].symbol)
    && table[k] == Entry(lengths[table[k].symbol], table[k].symbol) && k == Key(lengths, table[k].symbol)
  }

  lemma Insert(table: map<nat, Entry>, lengths: seq<int>, l: nat, i: nat, rev: nat)
    requires PartTable(table, lengths, l, i) && Coded(lengths, i) && lengths[i] == l && rev == Key(lengths, i)
    ensures PartTable(table[rev := Entry(l, i)], lengths, l, i + 1)
  {
    var t := table[rev := Entry(l, i)];
    forall k | k in t ensures Holds(t, lengths, k) && Numbered(lengths, l, i + 1, t[k].symbol) {
      if k != rev { assert Holds(table, lengths, k); }
    }
  }

  lemma Skip(table: map<nat, Entry>, lengths: seq<int>, l: nat, i: nat)
    requires PartTable(table, lengths, l, i) && i < |lengths| && lengths[i] != l
    ensures PartTable(table, lengths, l, i + 1)
  {
  }

  lemma Level(table: map<nat, Entry>, lengths: seq<int>, l: nat)
    requires PartTable(table, lengths, l, |lengths|) && l >= 1
    ensures PartTable(table, lengths, l + 1, 0)
  {
  }

  lemma Whole(table: map<nat, Entry>, lengths: seq<int>, l: nat, i: nat)
    requires PartTable(table, lengths, l, i)
    requires forall j | 0 <= j < |lengths| && Coded(lengths, j) :: Numbered(lengths, l, i, j)
    ensures IsTable(table, lengths)
  {
    forall k | k in table ensures Holds(table, lengths, k) {
    }
  }

  lemma WholeWhenFull(table: map<nat, Entry>, lengths: seq<int>, l: nat, i: nat)
    requires PartTable(table, lengths, l, i) && NumberedCount(lengths, l, i, |lengths|) == |lengths|
    ensures IsTable(table, lengths)
  {
    forall j | 0 <= j < |lengths| && Coded(lengths, j) ensures Numbered(lengths, l, i, j) {
      CountFull(lengths, l, i, |lengths|, j);
    }
    Whole(table, lengths, l, i);
  }

  /** The decoder's table; the double loop stops as soon as every symbol has its code. */
  method BuildCanonical(all: seq<int>, numSymbols: nat) returns (table: map<nat, Entry>)
    requires numSymbols <= |all|
    ensures IsTable(table, all[..numSymbols])
  {
    ghost var lengths := all[..numSymbols];
    table := map[];
    var code: nat, left: int, length: nat := 0, numSymbols, 1;
    CountZero(lengths, numSymbols);
    while length <= MAX_LENGTH
      invariant 1 <= length <= MAX_LENGTH + 1 && code == First(lengths, length)
      invariant PartTable(table, lengths, length, 0)
      invariant left == numSymbols - NumberedCount(lengths, length, 0, numSymbols)
    {
      var done;
      table, code, left, done := NumberLevel(all, numSymbols, lengths, length, table, code, left);
      if done { return; }
      Level(table, lengths, length);
      CountLevel(lengths, length, numSymbols);
      code := code * 2;
      length := length + 1;
    }
    Whole(table, lengths, length, 0);
  }

  /** The inner loop, for one length. */
  method NumberLevel(all: seq<int>, numSymbols: nat, ghost lengths: seq<int>, length: nat, given: map<nat, Entry>,
      start: nat, remaining: int) returns (table: map<nat, Entry>, code: nat, left: int, done: bool)
    requires numSymbols <= |all| && lengths == all[..numSymbols] && 1 <= length <= MAX_LENGTH
    requires start == First(lengths, length) && PartTable(given, lengths, length, 0)
    requires remaining == |lengths| - NumberedCount(lengths, length, 0, |lengths|)
    ensures done ==> IsTable(table, lengths)
    ensures !done ==> code == After(lengths, length) && PartTable(table, lengths, length, |lengths|)
    ensures !done ==> left == |lengths| - NumberedCount(lengths, length, |lengths|, |lengths|)
  {
    table, code, left, done := given, start, remaining, false;
    var i: nat := 0;
    while i < numSymbols
      invariant i <= numSymbols && !done && code == First(lengths, length) + Count(lengths, length, i)
      invariant PartTable(table, lengths, length, i)
      invariant left == |lengths| - NumberedCount(lengths, length, i, |lengths|)
    {
      table, code, left := NumberSymbol(all[i], lengths, length, i, table, code, left);
      done := all[i] == length && left == 0;
      i := i + 1;
      if done { break; }
    }
    if done { WholeWhenFull(table, lengths, length, i); }
  }

  /** One turn of the inner loop. */
  method NumberSymbol(symbolLength: int, ghost lengths: seq<int>, length: nat, i: nat, given: map<nat, Entry>, start: nat,
      remaining: int) returns (table: map<nat, Entry>, code: nat, left: int)
    requires i < |lengths| && symbolLength == lengths[i] && 1 <= length <= MAX_LENGTH
    requires start == First(lengths, length) + Count(lengths, length, i) && PartTable(given, lengths, length, i)
    requires remaining == |lengths| - NumberedCount(lengths, length, i, |lengths|)
    ensures code == First(lengths, length) + Count(lengths, length, i + 1)
    ensures PartTable(table, lengths, length, i + 1)
    ensures left == |lengths| - NumberedCount(lengths, length, i + 1, |lengths|)
  {
    CountNext(lengths, length, i, |lengths|);
    if symbolLength != length {
      Skip(given, lengths, length, i);
      table, code, left := given, start, remaining;
    } else {
      table := PlaceCode(given, lengths, length, i, start);
      code, left := start + 1, remaining - 1;
    }
  }

  /** The symbol's entry, under its code turned around. */
  method PlaceCode(table: map<nat, Entry>, ghost lengths: seq<int>, length: nat, i: nat, code: nat)
    returns (more: map<nat, Entry>)
    requires PartTable(table, lengths, length, i) && Coded(lengths, i) && lengths[i] == length && code == Code(lengths, i)
    ensures PartTable(more, lengths, length, i + 1)
  {
    var rev := Reverse(code, length);
    Insert(table, lengths, length, i, rev);
    more := table[rev := Entry(length, i)];
  }

  datatype CodeWord = CodeWord(rev: nat, length: nat)

  /** The encoder's table: symbol to turned-around code and length. */
  predicate IsCodeTable(table: map<nat, CodeWord>, lengths: seq<int>) {
    forall i | 0 <= i < |lengths| && Coded(lengths, i) ::
      i in table && table[i] == CodeWord(Key(lengths, i), lengths[i])
  }

  predicate PartCodes(table: map<nat, CodeWord>, lengths: seq<int>, l: nat, i: nat) {
    forall j | 0 <= j < |lengths| && Coded(lengths, j) && Numbered(lengths, l, i, j) ::
      j in table && table[j] == CodeWord(Key(lengths, j), lengths[j])
  }

  method CanonicalCodes(lengths: seq<int>) returns (table: map<nat, CodeWord>)
    ensures IsCodeTable(table, lengths)
  {
    table := map[];
    var code: nat, length: nat := 0, 1;
    while length <= MAX_LENGTH
      invariant 1 <= length <= MAX_LENGTH + 1 && code == First(lengths, length)
      invariant PartCodes(table, lengths, length, 0)
    {
      var i: nat := 0;
      while i < |lengths|
        invariant i <= |lengths| && code == First(lengths, length) + Count(lengths, length, i)
        invariant PartCodes(table, lengths, length, i)
      {
        if lengths[i] == length {
          assert code == Code(lengths, i);
          var rev := Reverse(code, length);
          table := table[i := CodeWord(rev, length)];
          code := code + 1;
        }
        i := i + 1;
      }
      code := code * 2;
      length := length + 1;
    }
  }

  /** One more bit: the number grows by its weight, and the search goes on unless it hits. */
  lemma FindNext(table: map<nat, Entry>, bits: seq<bit>, n: nat)
    requires 1 <= n <= 32 && n <= |bits|
    ensures bits[n - 1..] != [] && bits[n - 1..][0] == bits[n - 1] && bits[n - 1..][1..] == bits[n..]
    ensures Val(bits[..n]) == Val(bits[..n - 1]) + Weight(bits[n - 1], n - 1)
    ensures var v := Val(bits[..n]);
      Find(table, bits, n) == if v in table && table[v].length == n then Some(Symbol(table[v].symbol, bits[n..]))
                              else Find(table, bits, n + 1)
  {
    DropOne(bits, n - 1);
    assert bits[..n] == bits[..n - 1] + [bits[n - 1]];
    ValSnoc(bits[..n - 1], bits[n - 1]);
  }

  lemma FindEnds(table: map<nat, Entry>, bits: seq<bit>, n: nat)
    requires 1 <= n && n - 1 <= |bits| && bits[n - 1..] == []
    ensures Find(table, bits, n).None?
  {
  }

  /** Reads one symbol; `None` is the end of the stream or an unterminated code. */
  method NextSymbol(br: BitReader, table: map<nat, Entry>) returns (r: Option<nat>)
    requires br.Valid()
    modifies br`pos, br`bitPos, br`left
    ensures br.Valid()
    ensures r.None? <==> Find(table, old(br.left), 1).None?
    ensures r.Some? ==> Find(table, old(br.left), 1) == Some(Symbol(r.value, br.left))
  {
    ghost var bits := br.left;
    ghost var found := Find(table, bits, 1);
    var v: nat, n: nat := 0, 1;
    while n <= 32
      invariant br.Valid() && 1 <= n <= 33 && n - 1 <= |bits| && br.left == bits[n - 1..] && v == Val(bits[..n - 1])
      invariant found == Find(table, bits, n)
    {
      if br.left == [] { FindEnds(table, bits, n); } else { FindNext(table, bits, n); }
      var b := br.NextBit();
      if b.None? { return None; }
      v := v + Weight(b.value, n - 1);
      if v in table && table[v].length == n { return Some(table[v].symbol); }
      n := n + 1;
    }
    r := None;
  }
}
