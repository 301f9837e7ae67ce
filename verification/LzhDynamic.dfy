/** Code tables that come with the stream: the metacode and the lengths it spells. */
module LzhDynamic {
  import opened Words
  import opened Bits
  import opened Canonical
  import opened CanonicalTables
  import opened Lzh
  import opened LzhRun

  // ---- the metacode -------------------------------------------------------------------------------

  const META_CODES: seq<nat> := [
    0x5d8, 0x058, 0x040, 0x0c0, 0x000, 0x078, 0x02b, 0x014, 0x00c, 0x01c, 0x01b, 0x00b, 0x010,
    0x020, 0x038, 0x018, 0x0d8, 0xbd8, 0x180, 0x680, 0x380, 0xf80, 0x780, 0x480, 0x080, 0x280,
    0x3d8, 0xfd8, 0x7d8, 0x9d8, 0x1d8, 0x004, 0x001, 0x002, 0x007, 0x003, 0x008]

  const META_LENGTHS: seq<nat> := [
    11, 8, 8, 8, 8, 7, 6, 5, 5, 5, 5, 6, 5, 6, 7, 7, 9, 12, 10, 11, 11, 12, 12, 11, 11, 11, 12, 12, 12, 12, 12, 5, 2, 2,
    3, 4, 5]

  const META_SIZE := 37

  /** Direct insertion: the first `n` codes, a later one over an earlier one. */
  function Direct(codes: seq<nat>, lengths: seq<nat>, n: nat): map<nat, Entry>
    requires n <= |codes| && n <= |lengths|
  {
    if n == 0 then map[] else Direct(codes, lengths, n - 1)[codes[n - 1] := Entry(lengths[n - 1], n - 1)]
  }

  method BuildDirect(codes: seq<nat>, lengths: seq<nat>, n: nat) returns (table: map<nat, Entry>)
    requires n <= |codes| && n <= |lengths|
    ensures table == Direct(codes, lengths, n)
  {
    table := map[];
    for i := 0 to n
      invariant table == Direct(codes, lengths, i)
    {
      table := table[codes[i] := Entry(lengths[i], i)];
    }
  }

  /** A binary code tree. */
  datatype Tree = Leaf(symbol: nat) | Node(zero: Tree, one: Tree)

  /** The symbol at the end of the path that the low `n` bits of `v` spell, if nothing is left of `v`. */
  function Walk(t: Tree, v: nat, n: nat): Option<nat>
    decreases t
  {
    match t
    case Leaf(s) => if n == 0 && v == 0 then Some(s) else None
    case Node(zero, one) => if n == 0 then None else Walk(if v % 2 == 0 then zero else one, v / 2, n - 1)
  }

  const META_LOW := Node(Leaf(4), Node(Node(Node(Leaf(24), Leaf(23)), Node(Leaf(25), Leaf(19))),
                                       Node(Leaf(18), Node(Leaf(20), Node(Leaf(22), Leaf(21))))))

  const META_HIGH := Node(Leaf(1), Node(Leaf(16), Node(Node(Node(Leaf(30), Leaf(29)), Leaf(0)),
                                                       Node(Node(Leaf(26), Leaf(17)), Node(Leaf(28), Leaf(27))))))

  const META_BRANCH := Node(Leaf(36), Node(Node(Leaf(15), META_HIGH), Node(Leaf(14), Leaf(5))))

  const META_ZERO := Node(Node(Node(Node(Node(META_LOW, Node(Leaf(2), Leaf(3))), Leaf(13)), Leaf(12)), META_BRANCH),
                          Node(Node(Leaf(31), Leaf(7)), Node(Leaf(8), Leaf(9))))

  const META_TREE := Node(Node(META_ZERO, Leaf(33)),
                          Node(Leaf(32), Node(Node(Leaf(35), Node(Node(Leaf(11), Leaf(6)), Leaf(10))), Leaf(34))))

  predicate Spells(t: Tree, v: nat, n: nat, s: nat) { Walk(t, v, n) == Some(s) }

  /** Every code is the path to its symbol in a tree. */
  predicate InTree(t: Tree, codes: seq<nat>, lengths: seq<nat>) {
    |codes| == |lengths| && forall i | 0 <= i < |codes| :: Spells(t, codes[i], lengths[i], i)
  }

  /** One bit down. */
  lemma Down(zero: Tree, one: Tree, v: nat, n: nat)
    ensures Walk(Node(zero, one), 2 * v, n + 1) == Walk(zero, v, n)
    ensures Walk(Node(zero, one), 2 * v + 1, n + 1) == Walk(one, v, n)
  {
    assert (2 * v) / 2 == v && (2 * v + 1) / 2 == v && (2 * v) % 2 == 0 && (2 * v + 1) % 2 == 1;
  }

  lemma ThreeZeros(a: Tree, b: Tree, c: Tree, d: Tree, v: nat, n: nat)
    ensures Walk(Node(Node(Node(a, b), c), d), 8 * v, n + 3) == Walk(a, v, n)
  {
    Down(a, b, v, n);
    Down(Node(a, b), c, 2 * v, n + 1);
    Down(Node(Node(a, b), c), d, 4 * v, n + 2);
  }

  lemma FourBits(a: Tree, b: Tree, c: Tree, d: Tree, e: Tree, v: nat, n: nat)
    ensures Walk(Node(Node(Node(Node(a, b), c), d), e), 16 * v, n + 4) == Walk(a, v, n)
    ensures Walk(Node(Node(Node(Node(a, b), c), d), e), 16 * v + 8, n + 4) == Walk(b, v, n)
  {
    Down(a, b, v, n);
    ThreeZeros(Node(a, b), c, d, e, 2 * v, n + 1);
    ThreeZeros(Node(a, b), c, d, e, 2 * v + 1, n + 1);
  }

  lemma OneZeroOne(a: Tree, b: Tree, c: Tree, d: Tree, v: nat, n: nat)
    ensures Walk(Node(a, Node(Node(b, c), d)), 8 * v + 5, n + 3) == Walk(c, v, n)
  {
    Down(b, c, v, n);
    Down(Node(b, c), d, 2 * v + 1, n + 1);
    Down(a, Node(Node(b, c), d), 4 * v + 2, n + 2);
  }

  /** Seven bits lead into the two deep parts of the tree. */
  lemma SevenBits(low: Tree, high: Tree, a: Tree, x: Tree, y: Tree, z: Tree, t: seq<Tree>, v: nat, n: nat)
    requires |t| == 6 && a == Node(Node(Node(low, t[0]), t[1]), t[2])
    ensures var branch := Node(x, Node(Node(y, high), z));
      var whole := Node(Node(Node(Node(a, branch), t[3]), t[4]), t[5]);
      && Walk(whole, 128 * v, n + 7) == Walk(low, v, n)
      && Walk(whole, 128 * v + 0x58, n + 7) == Walk(high, v, n)
  {
    var branch := Node(x, Node(Node(y, high), z));
    ThreeZeros(low, t[0], t[1], t[2], v, n);
    OneZeroOne(x, y, high, z, v, n);
    FourBits(a, branch, t[3], t[4], t[5], 8 * v, n + 3);
    FourBits(a, branch, t[3], t[4], t[5], 8 * v + 5, n + 3);
  }

  lemma IntoDepth(v: nat, n: nat)
    ensures Walk(META_TREE, 128 * v, n + 7) == Walk(META_LOW, v, n)
    ensures Walk(META_TREE, 128 * v + 0x58, n + 7) == Walk(META_HIGH, v, n)
  {
    var a := META_TREE.zero.zero.zero.zero;
    SevenBits(META_LOW, META_HIGH, a, Leaf(36), Leaf(15), Node(Leaf(14), Leaf(5)),
              [a.zero.zero.one, a.zero.one, a.one, META_ZERO.one, META_TREE.zero.one, META_TREE.one], v, n);
  }

  lemma LowWalks()
    ensures
      && Walk(META_LOW, 0x00, 1) == Some(4) && Walk(META_LOW, 0x03, 3) == Some(18)
      && Walk(META_LOW, 0x0d, 4) == Some(19) && Walk(META_LOW, 0x07, 4) == Some(20)
      && Walk(META_LOW, 0x1f, 5) == Some(21) && Walk(META_LOW, 0x0f, 5) == Some(22)
      && Walk(META_LOW, 0x09, 4) == Some(23) && Walk(META_LOW, 0x01, 4) == Some(24)
      && Walk(META_LOW, 0x05, 4) == Some(25)
  {
  }

  lemma HighWalks()
    ensures
      && Walk(META_HIGH, 0x0b, 4) == Some(0) && Walk(META_HIGH, 0x00, 1) == Some(1)
      && Walk(META_HIGH, 0x01, 2) == Some(16) && Walk(META_HIGH, 0x17, 5) == Some(17)
      && Walk(META_HIGH, 0x07, 5) == Some(26) && Walk(META_HIGH, 0x1f, 5) == Some(27)
      && Walk(META_HIGH, 0x0f, 5) == Some(28) && Walk(META_HIGH, 0x13, 5) == Some(29)
      && Walk(META_HIGH, 0x03, 5) == Some(30)
  {
  }

  lemma ShortWalks()
    ensures
      && Walk(META_TREE, 0x40, 8) == Some(2) && Walk(META_TREE, 0xc0, 8) == Some(3)
      && Walk(META_TREE, 0x78, 7) == Some(5) && Walk(META_TREE, 0x2b, 6) == Some(6)
      && Walk(META_TREE, 0x14, 5) == Some(7) && Walk(META_TREE, 0x0c, 5) == Some(8)
      && Walk(META_TREE, 0x1c, 5) == Some(9) && Walk(META_TREE, 0x1b, 5) == Some(10)
      && Walk(META_TREE, 0x0b, 6) == Some(11)
  {
  }

  lemma ShorterWalks()
    ensures
      && Walk(META_TREE, 0x10, 5) == Some(12) && Walk(META_TREE, 0x20, 6) == Some(13)
      && Walk(META_TREE, 0x38, 7) == Some(14) && Walk(META_TREE, 0x18, 7) == Some(15)
      && Walk(META_TREE, 0x04, 5) == Some(31) && Walk(META_TREE, 0x01, 2) == Some(32)
      && Walk(META_TREE, 0x02, 2) == Some(33) && Walk(META_TREE, 0x07, 3) == Some(34)
      && Walk(META_TREE, 0x03, 4) == Some(35) && Walk(META_TREE, 0x08, 5) == Some(36)
  {
  }

  lemma LowSpells()
    ensures
      && Spells(META_TREE, 0x000, 8, 4) && Spells(META_TREE, 0x180, 10, 18) && Spells(META_TREE, 0x680, 11, 19)
      && Spells(META_TREE, 0x380, 11, 20) && Spells(META_TREE, 0xf80, 12, 21) && Spells(META_TREE, 0x780, 12, 22)
      && Spells(META_TREE, 0x480, 11, 23) && Spells(META_TREE, 0x080, 11, 24) && Spells(META_TREE, 0x280, 11, 25)
  {
    LowWalks();
    IntoDepth(0x00, 1);
    IntoDepth(0x03, 3);
    IntoDepth(0x0d, 4);
    IntoDepth(0x07, 4);
    IntoDepth(0x1f, 5);
    IntoDepth(0x0f, 5);
    IntoDepth(0x09, 4);
    IntoDepth(0x01, 4);
    IntoDepth(0x05, 4);
  }

  lemma HighSpells()
    ensures
      && Spells(META_TREE, 0x5d8, 11, 0) && Spells(META_TREE, 0x058, 8, 1) && Spells(META_TREE, 0x0d8, 9, 16)
      && Spells(META_TREE, 0xbd8, 12, 17) && Spells(META_TREE, 0x3d8, 12, 26) && Spells(META_TREE, 0xfd8, 12, 27)
      && Spells(META_TREE, 0x7d8, 12, 28) && Spells(META_TREE, 0x9d8, 12, 29) && Spells(META_TREE, 0x1d8, 12, 30)
  {
    HighWalks();
    IntoDepth(0x0b, 4);
    IntoDepth(0x00, 1);
    IntoDepth(0x01, 2);
    IntoDepth(0x17, 5);
    IntoDepth(0x07, 5);
    IntoDepth(0x1f, 5);
    IntoDepth(0x0f, 5);
    IntoDepth(0x13, 5);
    IntoDepth(0x03, 5);
  }

  lemma ShortSpells()
    ensures
      && Spells(META_TREE, 0x040, 8, 2) && Spells(META_TREE, 0x0c0, 8, 3) && Spells(META_TREE, 0x078, 7, 5)
      && Spells(META_TREE, 0x02b, 6, 6) && Spells(META_TREE, 0x014, 5, 7) && Spells(META_TREE, 0x00c, 5, 8)
      && Spells(META_TREE, 0x01c, 5, 9) && Spells(META_TREE, 0x01b, 5, 10) && Spells(META_TREE, 0x00b, 6, 11)
  {
    ShortWalks();
  }

  lemma ShorterSpells()
    ensures
      && Spells(META_TREE, 0x010, 5, 12) && Spells(META_TREE, 0x020, 6, 13) && Spells(META_TREE, 0x038, 7, 14)
      && Spells(META_TREE, 0x018, 7, 15) && Spells(META_TREE, 0x004, 5, 31) && Spells(META_TREE, 0x001, 2, 32)
      && Spells(META_TREE, 0x002, 2, 33) && Spells(META_TREE, 0x007, 3, 34) && Spells(META_TREE, 0x003, 4, 35)
      && Spells(META_TREE, 0x008, 5, 36)
  {
    ShorterWalks();
  }

  lemma FirstInTree(t: Tree, codes: seq<nat>, lengths: seq<nat>)
    requires codes == META_CODES && lengths == META_LENGTHS
    requires
      && Spells(t, 0x5d8, 11, 0) && Spells(t, 0x058, 8, 1) && Spells(t, 0x040, 8, 2)
      && Spells(t, 0x0c0, 8, 3) && Spells(t, 0x000, 8, 4) && Spells(t, 0x078, 7, 5)
      && Spells(t, 0x02b, 6, 6) && Spells(t, 0x014, 5, 7) && Spells(t, 0x00c, 5, 8)
      && Spells(t, 0x01c, 5, 9)
    ensures forall i | 0 <= i < 10 :: Spells(t, codes[i], lengths[i], i)
  {
  }

  lemma SecondInTree(t: Tree, codes: seq<nat>, lengths: seq<nat>)
    requires codes == META_CODES && lengths == META_LENGTHS
    requires
      && Spells(t, 0x01b, 5, 10) && Spells(t, 0x00b, 6, 11) && Spells(t, 0x010, 5, 12)
      && Spells(t, 0x020, 6, 13) && Spells(t, 0x038, 7, 14) && Spells(t, 0x018, 7, 15)
      && Spells(t, 0x0d8, 9, 16) && Spells(t, 0xbd8, 12, 17) && Spells(t, 0x180, 10, 18)
    ensures forall i | 10 <= i < 19 :: Spells(t, codes[i], lengths[i], i)
  {
  }

  lemma ThirdInTree(t: Tree, codes: seq<nat>, lengths: seq<nat>)
    requires codes == META_CODES && lengths == META_LENGTHS
    requires
      && Spells(t, 0x680, 11, 19) && Spells(t, 0x380, 11, 20) && Spells(t, 0xf80, 12, 21)
      && Spells(t, 0x780, 12, 22) && Spells(t, 0x480, 11, 23) && Spells(t, 0x080, 11, 24)
      && Spells(t, 0x280, 11, 25) && Spells(t, 0x3d8, 12, 26) && Spells(t, 0xfd8, 12, 27)
    ensures forall i | 19 <= i < 28 :: Spells(t, codes[i], lengths[i], i)
  {
  }

  lemma LastInTree(t: Tree, codes: seq<nat>, lengths: seq<nat>)
    requires codes == META_CODES && lengths == META_LENGTHS
    requires
      && Spells(t, 0x7d8, 12, 28) && Spells(t, 0x9d8, 12, 29) && Spells(t, 0x1d8, 12, 30)
      && Spells(t, 0x004, 5, 31) && Spells(t, 0x001, 2, 32) && Spells(t, 0x002, 2, 33)
      && Spells(t, 0x007, 3, 34) && Spells(t, 0x003, 4, 35) && Spells(t, 0x008, 5, 36)
    ensures forall i | 28 <= i < 37 :: Spells(t, codes[i], lengths[i], i)
  {
  }

  /** The metacode is the code of a tree, so that no code is the beginning of another. */
  lemma MetaInTree()
    ensures InTree(META_TREE, META_CODES, META_LENGTHS)
  {
    LowSpells();
    HighSpells();
    ShortSpells();
    ShorterSpells();
    FirstInTree(META_TREE, META_CODES, META_LENGTHS);
    SecondInTree(META_TREE, META_CODES, META_LENGTHS);
    ThirdInTree(META_TREE, META_CODES, META_LENGTHS);
    LastInTree(META_TREE, META_CODES, META_LENGTHS);
  }

  // ---- reading a tree's code from its table ---------------------------------------------------------

  lemma {:induction false} WalkBound(t: Tree, v: nat, n: nat)
    requires Walk(t, v, n).Some?
    ensures v < Pow2(n)
    decreases t
  {
    if t.Node? { WalkBound(if v % 2 == 0 then t.zero else t.one, v / 2, n - 1); }
  }

  lemma {:induction false} WalkOnce(t: Tree, v: nat, n: nat, m: nat)
    requires Walk(t, v, n).Some? && Walk(t, v, m).Some?
    ensures n == m
    decreases t
  {
    if t.Node? { WalkOnce(if v % 2 == 0 then t.zero else t.one, v / 2, n - 1, m - 1); }
  }

  /** No path ends inside another. */
  lemma {:induction false} WalkShort(t: Tree, w: seq<bit>, m: nat)
    requires m <= |w| && Walk(t, Val(w), |w|).Some? && Walk(t, Val(w[..m]), m).Some?
    ensures m == |w|
    decreases t
  {
    if t.Node? {
      assert w[..m][1..] == w[1..][..m - 1];
      assert Val(w) % 2 == w[0] && Val(w) / 2 == Val(w[1..]);
      assert Val(w[..m]) % 2 == w[0] && Val(w[..m]) / 2 == Val(w[..m][1..]);
      WalkShort(if w[0] == 0 then t.zero else t.one, w[1..], m - 1);
    }
  }

  lemma {:induction false} DirectHolds(codes: seq<nat>, lengths: seq<nat>, n: nat, k: nat) returns (j: nat)
    requires n <= |codes| && n <= |lengths| && k in Direct(codes, lengths, n)
    ensures j < n && codes[j] == k && Direct(codes, lengths, n)[k] == Entry(lengths[j], j)
  {
    j := if k == codes[n - 1] then n - 1 else 0;
    if k != codes[n - 1] { j := DirectHolds(codes, lengths, n - 1, k); }
  }

  lemma {:induction false} DirectHas(t: Tree, codes: seq<nat>, lengths: seq<nat>, n: nat, i: nat)
    requires InTree(t, codes, lengths) && i < n <= |codes|
    ensures codes[i] in Direct(codes, lengths, n) && Direct(codes, lengths, n)[codes[i]] == Entry(lengths[i], i)
  {
    if i < n - 1 {
      DirectHas(t, codes, lengths, n - 1, i);
      assert Spells(t, codes[i], lengths[i], i) && Spells(t, codes[n - 1], lengths[n - 1], n - 1);
      if codes[i] == codes[n - 1] { WalkOnce(t, codes[i], lengths[i], lengths[n - 1]); }
    }
  }

  /** The bits of the codes. */
  function DirectWords(codes: seq<nat>, lengths: seq<nat>): (ws: seq<seq<bit>>)
    requires |codes| == |lengths|
    ensures |ws| == |codes|
  {
    seq(|codes|, i requires 0 <= i < |codes| => Lsb(codes[i], lengths[i]))
  }

  lemma {:induction false} FindDirect(t: Tree, codes: seq<nat>, lengths: seq<nat>, sym: nat, w: seq<bit>, rest: seq<bit>,
                                      n: nat)
    requires InTree(t, codes, lengths) && sym < |codes| && w == Lsb(codes[sym], lengths[sym])
    requires 1 <= n <= |w| <= 32
    ensures Find(Direct(codes, lengths, |codes|), w + rest, n) == Some(Symbol(sym, rest))
    decreases |w| - n
  {
    var table := Direct(codes, lengths, |codes|);
    var v := Val(w[..n]);
    assert Spells(t, codes[sym], lengths[sym], sym);
    WalkBound(t, codes[sym], lengths[sym]);
    ValLsb(codes[sym], lengths[sym]);
    assert (w + rest)[..n] == w[..n];
    if n == |w| {
      assert w[..n] == w && (w + rest)[n..] == rest;
      DirectHas(t, codes, lengths, |codes|, sym);
    } else {
      FindDirect(t, codes, lengths, sym, w, rest, n + 1);
      if v in table && table[v].length == n {
        var j := DirectHolds(codes, lengths, |codes|, v);
        assert Spells(t, codes[j], lengths[j], j);
        WalkShort(t, w, n);
      }
    }
  }

  predicate Short(lengths: seq<nat>) { forall i | 0 <= i < |lengths| :: 1 <= lengths[i] <= 32 }

  lemma TreeReads(t: Tree, codes: seq<nat>, lengths: seq<nat>)
    requires InTree(t, codes, lengths) && Short(lengths)
    ensures Reads(Direct(codes, lengths, |codes|), DirectWords(codes, lengths))
  {
    forall sym: nat, rest: seq<bit> | sym < |codes|
      ensures Find(Direct(codes, lengths, |codes|), DirectWords(codes, lengths)[sym] + rest, 1) == Some(Symbol(sym, rest))
    {
      FindDirect(t, codes, lengths, sym, Lsb(codes[sym], lengths[sym]), rest, 1);
    }
  }

  /** The decoder's table of the metacode. */
  predicate IsMetacode(meta: map<nat, Entry>, codes: seq<nat>, lengths: seq<nat>) {
    codes == META_CODES && lengths == META_LENGTHS && meta == Direct(codes, lengths, |codes|)
  }

  /** Every symbol of the metacode is read back from its bits, whatever follows. */
  lemma MetaReads(meta: map<nat, Entry>, codes: seq<nat>, lengths: seq<nat>)
    requires IsMetacode(meta, codes, lengths)
    ensures |codes| == |lengths| == META_SIZE && Reads(meta, DirectWords(codes, lengths))
  {
    MetaInTree();
    MetaShort(lengths);
    TreeReads(META_TREE, codes, lengths);
  }

  lemma MetaShort(lengths: seq<nat>)
    requires lengths == META_LENGTHS
    ensures Short(lengths)
  {
  }

  // ---- the lengths a stream spells ---------------------------------------------------------------------

  datatype Spelled = Spelled(lengths: seq<int>, rest: seq<bit>)

  /** The running length, the lengths so far and the unread bits. */
  datatype Turn = Turn(length: int, lengths: seq<int>, rest: seq<bit>)

  function Repeated(length: int, lengths: seq<int>, g: Option<Got>, least: nat): Option<Turn> {
    if g.None? then None
    else Some(Turn(length, lengths + seq(g.value.value + least, _ => length), g.value.rest))
  }

  /** What one symbol of the metacode does before the length at hand is written. */
  function Act(sym: nat, length: int, lengths: seq<int>, bits: seq<bit>): (r: Option<Turn>)
    ensures r.Some? ==> |r.value.rest| <= |bits| && |r.value.lengths| >= |lengths|
  {
    if sym == 31 then Some(Turn(-1, lengths, bits))
    else if sym == 32 then Some(Turn(length + 1, lengths, bits))
    else if sym == 33 then Some(Turn(length - 1, lengths, bits))
    else if sym == 34 then
      if bits == [] then None
      else Some(Turn(length, if bits[0] == 1 then lengths + [length] else lengths, bits[1..]))
    else if sym == 35 then Repeated(length, lengths, ReadBits(bits, 3), 2)
    else if sym == 36 then Repeated(length, lengths, ReadBits(bits, 6), 10)
    else Some(Turn(sym + 1, lengths, bits))
  }

  /** Symbols until there are `n` lengths or more; each writes the length at hand once more while there is room. */
  function Spell(meta: map<nat, Entry>, bits: seq<bit>, length: int, lengths: seq<int>, n: nat): (r: Option<Spelled>)
    ensures r.Some? ==> |r.value.lengths| >= n
    decreases |bits|
  {
    if |lengths| >= n then Some(Spelled(lengths, bits))
    else
      var s := Find(meta, bits, 1);
      if s.None? then None
      else
        var t := Act(s.value.value, length, lengths, s.value.rest);
        if t.None? then None
        else Spell(meta, t.value.rest, t.value.length, Written(t.value, n), n)
  }

  function Written(t: Turn, n: nat): seq<int> {
    if |t.lengths| < n then t.lengths + [t.length] else t.lengths
  }

  /** The three lists of lengths in front of a stream that brings its own, and the bits behind them. */
  datatype Brought = Brought(sets: Sets, rest: seq<bit>)

  /** Bit 3 of the first byte says that the second table is the first, its low bits how long the third is. */
  function Brings(meta: map<nat, Entry>, bits: seq<bit>, val: nat): Option<Brought> {
    var f := Spell(meta, bits, 0, [], 0x141);
    if f.None? then None
    else
      var s := if val / 8 % 2 == 1 then f else Spell(meta, f.value.rest, 0, [], 0x141);
      if s.None? then None
      else
        var o := Spell(meta, s.value.rest, 0, [], val % 8 + 10);
        if o.None? then None
        else
          Some(Brought(Sets(f.value.lengths[..0x141], s.value.lengths[..0x141], o.value.lengths[..val % 8 + 10]),
                       o.value.rest))
  }

  // ---- the code ---------------------------------------------------------------------------------------------

  method AppendRun(lengths: seq<int>, length: int, count: nat) returns (more: seq<int>)
    ensures more == lengths + seq(count, _ => length)
  {
    more := lengths;
    for k := 0 to count
      invariant more == lengths + seq(k, _ => length)
    {
      more := more + [length];
    }
  }

  /** The length at hand, as often as the next `n` bits say and `least` times more. */
  method Repeat(br: BitReader, n: nat, least: nat, length: int, lengths: seq<int>) returns (ok: bool, more: seq<int>)
    requires br.Valid()
    modifies br`pos, br`bitPos, br`left
    ensures br.Valid()
    ensures var t := Repeated(length, lengths, ReadBits(old(br.left), n), least);
      (ok <==> t.Some?) && (ok ==> t == Some(Turn(length, more, br.left)))
  {
    var g := br.NextBits(n);
    if g.None? { return false, lengths; }
    ok := true;
    more := AppendRun(lengths, length, g.value + least);
  }

  /** The switch over the symbol. */
  method ActOn(br: BitReader, sym: nat, length: int, lengths: seq<int>) returns (ok: bool, next: int, more: seq<int>)
    requires br.Valid()
    modifies br`pos, br`bitPos, br`left
    ensures br.Valid()
    ensures ok <==> Act(sym, length, lengths, old(br.left)).Some?
    ensures ok ==> Act(sym, length, lengths, old(br.left)) == Some(Turn(next, more, br.left))
  {
    ok, next, more := true, length, lengths;
    if sym == 31 {
      next := -1;
    } else if sym == 32 {
      next := length + 1;
    } else if sym == 33 {
      next := length - 1;
    } else if sym == 34 {
      var b := br.NextBit();
      if b.None? { return false, next, more; }
      if b.value == 1 { more := lengths + [length]; }
    } else if sym == 35 {
      ok, more := Repeat(br, 3, 2, length, lengths);
    } else if sym == 36 {
      ok, more := Repeat(br, 6, 10, length, lengths);
    } else {
      next := sym + 1;
    }
  }

  /** The loop over the symbols; `None` is the end of the stream. */
  method SpellAt(br: BitReader, meta: map<nat, Entry>, n: nat) returns (r: Option<seq<int>>)
    requires br.Valid()
    modifies br`pos, br`bitPos, br`left
    ensures br.Valid()
    ensures r.None? <==> Spell(meta, old(br.left), 0, [], n).None?
    ensures r.Some? ==> Spell(meta, old(br.left), 0, [], n) == Some(Spelled(r.value, br.left))
  {
    ghost var whole := Spell(meta, br.left, 0, [], n);
    var length: int, lengths: seq<int> := 0, [];
    while |lengths| < n
      invariant br.Valid() && whole == Spell(meta, br.left, length, lengths, n)
      decreases |br.left|
    {
      var sym := NextSymbol(br, meta);
      if sym.None? { return None; }
      var ok;
      ok, length, lengths := ActOn(br, sym.value, length, lengths);
      if !ok { return None; }
      if |lengths| < n { lengths := lengths + [length]; }
    }
    r := Some(lengths);
  }

  method TableAt(br: BitReader, meta: map<nat, Entry>, n: nat)
    returns (t: Option<map<nat, Entry>>, ghost s: Option<Spelled>)
    requires br.Valid()
    modifies br`pos, br`bitPos, br`left
    ensures br.Valid() && s == Spell(meta, old(br.left), 0, [], n) && (t.Some? <==> s.Some?)
    ensures t.Some? ==> br.left == s.value.rest && IsTable(t.value, s.value.lengths[..n])
  {
    s := Spell(meta, br.left, 0, [], n);
    var lengths := SpellAt(br, meta, n);
    if lengths.None? { return None, s; }
    var table := BuildCanonical(lengths.value, n);
    t := Some(table);
  }

  lemma BringsIs(meta: map<nat, Entry>, bits: seq<bit>, val: nat, f: Option<Spelled>, s: Option<Spelled>, o: Option<Spelled>)
    requires f == Spell(meta, bits, 0, [], 0x141)
    requires f.Some? ==> s == if val / 8 % 2 == 1 then f else Spell(meta, f.value.rest, 0, [], 0x141)
    requires f.Some? && s.Some? ==> o == Spell(meta, s.value.rest, 0, [], val % 8 + 10)
    ensures Brings(meta, bits, val) ==
      if f.None? || s.None? || o.None? then None
      else Some(Brought(Sets(f.value.lengths[..0x141], s.value.lengths[..0x141], o.value.lengths[..val % 8 + 10]),
                        o.value.rest))
  {
  }

  /** The tables a stream brings. */
  method TablesAt(br: BitReader, meta: map<nat, Entry>, val: nat) returns (t: Option<Tables>)
    requires br.Valid()
    modifies br`pos, br`bitPos, br`left
    ensures br.Valid() && (t.None? <==> Brings(meta, old(br.left), val).None?)
    ensures var b := Brings(meta, old(br.left), val);
      t.Some? ==> br.left == b.value.rest && AreTables(t.value, b.value.sets)
  {
    ghost var bits := br.left;
    var first, f := TableAt(br, meta, 0x141);
    if first.None? {
      BringsIs(meta, bits, val, f, None, None);
      return None;
    }
    var second;
    ghost var s;
    if val / 8 % 2 == 1 { second, s := first, f; } else { second, s := TableAt(br, meta, 0x141); }
    if second.None? {
      BringsIs(meta, bits, val, f, s, None);
      return None;
    }
    var offset, o := TableAt(br, meta, val % 8 + 10);
    BringsIs(meta, bits, val, f, s, o);
    if offset.None? { return None; }
    t := Some(Tables(first.value, second.value, offset.value));
  }

  // ---- round trip ---------------------------------------------------------------------------------------------

  /** Lengths that a single symbol of the metacode can set. */
  predicate Plain(lengths: seq<int>) { forall i | 0 <= i < |lengths| :: 1 <= lengths[i] <= 31 }

  /** A symbol for every length. */
  function SpellOut(words: seq<seq<bit>>, lengths: seq<int>): seq<bit>
    requires Plain(lengths) && |words| >= 31
  {
    if lengths == [] then [] else words[lengths[0] - 1] + SpellOut(words, lengths[1..])
  }

  /** What is spelled out is read back, for every list of lengths up to 31. */
  lemma {:induction false} SpellBack(meta: map<nat, Entry>, words: seq<seq<bit>>, lengths: seq<int>, rest: seq<bit>, length: int,
                                     done: seq<int>, n: nat)
    requires Plain(lengths) && |words| >= 31 && Reads(meta, words) && n == |done| + |lengths|
    ensures Spell(meta, SpellOut(words, lengths) + rest, length, done, n) == Some(Spelled(done + lengths, rest))
    decreases |lengths|
  {
    if lengths == [] {
      SpelledAll(meta, words, lengths, rest, length, done, n);
    } else {
      var sym: nat, more := lengths[0] - 1, SpellOut(words, lengths[1..]) + rest;
      SpellSplit(words, lengths, rest);
      ReadOne(meta, words, sym, more);
      SpellOne(meta, words[sym] + more, sym, more, length, done, n);
      SpellBack(meta, words, lengths[1..], rest, lengths[0], done + [lengths[0]], n);
      Consed(done, lengths);
    }
  }

  lemma Consed(done: seq<int>, lengths: seq<int>)
    requires lengths != []
    ensures (done + [lengths[0]]) + lengths[1..] == done + lengths
  {
  }

  lemma SpelledAll(meta: map<nat, Entry>, words: seq<seq<bit>>, lengths: seq<int>, rest: seq<bit>, length: int,
                   done: seq<int>, n: nat)
    requires lengths == [] && |words| >= 31 && n == |done|
    ensures Spell(meta, SpellOut(words, lengths) + rest, length, done, n) == Some(Spelled(done + lengths, rest))
  {
    assert SpellOut(words, lengths) + rest == rest && done + lengths == done;
  }

  lemma SpellSplit(words: seq<seq<bit>>, lengths: seq<int>, rest: seq<bit>)
    requires Plain(lengths) && |words| >= 31 && lengths != []
    ensures SpellOut(words, lengths) + rest == words[lengths[0] - 1] + (SpellOut(words, lengths[1..]) + rest)
  {
    Assoc(words[lengths[0] - 1], SpellOut(words, lengths[1..]), rest);
  }

  lemma ReadOne(meta: map<nat, Entry>, words: seq<seq<bit>>, sym: nat, more: seq<bit>)
    requires Reads(meta, words) && sym < |words|
    ensures Find(meta, words[sym] + more, 1) == Some(Symbol(sym, more))
  {
  }

  lemma SpellOne(meta: map<nat, Entry>, bits: seq<bit>, sym: nat, rest: seq<bit>, length: int, done: seq<int>, n: nat)
    requires Find(meta, bits, 1) == Some(Symbol(sym, rest)) && sym < 31 && |done| < n
    ensures Spell(meta, bits, length, done, n) == Spell(meta, rest, sym + 1, done + [sym + 1], n)
  {
    assert Act(sym, length, done, rest) == Some(Turn(sym + 1, done, rest));
  }

  /** A set whose lengths single symbols of the metacode can spell, as the first byte `val` announces it. */
  predicate Announced(s: Sets, val: nat) {
    && Usable(s) && Plain(s.first) && Plain(s.second) && Plain(s.offset) && |s.offset| == val % 8 + 10
    && (val / 8 % 2 == 1 ==> s.second == s.first)
  }

  /** The lengths of the set, spelled out in front of `rest`. */
  function Announce(words: seq<seq<bit>>, s: Sets, val: nat, rest: seq<bit>): seq<bit>
    requires Announced(s, val) && |words| >= 31
  {
    var tail := SpellOut(words, s.offset) + rest;
    SpellOut(words, s.first) + if val / 8 % 2 == 1 then tail else SpellOut(words, s.second) + tail
  }

  lemma BringsBack(meta: map<nat, Entry>, words: seq<seq<bit>>, s: Sets, val: nat, rest: seq<bit>)
    requires Announced(s, val) && |words| >= 31 && Reads(meta, words)
    ensures Brings(meta, Announce(words, s, val, rest), val) == Some(Brought(s, rest))
  {
    var tail := SpellOut(words, s.offset) + rest;
    var more := if val / 8 % 2 == 1 then tail else SpellOut(words, s.second) + tail;
    SpellWhole(meta, words, s.first, more);
    SpellWhole(meta, words, s.second, tail);
    SpellWhole(meta, words, s.offset, rest);
    ThreeBrought(meta, Announce(words, s, val, rest), val, s, more, tail, rest);
  }

  lemma SpellWhole(meta: map<nat, Entry>, words: seq<seq<bit>>, lengths: seq<int>, rest: seq<bit>)
    requires Plain(lengths) && |words| >= 31 && Reads(meta, words)
    ensures Spell(meta, SpellOut(words, lengths) + rest, 0, [], |lengths|) == Some(Spelled(lengths, rest))
  {
    SpellBack(meta, words, lengths, rest, 0, [], |lengths|);
    assert [] + lengths == lengths;
  }

  lemma ThreeBrought(meta: map<nat, Entry>, bits: seq<bit>, val: nat, s: Sets, more: seq<bit>, tail: seq<bit>, rest: seq<bit>)
    requires |s.first| == |s.second| == 0x141 && |s.offset| == val % 8 + 10
    requires Spell(meta, bits, 0, [], |s.first|) == Some(Spelled(s.first, more))
    requires if val / 8 % 2 == 1 then more == tail && s.second == s.first
             else Spell(meta, more, 0, [], |s.second|) == Some(Spelled(s.second, tail))
    requires Spell(meta, tail, 0, [], |s.offset|) == Some(Spelled(s.offset, rest))
    ensures Brings(meta, bits, val) == Some(Brought(s, rest))
  {
    Whole(s.first);
    Whole(s.second);
    Whole(s.offset);
  }

  lemma Whole(s: seq<int>)
    ensures s[..|s|] == s
  {
  }
}
