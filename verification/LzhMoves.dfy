/** What the metacode says about a list of code lengths: every symbol, its runs included, and every list they can draw. */
module LzhMoves {
  import opened Words
  import opened Bits
  import opened Canonical
  import opened Lzh
  import opened LzhRun
  import opened LzhDynamic

  /** A length that is set, or -1, or one more or one less than the last; and the last length a few or many times more. */
  datatype Move = Set(length: int) | Unset | Longer | Shorter | Again(twice: bool) | Few(extra: nat) | Many(extra: nat)

  predicate Sayable(m: Move) {
    match m
    case Set(l) => 1 <= l <= 31
    case Few(k) => k < 8
    case Many(k) => k < 64
    case _ => true
  }

  predicate AllSayable(ms: seq<Move>) { forall k | 0 <= k < |ms| :: Sayable(ms[k]) }

  /** The length a move leaves at hand. */
  function LengthAfter(m: Move, length: int): int {
    match m
    case Set(l) => l
    case Unset => -1
    case Longer => length + 1
    case Shorter => length - 1
    case _ => length
  }

  /** How often it is written, whether or not there is still room; and then once more if there is. */
  function Certain(m: Move): nat {
    match m
    case Again(twice) => if twice then 1 else 0
    case Few(k) => k + 2
    case Many(k) => k + 10
    case _ => 0
  }

  function Same(length: int, n: nat): (s: seq<int>)
    ensures |s| == n && forall k | 0 <= k < n :: s[k] == length
  {
    seq(n, _ => length)
  }

  function Drawn(m: Move, length: int, done: seq<int>, n: nat): seq<int> {
    done + Same(LengthAfter(m, length), Certain(m) + (if |done| + Certain(m) < n then 1 else 0))
  }

  /** The list all the moves draw, one after the other. */
  function Picture(ms: seq<Move>, length: int, done: seq<int>, n: nat): seq<int>
    decreases |ms|
  {
    if ms == [] then done else Picture(ms[1..], LengthAfter(ms[0], length), Drawn(ms[0], length, done, n), n)
  }

  /** Every move is made while there is room, and behind the last there is none. */
  predicate Fills(ms: seq<Move>, length: int, done: seq<int>, n: nat)
    decreases |ms|
  {
    if ms == [] then |done| >= n
    else |done| < n && Sayable(ms[0]) && Fills(ms[1..], LengthAfter(ms[0], length), Drawn(ms[0], length, done, n), n)
  }

  /** The symbol of a move: 0 to 30 set the lengths 1 to 31, and the other six have symbols of their own. */
  function SymbolOf(m: Move): (s: nat)
    requires Sayable(m)
    ensures s < 37
  {
    match m
    case Set(l) => l - 1
    case Unset => 31
    case Longer => 32
    case Shorter => 33
    case Again(_) => 34
    case Few(_) => 35
    case Many(_) => 36
  }

  /** The bits behind the symbol. */
  function ExtraOf(m: Move): seq<bit> {
    match m
    case Again(twice) => if twice then [1] else [0]
    case Few(k) => Lsb(k, FewBits(m))
    case Many(k) => Lsb(k, FewBits(m) + 3)
    case _ => []
  }

  function FewBits(m: Move): nat { if m.Few? || m.Many? then 3 else 0 }

  function Said(words: seq<seq<bit>>, ms: seq<Move>, rest: seq<bit>): seq<bit>
    requires |words| >= 37 && AllSayable(ms)
  {
    if ms == [] then rest else words[SymbolOf(ms[0])] + (ExtraOf(ms[0]) + Said(words, ms[1..], rest))
  }

  // ---- one move -------------------------------------------------------------------------------

  lemma PlainMove(m: Move, length: int, done: seq<int>, rest: seq<bit>)
    requires Sayable(m) && !m.Again? && !m.Few? && !m.Many?
    ensures Act(SymbolOf(m), length, done, ExtraOf(m) + rest) == Some(Turn(LengthAfter(m, length), done, rest))
  {
    assert [] + rest == rest;
  }

  lemma AgainMove(m: Move, length: int, done: seq<int>, rest: seq<bit>)
    requires m.Again?
    ensures Act(SymbolOf(m), length, done, ExtraOf(m) + rest) == Some(Turn(length, done + Same(length, Certain(m)), rest))
  {
    var bits := ExtraOf(m) + rest;
    assert bits[1..] == rest && bits[0] == if m.twice then 1 else 0;
    assert m.twice ==> Same(length, 1) == [length];
    assert !m.twice ==> done + Same(length, 0) == done;
  }

  lemma RunMove(k: nat, w: nat, least: nat, length: int, done: seq<int>, rest: seq<bit>)
    requires k < Pow2(w)
    ensures Repeated(length, done, ReadBits(Lsb(k, w) + rest, w), least) == Some(Turn(length, done + Same(length, k + least), rest))
  {
    ReadBackBits(k, w, rest);
    assert seq(k + least, _ => length) == Same(length, k + least);
  }

  lemma Powers()
    ensures Pow2(3) == 8 && Pow2(6) == 64
  {
    assert Pow2(3) == 8;
    Pow2Add(3, 3);
  }

  /** Every move is acted upon as it says. */
  lemma MoveActs(m: Move, length: int, done: seq<int>, rest: seq<bit>)
    requires Sayable(m)
    ensures Act(SymbolOf(m), length, done, ExtraOf(m) + rest)
         == Some(Turn(LengthAfter(m, length), done + Same(LengthAfter(m, length), Certain(m)), rest))
  {
    Powers();
    match m
    case Again(_) => AgainMove(m, length, done, rest);
    case Few(k) => RunMove(k, 3, 2, length, done, rest);
    case Many(k) => RunMove(k, 6, 10, length, done, rest);
    case _ =>
      PlainMove(m, length, done, rest);
      assert done + Same(LengthAfter(m, length), 0) == done;
  }

  lemma OneMore(m: Move, length: int, done: seq<int>, n: nat, rest: seq<bit>)
    ensures Written(Turn(LengthAfter(m, length), done + Same(LengthAfter(m, length), Certain(m)), rest), n) == Drawn(m, length, done, n)
  {
    var l, c := LengthAfter(m, length), Certain(m);
    assert Same(l, c + 1) == Same(l, c) + [l];
    Assoc(done, Same(l, c), [l]);
  }

  lemma MoveRead(meta: map<nat, Entry>, bits: seq<bit>, m: Move, length: int, done: seq<int>, n: nat, rest: seq<bit>)
    requires Sayable(m) && |done| < n && Find(meta, bits, 1) == Some(Symbol(SymbolOf(m), ExtraOf(m) + rest))
    ensures Spell(meta, bits, length, done, n) == Spell(meta, rest, LengthAfter(m, length), Drawn(m, length, done, n), n)
  {
    MoveActs(m, length, done, rest);
    OneMore(m, length, done, n, rest);
  }

  // ---- all of them --------------------------------------------------------------------------------

  lemma SaidHead(meta: map<nat, Entry>, words: seq<seq<bit>>, ms: seq<Move>, rest: seq<bit>)
    requires Reads(meta, words) && |words| >= 37 && ms != [] && AllSayable(ms)
    ensures Sayable(ms[0]) && AllSayable(ms[1..])
    ensures Find(meta, Said(words, ms, rest), 1) == Some(Symbol(SymbolOf(ms[0]), ExtraOf(ms[0]) + Said(words, ms[1..], rest)))
  {
    ReadOne(meta, words, SymbolOf(ms[0]), ExtraOf(ms[0]) + Said(words, ms[1..], rest));
  }

  /** Whatever moves fill a list, saying them in the metacode's words spells exactly that list. */
  lemma {:induction false} MovesSpell(meta: map<nat, Entry>, words: seq<seq<bit>>, ms: seq<Move>, length: int, done: seq<int>, n: nat,
                                      rest: seq<bit>)
    requires Reads(meta, words) && |words| >= 37 && Fills(ms, length, done, n) && AllSayable(ms)
    ensures Spell(meta, Said(words, ms, rest), length, done, n) == Some(Spelled(Picture(ms, length, done, n), rest))
    decreases |ms|
  {
    if ms != [] {
      SaidHead(meta, words, ms, rest);
      MoveRead(meta, Said(words, ms, rest), ms[0], length, done, n, Said(words, ms[1..], rest));
      MovesSpell(meta, words, ms[1..], LengthAfter(ms[0], length), Drawn(ms[0], length, done, n), n, rest);
    }
  }

  /** A list of `n` lengths is filled by the moves, from nothing. */
  predicate Draws(ms: seq<Move>, n: nat) { AllSayable(ms) && Fills(ms, 0, [], n) }

  lemma ListSpelled(meta: map<nat, Entry>, words: seq<seq<bit>>, ms: seq<Move>, n: nat, rest: seq<bit>)
    requires Reads(meta, words) && |words| >= 37 && Draws(ms, n)
    ensures Spell(meta, Said(words, ms, rest), 0, [], n) == Some(Spelled(Picture(ms, 0, [], n), rest))
  {
    MovesSpell(meta, words, ms, 0, [], n, rest);
  }

  lemma {:induction false} PictureLong(ms: seq<Move>, length: int, done: seq<int>, n: nat)
    requires Fills(ms, length, done, n)
    ensures |Picture(ms, length, done, n)| >= n
    decreases |ms|
  {
    if ms != [] { PictureLong(ms[1..], LengthAfter(ms[0], length), Drawn(ms[0], length, done, n), n); }
  }

  /** The list of `n` lengths the moves draw; a run may have gone beyond it. */
  function List(ms: seq<Move>, n: nat): (l: seq<int>)
    requires Draws(ms, n)
    ensures |l| == n
  {
    PictureLong(ms, 0, [], n);
    Picture(ms, 0, [], n)[..n]
  }

  /** The first `n` lengths of a list. */
  function Head(f: Spelled, n: nat): seq<int> { if n <= |f.lengths| then f.lengths[..n] else f.lengths }

  lemma ListIs(meta: map<nat, Entry>, words: seq<seq<bit>>, ms: seq<Move>, n: nat, rest: seq<bit>) returns (f: Spelled)
    requires Reads(meta, words) && |words| >= 37 && Draws(ms, n)
    ensures Spell(meta, Said(words, ms, rest), 0, [], n) == Some(f)
    ensures f.rest == rest && Head(f, n) == List(ms, n)
  {
    ListSpelled(meta, words, ms, n, rest);
    f := Spelled(Picture(ms, 0, [], n), rest);
  }

  lemma FourBits(val: nat)
    requires val < 16
    ensures val / 8 % 2 == (if val < 8 then 0 else 1) && val % 8 == (if val < 8 then val else val - 8)
  {
  }

  lemma ThreeBring(meta: map<nat, Entry>, bits: seq<bit>, val: nat, f: Spelled, s: Spelled, o: Spelled, full: nat, n: nat,
                   shared: bool)
    requires full == 0x141 && n == val % 8 + 10 && Spell(meta, bits, 0, [], full) == Some(f)
    requires if shared then s == f else Spell(meta, f.rest, 0, [], full) == Some(s)
    requires val / 8 % 2 == if shared then 1 else 0
    requires Spell(meta, s.rest, 0, [], n) == Some(o)
    ensures Brings(meta, bits, val) == Some(Brought(Sets(Head(f, full), Head(s, full), Head(o, n)), o.rest))
  {
    BringsIs(meta, bits, val, Some(f), Some(s), Some(o));
  }

  /** With a first byte below 8 three lists follow: two of 321 lengths, and one of 10 more than that byte. */
  lemma ThreeLists(meta: map<nat, Entry>, words: seq<seq<bit>>, val: byte, a: seq<Move>, b: seq<Move>, c: seq<Move>, n: nat,
                   rest: seq<bit>)
    requires Reads(meta, words) && |words| >= 37 && val < 8 && n == 10 + val as nat
    requires Draws(a, 321) && Draws(b, 321) && Draws(c, n)
    ensures Brings(meta, Said(words, a, Said(words, b, Said(words, c, rest))), val)
         == Some(Brought(Sets(List(a, 321), List(b, 321), List(c, n)), rest))
  {
    var b2 := Said(words, c, rest);
    var b1 := Said(words, b, b2);
    var f := ListIs(meta, words, a, 0x141, b1);
    var g := ListIs(meta, words, b, 0x141, b2);
    var o := ListIs(meta, words, c, n, rest);
    FourBits(val);
    ThreeBring(meta, Said(words, a, b1), val, f, g, o, 0x141, n, false);
  }

  /** From 8 to 15 there are two lists: the first serves for both codes. */
  lemma TwoLists(meta: map<nat, Entry>, words: seq<seq<bit>>, val: byte, a: seq<Move>, c: seq<Move>, n: nat, rest: seq<bit>)
    requires Reads(meta, words) && |words| >= 37 && 8 <= val < 16 && n == 2 + val as nat
    requires Draws(a, 321) && Draws(c, n)
    ensures Brings(meta, Said(words, a, Said(words, c, rest)), val)
         == Some(Brought(Sets(List(a, 321), List(a, 321), List(c, n)), rest))
  {
    var b1 := Said(words, c, rest);
    var f := ListIs(meta, words, a, 0x141, b1);
    var o := ListIs(meta, words, c, n, rest);
    FourBits(val);
    ThreeBring(meta, Said(words, a, b1), val, f, f, o, 0x141, n, true);
  }
}
