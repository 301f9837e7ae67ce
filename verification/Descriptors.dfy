/** The USB descriptor walker: what it visits, and that the descriptors tile the buffer. */
module Descriptors {
  import opened Words

  datatype Error = NoError | Truncated | ZeroLength

  /** A descriptor as its bytes; the first byte is its length, the second its type. */
  type desc = seq<byte>

  predicate Honest(d: desc) { |d| >= 2 && d[0] == |d| }

  datatype Advance = End | Bad(error: Error) | Got(d: desc)

  /** What is found at the start of the bytes left. */
  function Look(left: seq<byte>): (a: Advance)
    ensures a.Got? ==> |a.d| <= |left| && a.d == left[..|a.d|] && Honest(a.d)
  {
    if left == [] then End
    else if |left| < 2 then Bad(Truncated)
    else if left[0] < 2 then Bad(ZeroLength)
    else if left[0] > |left| then Bad(Truncated)
    else Got(left[..left[0]])
  }

  datatype Walked = Walked(descs: seq<desc>, error: Error, unread: seq<byte>)

  function Walk(left: seq<byte>): Walked
    decreases |left|
  {
    match Look(left)
    case End => Walked([], NoError, [])
    case Bad(e) => Walked([], e, left)
    case Got(d) =>
      var rest := Walk(left[|d|..]);
      Walked([d] + rest.descs, rest.error, rest.unread)
  }

  function Flatten(ds: seq<desc>): seq<byte> {
    if ds == [] then [] else ds[0] + Flatten(ds[1..])
  }

  predicate AllHonest(ds: seq<desc>) { forall k | 0 <= k < |ds| :: Honest(ds[k]) }

  lemma FlattenCons(d: desc, ds: seq<desc>)
    ensures Flatten([d] + ds) == d + Flatten(ds)
  {
    assert ([d] + ds)[1..] == ds;
  }

  lemma LookTakes(left: seq<byte>)
    requires Look(left).Got?
    ensures var d := Look(left).d; left == d + left[|d|..] && |d| >= 2
  {
  }

  /** Every descriptor carries its own length, and with what is left unread they make up the buffer. */
  lemma {:induction false} WalkTiles(left: seq<byte>)
    ensures left == Flatten(Walk(left).descs) + Walk(left).unread && AllHonest(Walk(left).descs)
    decreases |left|
  {
    var a := Look(left);
    if a.Got? {
      LookTakes(left);
      WalkTiles(left[|a.d|..]);
      var rest := Walk(left[|a.d|..]);
      FlattenCons(a.d, rest.descs);
      Assoc(a.d, Flatten(rest.descs), rest.unread);
    } else {
      assert [] + left == left;
    }
  }

  /** The walk ends cleanly exactly when nothing is left, and otherwise for the reason it reports. */
  lemma {:induction false} WalkStops(left: seq<byte>)
    ensures Walk(left).error == NoError <==> Walk(left).unread == []
    ensures Walk(left).error != NoError ==> Look(Walk(left).unread) == Bad(Walk(left).error)
    decreases |left|
  {
    var a := Look(left);
    if a.Got? { WalkStops(left[|a.d|..]); }
  }

  lemma LookFirst(d: desc, rest: seq<byte>)
    requires Honest(d)
    ensures Look(d + rest) == Got(d) && (d + rest)[|d|..] == rest
  {
    assert (d + rest)[..|d|] == d;
  }

  /** The walk is the only tiling: descriptors put one after the other are found again. */
  lemma {:induction false} WalkFlatten(ds: seq<desc>)
    requires AllHonest(ds)
    ensures Walk(Flatten(ds)) == Walked(ds, NoError, [])
    decreases |ds|
  {
    if ds != [] {
      LookFirst(ds[0], Flatten(ds[1..]));
      WalkFlatten(ds[1..]);
      assert [ds[0]] + ds[1..] == ds;
    }
  }

  /** Bounded reads relative to a descriptor; 0 beyond its end. */
  function U8(d: seq<byte>, k: nat): byte { if k < |d| then d[k] else 0 }

  function U16(d: seq<byte>, k: nat): nat {
    if k + 1 < |d| then
      var lo: int, hi: int := d[k], d[k + 1];
      lo + 256 * hi
    else 0
  }

  /** The walker's state; a null buffer comes with a length of its own. */
  class DescIter {
    const nullBuf: bool
    const buf: seq<byte>
    const len: nat
    var pos: nat
    var off: nat
    var blen: nat
    var btype: nat
    var err: Error

    ghost predicate Valid()
      reads this
    {
      pos <= |buf| && off + blen <= |buf| && if nullBuf then buf == [] else |buf| == len
    }

    ghost function Left(): seq<byte>
      reads this
      requires Valid()
    {
      buf[pos..]
    }

    /** The current descriptor. */
    ghost function Current(): seq<byte>
      reads this
      requires Valid()
    {
      buf[off..off + blen]
    }

    /** The walker after a step, for what was found at the start of `was`. */
    ghost predicate Follows(a: Advance, was: seq<byte>, more: bool)
      reads this
      requires Valid()
    {
      && (a.End? ==> !more && err == NoError)
      && (a.Bad? ==> !more && err == a.error)
      && (a.Got? ==> more && err == NoError && Current() == a.d && Honest(a.d) && |a.d| <= |was|
                     && btype == a.d[1] && blen == |a.d| && Left() == was[|a.d|..])
    }

    constructor (buf: seq<byte>)
      ensures Valid() && !nullBuf && this.buf == buf && err == NoError && Left() == buf
    {
      this.nullBuf, this.buf, len, pos, off, blen, btype, err := false, buf, |buf|, 0, 0, 0, 0, NoError;
    }

    constructor Null(len: nat)
      ensures Valid() && nullBuf && this.len == len && pos == 0 && err == NoError
    {
      nullBuf, buf, this.len, pos, off, blen, btype, err := true, [], len, 0, 0, 0, 0, NoError;
    }

    /** An error or the end of the buffer stops the walk for good; without a buffer only length 0 is no error. */
    method Next() returns (more: bool)
      requires Valid()
      modifies this
      ensures Valid()
      ensures old(err) != NoError ==> !more && err == old(err) && pos == old(pos)
      ensures old(err) == NoError && !nullBuf ==> Follows(Look(old(Left())), old(Left()), more)
      ensures old(err) == NoError && nullBuf ==> !more && err == if pos < len then Truncated else NoError
      ensures old(err) == NoError && !more ==> pos == old(pos)
    {
      if err != NoError { return false; }
      if nullBuf {
        if pos < len { err := Truncated; }
        return false;
      }
      if pos >= len { return false; }
      if len - pos < 2 {
        err := Truncated;
        return false;
      }
      var n: nat := buf[pos];
      if n < 2 {
        err := ZeroLength;
        return false;
      }
      if n > len - pos {
        err := Truncated;
        return false;
      }
      off, blen, btype := pos, n, buf[pos + 1];
      pos := pos + n;
      more := true;
      SliceShift(buf, off, n);
    }

    function ReadU8(rel: nat): (v: byte)
      requires Valid()
      reads this
      ensures v == U8(Current(), rel)
    {
      if rel >= blen then 0 else buf[off + rel]
    }

    function ReadU16(rel: nat): (v: nat)
      requires Valid()
      reads this
      ensures v == U16(Current(), rel)
    {
      if rel >= blen || rel + 1 >= blen then 0
      else
        var lo: int, hi: int := buf[off + rel], buf[off + rel + 1];
        lo + 256 * hi
    }
  }

  lemma SliceShift(s: seq<byte>, i: nat, n: nat)
    requires i + n <= |s|
    ensures s[i..][..n] == s[i..i + n] && s[i..][n..] == s[i + n..]
  {
  }
}
