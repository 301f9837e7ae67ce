/** The fixed-capacity byte ring between the read completion (producer) and the client (consumer). */
module Ring {
  import opened Words

  // ---- arithmetic of slots ---------------------------------------------------

  /** Slot `k` places after slot `start` of a ring of `size` slots, for k <= size. */
  function Slot(start: int, k: int, size: int): int {
    if start + k < size then start + k else start + k - size
  }

  /** The `n` elements found by walking the ring `a` from slot `start`. */
  function Window<T>(a: seq<T>, start: nat, n: nat): (w: seq<T>)
    requires start < |a| && n <= |a|
    ensures |w| == n
    ensures forall k {:trigger w[k]} :: 0 <= k < n ==> w[k] == a[Slot(start, k, |a|)]
  {
    seq(n, k requires 0 <= k < n => a[Slot(start, k, |a|)])
  }

  lemma ModAdd(x: int, k: int, s: int)
    requires 0 <= x && 0 <= k <= s && 0 < s
    ensures (x + k) % s == Slot(x % s, k, s)
  {
    var q, r := x / s, x % s;
    assert x == q * s + r;
    if r + k < s {
      DivUnique(x + k, s, q, r + k);
    } else if r + k < 2 * s {
      assert (q + 1) * s == q * s + s;
      DivUnique(x + k, s, q + 1, r + k - s);
    }
  }

  /** Reducing a counter modulo 2^32 does not change its slot, since the size divides 2^32. */
  lemma SlotSurvivesWrap(x: nat, s: nat)
    requires IsPowerOfTwo(s) && s < 0x1_0000_0000 && x < 0x2_0000_0000
    ensures Wrap(x) % s == x % s
  {
    var c := PowerDividesWord(s);
    if x >= 0x1_0000_0000 {
      var d, e := Wrap(x) / s, Wrap(x) % s;
      assert Wrap(x) == d * s + e;
      assert (c + d) * s == c * s + d * s;
      DivUnique(x, s, c + d, e);
    }
  }

  /** The slot a counter points at. */
  function SlotOf(c: nat, s: nat): (p: nat)
    requires s > 0
    ensures p < s
  {
    c % s
  }

  /** The slot of `head + k` when the counter is 32 bits wide: it survives the wrap of the counter. */
  lemma CounterSlot(head: word, k: nat, s: nat)
    requires IsPowerOfTwo(s) && s < 0x1_0000_0000 && k <= s
    ensures SlotOf(Wrap(head + k), s) == Slot(SlotOf(head, s), k, s)
  {
    SlotSurvivesWrap(head + k, s);
    ModAdd(head, k, s);
  }

  /** The C code finds the slot by masking, `counter & (size - 1)`. */
  method MaskedSlot(c: word, size: nat) returns (p: nat)
    requires IsPowerOfTwo(size)
    ensures p == SlotOf(c, size)
  {
    ghost var e := PowerOfTwoTest(size);
    AndMask(c, e);
    p := And(c, size - 1);
  }

  /** `a` after the bytes `d` have been laid down from slot `start` on, wrapping at the end. */
  function Overwrite(a: seq<byte>, start: nat, d: seq<byte>): (r: seq<byte>)
    requires start < |a| && |d| <= |a|
    ensures |r| == |a|
  {
    seq(|a|, p requires 0 <= p < |a| =>
      var back := if p >= start then p - start else p - start + |a|;
      if back < |d| then d[back] else a[p])
  }

  /** Bytes laid down behind the unread ones extend the window and leave its start alone. */
  lemma WindowGrows(a: seq<byte>, b: seq<byte>, h: nat, used: nat, d: seq<byte>)
    requires h < |a| && used + |d| <= |a| && 0 < |d|
    requires Slot(h, used, |a|) < |a|
    requires b == Overwrite(a, Slot(h, used, |a|), d)
    ensures Window(b, h, used + |d|) == Window(a, h, used) + d
  {
    var w := Window(b, h, used + |d|);
    forall k | 0 <= k < |w| ensures w[k] == (Window(a, h, used) + d)[k] {
      assert w[k] == b[Slot(h, k, |a|)];
    }
  }

  lemma WindowShrinks<T>(a: seq<T>, h: nat, n: nat, used: nat)
    requires h < |a| && n <= used <= |a|
    ensures Slot(h, n, |a|) < |a| ==> Window(a, Slot(h, n, |a|), used - n) == Window(a, h, used)[n..]
  {
  }

  /** What the consumer's new head means for the window of unread bytes. */
  lemma HeadAdvances(a: seq<byte>, h: word, t: word, n: nat)
    requires IsPowerOfTwo(|a|) && n <= Wrap(t - h) <= |a| < 0x1_0000_0000
    ensures Wrap(t - Wrap(h + n)) == Wrap(t - h) - n
    ensures Window(a, SlotOf(Wrap(h + n), |a|), Wrap(t - h) - n) == Window(a, SlotOf(h, |a|), Wrap(t - h))[n..]
  {
    WrapAdvance(h, t, n);
    CounterSlot(h, n, |a|);
    WindowShrinks(a, SlotOf(h, |a|), n, Wrap(t - h));
  }

  // ---- the abstract queue ------------------------------------------------------

  /** A bounded drop-new FIFO of capacity `cap` holding `c` is offered the bytes `d`. */
  function Offer(c: seq<byte>, cap: nat, d: seq<byte>): (r: seq<byte>)
    requires |c| <= cap
    ensures |r| == Min(|c| + |d|, cap)
  {
    c + d[..Min(|d|, cap - |c|)]
  }

  /** The transfer that arrives at interruption point `k` of a run of the consumer, possibly none. */
  function Arrival(irq: seq<seq<byte>>, k: nat): seq<byte> {
    if k < |irq| then irq[k] else []
  }

  /** The bytes that arrive at the first `n` interruption points, one transfer after the other. */
  function Arrived(irq: seq<seq<byte>>, n: nat): seq<byte> {
    if n == 0 then [] else Arrived(irq, n - 1) + Arrival(irq, n - 1)
  }

  /** For a drop-new queue, transfers that arrive one after the other are one long transfer. */
  lemma OfferSplit(c: seq<byte>, cap: nat, d: seq<byte>, e: seq<byte>)
    requires |c| <= cap
    ensures Offer(Offer(c, cap, d), cap, e) == Offer(c, cap, d + e)
  {
    if |d| <= cap - |c| {
      assert d[..Min(|d|, cap - |c|)] == d;
      assert (d + e)[..Min(|d + e|, cap - |c|)] == d + e[..Min(|e|, cap - |c| - |d|)];
    } else {
      assert (d + e)[..cap - |c|] == d[..cap - |c|];
    }
  }

  /** What the producer's bytes and new tail mean for the window of unread bytes. */
  lemma TailAdvances(a: seq<byte>, h: word, t: word, d: seq<byte>)
    requires IsPowerOfTwo(|a|) && 0 < |d| && Wrap(t - h) + |d| <= |a| < 0x1_0000_0000
    ensures Wrap(Wrap(t + |d|) - h) == Wrap(t - h) + |d|
    ensures var b := Overwrite(a, SlotOf(t, |a|), d);
      Window(b, SlotOf(h, |a|), Wrap(t - h) + |d|) == Window(a, SlotOf(h, |a|), Wrap(t - h)) + d
  {
    WrapAdvance(h, t, |d|);
    CounterSlot(h, Wrap(t - h), |a|);
    WindowGrows(a, Overwrite(a, SlotOf(t, |a|), d), SlotOf(h, |a|), Wrap(t - h), d);
  }

  // ---- the ring ----------------------------------------------------------------

  class ByteRing {
    const size: nat
    const buf: array?<byte>
    var head: word
    var tail: word
    /** The unread bytes, oldest first. */
    ghost var contents: seq<byte>

    /** The C code touches the ring only with a power-of-two size and allocated storage. */
    predicate Usable() {
      IsPowerOfTwo(size) && buf != null
    }

    /** The unsigned difference of the two free-running counters. */
    function Count(): word reads this { Wrap(tail - head) }

    ghost predicate Valid()
      reads this, buf
    {
      && size < 0x1_0000_0000
      && (buf != null ==> buf.Length == size)
      && (!Usable() ==> contents == [])
      && (Usable() ==> Count() <= size && contents == Window(buf[..], SlotOf(head, size), Count()))
    }

    constructor (size: nat, buf: array?<byte>)
      requires size < 0x1_0000_0000 && (buf != null ==> buf.Length == size)
      ensures this.size == size && this.buf == buf && head == tail == 0 && contents == [] && Valid()
    {
      this.size, this.buf, head, tail, contents := size, buf, 0, 0, [];
    }

    method Reset()
      requires Valid()
      modifies this
      ensures Valid() && head == 0 && tail == 0 && contents == []
    {
      head, tail, contents := 0, 0, [];
    }

    method Used() returns (n: word)
      requires Valid()
      ensures Usable() ==> n == |contents|
      ensures n == if IsPowerOfTwo(size) then Count() else 0
    {
      if !IsPowerOfTwo(size) { return 0; }
      n := Wrap(tail - head);
    }

    /** Producer side: stores what fits and drops the rest; unread bytes are never overwritten. */
    method Enqueue(data: seq<byte>) returns (n: nat)
      requires Valid() && |data| < 0x1_0000_0000
      modifies this`tail, this`contents, buf
      ensures Valid() && n <= |data| && tail == Wrap(old(tail) + n)
      ensures !Usable() ==> n == 0
      ensures Usable() ==> n == Min(|data|, size - |old(contents)|)
      ensures Usable() ==> contents == Offer(old(contents), size, data)
    {
      if !IsPowerOfTwo(size) || buf == null || |data| == 0 {
        assert Usable() ==> Offer(contents, size, data) == contents;
        return 0;
      }
      var used := Wrap(tail - head);
      n := if |data| < size - used then |data| else size - used;
      if n == 0 {
        assert Offer(contents, size, data) == contents;
        return;
      }
      var tailOff := MaskedSlot(tail, size);
      TailAdvances(buf[..], head, tail, data[..n]);
      CopyIn(tailOff, data, n);
      tail := Wrap(tail + n);
      contents := contents + data[..n];
    }

    /** The two copy loops of the producer: up to the end of the ring, then from its start. */
    method CopyIn(tailOff: nat, data: seq<byte>, n: nat)
      requires buf != null && buf.Length == size && tailOff < size && n <= |data| && n <= size
      modifies buf
      ensures buf[..] == Overwrite(old(buf[..]), tailOff, data[..n])
    {
      var free1 := size - tailOff;
      var first := if n <= free1 then n else free1;
      var i := 0;
      while i < first
        invariant 0 <= i <= first
        invariant forall p :: 0 <= p < size ==>
          buf[p] == if tailOff <= p < tailOff + i then data[p - tailOff] else old(buf[p])
      {
        buf[tailOff + i] := data[i];
        i := i + 1;
      }
      i := 0;
      while i < n - first
        invariant 0 <= i <= n - first
        invariant forall p :: 0 <= p < size ==>
          buf[p] == if tailOff <= p < tailOff + first then data[p - tailOff]
                    else if p < i then data[first + p] else old(buf[p])
      {
        buf[i] := data[first + i];
        i := i + 1;
      }
    }

    /**
     * Consumer side. `irq[k]` is the transfer the producer delivers just before the k-th byte copy, and
     * `irq[n]` the one it delivers between the last copy and the publication of the new head.
     */
    method Dequeue(dst: array?<byte>, max: nat, irq: seq<seq<byte>>) returns (n: nat)
      requires Valid() && (dst != null ==> max <= dst.Length && dst != buf)
      requires forall d <- irq :: |d| < 0x1_0000_0000
      modifies this, buf, dst
      ensures Valid()
      ensures n == if Usable() && dst != null then Min(max, |old(contents)|) else 0
      ensures head == Wrap(old(head) + n)
      ensures dst != null ==> forall k :: 0 <= k < dst.Length ==>
        dst[k] == if k < n then old(contents)[k] else old(dst[k])
      ensures n == 0 ==> tail == old(tail) && contents == old(contents)
      ensures 0 < n ==> contents == Offer(old(contents), size, Arrived(irq, n + 1))[n..]
    {
      if !IsPowerOfTwo(size) || buf == null || dst == null || max == 0 {
        return 0;
      }
      var used := Wrap(tail - head);
      n := if max < used then max else used;
      if n == 0 {
        return;
      }
      ghost var c0 := contents;
      CopyOutAll(dst, n, irq);
      Interrupted(irq, n, c0);
      Publish(n);
    }

    /** The copies of the consumer: up to the end of the ring, then from its start. */
    method CopyOutAll(dst: array<byte>, n: nat, irq: seq<seq<byte>>)
      requires Valid() && Usable() && dst != buf && 0 < n <= |contents| <= size && n <= dst.Length
      requires forall d <- irq :: |d| < 0x1_0000_0000
      modifies this`tail, this`contents, buf, dst
      ensures Valid() && contents == Offer(old(contents), size, Arrived(irq, n))
      ensures forall k :: 0 <= k < dst.Length ==> dst[k] == if k < n then old(contents)[k] else old(dst[k])
    {
      ghost var c0 := contents;
      var headOff := MaskedSlot(head, size);
      var avail1 := size - headOff;
      var first := if n <= avail1 then n else avail1;
      CopyOut(dst, headOff, 0, first, irq, c0);
      if first < n {
        CopyOut(dst, 0, first, n - first, irq, c0);
      }
    }

    /** The consumer's last step: the slots it has read become free. */
    method Publish(n: nat)
      requires Valid() && Usable() && n <= |contents|
      modifies this`head, this`contents
      ensures Valid() && head == Wrap(old(head) + n) && contents == old(contents)[n..]
    {
      HeadAdvances(buf[..], head, tail, n);
      head := Wrap(head + n);
      contents := contents[n..];
    }

    /** One copy loop of the consumer: `count` bytes from slot `from` on, to `dst[at..]`. */
    method CopyOut(dst: array<byte>, from: nat, at: nat, count: nat, irq: seq<seq<byte>>, ghost c0: seq<byte>)
      requires Valid() && Usable() && dst != buf && at + count <= |c0| <= size && at + count <= dst.Length
      requires from == Slot(SlotOf(head, size), at, size) && from + count <= size
      requires forall d <- irq :: |d| < 0x1_0000_0000
      requires contents == Offer(c0, size, Arrived(irq, at))
      modifies this`tail, this`contents, buf, dst
      ensures Valid() && contents == Offer(c0, size, Arrived(irq, at + count))
      ensures forall k :: 0 <= k < dst.Length ==> dst[k] == if at <= k < at + count then c0[k] else old(dst[k])
    {
      var i := 0;
      while i < count
        invariant 0 <= i <= count
        invariant Valid() && contents == Offer(c0, size, Arrived(irq, at + i))
        invariant forall k :: 0 <= k < dst.Length ==> dst[k] == if at <= k < at + i then c0[k] else old(dst[k])
      {
        CopyByte(dst, from + i, at + i, irq, c0);
        i := i + 1;
      }
    }

    /** One byte copy, with the producer firing just before it. */
    method CopyByte(dst: array<byte>, slot: nat, k: nat, irq: seq<seq<byte>>, ghost c0: seq<byte>)
      requires Valid() && Usable() && dst != buf && k < |c0| <= size && k < dst.Length
      requires slot == Slot(SlotOf(head, size), k, size)
      requires |Arrival(irq, k)| < 0x1_0000_0000 && contents == Offer(c0, size, Arrived(irq, k))
      modifies this`tail, this`contents, buf, dst
      ensures Valid() && contents == Offer(c0, size, Arrived(irq, k + 1))
      ensures dst[k] == c0[k] && forall j :: 0 <= j < dst.Length && j != k ==> dst[j] == old(dst[j])
    {
      Interrupted(irq, k, c0);
      NextByte(c0, irq, k, slot);
      dst[k] := buf[slot];
    }

    /** Byte `k` of the snapshot is still where it was, whatever has arrived behind it. */
    lemma NextByte(c0: seq<byte>, irq: seq<seq<byte>>, k: nat, slot: nat)
      requires Valid() && Usable() && k < |c0| <= size && contents == Offer(c0, size, Arrived(irq, k + 1))
      requires slot == Slot(SlotOf(head, size), k, size)
      ensures slot < size && buf[slot] == c0[k]
    {
      assert contents[k] == Window(buf[..], SlotOf(head, size), Count())[k];
    }

    /** The producer fires between two steps of the consumer. */
    method Interrupted(irq: seq<seq<byte>>, k: nat, ghost c0: seq<byte>)
      requires Valid() && Usable() && |Arrival(irq, k)| < 0x1_0000_0000
      requires |c0| <= size && contents == Offer(c0, size, Arrived(irq, k))
      modifies this`tail, this`contents, buf
      ensures Valid() && contents == Offer(c0, size, Arrived(irq, k + 1))
    {
      OfferSplit(c0, size, Arrived(irq, k), Arrival(irq, k));
      var n := Enqueue(Arrival(irq, k));
    }
  }
}
