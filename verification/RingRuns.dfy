/** What every run of producer and consumer keeps: FIFO order, conservation, and packet framing. */
module RingRuns {
  import opened Words
  import opened Packets
  import opened Ring

  /** A transfer that is enqueued, or a dequeue during which the transfers `irq` arrive. */
  datatype Op = Put(data: seq<byte>) | Get(max: nat, irq: seq<seq<byte>>)

  /** The queue together with its whole history. */
  datatype History = History(
    queue: seq<byte>,
    offered: seq<byte>,   // every byte the device sent
    accepted: seq<byte>,  // the bytes that were stored
    taken: seq<byte>,     // the bytes that were handed to the client
    head: word,
    tail: word)

  const Start := History([], [], [], [], 0, 0)

  function Advance(c: word, n: nat): word { (c + n) % 0x1_0000_0000 }

  /** One operation, as the contracts of ByteRing.Enqueue and ByteRing.Dequeue describe it. */
  function Step(s: History, cap: nat, op: Op): History
    requires |s.queue| <= cap
  {
    match op
    case Put(d) =>
      var q := Offer(s.queue, cap, d);
      s.(queue := q, offered := s.offered + d, accepted := s.accepted + q[|s.queue|..],
         tail := Advance(s.tail, |q| - |s.queue|))
    case Get(max, irq) =>
      var n := Min(max, |s.queue|);
      if n == 0 then s
      else
        var q := Offer(s.queue, cap, Arrived(irq, n + 1));
        s.(queue := q[n..], offered := s.offered + Arrived(irq, n + 1), accepted := s.accepted + q[|s.queue|..],
           taken := s.taken + q[..n], head := Advance(s.head, n), tail := Advance(s.tail, |q| - |s.queue|))
  }

  function Run(cap: nat, ops: seq<Op>): (s: History)
    ensures |s.queue| <= cap
  {
    if ops == [] then Start else Step(Run(cap, ops[..|ops| - 1]), cap, ops[|ops| - 1])
  }

  predicate InOrder(s: History) {
    && s.taken + s.queue == s.accepted
    && s.tail == |s.accepted| % 0x1_0000_0000
    && s.head == |s.taken| % 0x1_0000_0000
  }

  lemma AdvanceCounts(x: nat, n: nat)
    ensures Advance(x % 0x1_0000_0000, n) == (x + n) % 0x1_0000_0000
  {
  }

  lemma StepInOrder(s: History, cap: nat, op: Op)
    requires |s.queue| <= cap && InOrder(s)
    ensures InOrder(Step(s, cap, op))
  {
    match op
    case Put(d) =>
      var q := Offer(s.queue, cap, d);
      StoresInOrder(s, q);
      AdvanceCounts(|s.accepted|, |q| - |s.queue|);
    case Get(max, irq) =>
      var n := Min(max, |s.queue|);
      if n > 0 {
        var q := Offer(s.queue, cap, Arrived(irq, n + 1));
        StoresInOrder(s, q);
        TakesInOrder(s.taken, q, n);
        AdvanceCounts(|s.accepted|, |q| - |s.queue|);
        AdvanceCounts(|s.taken|, n);
      }
  }

  lemma StoresInOrder(s: History, q: seq<byte>)
    requires InOrder(s) && s.queue <= q
    ensures s.taken + q == s.accepted + q[|s.queue|..]
  {
    assert q == s.queue + q[|s.queue|..];
  }

  lemma TakesInOrder(taken: seq<byte>, q: seq<byte>, n: nat)
    requires n <= |q|
    ensures (taken + q[..n]) + q[n..] == taken + q && |taken + q[..n]| == |taken| + n
  {
  }

  /**
   * Whatever the interleaving, no byte is lost after it was accepted, none is duplicated and the order
   * is kept; the two counters count accepted and taken bytes modulo 2^32.
   */
  lemma {:induction false} FirstInFirstOut(cap: nat, ops: seq<Op>)
    ensures InOrder(Run(cap, ops))
  {
    if ops != [] {
      FirstInFirstOut(cap, ops[..|ops| - 1]);
      StepInOrder(Run(cap, ops[..|ops| - 1]), cap, ops[|ops| - 1]);
    }
  }

  // ---- framing -----------------------------------------------------------------

  predicate WholePackets(ds: seq<seq<byte>>) { forall d <- ds :: |d| % 4 == 0 }

  /** Every transfer is a multiple of four bytes long, and so is every dequeue limit. */
  predicate Aligned(op: Op) {
    match op
    case Put(d) => |d| % 4 == 0
    case Get(max, irq) => max % 4 == 0 && WholePackets(irq)
  }

  lemma OfferAligned(c: seq<byte>, cap: nat, d: seq<byte>)
    requires |c| <= cap && cap % 4 == 0 && |c| % 4 == 0 && |d| % 4 == 0
    ensures var q := Offer(c, cap, d);
      |q| % 4 == 0 && Subsequence(Chop(q[|c|..]), Chop(d))
  {
    var n := Min(|d|, cap - |c|);
    assert Offer(c, cap, d)[|c|..] == d[..n];
    assert d == d[..n] + d[n..];
    ChopConcat(d[..n], d[n..]);
    PrefixIsSubsequence(Chop(d[..n]), Chop(d));
  }

  lemma {:induction false} ArrivedAligned(irq: seq<seq<byte>>, n: nat)
    requires WholePackets(irq)
    ensures |Arrived(irq, n)| % 4 == 0
  {
    if n > 0 {
      ArrivedAligned(irq, n - 1);
      SumAligned(|Arrived(irq, n - 1)|, |Arrival(irq, n - 1)|);
    }
  }

  ghost predicate Framed(s: History) {
    && |s.taken| % 4 == 0 && |s.queue| % 4 == 0 && |s.offered| % 4 == 0 && |s.accepted| % 4 == 0
    && Subsequence(Chop(s.accepted), Chop(s.offered))
  }

  lemma StepFramed(s: History, cap: nat, op: Op)
    requires cap % 4 == 0 && |s.queue| <= cap && InOrder(s) && Framed(s) && Aligned(op)
    ensures Framed(Step(s, cap, op))
  {
    match op
    case Put(d) => StepStores(s, cap, d);
    case Get(max, irq) =>
      var n := Min(max, |s.queue|);
      if n > 0 {
        ArrivedAligned(irq, n + 1);
        StepStores(s, cap, Arrived(irq, n + 1));
        StepTakes(s.taken, Offer(s.queue, cap, Arrived(irq, n + 1)), n);
      }
  }

  lemma StepTakes(taken: seq<byte>, q: seq<byte>, n: nat)
    requires n <= |q| && |q| % 4 == 0 && |taken| % 4 == 0 && n % 4 == 0
    ensures |q[n..]| % 4 == 0 && |taken + q[..n]| % 4 == 0
  {
  }

  lemma StepStores(s: History, cap: nat, d: seq<byte>)
    requires cap % 4 == 0 && |s.queue| <= cap && Framed(s) && |d| % 4 == 0
    ensures var q := Offer(s.queue, cap, d);
      && |q| % 4 == 0 && |s.offered + d| % 4 == 0 && |s.accepted + q[|s.queue|..]| % 4 == 0
      && Subsequence(Chop(s.accepted + q[|s.queue|..]), Chop(s.offered + d))
  {
    OfferAligned(s.queue, cap, d);
    Extend(s, Offer(s.queue, cap, d)[|s.queue|..], d);
  }

  lemma {:induction false} RunFramed(cap: nat, ops: seq<Op>)
    requires cap % 4 == 0 && forall op <- ops :: Aligned(op)
    ensures Framed(Run(cap, ops))
  {
    if ops != [] {
      RunFramed(cap, ops[..|ops| - 1]);
      FirstInFirstOut(cap, ops[..|ops| - 1]);
      StepFramed(Run(cap, ops[..|ops| - 1]), cap, ops[|ops| - 1]);
    }
  }

  /**
   * Framing survives overflow: both counters stay multiples of four for ever, overflow drops whole
   * Event Packets, and the packets the client sees are an in-order subsequence of the device's.
   */
  lemma {:induction false} FramingSurvivesOverflow(cap: nat, ops: seq<Op>)
    requires cap % 4 == 0 && forall op <- ops :: Aligned(op)
    ensures var s := Run(cap, ops);
      && s.head % 4 == 0 && s.tail % 4 == 0 && |s.taken| % 4 == 0
      && Chop(s.taken) + Chop(s.queue) == Chop(s.accepted)
      && Subsequence(Chop(s.taken), Chop(s.offered))
  {
    FirstInFirstOut(cap, ops);
    RunFramed(cap, ops);
    var s := Run(cap, ops);
    ChopConcat(s.taken, s.queue);
    PrefixIsSubsequence(Chop(s.taken), Chop(s.accepted));
    SubsequenceTransitive(Chop(s.taken), Chop(s.accepted), Chop(s.offered));
    MultipleOfFour(|s.taken|);
    MultipleOfFour(|s.accepted|);
  }

  lemma MultipleOfFour(x: nat)
    requires x % 4 == 0
    ensures (x % 0x1_0000_0000) % 4 == 0
  {
  }

  lemma Extend(s: History, stored: seq<byte>, sent: seq<byte>)
    requires |s.accepted| % 4 == 0 && |s.offered| % 4 == 0
    requires Subsequence(Chop(s.accepted), Chop(s.offered)) && Subsequence(Chop(stored), Chop(sent))
    ensures Subsequence(Chop(s.accepted + stored), Chop(s.offered + sent))
  {
    ChopConcat(s.accepted, stored);
    ChopConcat(s.offered, sent);
    SubsequenceConcat(Chop(s.accepted), Chop(s.offered), Chop(stored), Chop(sent));
  }

  // ---- the ring itself ------------------------------------------------------------

  /** Transfers are shorter than 2^32 bytes. */
  predicate Sized(op: Op) {
    match op
    case Put(d) => |d| < 0x1_0000_0000
    case Get(_, irq) => forall d <- irq :: |d| < 0x1_0000_0000
  }

  /** The ring is where the history says. */
  ghost predicate Shows(ring: ByteRing, s: History)
    reads ring, ring.buf
  {
    ring.Valid() && ring.Usable() && ring.contents == s.queue && ring.head == s.head && ring.tail == s.tail
  }

  lemma AdvanceIsWrap(c: word, n: nat)
    requires n < 0x1_0000_0000
    ensures Advance(c, n) == Wrap(c + n)
  {
    WrapIsModular(c + n);
  }

  /** The tail follows from the head and the number of unread bytes, in the ring and in the history. */
  lemma TailFollows(s: History)
    requires InOrder(s) && |s.queue| < 0x1_0000_0000
    ensures s.tail == Wrap(s.head + |s.queue|)
  {
    AdvanceCounts(|s.taken|, |s.queue|);
    AdvanceIsWrap(s.head, |s.queue|);
  }

  lemma TailOfRing(h: word, t: word)
    ensures t == Wrap(h + Wrap(t - h))
  {
    WrapAdvance(h, t, 0);
  }

  /** A dequeue with the transfers that interrupt it; what it hands out. */
  method Take(ring: ByteRing, max: nat, irq: seq<seq<byte>>, ghost s: History) returns (got: seq<byte>)
    requires Shows(ring, s) && Sized(Get(max, irq))
    modifies ring, ring.buf
    ensures var t := Step(s, ring.size, Get(max, irq));
      && ring.Valid() && ring.contents == t.queue && ring.head == t.head && t.taken == s.taken + got
  {
    var dst := new byte[max](_ => 0);
    var n := ring.Dequeue(dst, max, irq);
    got := dst[..n];
    AdvanceIsWrap(s.head, n);
    if n > 0 {
      assert got == Offer(s.queue, ring.size, Arrived(irq, n + 1))[..n];
    }
  }

  /** One operation; what a dequeue hands out. */
  method Perform(ring: ByteRing, op: Op, ghost s: History) returns (got: seq<byte>)
    requires Shows(ring, s) && InOrder(s) && Sized(op)
    modifies ring, ring.buf
    ensures Shows(ring, Step(s, ring.size, op)) && Step(s, ring.size, op).taken == s.taken + got
  {
    StepInOrder(s, ring.size, op);
    TailFollows(Step(s, ring.size, op));
    got := [];
    match op {
      case Put(d) => var n := ring.Enqueue(d);
      case Get(max, irq) => got := Take(ring, max, irq, s);
    }
    TailOfRing(ring.head, ring.tail);
  }

  /** A whole run on a fresh ring: its bytes and counters, and what the client got, are those of the history. */
  method PerformAll(ring: ByteRing, ops: seq<Op>) returns (got: seq<byte>)
    requires ring.Valid() && ring.Usable() && ring.head == 0 && ring.tail == 0 && ring.contents == []
    requires forall op <- ops :: Sized(op)
    modifies ring, ring.buf
    ensures Shows(ring, Run(ring.size, ops)) && got == Run(ring.size, ops).taken
  {
    got := [];
    for i := 0 to |ops|
      invariant Shows(ring, Run(ring.size, ops[..i])) && got == Run(ring.size, ops[..i]).taken
    {
      FirstInFirstOut(ring.size, ops[..i]);
      assert ops[..i + 1][..i] == ops[..i];
      var more := Perform(ring, ops[i], Run(ring.size, ops[..i]));
      got := got + more;
    }
    assert ops[..|ops|] == ops;
  }
}
