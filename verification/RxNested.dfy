/** A drain at task time while the event hook is registered: a transfer that interrupts it drains the ring as well. */
module RxNested {
  import opened Words
  import opened Packets
  import opened Ring
  import opened MidiStream
  import opened OmsRx

  // ---- specification --------------------------------------------------------------------------

  /** A transfer with the hook registered: what fits is stored, and the ring is drained before the completion
      returns. A transfer without bytes calls no hook. */
  function Pushed(f: Flow, cap: nat, d: seq<byte>, deliver: bool): (g: Flow)
    requires Holds(f, cap)
    ensures Holds(g, cap) && (d != [] ==> g.queue == [])
  {
    if d == [] then f else Emptied(f.(queue := Offer(f.queue, cap, d)), deliver)
  }

  /** The transfers at the first `n` interruption points. */
  function PushedAll(f: Flow, cap: nat, irq: seq<seq<byte>>, n: nat, deliver: bool): (g: Flow)
    requires Holds(f, cap)
    ensures Holds(g, cap)
  {
    if n == 0 then f else Pushed(PushedAll(f, cap, irq, n - 1, deliver), cap, Arrival(irq, n - 1), deliver)
  }

  /** Nothing arrives at the first `n` interruption points. */
  predicate Silent(irq: seq<seq<byte>>, n: nat) {
    n == 0 || (Silent(irq, n - 1) && Arrival(irq, n - 1) == [])
  }

  lemma {:induction false} PushedFlow(f: Flow, cap: nat, irq: seq<seq<byte>>, n: nat, deliver: bool)
    requires Holds(f, cap)
    ensures var g := PushedAll(f, cap, irq, n, deliver);
      if Silent(irq, n) then g == f else g.queue == []
  {
    if n > 0 { PushedFlow(f, cap, irq, n - 1, deliver); }
  }

  /** The head is published behind a tail that the nested drain has reached: the used count wraps below zero, and
      no ring is that large. */
  lemma HeadPassesTail(h: word, n: nat, size: nat)
    requires 0 < n <= DEQUEUE_CHUNK && IsPowerOfTwo(size) && size < 0x1_0000_0000
    ensures Wrap(h - Wrap(h + n)) == 0x1_0000_0000 - n && size < 0x1_0000_0000 - n
  {
    var c := PowerDividesWord(size);
  }

  /** The used count that a dequeue of at most 64 bytes leaves behind. */
  function UsedAfter(f: Flow, cap: nat, irq: seq<seq<byte>>, pushed: bool): word
    requires Holds(f, cap) && cap < 0x1_0000_0000
  {
    var n := Min(DEQUEUE_CHUNK, |f.queue|);
    if n == 0 then 0 else Wrap(|PushedAll(f, cap, irq, n + 1, pushed).queue| - n)
  }

  /** A nested drain is harmless if and only if there was nothing to read, or nothing came that could run it, before
      the head was published. */
  lemma HarmlessIff(f: Flow, cap: nat, irq: seq<seq<byte>>, pushed: bool)
    requires Holds(f, cap) && IsPowerOfTwo(cap) && cap < 0x1_0000_0000
    ensures var n, used := Min(DEQUEUE_CHUNK, |f.queue|), UsedAfter(f, cap, irq, pushed);
      && (n == 0 || Silent(irq, n + 1) <==> used == |f.queue| - n)
      && (n == 0 || Silent(irq, n + 1) <==> used <= cap)
      && (n == 0 || Silent(irq, n + 1) || used == 0x1_0000_0000 - n)
  {
    var n := Min(DEQUEUE_CHUNK, |f.queue|);
    if n > 0 {
      PushedFlow(f, cap, irq, n + 1, pushed);
      HeadPassesTail(0, n, cap);
    }
  }

  /** How many turns a loop of dequeues takes until nothing is counted as used. */
  function TurnsUntilEmpty(used: nat): nat {
    if used == 0 then 0 else 1 + TurnsUntilEmpty(used - Min(DEQUEUE_CHUNK, used))
  }

  lemma {:induction false} TurnsOf(used: nat)
    ensures TurnsUntilEmpty(used) == (used + 63) / 64
  {
    if used > 64 { TurnsOf(used - 64); } else if used > 0 { assert TurnsUntilEmpty(0) == 0; }
  }

  /** With nothing unread the loop of the interrupted drain goes on for some 67 million turns of up to 64 bytes. */
  lemma RunsAway(f: Flow, cap: nat, irq: seq<seq<byte>>, pushed: bool)
    requires Holds(f, cap) && IsPowerOfTwo(cap) && cap < 0x1_0000_0000
    requires f.queue != [] && !Silent(irq, Min(DEQUEUE_CHUNK, |f.queue|) + 1)
    ensures var n := Min(DEQUEUE_CHUNK, |f.queue|);
      && PushedAll(f, cap, irq, n + 1, pushed).queue == []
      && TurnsUntilEmpty(UsedAfter(f, cap, irq, pushed)) == if n == DEQUEUE_CHUNK then 0x3FF_FFFF else 0x400_0000
  {
    HarmlessIff(f, cap, irq, pushed);
    PushedFlow(f, cap, irq, Min(DEQUEUE_CHUNK, |f.queue|) + 1, pushed);
    TurnsOf(UsedAfter(f, cap, irq, pushed));
  }

  /** Transfers that come only between the last copy and the publication: everything is routed, and then the bytes
      of the interrupted dequeue once more. */
  lemma RoutedTwice(f: Flow, cap: nat, irq: seq<seq<byte>>, n: nat, pushed: bool)
    requires Holds(f, cap) && Silent(irq, n) && Arrival(irq, n) != []
    ensures PushedAll(f, cap, irq, n + 1, pushed).input ==
      RouteAll(f.input, Chop(Offer(f.queue, cap, Arrival(irq, n))), pushed)
  {
    PushedFlow(f, cap, irq, n, pushed);
  }

  // ---- the failing input ------------------------------------------------------------------------------

  const NOTE_ON := Packet(0x0A, 0x90, 0x3C, 0x40)
  const NOTE_OFF := Packet(0x09, 0x80, 0x3C, 0x40)

  /** Port 0 is in use, delivering and idle. */
  predicate Listening(v: Input, ref: nat) {
    && |v.ports| == CABLES && v.ports[0].valid && v.ports[0].ioRefNum == ref >= 0
    && v.ports[0].rx.cable == 0 && v.ports[0].rx.queue == []
  }

  lemma NoteMessage(inSysex: bool, p: Packet)
    requires p == NOTE_ON || p == NOTE_OFF
    ensures var m := MessageOf(inSysex, p); m.tag == NoCont && m.Bytes() == [p.b1, p.b2, p.b3]
  {
    var m := MessageOf(inSysex, p);
    assert [m.d0, m.d1, m.d2][..3] == [p.b1, p.b2, p.b3];
  }

  lemma RouteNote(v: Input, ref: nat, p: Packet)
    requires Listening(v, ref) && (p == NOTE_ON || p == NOTE_OFF)
    ensures var r := Route(v, p, true);
      Listening(r, ref) && r.delivered == v.delivered + [Delivery(0, ref, 0, [p.b1, p.b2, p.b3])]
  {
    var m := MessageOf(v.ports[0].rx.inSysex, p);
    assert Feed(v.ports[0].rx, p).queue == [m];
    NoteMessage(v.ports[0].rx.inSysex, p);
    assert Handed(0, ref, true, [m]) == [Delivery(0, ref, 0, m.Bytes())];
  }

  /** A note on is unread, and the note off comes just before the head is published: the note is played, ended and
      played again, for good, the ring counts 2^32 - 4 bytes although nothing is unread, and the next dequeue hands
      out 64 of them. */
  lemma NoteHangs(f: Flow, cap: nat, ref: nat, irq: seq<seq<byte>>)
    requires Listening(f.input, ref) && IsPowerOfTwo(cap) && 8 <= cap < 0x1_0000_0000 && f.queue == [0x0A, 0x90, 0x3C, 0x40]
    requires irq == [[], [], [], [], [0x09, 0x80, 0x3C, 0x40]]
    ensures Min(DEQUEUE_CHUNK, |f.queue|) == 4 && UsedAfter(f, cap, irq, true) == 0xFFFF_FFFC
    ensures PushedAll(f, cap, irq, 5, true).queue == [] && Min(DEQUEUE_CHUNK, UsedAfter(f, cap, irq, true)) == 64
    ensures var on, off := Delivery(0, ref, 0, [0x90, 0x3C, 0x40]), Delivery(0, ref, 0, [0x80, 0x3C, 0x40]);
      RouteAll(PushedAll(f, cap, irq, 5, true).input, Chop(f.queue), true).delivered ==
        f.input.delivered + [on] + [off] + [on]
  {
    SilentAtFour(irq);
    HarmlessIff(f, cap, irq, true);
    RoutedTwice(f, cap, irq, 4, true);
    PushedFlow(f, cap, irq, 5, true);
    TwoNotes(f.queue, cap, irq[4]);
    ThreeNotes(f.input, ref, [NOTE_ON, NOTE_OFF], [NOTE_ON]);
  }

  lemma ThreeNotes(v: Input, ref: nat, first: seq<Packet>, again: seq<Packet>)
    requires Listening(v, ref) && first == [NOTE_ON, NOTE_OFF] && again == [NOTE_ON]
    ensures var on, off := Delivery(0, ref, 0, [0x90, 0x3C, 0x40]), Delivery(0, ref, 0, [0x80, 0x3C, 0x40]);
      RouteAll(RouteAll(v, first, true), again, true).delivered == v.delivered + [on] + [off] + [on]
  {
    var v1 := Route(v, NOTE_ON, true);
    var v2 := Route(v1, NOTE_OFF, true);
    RouteNote(v, ref, NOTE_ON);
    RouteNote(v1, ref, NOTE_OFF);
    RouteNote(v2, ref, NOTE_ON);
    assert first[1..] == [NOTE_OFF] && first[1..][1..] == [] && again[1..] == [];
    assert RouteAll(v, first, true) == RouteAll(v1, first[1..], true);
    assert RouteAll(v1, first[1..], true) == v2;
  }

  lemma SilentAtFour(irq: seq<seq<byte>>)
    requires irq == [[], [], [], [], [0x09, 0x80, 0x3C, 0x40]]
    ensures Silent(irq, 4) && !Silent(irq, 5)
  {
    assert Silent(irq, 0) && Silent(irq, 1);
    assert Silent(irq, 2) && Silent(irq, 3);
  }

  lemma TwoNotes(queue: seq<byte>, cap: nat, d: seq<byte>)
    requires queue == [0x0A, 0x90, 0x3C, 0x40] && d == [0x09, 0x80, 0x3C, 0x40] && 8 <= cap
    ensures Chop(queue) == [NOTE_ON] && Chop(Offer(queue, cap, d)) == [NOTE_ON, NOTE_OFF]
  {
    assert Offer(queue, cap, d)[4..] == d && queue[4..] == [] && d[4..] == [];
    assert Chop(d) == [NOTE_OFF];
  }

  // ---- overtaking -----------------------------------------------------------------------------------------

  /** Packets `newer` that are routed in the middle of older ones: with no packet in common, the order is that of
      the wire if and only if there is nothing newer or nothing older is left. */
  lemma OvertakesIff(done: seq<Packet>, newer: seq<Packet>, left: seq<Packet>)
    requires forall p <- newer :: p !in left
    ensures done + newer + left == done + left + newer <==> newer == [] || left == []
  {
    var a, b := done + newer + left, done + left + newer;
    if newer != [] && left != [] {
      assert a[|done|] == newer[0] && b[|done|] == left[0];
      assert newer[0] in newer;
    }
  }

  // ---- the code -----------------------------------------------------------------------------------

  /** A read completion with the hook registered: the transfer is stored and the hook drains the ring. */
  method Push(ring: ByteRing, input: OmsInput, d: seq<byte>, deliver: bool)
    requires ring.Valid() && input.Valid() && |d| < 0x1_0000_0000
    modifies ring, ring.buf, input, input.ports, input.Streams(), input.Queues()
    ensures ring.Valid() && input.Valid()
    ensures input.FlowOf(ring) == Pushed(old(input.FlowOf(ring)), Capacity(ring), d, deliver)
    ensures d == [] ==> ring.head == old(ring.head)
  {
    var stored := ring.Enqueue(d);
    if |d| > 0 { input.Drain(ring, true, [], deliver); }
  }

  /** One byte copy of the interrupted dequeue. Where nothing has arrived yet the byte is the unread one. */
  method CopyHooked(ring: ByteRing, input: OmsInput, buf: array<byte>, slot: nat, k: nat, d: seq<byte>, pushed: bool,
      ghost c0: seq<byte>)
    requires ring.Valid() && ring.Usable() && input.Valid() && buf != ring.buf && k < buf.Length && k < |c0|
    requires slot < ring.size && |d| < 0x1_0000_0000
    modifies ring, ring.buf, buf, input, input.ports, input.Streams(), input.Queues()
    ensures ring.Valid() && input.Valid()
    ensures input.FlowOf(ring) == Pushed(old(input.FlowOf(ring)), ring.size, d, pushed)
    ensures forall j :: 0 <= j < buf.Length && j != k ==> buf[j] == old(buf[j])
    ensures d == [] ==> ring.head == old(ring.head)
    ensures d == [] && old(ring.contents) == c0 && slot == Slot(SlotOf(old(ring.head), ring.size), k, ring.size) ==>
      buf[k] == c0[k]
  {
    Push(ring, input, d, pushed);
    if d == [] && ring.contents == c0 && slot == Slot(SlotOf(ring.head, ring.size), k, ring.size) {
      assert ring.contents[k] == Window(ring.buf[..], SlotOf(ring.head, ring.size), ring.Count())[k];
    }
    buf[k] := ring.buf[slot];
  }

  /** Where the copies of the dequeue are: the flow is that of the transfers so far, and while none has come the
      head is where it was and the bytes copied are the unread ones. */
  ghost predicate Copied(ring: ByteRing, input: OmsInput, buf: array<byte>, k: nat, irq: seq<seq<byte>>,
      gs: seq<Flow>, h: word)
    reads ring, ring.buf, buf, input, input.ports, input.Streams(), input.Queues()
  {
    && ring.Valid() && ring.Usable() && input.Valid() && k < |gs| && k <= |gs[0].queue| && k <= buf.Length
    && input.FlowOf(ring) == gs[k]
    && (Silent(irq, k) ==> ring.head == h && forall j :: 0 <= j < k ==> buf[j] == gs[0].queue[j])
  }

  /** The flows before each of the first `n` interruption points and after the last. */
  ghost function Stages(f: Flow, cap: nat, irq: seq<seq<byte>>, n: nat, pushed: bool): seq<Flow>
    requires Holds(f, cap)
  {
    seq(n + 1, k requires 0 <= k <= n => PushedAll(f, cap, irq, k, pushed))
  }

  ghost predicate Leads(gs: seq<Flow>, k: nat, cap: nat, irq: seq<seq<byte>>, pushed: bool) {
    && k + 1 < |gs| && Holds(gs[k], cap) && gs[k + 1] == Pushed(gs[k], cap, Arrival(irq, k), pushed)
    && (Silent(irq, k) ==> gs[k] == gs[0])
  }

  lemma StagesLead(f: Flow, cap: nat, irq: seq<seq<byte>>, n: nat, pushed: bool, k: nat)
    requires Holds(f, cap) && k < n
    ensures Leads(Stages(f, cap, irq, n, pushed), k, cap, irq, pushed)
  {
    PushedFlow(f, cap, irq, k, pushed);
  }

  /** One turn of a copy loop. */
  method CopyNext(ring: ByteRing, input: OmsInput, buf: array<byte>, slot: nat, k: nat, irq: seq<seq<byte>>,
      pushed: bool, ghost gs: seq<Flow>, ghost h: word, ghost headOff: nat)
    requires Copied(ring, input, buf, k, irq, gs, h) && Leads(gs, k, ring.size, irq, pushed)
    requires k < |gs[0].queue| && k < buf.Length && buf != ring.buf && |Arrival(irq, k)| < 0x1_0000_0000
    requires headOff == SlotOf(h, ring.size) && slot < ring.size && slot == Slot(headOff, k, ring.size)
    modifies ring, ring.buf, buf, input, input.ports, input.Streams(), input.Queues()
    ensures Copied(ring, input, buf, k + 1, irq, gs, h)
  {
    CopyHooked(ring, input, buf, slot, k, Arrival(irq, k), pushed, gs[0].queue);
  }

  /** One copy loop: from slot `from` on, to `buf[at..end]`. */
  method CopyRun(ring: ByteRing, input: OmsInput, buf: array<byte>, from: nat, at: nat, end: nat,
      irq: seq<seq<byte>>, pushed: bool, ghost gs: seq<Flow>, ghost h: word, ghost headOff: nat)
    requires Copied(ring, input, buf, at, irq, gs, h) && buf != ring.buf
    requires forall k :: at <= k < end ==> Leads(gs, k, ring.size, irq, pushed)
    requires at <= end <= |gs[0].queue| && end <= buf.Length && from + (end - at) <= ring.size
    requires headOff == SlotOf(h, ring.size) && from == Slot(headOff, at, ring.size)
    requires forall k :: at <= k < end ==> |Arrival(irq, k)| < 0x1_0000_0000
    modifies ring, ring.buf, buf, input, input.ports, input.Streams(), input.Queues()
    ensures Copied(ring, input, buf, end, irq, gs, h)
  {
    var k, slot := at, from;
    while k < end
      invariant at <= k <= end && slot == from + (k - at)
      invariant Copied(ring, input, buf, k, irq, gs, h)
    {
      CopyNext(ring, input, buf, slot, k, irq, pushed, gs, h, headOff);
      k, slot := k + 1, slot + 1;
    }
  }

  /** The publication of the new head, wherever the nested drains have left it. */
  method PublishHooked(ring: ByteRing, n: nat)
    requires ring.Valid() && ring.Usable() && 0 < n <= DEQUEUE_CHUNK && (ring.contents == [] || n <= |ring.contents|)
    modifies ring`head, ring`contents
    ensures old(ring.contents) != [] ==> ring.Valid() && ring.contents == old(ring.contents)[n..]
    ensures old(ring.contents) == [] ==>
      !ring.Valid() && ring.contents == [] && ring.Count() == 0x1_0000_0000 - n
  {
    if ring.contents == [] {
      HeadPassesTail(ring.head, n, ring.size);
    } else {
      HeadAdvances(ring.buf[..], ring.head, ring.tail, n);
    }
    ring.head := Wrap(ring.head + n);
    ring.contents := if ring.contents == [] then [] else ring.contents[n..];
  }

  /** The copies of the dequeue: up to the end of the ring, then from its start. */
  method CopyAll(ring: ByteRing, input: OmsInput, buf: array<byte>, n: nat, irq: seq<seq<byte>>, pushed: bool)
    requires ring.Valid() && ring.Usable() && input.Valid() && buf != ring.buf && n <= |ring.contents| && n <= buf.Length
    requires forall k: nat :: |Arrival(irq, k)| < 0x1_0000_0000
    modifies ring, ring.buf, buf, input, input.ports, input.Streams(), input.Queues()
    ensures ring.Valid() && input.Valid()
    ensures input.FlowOf(ring) == PushedAll(old(input.FlowOf(ring)), ring.size, irq, n, pushed)
    ensures Silent(irq, n) ==> buf[..n] == old(ring.contents)[..n]
  {
    ghost var gs := Stages(input.FlowOf(ring), ring.size, irq, n, pushed);
    forall k | 0 <= k < n ensures Leads(gs, k, ring.size, irq, pushed) {
      StagesLead(input.FlowOf(ring), ring.size, irq, n, pushed, k);
    }
    CopyParts(ring, input, buf, n, irq, pushed, gs);
  }

  method CopyParts(ring: ByteRing, input: OmsInput, buf: array<byte>, n: nat, irq: seq<seq<byte>>, pushed: bool,
      ghost gs: seq<Flow>)
    requires ring.Valid() && ring.Usable() && input.Valid() && buf != ring.buf && n <= |ring.contents| && n <= buf.Length
    requires |gs| == n + 1 && gs[0] == input.FlowOf(ring)
    requires forall k :: 0 <= k < n ==> Leads(gs, k, ring.size, irq, pushed)
    requires forall k: nat :: |Arrival(irq, k)| < 0x1_0000_0000
    modifies ring, ring.buf, buf, input, input.ports, input.Streams(), input.Queues()
    ensures Copied(ring, input, buf, n, irq, gs, old(ring.head))
  {
    ghost var h := ring.head;
    var headOff := MaskedSlot(ring.head, ring.size);
    var avail1 := ring.size - headOff;
    var first := if n <= avail1 then n else avail1;
    CopyRun(ring, input, buf, headOff, 0, first, irq, pushed, gs, h, headOff);
    if first < n { CopyRun(ring, input, buf, 0, first, n, irq, pushed, gs, h, headOff); }
  }

  /**
   * The dequeue of a task-time drain with the hook registered. It leaves a ring behind if and only if there was
   * nothing to read or no transfer came before the head was published; otherwise nothing is unread and the ring
   * counts 2^32 - n bytes. What came before the last copy and the publication alone leaves the copied bytes intact.
   */
  method DequeueHooked(ring: ByteRing, input: OmsInput, buf: array<byte>, irq: seq<seq<byte>>, pushed: bool)
      returns (n: nat)
    requires ring.Valid() && ring.Usable() && input.Valid() && buf.Length == DEQUEUE_CHUNK && buf != ring.buf
    requires forall k: nat :: |Arrival(irq, k)| < 0x1_0000_0000
    modifies ring, ring.buf, buf, input, input.ports, input.Streams(), input.Queues()
    ensures n == Min(DEQUEUE_CHUNK, |old(ring.contents)|) && input.Valid()
    ensures ring.Count() == UsedAfter(old(input.FlowOf(ring)), ring.size, irq, pushed)
    ensures ring.Valid() <==> n == 0 || Silent(irq, n + 1)
    ensures ring.Valid() ==> input.FlowOf(ring) == old(input.FlowOf(ring)).(queue := old(ring.contents)[n..])
    ensures !ring.Valid() ==> ring.contents == [] && ring.Count() == 0x1_0000_0000 - n
    ensures !ring.Valid() ==>
      input.FlowOf(ring) == PushedAll(old(input.FlowOf(ring)), ring.size, irq, n + 1, pushed)
    ensures Silent(irq, n) ==> buf[..n] == old(ring.contents)[..n]
  {
    var used := Wrap(ring.tail - ring.head);
    n := if DEQUEUE_CHUNK < used then DEQUEUE_CHUNK else used;
    if n == 0 { return; }
    ghost var f := input.FlowOf(ring);
    CopyAll(ring, input, buf, n, irq, pushed);
    HarmlessIff(f, ring.size, irq, pushed);
    FinishHooked(ring, input, n, irq, pushed, f);
  }

  /** The last interruption point and the publication. */
  method FinishHooked(ring: ByteRing, input: OmsInput, n: nat, irq: seq<seq<byte>>, pushed: bool, ghost f: Flow)
    requires ring.Valid() && ring.Usable() && input.Valid() && Holds(f, ring.size)
    requires 0 < n <= DEQUEUE_CHUNK && n <= |f.queue| && |Arrival(irq, n)| < 0x1_0000_0000
    requires input.FlowOf(ring) == PushedAll(f, ring.size, irq, n, pushed)
    modifies ring, ring.buf, input, input.ports, input.Streams(), input.Queues()
    ensures input.Valid() && (ring.Valid() <==> Silent(irq, n + 1))
    ensures Silent(irq, n + 1) ==> input.FlowOf(ring) == f.(queue := f.queue[n..])
    ensures !Silent(irq, n + 1) ==> ring.contents == [] && ring.Count() == 0x1_0000_0000 - n
    ensures !Silent(irq, n + 1) ==> input.FlowOf(ring) == PushedAll(f, ring.size, irq, n + 1, pushed)
  {
    PushedFlow(f, ring.size, irq, n + 1, pushed);
    Push(ring, input, Arrival(irq, n), pushed);
    ghost var g := input.FlowOf(ring);
    assert g == PushedAll(f, ring.size, irq, n + 1, pushed);
    PublishHooked(ring, n);
    assert input.FlowOf(ring) == g.(queue := ring.contents);
  }

  /**
   * One turn of a task-time drain with the hook registered. Where the dequeue was harmless the turn is that of a
   * drain nothing interrupts; otherwise the copied bytes are routed behind what the nested drains have routed, and
   * the ring is left counting bytes that are not there.
   */
  method TurnHooked(ring: ByteRing, input: OmsInput, buf: array<byte>, irq: seq<seq<byte>>, deliver: bool, pushed: bool)
      returns (n: nat)
    requires ring.Valid() && ring.Usable() && input.Valid() && buf.Length == DEQUEUE_CHUNK && buf != ring.buf
    requires forall k: nat :: |Arrival(irq, k)| < 0x1_0000_0000
    modifies ring, ring.buf, buf, input, input.ports, input.Streams(), input.Queues()
    ensures n == Min(DEQUEUE_CHUNK, |old(ring.contents)|) && input.Valid()
    ensures ring.Valid() <==> n == 0 || Silent(irq, n + 1)
    ensures ring.Valid() ==>
      input.FlowOf(ring) == AfterTurn(old(input.FlowOf(ring)), ring.size, Turn([], []), deliver)
    ensures !ring.Valid() ==> ring.Count() == 0x1_0000_0000 - n
    ensures var g := PushedAll(old(input.FlowOf(ring)), ring.size, irq, n + 1, pushed);
      !ring.Valid() ==> input.FlowOf(ring) == Routed(g, [], buf[..n], deliver)
    ensures Silent(irq, n) ==> buf[..n] == old(ring.contents)[..n]
  {
    ghost var f := input.FlowOf(ring);
    n := DequeueHooked(ring, input, buf, irq, pushed);
    if n == 0 {
      NothingFetched(f, ring.size, Turn([], []), deliver);
      return;
    }
    SilentTurn(f, ring.size, deliver, n);
    input.RouteFrom(ring, buf, n, deliver);
  }

  lemma SilentTurn(f: Flow, cap: nat, deliver: bool, n: nat)
    requires Holds(f, cap) && n == Min(DEQUEUE_CHUNK, |f.queue|) && n > 0
    ensures AfterTurn(f, cap, Turn([], []), deliver) ==
      Routed(f.(queue := f.queue[n..]), f.queue[n..], f.queue[..n], deliver)
  {
    assert Offer(f.queue, cap, []) == f.queue;
    NothingArrives(f.queue, cap, n + 1);
    Fetched(f, cap, Turn([], []), deliver, n, f.queue[n..], f.queue[..n]);
  }

  /** A transfer and its nested drain in the packet loop, when `left` is still to be routed: the newer packets, and
      what was left in the ring, are routed ahead of it. */
  method RouteOvertaken(ring: ByteRing, input: OmsInput, left: seq<byte>, d: seq<byte>, deliver: bool, pushed: bool)
    requires ring.Valid() && input.Valid() && 0 < |d| < 0x1_0000_0000
    modifies ring, ring.buf, input, input.ports, input.Streams(), input.Queues()
    ensures ring.Valid() && ring.contents == [] && input.Valid()
    ensures var newer := Chop(Offer(old(ring.contents), Capacity(ring), d));
      input.View() == RouteAll(RouteAll(old(input.View()), newer, pushed), Chop(left), deliver)
  {
    Push(ring, input, d, pushed);
    var rest := input.RoutePackets(left, deliver);
  }
}
