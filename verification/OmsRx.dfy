/** The receive path: drain the ring, route every packet to its cable's stream, deliver the messages. */
module OmsRx {
  import opened Words
  import opened Packets
  import opened Ring
  import opened MidiStream

  const CABLES := 16
  const DEQUEUE_CHUNK := 64

  // ---- specification --------------------------------------------------------------------

  /** One cable's port: whether OMS has named it, the reference number OMS gave (negative: off), the stream. */
  datatype Port = Port(valid: bool, ioRefNum: int, rx: Rx)

  /** A message handed to OMS: cable, reference number, continuation flags, MIDI bytes. */
  datatype Delivery = Delivery(cable: nat, ioRefNum: int, flags: nat, bytes: seq<byte>)

  datatype Input = Input(ports: seq<Port>, messages: nat, delivered: seq<Delivery>)

  function ContinuationFlags(tag: Tag): nat {
    match tag
    case NoCont => 0
    case Start => 1
    case End => 2
    case Mid => 3
  }

  /** A port is opened, not yet delivering, when the first packet for it arrives. */
  function Opened(p: Port, cable: nat): Port {
    if p.valid then p else Port(true, -1, Fresh(cable))
  }

  /** What is handed to OMS of the messages `ms` of one port. */
  function Handed(cable: nat, ioRefNum: int, deliver: bool, ms: seq<Received>): (ds: seq<Delivery>)
  {
    if !deliver || ioRefNum < 0 then [] else
      seq(|ms|, i requires 0 <= i < |ms| =>
        Delivery(cable, ioRefNum, ContinuationFlags(ms[i].tag), ms[i].Bytes()))
  }

  /** Takes every pending message away. */
  function TakeAll(s: Rx): Rx {
    s.(queue := [], stats := s.stats.(messages := s.stats.messages + |s.queue|))
  }

  /** One packet of the ring. */
  function Route(v: Input, p: Packet, deliver: bool): (r: Input)
    requires |v.ports| == CABLES
    ensures |r.ports| == CABLES
  {
    var c := p.b0 / 16;
    var port := Opened(v.ports[c], c);
    var fed := Feed(port.rx, p);
    Input(v.ports[c := port.(rx := TakeAll(fed))], v.messages + |fed.queue|,
          v.delivered + Handed(c, port.ioRefNum, deliver, fed.queue))
  }

  function RouteAll(v: Input, ps: seq<Packet>, deliver: bool): (r: Input)
    requires |v.ports| == CABLES
    ensures |r.ports| == CABLES
    decreases |ps|
  {
    if ps == [] then v else RouteAll(Route(v, ps[0], deliver), ps[1..], deliver)
  }

  /** One turn of a drain: the transfer that arrives before its dequeue, and those that interrupt the dequeue. */
  datatype Turn = Turn(before: seq<byte>, irq: seq<seq<byte>>)

  /** What a drain works on: the unread bytes, the ports, the counters of packets and of dropped bytes. */
  datatype Flow = Flow(queue: seq<byte>, input: Input, packets: nat, dropped: nat)

  predicate Holds(f: Flow, cap: nat) { |f.queue| <= cap && |f.input.ports| == CABLES }

  /** The bytes `got` have been taken out of the ring, which now holds `rest`. */
  function Routed(f: Flow, rest: seq<byte>, got: seq<byte>, deliver: bool): Flow
    requires |f.input.ports| == CABLES
  {
    Flow(rest, RouteAll(f.input, Chop(got), deliver), f.packets + |got| / 4, f.dropped + |got| % 4)
  }

  /** One turn: at most 64 bytes of what is unread at its beginning are routed. */
  function AfterTurn(f: Flow, cap: nat, t: Turn, deliver: bool): (g: Flow)
    requires Holds(f, cap)
    ensures Holds(g, cap)
  {
    var q := Offer(f.queue, cap, t.before);
    var n := Min(DEQUEUE_CHUNK, |q|);
    if n == 0 then f
    else
      Routed(f, Offer(q, cap, Arrived(t.irq, n + 1))[n..], q[..n], deliver)
  }

  /** A drain that nothing interrupts. */
  function Emptied(f: Flow, deliver: bool): Flow
    requires |f.input.ports| == CABLES
  {
    Routed(f, [], f.queue, deliver)
  }

  /** A drain with its turns, the last of which is left to run undisturbed; it ends at the first turn that meets no
      unread byte. */
  function AfterDrain(f: Flow, cap: nat, turns: seq<Turn>, deliver: bool): (g: Flow)
    requires Holds(f, cap)
    ensures g.queue == [] && Holds(g, cap)
    decreases |turns|
  {
    if turns == [] then Emptied(f, deliver)
    else if Offer(f.queue, cap, turns[0].before) == [] then f
    else AfterDrain(AfterTurn(f, cap, turns[0], deliver), cap, turns[1..], deliver)
  }

  /** A stream that is started anew, as at a MIDI start; ports nobody has used yet are left alone. */
  function Restarted(v: Input): (r: Input)
    ensures |r.ports| == |v.ports|
  {
    v.(ports := seq(|v.ports|, c requires 0 <= c < |v.ports| =>
      if v.ports[c].valid then v.ports[c].(rx := Fresh(c)) else v.ports[c]))
  }

  // ---- the code -----------------------------------------------------------------------------

  /** A ring without a power-of-two size or without storage takes nothing in. */
  function Capacity(ring: ByteRing): nat { if ring.Usable() then ring.size else 0 }

  predicate SizedTurn(t: Turn) { |t.before| < 0x1_0000_0000 && forall d <- t.irq :: |d| < 0x1_0000_0000 }

  class OmsPort {
    var valid: bool
    var ioRefNum: int
    const rx: RxStream

    constructor (cable: nat)
      ensures fresh(rx) && fresh(rx.pending) && rx.Valid() && !valid
    {
      valid, ioRefNum := false, -1;
      rx := new RxStream(cable);
    }

    ghost function View(): Port
      reads this, rx
    {
      Port(valid, ioRefNum, rx.View())
    }
  }

  class OmsInput {
    const ports: seq<OmsPort>
    var rxPackets: nat
    var rxMessages: nat
    var rxDropped: nat
    var delivered: seq<Delivery>

    ghost function Streams(): set<RxStream> {
      set p <- ports :: p.rx
    }

    ghost function Queues(): set<array<Received>> {
      set p <- ports :: p.rx.pending
    }

    ghost predicate Valid()
      reads ports, Streams(), Queues()
    {
      && |ports| == CABLES
      && (forall i :: 0 <= i < CABLES ==> ports[i].rx.Valid())
      && (forall i, j :: 0 <= i < j < CABLES ==>
            ports[i] != ports[j] && ports[i].rx != ports[j].rx && ports[i].rx.pending != ports[j].rx.pending)
    }

    ghost function View(): Input
      reads `rxMessages, `delivered, ports, Streams()
    {
      Input(seq(|ports|, i requires 0 <= i < |ports| reads ports, Streams() => ports[i].View()), rxMessages, delivered)
    }

    constructor (ports: seq<OmsPort>)
      ensures this.ports == ports && rxPackets == rxMessages == rxDropped == 0 && delivered == []
    {
      this.ports := ports;
      rxPackets, rxMessages, rxDropped, delivered := 0, 0, 0, [];
    }

    /** Hands one message to OMS unless the port is off. */
    method DeliverMessage(cable: nat, ioRefNum: int, deliver: bool, m: Received)
      modifies this`rxMessages, this`delivered
      ensures rxMessages == old(rxMessages) + 1
      ensures delivered == old(delivered) + Handed(cable, ioRefNum, deliver, [m])
    {
      rxMessages := rxMessages + 1;
      if !deliver || ioRefNum < 0 { return; }
      var flags;
      match m.tag {
        case Start => flags := 1;
        case Mid => flags := 3;
        case End => flags := 2;
        case NoCont => flags := 0;
      }
      delivered := delivered + [Delivery(cable, ioRefNum, flags, m.Bytes())];
    }

    /** Takes the port's messages until none is pending. */
    method TakeMessages(port: OmsPort, cable: nat, deliver: bool)
      requires port.rx.Valid()
      modifies this`rxMessages, this`delivered, port.rx
      ensures port.rx.Valid() && port.rx.View() == TakeAll(old(port.rx.View()))
      ensures rxMessages == old(rxMessages) + |old(port.rx.queue)|
      ensures delivered == old(delivered) + Handed(cable, port.ioRefNum, deliver, old(port.rx.queue))
    {
      ghost var q, s := port.rx.queue, port.rx.View();
      ghost var k := 0;
      assert Handed(cable, port.ioRefNum, deliver, q[..0]) == [];
      while true
        invariant 0 <= k <= |q| && port.rx.Valid() && port.rx.queue == q[k..]
        invariant port.rx.View() == s.(queue := q[k..], stats := s.stats.(messages := s.stats.messages + k))
        invariant rxMessages == old(rxMessages) + k
        invariant delivered == old(delivered) + Handed(cable, port.ioRefNum, deliver, q[..k])
        decreases |q| - k
      {
        var m := port.rx.MessageOut();
        if m.None? {
          assert q[..k] == q;
          break;
        }
        DeliverMessage(cable, port.ioRefNum, deliver, m.value);
        HandedNext(cable, port.ioRefNum, deliver, q, k, old(delivered));
        k := k + 1;
      }
    }

    /** One packet of one port. */
    method ServePort(port: OmsPort, cable: nat, buf: seq<byte>, deliver: bool)
      requires port.rx.Valid() && |buf| == 4
      modifies this`rxMessages, this`delivered, port, port.rx, port.rx.pending
      ensures port.rx.Valid()
      ensures var p, o := Packet(buf[0], buf[1], buf[2], buf[3]), Opened(old(port.View()), cable);
        && port.View() == o.(rx := TakeAll(Feed(o.rx, p)))
        && rxMessages == old(rxMessages) + |Feed(o.rx, p).queue|
        && delivered == old(delivered) + Handed(cable, o.ioRefNum, deliver, Feed(o.rx, p).queue)
    {
      if !port.valid {
        port.valid := true;
        port.ioRefNum := -1;
        port.rx.Init(cable);
      }
      var ok := port.rx.PacketIn(buf);
      TakeMessages(port, cable, deliver);
    }

    /** Routes one packet by its cable nibble. */
    method RoutePacket(buf: seq<byte>, deliver: bool)
      requires Valid() && |buf| == 4
      modifies `rxMessages, `delivered, ports, Streams(), Queues()
      ensures Valid()
      ensures View() == Route(old(View()), Packet(buf[0], buf[1], buf[2], buf[3]), deliver)
    {
      var cable := buf[0] / 16;
      ghost var v := View();
      ServePort(ports[cable], cable, buf, deliver);
      assert forall i :: 0 <= i < CABLES && i != cable ==> ports[i].View() == v.ports[i];
    }

    /** Routes the packets of one dequeue; bytes short of a packet are counted as dropped. */
    method RouteChunk(buf: seq<byte>, deliver: bool)
      requires Valid()
      modifies this, ports, Streams(), Queues()
      ensures Valid() && View() == RouteAll(old(View()), Chop(buf), deliver)
      ensures rxPackets == old(rxPackets) + |buf| / 4 && rxDropped == old(rxDropped) + |buf| % 4
    {
      rxPackets := rxPackets + |buf| / 4;
      var rest := RoutePackets(buf, deliver);
      rxDropped := rxDropped + rest;
    }

    /** One turn of the packet loop. */
    method RouteAt(buf: seq<byte>, pos: nat, deliver: bool, ghost whole: Input)
      requires Valid() && pos + 3 < |buf| && whole == RouteAll(View(), Chop(buf[pos..]), deliver)
      modifies `rxMessages, `delivered, ports, Streams(), Queues()
      ensures Valid() && whole == RouteAll(View(), Chop(buf[pos + 4..]), deliver)
    {
      RouteNext(View(), buf, pos, deliver);
      assert buf[pos..pos + 4] == [buf[pos], buf[pos + 1], buf[pos + 2], buf[pos + 3]];
      RoutePacket(buf[pos..pos + 4], deliver);
    }

    /** The packet loop; returns how many bytes are left over. */
    method RoutePackets(buf: seq<byte>, deliver: bool) returns (rest: nat)
      requires Valid()
      modifies `rxMessages, `delivered, ports, Streams(), Queues()
      ensures Valid() && View() == RouteAll(old(View()), Chop(buf), deliver) && rest == |buf| % 4
    {
      ghost var whole := RouteAll(View(), Chop(buf), deliver);
      var pos := 0;
      assert buf[0..] == buf;
      while pos + 3 < |buf|
        invariant 0 <= pos <= |buf| && pos % 4 == 0 && Valid()
        invariant whole == RouteAll(View(), Chop(buf[pos..]), deliver)
      {
        RouteAt(buf, pos, deliver, whole);
        pos := pos + 4;
      }
      NothingLeft(View(), buf[pos..], deliver);
      rest := |buf| % 4;
    }

    ghost function FlowOf(ring: ByteRing): Flow
      reads this, ports, Streams(), ring
    {
      Flow(ring.contents, View(), rxPackets, rxDropped)
    }

    /** One dequeue of at most 64 bytes and the routing of its packets; 0 when the ring is empty. At task time a
        read completion may bring a transfer before the dequeue and before any of its byte copies. */
    method DrainOnce(ring: ByteRing, buf: array<byte>, t: Turn, deliver: bool) returns (n: nat)
      requires Valid() && ring.Valid() && buf.Length == DEQUEUE_CHUNK && buf != ring.buf && SizedTurn(t)
      modifies this, ring, ring.buf, buf, ports, Streams(), Queues()
      ensures Valid() && ring.Valid() && n == Min(DEQUEUE_CHUNK, |Offer(old(ring.contents), Capacity(ring), t.before)|)
      ensures FlowOf(ring) == AfterTurn(old(FlowOf(ring)), Capacity(ring), t, deliver)
    {
      ghost var f := FlowOf(ring);
      n := Fetch(ring, buf, t);
      if n == 0 {
        NothingFetched(f, Capacity(ring), t, deliver);
        return;
      }
      Fetched(f, Capacity(ring), t, deliver, n, ring.contents, buf[..n]);
      RouteFrom(ring, buf, n, deliver);
    }

    /** The dequeue of a turn, interrupted. */
    method Fetch(ring: ByteRing, buf: array<byte>, t: Turn) returns (n: nat)
      requires Valid() && ring.Valid() && buf.Length == DEQUEUE_CHUNK && buf != ring.buf && SizedTurn(t)
      modifies ring, ring.buf, buf
      ensures Valid() && ring.Valid() && FlowOf(ring) == old(FlowOf(ring)).(queue := ring.contents)
      ensures var q := Offer(old(ring.contents), Capacity(ring), t.before);
        && n == Min(DEQUEUE_CHUNK, |q|) && buf[..n] == q[..n]
        && (n == 0 ==> ring.contents == old(ring.contents))
        && (n > 0 ==> ring.contents == Offer(q, Capacity(ring), Arrived(t.irq, n + 1))[n..])
    {
      n := FetchBytes(ring, buf, t);
    }

    method FetchBytes(ring: ByteRing, buf: array<byte>, t: Turn) returns (n: nat)
      requires ring.Valid() && buf.Length == DEQUEUE_CHUNK && buf != ring.buf && SizedTurn(t)
      modifies ring, ring.buf, buf
      ensures ring.Valid()
      ensures var q := Offer(old(ring.contents), Capacity(ring), t.before);
        && n == Min(DEQUEUE_CHUNK, |q|) && buf[..n] == q[..n]
        && (n == 0 ==> ring.contents == old(ring.contents))
        && (n > 0 ==> ring.contents == Offer(q, Capacity(ring), Arrived(t.irq, n + 1))[n..])
    {
      var stored := ring.Enqueue(t.before);
      n := ring.Dequeue(buf, DEQUEUE_CHUNK, t.irq);
    }

    /** The routing of a turn. */
    method RouteFrom(ring: ByteRing, buf: array<byte>, n: nat, deliver: bool)
      requires Valid() && n <= buf.Length
      modifies this, ports, Streams(), Queues()
      ensures Valid() && (ring.Valid() <==> old(ring.Valid()))
      ensures FlowOf(ring) == Routed(old(FlowOf(ring)), ring.contents, old(buf[..n]), deliver)
    {
      RouteChunk(buf[..n], deliver);
    }

    /** Drains the ring of an interface; nothing happens without the driver's dispatch table, whose absence leaves
        no ring to read, or for an interface that is not valid. */
    method Drain(ring: ByteRing?, valid: bool, turns: seq<Turn>, deliver: bool)
      requires Valid() && (ring != null ==> ring.Valid()) && forall t <- turns :: SizedTurn(t)
      modifies this, ring, if ring == null then null else ring.buf, ports, Streams(), Queues()
      ensures Valid() && (ring != null ==> ring.Valid())
      ensures ring == null || !valid ==> View() == old(View()) && rxPackets == old(rxPackets) && rxDropped == old(rxDropped)
      ensures ring != null && !valid ==> ring.contents == old(ring.contents)
      ensures ring != null && valid ==> FlowOf(ring) == AfterDrain(old(FlowOf(ring)), Capacity(ring), turns, deliver)
    {
      if ring == null || !valid { return; }
      Empty(ring, turns, deliver);
    }

    /** The loop of dequeues, with transfers arriving in the turns `turns`. */
    method Empty(ring: ByteRing, turns: seq<Turn>, deliver: bool)
      requires Valid() && ring.Valid() && forall t <- turns :: SizedTurn(t)
      modifies this, ring, ring.buf, ports, Streams(), Queues()
      ensures Valid() && ring.Valid() && FlowOf(ring) == AfterDrain(old(FlowOf(ring)), Capacity(ring), turns, deliver)
    {
      var buf := new byte[DEQUEUE_CHUNK](_ => 0);
      ghost var whole := AfterDrain(FlowOf(ring), Capacity(ring), turns, deliver);
      var k: nat := 0;
      while k < |turns|
        invariant k <= |turns| && Valid() && ring.Valid() && fresh(buf)
        invariant whole == AfterDrain(FlowOf(ring), Capacity(ring), turns[k..], deliver)
      {
        NextTurn(FlowOf(ring), Capacity(ring), turns, k, deliver);
        var n := DrainOnce(ring, buf, turns[k], deliver);
        if n == 0 { return; }
        k := k + 1;
      }
      assert turns[k..] == [];
      EmptyQuietly(ring, buf, deliver);
    }

    /** The rest of the loop, when nothing more arrives. */
    method EmptyQuietly(ring: ByteRing, buf: array<byte>, deliver: bool)
      requires Valid() && ring.Valid() && buf.Length == DEQUEUE_CHUNK && buf != ring.buf
      modifies this, ring, ring.buf, buf, ports, Streams(), Queues()
      ensures Valid() && ring.Valid() && FlowOf(ring) == Emptied(old(FlowOf(ring)), deliver)
    {
      ghost var whole := Emptied(FlowOf(ring), deliver);
      while true
        invariant Valid() && ring.Valid() && whole == Emptied(FlowOf(ring), deliver)
        decreases |ring.contents|
      {
        QuietTurn(FlowOf(ring), Capacity(ring), deliver);
        var n := DrainOnce(ring, buf, Turn([], []), deliver);
        if n == 0 { break; }
      }
    }

    /** Starts every stream in use anew, as at a MIDI start. */
    method Restart()
      requires Valid()
      modifies ports, Streams(), Queues()
      ensures Valid() && View() == Restarted(old(View()))
    {
      ghost var v := View();
      for c := 0 to CABLES
        invariant Valid()
        invariant forall i :: 0 <= i < CABLES ==> ports[i].View() == if i < c then Restarted(v).ports[i] else v.ports[i]
      {
        RestartPort(c);
      }
    }

    method RestartPort(c: nat)
      requires Valid() && c < CABLES
      modifies ports[c].rx, ports[c].rx.pending
      ensures Valid()
      ensures forall i :: 0 <= i < CABLES && i != c ==> ports[i].View() == old(ports[i].View())
      ensures var p := old(ports[c].View()); ports[c].View() == if p.valid then p.(rx := Fresh(c)) else p
    {
      if ports[c].valid { ports[c].rx.Init(c); }
    }
  }

  lemma NextTurn(f: Flow, cap: nat, turns: seq<Turn>, k: nat, deliver: bool)
    requires Holds(f, cap) && k < |turns|
    ensures AfterDrain(f, cap, turns[k..], deliver) ==
      if Offer(f.queue, cap, turns[k].before) == [] then f
      else AfterDrain(AfterTurn(f, cap, turns[k], deliver), cap, turns[k + 1..], deliver)
  {
    assert turns[k..][0] == turns[k] && turns[k..][1..] == turns[k + 1..];
  }

  lemma NothingFetched(f: Flow, cap: nat, t: Turn, deliver: bool)
    requires Holds(f, cap) && Offer(f.queue, cap, t.before) == []
    ensures AfterTurn(f, cap, t, deliver) == f
  {
  }

  lemma Fetched(f: Flow, cap: nat, t: Turn, deliver: bool, n: nat, rest: seq<byte>, got: seq<byte>)
    requires Holds(f, cap) && n == Min(DEQUEUE_CHUNK, |Offer(f.queue, cap, t.before)|) && n > 0
    requires got == Offer(f.queue, cap, t.before)[..n]
    requires rest == Offer(Offer(f.queue, cap, t.before), cap, Arrived(t.irq, n + 1))[n..]
    ensures AfterTurn(f, cap, t, deliver) == Routed(f.(queue := rest), rest, got, deliver)
  {
  }

  /** A turn in which nothing arrives. */
  lemma QuietTurn(f: Flow, cap: nat, deliver: bool)
    requires Holds(f, cap)
    ensures Offer(f.queue, cap, []) == f.queue
    ensures f.queue == [] ==> AfterTurn(f, cap, Turn([], []), deliver) == f && Emptied(f, deliver) == f
    ensures var g := AfterTurn(f, cap, Turn([], []), deliver);
      f.queue != [] ==> |g.queue| < |f.queue| && Emptied(g, deliver) == Emptied(f, deliver)
  {
    var q, n := f.queue, Min(DEQUEUE_CHUNK, |f.queue|);
    assert Offer(q, cap, []) == q;
    if n > 0 {
      NothingArrives(q, cap, n + 1);
      Fetched(f, cap, Turn([], []), deliver, n, q[n..], q[..n]);
      RoutedTwice(f, n, deliver);
    }
  }

  /** Routing what one dequeue takes and then the rest is routing everything. */
  lemma RoutedTwice(f: Flow, n: nat, deliver: bool)
    requires |f.input.ports| == CABLES && n == Min(DEQUEUE_CHUNK, |f.queue|)
    ensures Emptied(Routed(f.(queue := f.queue[n..]), f.queue[n..], f.queue[..n], deliver), deliver)
         == Emptied(f, deliver)
  {
    ChunkOfMany(f.input, f.queue, n, deliver);
  }

  lemma HandedNext(cable: nat, ioRefNum: int, deliver: bool, q: seq<Received>, k: nat, before: seq<Delivery>)
    requires k < |q|
    ensures (before + Handed(cable, ioRefNum, deliver, q[..k])) + Handed(cable, ioRefNum, deliver, [q[k]])
      == before + Handed(cable, ioRefNum, deliver, q[..k + 1])
  {
    assert Handed(cable, ioRefNum, deliver, q[..k]) + Handed(cable, ioRefNum, deliver, [q[k]])
        == Handed(cable, ioRefNum, deliver, q[..k + 1]);
    Assoc(before, Handed(cable, ioRefNum, deliver, q[..k]), Handed(cable, ioRefNum, deliver, [q[k]]));
  }

  lemma NothingLeft(v: Input, buf: seq<byte>, deliver: bool)
    requires |v.ports| == CABLES && |buf| < 4
    ensures RouteAll(v, Chop(buf), deliver) == v
  {
  }

  lemma RouteNext(v: Input, buf: seq<byte>, pos: nat, deliver: bool)
    requires |v.ports| == CABLES && pos + 3 < |buf|
    ensures var p := Packet(buf[pos], buf[pos + 1], buf[pos + 2], buf[pos + 3]);
      RouteAll(v, Chop(buf[pos..]), deliver) == RouteAll(Route(v, p, deliver), Chop(buf[pos + 4..]), deliver)
  {
    assert buf[pos..][4..] == buf[pos + 4..];
  }

  /** Where nothing arrives the queue stays. */
  lemma {:induction false} NothingArrives(c: seq<byte>, cap: nat, n: nat)
    ensures |c| <= cap ==> Offer(c, cap, Arrived([], n)) == c
  {
    if n > 0 { NothingArrives(c, cap, n - 1); }
  }

  lemma {:induction false} RouteConcat(v: Input, a: seq<Packet>, b: seq<Packet>, deliver: bool)
    requires |v.ports| == CABLES
    ensures RouteAll(v, a + b, deliver) == RouteAll(RouteAll(v, a, deliver), b, deliver)
    decreases |a|
  {
    if a == [] {
      assert a + b == b;
    } else {
      assert (a + b)[1..] == a[1..] + b;
      RouteConcat(Route(v, a[0], deliver), a[1..], b, deliver);
    }
  }

  /** A dequeue of 64 bytes, or of everything that is left, ends on a packet boundary of the whole. */
  lemma ChunkOfMany(v: Input, c: seq<byte>, n: nat, deliver: bool)
    requires |v.ports| == CABLES && n == Min(DEQUEUE_CHUNK, |c|)
    ensures RouteAll(RouteAll(v, Chop(c[..n]), deliver), Chop(c[n..]), deliver) == RouteAll(v, Chop(c), deliver)
    ensures n / 4 + |c[n..]| / 4 == |c| / 4 && n % 4 + |c[n..]| % 4 == |c| % 4
  {
    if n == |c| {
      assert c[..n] == c && c[n..] == [];
    } else {
      assert c == c[..n] + c[n..];
      ChopConcat(c[..n], c[n..]);
      RouteConcat(v, Chop(c[..n]), Chop(c[n..]), deliver);
    }
  }
}
