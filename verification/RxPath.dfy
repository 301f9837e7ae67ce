/** From the device to the ports: transfers into the ring, interrupted drains out of it, restarts, in any order. */
module RxPath {
  import opened Words
  import opened Packets
  import opened Ring
  import opened RingRuns
  import opened OmsRx

  /** A transfer arrives, the ring is drained while more arrive, or the streams are started anew. */
  datatype Happening = Transfer(data: seq<byte>) | Drained(turns: seq<Turn>, deliver: bool) | Reset

  /** What the ports have seen: a packet with the flag of the drain that routed it, or a restart. */
  datatype Entry = Routing(p: Packet, deliver: bool) | Anew

  /** The ring's bytes, the ports and their counters, all the device has sent, how many of these bytes a full ring
      turned away, and what the ports have seen. */
  datatype Rig = Rig(flow: Flow, sent: seq<byte>, lost: nat, log: seq<Entry>)

  /** How many bytes of `d` a ring that holds `c` turns away. */
  function Refused(c: seq<byte>, cap: nat, d: seq<byte>): nat
    requires |c| <= cap
  {
    |c| + |d| - |Offer(c, cap, d)|
  }

  /** The packets routed by a drain. */
  function Entries(ps: seq<Packet>, deliver: bool): (es: seq<Entry>)
    ensures |es| == |ps|
  {
    seq(|ps|, i requires 0 <= i < |ps| => Routing(ps[i], deliver))
  }

  function PacketsOf(log: seq<Entry>): seq<Packet> {
    if log == [] then []
    else
      var rest := PacketsOf(log[..|log| - 1]);
      match log[|log| - 1]
      case Routing(p, _) => rest + [p]
      case Anew => rest
  }

  /** The ports after what they have seen, one entry after the other. */
  function Replay(v: Input, log: seq<Entry>): (r: Input)
    requires |v.ports| == CABLES
    ensures |r.ports| == CABLES
  {
    if log == [] then v
    else
      var u := Replay(v, log[..|log| - 1]);
      match log[|log| - 1]
      case Routing(p, deliver) => Route(u, p, deliver)
      case Anew => Restarted(u)
  }

  // ---- runs -----------------------------------------------------------------------------------

  /** One turn of a drain, as OmsRx.AfterTurn has it, with what it brings and what it routes. */
  function Turned(r: Rig, cap: nat, t: Turn, deliver: bool): (s: Rig)
    requires Holds(r.flow, cap)
    ensures Holds(s.flow, cap)
  {
    var q := Offer(r.flow.queue, cap, t.before);
    var n := Min(DEQUEUE_CHUNK, |q|);
    var d := if n == 0 then [] else Arrived(t.irq, n + 1);
    Rig(AfterTurn(r.flow, cap, t, deliver), r.sent + t.before + d,
        r.lost + Refused(r.flow.queue, cap, t.before) + Refused(q, cap, d), r.log + Entries(Chop(q[..n]), deliver))
  }

  function Quieted(r: Rig, deliver: bool): Rig
    requires |r.flow.input.ports| == CABLES
  {
    Rig(Emptied(r.flow, deliver), r.sent, r.lost, r.log + Entries(Chop(r.flow.queue), deliver))
  }

  function TurnedAll(r: Rig, cap: nat, turns: seq<Turn>, deliver: bool): (s: Rig)
    requires Holds(r.flow, cap)
    ensures Holds(s.flow, cap)
    decreases |turns|
  {
    if turns == [] then Quieted(r, deliver)
    else if Offer(r.flow.queue, cap, turns[0].before) == [] then Turned(r, cap, turns[0], deliver)
    else TurnedAll(Turned(r, cap, turns[0], deliver), cap, turns[1..], deliver)
  }

  function Next(r: Rig, cap: nat, h: Happening): (s: Rig)
    requires Holds(r.flow, cap)
    ensures Holds(s.flow, cap)
  {
    match h
    case Transfer(d) =>
      Rig(r.flow.(queue := Offer(r.flow.queue, cap, d)), r.sent + d, r.lost + Refused(r.flow.queue, cap, d), r.log)
    case Drained(turns, deliver) => TurnedAll(r, cap, turns, deliver)
    case Reset => r.(flow := r.flow.(input := Restarted(r.flow.input)), log := r.log + [Anew])
  }

  function After(r: Rig, cap: nat, hs: seq<Happening>): (s: Rig)
    requires Holds(r.flow, cap)
    ensures Holds(s.flow, cap)
  {
    if hs == [] then r else Next(After(r, cap, hs[..|hs| - 1]), cap, hs[|hs| - 1])
  }

  // ---- what was routed, and in which order --------------------------------------------------------

  /** Whole packets so far, those routed or waiting are among those sent, in order, and the rest was turned away. */
  ghost predicate InOrder(ps: seq<Packet>, queue: seq<byte>, sent: seq<byte>, lost: nat) {
    && |queue| % 4 == 0 && |sent| % 4 == 0
    && |sent| == 4 * |ps| + |queue| + lost
    && Subsequence(ps + Chop(queue), Chop(sent))
  }

  lemma Arrive(ps: seq<Packet>, queue: seq<byte>, cap: nat, sent: seq<byte>, lost: nat, d: seq<byte>)
    requires |queue| <= cap && cap % 4 == 0 && |d| % 4 == 0 && InOrder(ps, queue, sent, lost)
    ensures InOrder(ps, Offer(queue, cap, d), sent + d, lost + Refused(queue, cap, d))
  {
    var q := Offer(queue, cap, d);
    var stored := q[|queue|..];
    OfferAligned(queue, cap, d);
    assert q == queue + stored;
    ChopConcat(queue, stored);
    ChopConcat(sent, d);
    SubsequenceConcat(ps + Chop(queue), Chop(sent), Chop(stored), Chop(d));
    Assoc(ps, Chop(queue), Chop(stored));
    SumAligned(|sent|, |d|);
  }

  lemma TakeOut(ps: seq<Packet>, queue: seq<byte>, sent: seq<byte>, lost: nat, n: nat)
    requires n <= |queue| && n % 4 == 0 && InOrder(ps, queue, sent, lost)
    ensures InOrder(ps + Chop(queue[..n]), queue[n..], sent, lost)
  {
    assert queue == queue[..n] + queue[n..];
    ChopConcat(queue[..n], queue[n..]);
    ChopLength(queue[..n]);
    Assoc(ps, Chop(queue[..n]), Chop(queue[n..]));
  }

  lemma {:induction false} ChopLength(d: seq<byte>)
    ensures |Chop(d)| == |d| / 4
    decreases |d|
  {
    if |d| >= 4 { ChopLength(d[4..]); }
  }

  lemma {:induction false} SubsequenceLength<T>(a: seq<T>, b: seq<T>)
    requires Subsequence(a, b)
    ensures |a| <= |b| && (|a| == |b| ==> a == b)
    decreases |b|
  {
    if a != [] {
      if a[0] == b[0] && Subsequence(a[1..], b[1..]) {
        SubsequenceLength(a[1..], b[1..]);
        assert a == [a[0]] + a[1..] && b == [b[0]] + b[1..];
      } else {
        SubsequenceLength(a, b[1..]);
      }
    }
  }

  lemma {:induction false} PacketsOfEntries(log: seq<Entry>, ps: seq<Packet>, deliver: bool)
    ensures PacketsOf(log + Entries(ps, deliver)) == PacketsOf(log) + ps
    decreases |ps|
  {
    if ps == [] {
      assert log + Entries(ps, deliver) == log;
    } else {
      var one := Routing(ps[0], deliver);
      PacketsOfNext(log, one);
      assert log + Entries(ps, deliver) == (log + [one]) + Entries(ps[1..], deliver);
      PacketsOfEntries(log + [one], ps[1..], deliver);
      assert PacketsOf(log) + ps == (PacketsOf(log) + [ps[0]]) + ps[1..];
    }
  }

  lemma PacketsOfNext(log: seq<Entry>, e: Entry)
    ensures PacketsOf(log + [e]) == if e.Anew? then PacketsOf(log) else PacketsOf(log) + [e.p]
  {
    assert (log + [e])[..|log|] == log;
  }

  lemma {:induction false} ReplayEntries(v: Input, log: seq<Entry>, ps: seq<Packet>, deliver: bool)
    requires |v.ports| == CABLES
    ensures Replay(v, log + Entries(ps, deliver)) == RouteAll(Replay(v, log), ps, deliver)
    decreases |ps|
  {
    if ps == [] {
      assert log + Entries(ps, deliver) == log;
    } else {
      var one := log + [Routing(ps[0], deliver)];
      assert one[..|one| - 1] == log;
      assert log + Entries(ps, deliver) == one + Entries(ps[1..], deliver);
      ReplayEntries(v, one, ps[1..], deliver);
    }
  }

  /** What every run keeps: the packets routed and waiting are an in-order part of those sent, no byte was dropped
      for want of its packet, every packet was counted, and the ports are those of replaying the log. */
  ghost predicate Kept(r: Rig, v: Input) {
    && |v.ports| == CABLES
    && InOrder(PacketsOf(r.log), r.flow.queue, r.sent, r.lost)
    && r.flow.dropped == 0 && r.flow.packets == |PacketsOf(r.log)|
    && r.flow.input == Replay(v, r.log)
  }

  predicate WholeTurn(t: Turn) { |t.before| % 4 == 0 && WholePackets(t.irq) }

  predicate WholeHappening(h: Happening) {
    match h
    case Transfer(d) => |d| % 4 == 0
    case Drained(turns, _) => forall t <- turns :: WholeTurn(t)
    case Reset => true
  }

  /** `got` has been taken out of the ring and routed. */
  lemma RoutingKeeps(r: Rig, v: Input, q: seq<byte>, sent: seq<byte>, lost: nat, n: nat, deliver: bool)
    requires Kept(r, v) && n <= |q| && n % 4 == 0 && InOrder(PacketsOf(r.log), q, sent, lost)
    ensures Kept(Rig(Routed(r.flow, q[n..], q[..n], deliver), sent, lost, r.log + Entries(Chop(q[..n]), deliver)), v)
  {
    TakeOut(PacketsOf(r.log), q, sent, lost, n);
    PacketsOfEntries(r.log, Chop(q[..n]), deliver);
    ReplayEntries(v, r.log, Chop(q[..n]), deliver);
    ChopLength(q[..n]);
  }

  lemma TurnKeeps(r: Rig, cap: nat, t: Turn, deliver: bool, v: Input)
    requires Holds(r.flow, cap) && cap % 4 == 0 && Kept(r, v) && WholeTurn(t)
    ensures Kept(Turned(r, cap, t, deliver), v)
  {
    var q := Offer(r.flow.queue, cap, t.before);
    if q == [] {
      Arrive(PacketsOf(r.log), r.flow.queue, cap, r.sent, r.lost, t.before);
      NothingTurned(r, cap, t, deliver);
    } else {
      var n := Min(DEQUEUE_CHUNK, |q|);
      var d := Arrived(t.irq, n + 1);
      var q2, sent, lost := Offer(q, cap, d), r.sent + t.before + d,
        r.lost + Refused(r.flow.queue, cap, t.before) + Refused(q, cap, d);
      ArriveTwice(PacketsOf(r.log), r.flow.queue, cap, r.sent, r.lost, t, n);
      TurnIsRouting(r, cap, t, deliver, q, n, q2);
      RoutingKeeps(r, v, q2, sent, lost, n, deliver);
    }
  }

  /** What arrives before a dequeue, and what interrupts it. */
  lemma ArriveTwice(ps: seq<Packet>, queue: seq<byte>, cap: nat, sent: seq<byte>, lost: nat, t: Turn, n: nat)
    requires |queue| <= cap && cap % 4 == 0 && InOrder(ps, queue, sent, lost) && WholeTurn(t)
    requires n == Min(DEQUEUE_CHUNK, |Offer(queue, cap, t.before)|)
    ensures var q, d := Offer(queue, cap, t.before), Arrived(t.irq, n + 1);
      InOrder(ps, Offer(q, cap, d), sent + t.before + d, lost + Refused(queue, cap, t.before) + Refused(q, cap, d))
    ensures n % 4 == 0
  {
    var q := Offer(queue, cap, t.before);
    Arrive(ps, queue, cap, sent, lost, t.before);
    ArrivedAligned(t.irq, n + 1);
    Arrive(ps, q, cap, sent + t.before, lost + Refused(queue, cap, t.before), Arrived(t.irq, n + 1));
    ChunkAligned(|q|, n);
  }

  lemma ChunkAligned(used: nat, n: nat)
    requires used % 4 == 0 && n == Min(DEQUEUE_CHUNK, used)
    ensures n % 4 == 0
  {
  }

  lemma TurnIsRouting(r: Rig, cap: nat, t: Turn, deliver: bool, q: seq<byte>, n: nat, q2: seq<byte>)
    requires Holds(r.flow, cap) && q == Offer(r.flow.queue, cap, t.before) && n == Min(DEQUEUE_CHUNK, |q|) && n > 0
    requires q2 == Offer(q, cap, Arrived(t.irq, n + 1))
    ensures n <= |q2| && Turned(r, cap, t, deliver) ==
      Rig(Routed(r.flow, q2[n..], q2[..n], deliver), r.sent + t.before + Arrived(t.irq, n + 1),
          r.lost + Refused(r.flow.queue, cap, t.before) + Refused(q, cap, Arrived(t.irq, n + 1)),
          r.log + Entries(Chop(q2[..n]), deliver))
  {
    assert q2[..n] == q[..n];
  }

  lemma NothingTurned(r: Rig, cap: nat, t: Turn, deliver: bool)
    requires Holds(r.flow, cap) && Offer(r.flow.queue, cap, t.before) == []
    ensures Turned(r, cap, t, deliver) ==
      r.(sent := r.sent + t.before, lost := r.lost + Refused(r.flow.queue, cap, t.before))
  {
    assert r.log + Entries(Chop([]), deliver) == r.log;
    assert r.sent + t.before + [] == r.sent + t.before;
  }

  lemma QuietKeeps(r: Rig, deliver: bool, v: Input)
    requires |r.flow.input.ports| == CABLES && Kept(r, v)
    ensures Kept(Quieted(r, deliver), v)
  {
    var q := r.flow.queue;
    assert q[..|q|] == q && q[|q|..] == [];
    RoutingKeeps(r, v, q, r.sent, r.lost, |q|, deliver);
  }

  lemma {:induction false} TurnsKeep(r: Rig, cap: nat, turns: seq<Turn>, deliver: bool, v: Input)
    requires Holds(r.flow, cap) && cap % 4 == 0 && Kept(r, v) && forall t <- turns :: WholeTurn(t)
    ensures Kept(TurnedAll(r, cap, turns, deliver), v)
    decreases |turns|
  {
    if turns == [] {
      QuietKeeps(r, deliver, v);
    } else {
      TurnKeeps(r, cap, turns[0], deliver, v);
      if Offer(r.flow.queue, cap, turns[0].before) != [] {
        TurnsKeep(Turned(r, cap, turns[0], deliver), cap, turns[1..], deliver, v);
      }
    }
  }

  lemma NextKeeps(r: Rig, cap: nat, h: Happening, v: Input)
    requires Holds(r.flow, cap) && cap % 4 == 0 && Kept(r, v) && WholeHappening(h)
    ensures Kept(Next(r, cap, h), v)
  {
    match h
    case Transfer(d) => Arrive(PacketsOf(r.log), r.flow.queue, cap, r.sent, r.lost, d);
    case Drained(turns, deliver) => TurnsKeep(r, cap, turns, deliver, v);
    case Reset =>
      PacketsOfNext(r.log, Anew);
      assert (r.log + [Anew])[..|r.log|] == r.log;
  }

  lemma {:induction false} RunKeeps(r: Rig, cap: nat, hs: seq<Happening>, v: Input)
    requires Holds(r.flow, cap) && cap % 4 == 0 && Kept(r, v) && forall h <- hs :: WholeHappening(h)
    ensures Kept(After(r, cap, hs), v)
    decreases |hs|
  {
    if hs != [] {
      RunKeeps(r, cap, hs[..|hs| - 1], v);
      NextKeeps(After(r, cap, hs[..|hs| - 1]), cap, hs[|hs| - 1], v);
    }
  }

  /** The packets routed are those the device sent, in order, but for whole packets lost to overflow, and only for
      these: in every run, with transfers interrupting the drains anywhere. */
  lemma RoutedInOrder(r: Rig, cap: nat, hs: seq<Happening>, v: Input)
    requires Holds(r.flow, cap) && cap % 4 == 0 && Kept(r, v) && forall h <- hs :: WholeHappening(h)
    ensures var s := After(r, cap, hs);
      && Subsequence(PacketsOf(s.log), Chop(s.sent))
      && |s.sent| == 4 * |PacketsOf(s.log)| + |s.flow.queue| + s.lost
      && (s.lost == 0 ==> PacketsOf(s.log) + Chop(s.flow.queue) == Chop(s.sent))
      && s.flow.dropped == 0 && s.flow.packets == |PacketsOf(s.log)|
  {
    RunKeeps(r, cap, hs, v);
    var s := After(r, cap, hs);
    var ps, q := PacketsOf(s.log), Chop(s.flow.queue);
    PrefixIsSubsequence(ps, ps + q);
    SubsequenceTransitive(ps, ps + q, Chop(s.sent));
    ChopLength(s.flow.queue);
    ChopLength(s.sent);
    SubsequenceLength(ps + q, Chop(s.sent));
  }

  /** The ports are those of routing the packets one after the other, each with the flag of its own drain, and
      starting the streams anew where they were. */
  lemma InputIsReplay(r: Rig, cap: nat, hs: seq<Happening>, v: Input)
    requires Holds(r.flow, cap) && cap % 4 == 0 && Kept(r, v) && forall h <- hs :: WholeHappening(h)
    ensures After(r, cap, hs).flow.input == Replay(v, After(r, cap, hs).log)
  {
    RunKeeps(r, cap, hs, v);
  }

  // ---- the code -----------------------------------------------------------------------------------

  /** The flow of a drain is the one its code is proved to have. */
  lemma {:induction false} TurnsFlow(r: Rig, cap: nat, turns: seq<Turn>, deliver: bool)
    requires Holds(r.flow, cap)
    ensures TurnedAll(r, cap, turns, deliver).flow == AfterDrain(r.flow, cap, turns, deliver)
    decreases |turns|
  {
    if turns != [] {
      if Offer(r.flow.queue, cap, turns[0].before) == [] {
        NothingTurned(r, cap, turns[0], deliver);
      } else {
        TurnsFlow(Turned(r, cap, turns[0], deliver), cap, turns[1..], deliver);
      }
    }
  }

  predicate Sized(h: Happening) {
    match h
    case Transfer(d) => |d| < 0x1_0000_0000
    case Drained(turns, _) => forall t <- turns :: SizedTurn(t)
    case Reset => true
  }

  /** The ring and the ports are where the rig says. */
  ghost predicate Shows(ring: ByteRing, input: OmsInput, r: Rig)
    reads ring, ring.buf, input, input.ports, input.Streams(), input.Queues()
  {
    ring.Valid() && ring.Usable() && input.Valid() && input.FlowOf(ring) == r.flow
  }

  method Happen(ring: ByteRing, input: OmsInput, h: Happening, ghost r: Rig)
    requires Shows(ring, input, r) && Holds(r.flow, ring.size) && Sized(h)
    modifies ring, ring.buf, input, input.ports, input.Streams(), input.Queues()
    ensures Shows(ring, input, Next(r, ring.size, h))
  {
    match h {
      case Transfer(d) => var n := ring.Enqueue(d);
      case Drained(turns, deliver) =>
        TurnsFlow(r, ring.size, turns, deliver);
        input.Drain(ring, true, turns, deliver);
      case Reset => input.Restart();
    }
  }

  /** Any run of whole-packet transfers, interrupted drains and restarts: no drain drops a byte, and the ports end
      as if the packets of the log, an in-order part of the device's, had been routed one after the other. */
  method Receive(ring: ByteRing, input: OmsInput, hs: seq<Happening>)
    requires ring.Valid() && ring.Usable() && ring.contents == [] && ring.size % 4 == 0 && input.Valid()
    requires input.rxPackets == 0 && input.rxDropped == 0
    requires forall h <- hs :: WholeHappening(h) && Sized(h)
    modifies ring, ring.buf, input, input.ports, input.Streams(), input.Queues()
    ensures var s := After(Rig(old(input.FlowOf(ring)), [], 0, []), ring.size, hs);
      && Shows(ring, input, s) && Subsequence(PacketsOf(s.log), Chop(s.sent))
      && (s.lost == 0 ==> PacketsOf(s.log) + Chop(s.flow.queue) == Chop(s.sent))
      && input.View() == Replay(old(input.View()), s.log)
      && input.rxDropped == 0 && input.rxPackets == |PacketsOf(s.log)|
  {
    ghost var v, r := input.View(), Rig(input.FlowOf(ring), [], 0, []);
    for i := 0 to |hs|
      invariant Shows(ring, input, After(r, ring.size, hs[..i]))
    {
      assert hs[..i + 1][..i] == hs[..i];
      Happen(ring, input, hs[i], After(r, ring.size, hs[..i]));
    }
    assert hs[..|hs|] == hs;
    RoutedInOrder(r, ring.size, hs, v);
    InputIsReplay(r, ring.size, hs, v);
  }
}
