/** What OMS is told of the packets on the wire, said without the receiver. */
module OmsWire {
  import opened Words
  import opened Packets
  import opened MidiStream
  import opened MidiRoundTrip
  import opened OmsRx
  import opened OmsRxRuns

  /** How many data bytes a packet with this code has, for the codes that carry MIDI data. */
  function DataBytes(code: nat): (n: nat)
    ensures n <= 3
  {
    if code == 5 || code == 6 then 1 else if code == 2 || code == 7 || code == 13 || code == 14 then 2 else 3
  }

  /** How a packet's bytes continue: 1 for the first of a run, 3 for a middle one, 2 for the last, and 0 for a message of
      its own. */
  function FlagsOf(inside: bool, p: Packet): nat {
    var code := p.b0 as int % 16;
    if code == 4 then (if inside then 3 else 1)
    else if 6 <= code <= 8 then (if inside || p.b1 != 0xF0 then 2 else 0)
    else 0
  }

  function InsideAfter(inside: bool, p: Packet): bool {
    var code := p.b0 as int % 16;
    code == 4 || (inside && !(6 <= code <= 8))
  }

  function BytesOf(p: Packet): seq<byte> { [p.b1, p.b2, p.b3][..DataBytes(p.b0 as int % 16)] }

  /** What is told of the packets of one cable; codes 0 and 1 carry nothing. */
  function Told(c: nat, io: int, inside: bool, ps: seq<Packet>): seq<Delivery>
    decreases |ps|
  {
    if ps == [] then []
    else
      (if ps[0].b0 as int % 16 < 2 then [] else [Delivery(c, io, FlagsOf(inside, ps[0]), BytesOf(ps[0]))])
      + Told(c, io, InsideAfter(inside, ps[0]), ps[1..])
  }

  predicate AllOn(c: nat, ps: seq<Packet>) { forall k | 0 <= k < |ps| :: ps[k].b0 / 16 == c }

  lemma MessageTold(inside: bool, p: Packet)
    requires p.b0 as int % 16 >= 2
    ensures ContinuationFlags(MessageOf(inside, p).tag) == FlagsOf(inside, p) && MessageOf(inside, p).Bytes() == BytesOf(p)
  {
  }

  /** One packet of the stream's cable. */
  lemma OneTold(s: Rx, p: Packet)
    requires s.queue == [] && s.cable == p.b0 / 16
    ensures var f, code := Feed(s, p), p.b0 as int % 16;
      && f.cable == s.cable && f.inSysex == InsideAfter(s.inSysex, p)
      && f.queue == if code < 2 then [] else [MessageOf(s.inSysex, p)]
  {
  }

  lemma {:induction false} DeliveredAsTold(s: Rx, io: int, ps: seq<Packet>)
    requires s.queue == [] && AllOn(s.cable, ps) && io >= 0
    ensures Handed(s.cable, io, true, Deliver(s, ps).1) == Told(s.cable, io, s.inSysex, ps)
    decreases |ps|
  {
    if ps != [] {
      var f := Feed(s, ps[0]);
      OneTold(s, ps[0]);
      assert AllOn(s.cable, ps[1..]) by { assert forall k | 0 <= k < |ps[1..]| :: ps[1..][k] == ps[k + 1]; }
      if f.queue == [] {
        DeliveredAsTold(f, io, ps[1..]);
      } else {
        MessageTold(s.inSysex, ps[0]);
        DeliveredAsTold(Take(f), io, ps[1..]);
        HandedConcat(s.cable, io, true, [f.queue[0]], Deliver(Take(f), ps[1..]).1);
      }
    }
  }

  lemma {:induction false} OnCableOwn(c: nat, ps: seq<Packet>)
    ensures AllOn(c, OnCable(c, ps))
  {
    if ps != [] { OnCableOwn(c, ps[1..]); }
  }

  /** On every port that delivers, OMS is told of exactly the packets of its cable, in order, each with its bytes and
      the flags of its place in a run, and of nothing else. */
  lemma PortTold(v: Input, ps: seq<Packet>, c: nat)
    requires Idle(v) && c < CABLES && v.ports[c].valid && v.ports[c].ioRefNum >= 0
    ensures OfCable(c, RouteAll(v, ps, true).delivered) ==
      OfCable(c, v.delivered) + Told(c, v.ports[c].ioRefNum, v.ports[c].rx.inSysex, OnCable(c, ps))
  {
    Demultiplexed(v, ps, true, c);
    OnCableOwn(c, ps);
    DeliveredAsTold(v.ports[c].rx, v.ports[c].ioRefNum, OnCable(c, ps));
  }

  /** A port that is closed, unused or not delivering tells OMS nothing. */
  lemma PortSilent(v: Input, ps: seq<Packet>, deliver: bool, c: nat)
    requires Idle(v) && c < CABLES && (!deliver || !v.ports[c].valid || v.ports[c].ioRefNum < 0)
    ensures OfCable(c, RouteAll(v, ps, deliver).delivered) == OfCable(c, v.delivered)
  {
    Demultiplexed(v, ps, deliver, c);
    assert OfCable(c, v.delivered) + [] == OfCable(c, v.delivered);
  }

  /** A turn without arrivals takes the oldest 64 unread bytes, or all if there are fewer, routes their whole packets, and
      counts packets and left-over bytes. */
  lemma TurnTakes(f: Flow, cap: nat, deliver: bool)
    requires Holds(f, cap)
    ensures var n, g := if |f.queue| < 64 then |f.queue| else 64, AfterTurn(f, cap, Turn([], []), deliver);
      && g.queue == f.queue[n..] && g.input == RouteAll(f.input, Chop(f.queue[..n]), deliver)
      && g.packets == f.packets + n / 4 && g.dropped == f.dropped + n % 4
  {
    var n := if |f.queue| < 64 then |f.queue| else 64;
    NothingArrives(f.queue, cap, n + 1);
    assert f.queue + [] == f.queue;
    assert Chop([]) == [];
  }
}
