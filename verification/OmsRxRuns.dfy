/** Demultiplexing: each cable behaves as if its packets were the only ones, however the bytes were split. */
module OmsRxRuns {
  import opened Words
  import opened Packets
  import opened MidiStream
  import opened MidiRoundTrip
  import opened OmsRx

  function OnCable(c: nat, ps: seq<Packet>): seq<Packet> {
    if ps == [] then []
    else (if ps[0].b0 / 16 == c then [ps[0]] else []) + OnCable(c, ps[1..])
  }

  function OfCable(c: nat, ds: seq<Delivery>): seq<Delivery> {
    if ds == [] then []
    else (if ds[0].cable == c then [ds[0]] else []) + OfCable(c, ds[1..])
  }

  /** Every open port serves its own cable and has nothing pending, as between two packets. */
  predicate Idle(v: Input) {
    && |v.ports| == CABLES
    && forall c :: 0 <= c < CABLES && v.ports[c].valid ==> v.ports[c].rx.cable == c && v.ports[c].rx.queue == []
  }

  lemma {:induction false} OfCableConcat(c: nat, a: seq<Delivery>, b: seq<Delivery>)
    ensures OfCable(c, a + b) == OfCable(c, a) + OfCable(c, b)
  {
    if a == [] {
      assert a + b == b;
    } else {
      assert (a + b)[1..] == a[1..] + b;
      OfCableConcat(c, a[1..], b);
      Assoc(if a[0].cable == c then [a[0]] else [], OfCable(c, a[1..]), OfCable(c, b));
    }
  }

  /** What is handed over for one cable belongs to that cable alone. */
  lemma {:induction false} OfCableOwn(c: nat, d: nat, ds: seq<Delivery>)
    requires forall x <- ds :: x.cable == d
    ensures OfCable(c, ds) == if c == d then ds else []
  {
    if ds != [] { OfCableOwn(c, d, ds[1..]); }
  }

  lemma HandedConcat(c: nat, io: int, deliver: bool, a: seq<Received>, b: seq<Received>)
    ensures Handed(c, io, deliver, a + b) == Handed(c, io, deliver, a) + Handed(c, io, deliver, b)
  {
  }

  /** One packet, seen from cable `c`. */
  lemma RouteOne(v: Input, p: Packet, deliver: bool, c: nat)
    requires Idle(v) && c < CABLES
    ensures Idle(Route(v, p, deliver))
    ensures p.b0 / 16 != c ==>
      var r := Route(v, p, deliver);
      r.ports[c] == v.ports[c] && OfCable(c, r.delivered) == OfCable(c, v.delivered)
    ensures p.b0 / 16 == c ==>
      var o := Opened(v.ports[c], c);
      var r, fed := Route(v, p, deliver), Feed(o.rx, p);
      && r.ports[c] == o.(rx := Next(fed)) && |fed.queue| <= 1
      && OfCable(c, r.delivered) == OfCable(c, v.delivered) + Handed(c, o.ioRefNum, deliver, fed.queue)
      && fed.stats.droppedFull == o.rx.stats.droppedFull
      && fed.stats.droppedMisroute == o.rx.stats.droppedMisroute
  {
    var d := p.b0 / 16;
    var o := Opened(v.ports[d], d);
    var fed := Feed(o.rx, p);
    assert o.rx.cable == d && o.rx.queue == [];
    FedOnce(o.rx, p);
    OfCableConcat(c, v.delivered, Handed(d, o.ioRefNum, deliver, fed.queue));
    OfCableOwn(c, d, Handed(d, o.ioRefNum, deliver, fed.queue));
  }

  /** What one packet of its own cable leaves of an idle stream once its message is taken. */
  lemma FedOnce(rx: Rx, p: Packet)
    requires rx.cable == p.b0 / 16 && rx.queue == []
    ensures var fed := Feed(rx, p);
      && |fed.queue| <= 1 && TakeAll(fed) == Next(fed) && fed.cable == rx.cable && Next(fed).queue == []
      && fed.stats.droppedFull == rx.stats.droppedFull && fed.stats.droppedMisroute == rx.stats.droppedMisroute
  {
  }

  /** Port `c` of `r` and its deliveries are those of a single-stream decode of `own` from `v`. */
  ghost predicate DecodedAlone(v: Input, r: Input, own: seq<Packet>, deliver: bool, c: nat)
    requires |v.ports| == CABLES && |r.ports| == CABLES && c < CABLES
  {
    StreamAlone(v, r, own, c) && HandedAlone(v, r, own, deliver, c)
  }

  ghost predicate StreamAlone(v: Input, r: Input, own: seq<Packet>, c: nat)
    requires |v.ports| == CABLES && |r.ports| == CABLES && c < CABLES
  {
    var o := Opened(v.ports[c], c);
    var s := Deliver(o.rx, own).0;
    && r.ports[c] == (if own == [] then v.ports[c] else o.(rx := s))
    && s.stats.droppedFull == o.rx.stats.droppedFull && s.stats.droppedMisroute == o.rx.stats.droppedMisroute
  }

  ghost predicate HandedAlone(v: Input, r: Input, own: seq<Packet>, deliver: bool, c: nat)
    requires |v.ports| == CABLES && |r.ports| == CABLES && c < CABLES
  {
    var o := Opened(v.ports[c], c);
    OfCable(c, r.delivered) == OfCable(c, v.delivered) + Handed(c, o.ioRefNum, deliver, Deliver(o.rx, own).1)
  }

  /**
   * The port of cable `c` after any packets equals a single-stream decode of the packets of cable `c`
   * alone, and so do its deliveries; no packet is misrouted and no queue overflows.
   */
  lemma {:induction false} Demultiplexed(v: Input, ps: seq<Packet>, deliver: bool, c: nat)
    requires Idle(v) && c < CABLES
    ensures Idle(RouteAll(v, ps, deliver))
    ensures DecodedAlone(v, RouteAll(v, ps, deliver), OnCable(c, ps), deliver, c)
    decreases |ps|
  {
    if ps == [] {
      assert Handed(c, Opened(v.ports[c], c).ioRefNum, deliver, []) == [];
      assert OfCable(c, v.delivered) + [] == OfCable(c, v.delivered);
    } else {
      var r := Route(v, ps[0], deliver);
      RouteOne(v, ps[0], deliver, c);
      Demultiplexed(r, ps[1..], deliver, c);
      if ps[0].b0 / 16 == c {
        OwnPacket(v, RouteAll(v, ps, deliver), ps[0], OnCable(c, ps[1..]), deliver, c);
        assert OnCable(c, ps) == [ps[0]] + OnCable(c, ps[1..]);
      } else {
        assert OnCable(c, ps) == OnCable(c, ps[1..]);
      }
    }
  }

  /** A packet of the cable comes first. */
  lemma OwnPacket(v: Input, r: Input, p: Packet, rest: seq<Packet>, deliver: bool, c: nat)
    requires Idle(v) && c < CABLES && p.b0 / 16 == c && |r.ports| == CABLES
    requires DecodedAlone(Route(v, p, deliver), r, rest, deliver, c)
    ensures DecodedAlone(v, r, [p] + rest, deliver, c)
  {
    RouteOne(v, p, deliver, c);
    var o := Opened(v.ports[c], c);
    DeliverHead(o.rx, Feed(o.rx, p), p, rest);
    PrependStream(v, Route(v, p, deliver), r, Feed(o.rx, p), p, rest, c);
    PrependHanded(v, Route(v, p, deliver), r, Feed(o.rx, p), p, rest, deliver, c);
  }

  /** The stream after the packet is `fed`; its message, if any, is taken at once. */
  function Next(fed: Rx): Rx { if fed.queue == [] then fed else Take(fed) }

  lemma PrependStream(v: Input, v1: Input, r: Input, fed: Rx, p: Packet, rest: seq<Packet>, c: nat)
    requires |v.ports| == CABLES && |v1.ports| == CABLES && |r.ports| == CABLES && c < CABLES
    requires v1.ports[c] == Opened(v.ports[c], c).(rx := Next(fed))
    requires var rx := Opened(v.ports[c], c).rx;
      && fed.stats.droppedFull == rx.stats.droppedFull && fed.stats.droppedMisroute == rx.stats.droppedMisroute
      && Deliver(rx, [p] + rest).0 == Deliver(Next(fed), rest).0
    requires StreamAlone(v1, r, rest, c)
    ensures StreamAlone(v, r, [p] + rest, c)
  {
    if rest == [] { assert Deliver(Next(fed), rest).0 == Next(fed); }
  }

  lemma PrependHanded(v: Input, v1: Input, r: Input, fed: Rx, p: Packet, rest: seq<Packet>, deliver: bool, c: nat)
    requires |v.ports| == CABLES && |v1.ports| == CABLES && |r.ports| == CABLES && c < CABLES
    requires v1.ports[c] == Opened(v.ports[c], c).(rx := Next(fed))
    requires var o := Opened(v.ports[c], c);
      && OfCable(c, v1.delivered) == OfCable(c, v.delivered) + Handed(c, o.ioRefNum, deliver, fed.queue)
      && Deliver(o.rx, [p] + rest).1 == fed.queue + Deliver(Next(fed), rest).1
    requires HandedAlone(v1, r, rest, deliver, c)
    ensures HandedAlone(v, r, [p] + rest, deliver, c)
  {
    var io, ms := Opened(v.ports[c], c).ioRefNum, Deliver(Next(fed), rest).1;
    HandedConcat(c, io, deliver, fed.queue, ms);
    Assoc(OfCable(c, v.delivered), Handed(c, io, deliver, fed.queue), Handed(c, io, deliver, ms));
  }

  lemma DeliverHead(s: Rx, fed: Rx, p: Packet, rest: seq<Packet>)
    requires fed == Feed(s, p) && |fed.queue| <= 1
    ensures Deliver(s, [p] + rest).0 == Deliver(Next(fed), rest).0
    ensures Deliver(s, [p] + rest).1 == fed.queue + Deliver(Next(fed), rest).1
  {
    assert ([p] + rest)[1..] == rest;
    if fed.queue == [] {
      assert fed.queue + Deliver(fed, rest).1 == Deliver(fed, rest).1;
    } else {
      assert fed.queue == [fed.queue[0]];
    }
  }

  // ---- independence of the split ---------------------------------------------------------

  function Flatten(chunks: seq<seq<byte>>): seq<byte> {
    if chunks == [] then [] else chunks[0] + Flatten(chunks[1..])
  }

  /** The effect of draining the ring once for each of the transfers. */
  function Drains(v: Input, chunks: seq<seq<byte>>, deliver: bool): (r: Input)
    requires |v.ports| == CABLES
    decreases |chunks|
  {
    if chunks == [] then v else Drains(RouteAll(v, Chop(chunks[0]), deliver), chunks[1..], deliver)
  }

  /** However the bytes are split into drains of whole packets, the result is that of the joined stream. */
  lemma {:induction false} SplitIndependence(v: Input, chunks: seq<seq<byte>>, deliver: bool)
    requires |v.ports| == CABLES && forall b <- chunks :: |b| % 4 == 0
    ensures Drains(v, chunks, deliver) == RouteAll(v, Chop(Flatten(chunks)), deliver)
    decreases |chunks|
  {
    if chunks != [] {
      var first, rest := chunks[0], chunks[1..];
      SplitIndependence(RouteAll(v, Chop(first), deliver), rest, deliver);
      ChopConcat(first, Flatten(rest));
      RouteConcat(v, Chop(first), Chop(Flatten(rest)), deliver);
    }
  }

  /**
   * End to end: if the packets of cable `c` among any received packets are those of the messages `ms` with
   * realtime packets inserted, then what OMS is handed for a live port that was just started are messages
   * that regroup to `ms` and to the realtime bytes, whatever arrived on the other cables.
   */
  lemma EndToEnd(v: Input, ps: seq<Packet>, c: nat, ms: seq<Message>)
    requires Idle(v) && c < CABLES && v.ports[c].valid && v.ports[c].ioRefNum >= 0 && v.ports[c].rx == Fresh(c)
    requires Accepted(c, ms) && Strip(c, OnCable(c, ps)) == PacketsOf(c, ms)
    ensures var es := Deliver(Fresh(c), OnCable(c, ps)).1;
      && OfCable(c, RouteAll(v, ps, true).delivered)
         == OfCable(c, v.delivered) + Handed(c, v.ports[c].ioRefNum, true, es)
      && Ordinary(Regroup([], es)) == ms && Realtime(Regroup([], es)) == RealtimeBytes(c, OnCable(c, ps))
  {
    RoundTrip(c, ms, OnCable(c, ps));
    Demultiplexed(v, ps, true, c);
  }
}
