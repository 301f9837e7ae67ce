/** The bytes of Event Packets on the wire, said without the code tables. */
module Wire {
  import opened Words
  import opened Packets
  import opened MidiStream

  // ---- conventional messages --------------------------------------------------------------

  /** How many bytes a message with this status has; 0 for SysEx, its end and the undefined statuses. */
  function MessageSize(status: byte): nat {
    if 0x80 <= status < 0xC0 || 0xE0 <= status < 0xF0 || status == 0xF2 then 3
    else if 0xC0 <= status < 0xE0 || status == 0xF1 || status == 0xF3 then 2
    else if status == 0xF6 || 0xF8 <= status then 1
    else 0
  }

  /** Exactly the whole messages are sent: SysEx from F0 to F7, a single F7, and statuses with all their bytes. */
  predicate Whole(msg: seq<byte>) {
    && msg != []
    && if msg[0] == 0xF0 then |msg| >= 2 && msg[|msg| - 1] == 0xF7
       else if msg[0] == 0xF7 then |msg| == 1
       else |msg| == MessageSize(msg[0])
  }

  /** Code index and status: the kinds of channel message have the codes from 9 to 15, in the order of their statuses,
      whatever the channel is; system messages have codes of at most 5. */
  lemma ChannelCodes(a: byte, b: byte)
    requires CinForStatus(a).Some? && CinForStatus(b).Some?
    ensures a < 0xF0 ==> 9 <= CinForStatus(a).value.cin <= 15
    ensures a >= 0xF0 ==> CinForStatus(a).value.cin <= 5
    ensures a / 16 == b / 16 && a < 0xF0 ==> CinForStatus(a).value.cin == CinForStatus(b).value.cin
    ensures a / 16 < b / 16 < 15 ==> CinForStatus(a).value.cin < CinForStatus(b).value.cin
  {
  }

  lemma StatusNeeds(status: byte)
    ensures CinForStatus(status).Some? <==> MessageSize(status) > 0
    ensures CinForStatus(status).Some? ==> CinForStatus(status).value.need == MessageSize(status)
  {
  }

  lemma AcceptedIff(cable: nat, msg: seq<byte>)
    ensures TxPackets(cable, msg).Some? <==> cable <= 15 && Whole(msg)
  {
    if msg != [] { StatusNeeds(msg[0]); }
  }

  /** Four bytes: the cable above the code, and the data filled up with zeros. */
  predicate OnWire(p: Packet, cable: nat, code: nat, data: seq<byte>) {
    && p.b0 as int == 16 * cable + code && |data| <= 3
    && p.b1 == (if |data| >= 1 then data[0] else 0)
    && p.b2 == (if |data| >= 2 then data[1] else 0)
    && p.b3 == (if |data| >= 3 then data[2] else 0)
  }

  lemma BuildOnWire(cable: nat, code: nat, data: seq<byte>)
    requires cable <= 15 && code <= 15 && |data| <= 3
    ensures OnWire(Build(cable, code, data), cable, code, data)
  {
    HeaderByte(cable, code);
  }

  /** A channel message goes out as one packet whose code depends on the kind of message alone. */
  lemma ChannelWire(cable: nat, msg: seq<byte>) returns (p: Packet)
    requires TxPackets(cable, msg).Some? && msg[0] < 0xF0
    ensures TxPackets(cable, msg) == Some([p]) && 9 <= p.b0 % 16 && OnWire(p, cable, p.b0 % 16, msg)
    ensures p.b0 % 16 == CinForStatus(msg[0]).value.cin as int
  {
    var cin := CinForStatus(msg[0]).value.cin;
    ChannelCodes(msg[0], msg[0]);
    StatusNeeds(msg[0]);
    BuildOnWire(cable, cin, msg);
    p := Build(cable, cin, msg);
  }

  /** The first bytes on the wire order channel messages as their statuses do: note offs below note ons, and so on to
      pitch bend. Between 9 and 15 that leaves one code for each of the seven kinds. */
  lemma WireOrder(cable: nat, a: seq<byte>, b: seq<byte>) returns (p: Packet, q: Packet)
    requires TxPackets(cable, a).Some? && TxPackets(cable, b).Some? && a[0] < 0xF0 && b[0] < 0xF0
    ensures TxPackets(cable, a) == Some([p]) && TxPackets(cable, b) == Some([q])
    ensures p.b0 / 16 == q.b0 / 16 == cable && 9 <= p.b0 % 16 && 9 <= q.b0 % 16
    ensures a[0] / 16 == b[0] / 16 ==> p.b0 % 16 == q.b0 % 16
    ensures a[0] / 16 < b[0] / 16 ==> p.b0 % 16 < q.b0 % 16
  {
    p := ChannelWire(cable, a);
    q := ChannelWire(cable, b);
    ChannelCodes(a[0], b[0]);
  }

  /** A system message goes out as one packet; its code tells how many bytes it has, and a lone F7 ends a run. */
  lemma SystemWire(cable: nat, msg: seq<byte>) returns (p: Packet)
    requires TxPackets(cable, msg).Some? && msg[0] > 0xF0
    ensures TxPackets(cable, msg) == Some([p])
    ensures OnWire(p, cable, if msg[0] == 0xF7 then 6 else if |msg| == 1 then 5 else |msg|, msg)
  {
    var code: nat := if msg[0] == 0xF7 then 6 else if |msg| == 1 then 5 else |msg|;
    StatusNeeds(msg[0]);
    BuildOnWire(cable, code, msg);
    p := Build(cable, code, msg);
  }

  // ---- SysEx --------------------------------------------------------------------------------

  /** Packet `k` of a run: three bytes with code 4 while more follow, and the last bytes, n of them, with code 5 + n. */
  lemma SysexWire(cable: nat, run: seq<byte>, k: nat)
    requires cable <= 15 && |run| >= 1 && 3 * k < |run|
    ensures k < |SysexPackets(cable, run)|
    ensures var left := |run| - 3 * k;
      OnWire(SysexPackets(cable, run)[k], cable, if left <= 3 then 5 + left else 4, run[3 * k..if left <= 3 then |run| else 3 * k + 3])
  {
    SysexPacketCount(cable, run);
    SysexPacketAt(cable, run, k);
    var left := |run| - 3 * k;
    if left <= 3 { BuildOnWire(cable, 5 + left, run[3 * k..]); } else { BuildOnWire(cable, 4, run[3 * k..3 * k + 3]); }
    assert run[3 * k..] == run[3 * k..|run|];
  }

  /** And a run is sent as that. */
  lemma SysexSent(cable: nat, run: seq<byte>)
    requires cable <= 15 && Whole(run) && run[0] == 0xF0
    ensures TxPackets(cable, run) == Some(SysexPackets(cable, run)) && |SysexPackets(cable, run)| == (|run| + 2) / 3
  {
    SysexPacketCount(cable, run);
  }

  // ---- what the receiver counts ---------------------------------------------------------------

  function FeedAll(s: Rx, ps: seq<Packet>): Rx
    decreases |ps|
  {
    if ps == [] then s else FeedAll(Feed(s, ps[0]), ps[1..])
  }

  /** How many packets there are of each kind, for a receiver of this cable that is (not) inside a run. */
  function Strangers(cable: nat, ps: seq<Packet>): nat {
    if ps == [] then 0 else (if ps[0].b0 / 16 != cable then 1 else 0) + Strangers(cable, ps[1..])
  }

  predicate Carries(p: Packet, cable: nat, code: nat) { p.b0 as int == 16 * cable + code }

  /** Packets of the cable with this code. */
  function OfCode(cable: nat, code: nat, ps: seq<Packet>): nat {
    if ps == [] then 0 else (if Carries(ps[0], cable, code) then 1 else 0) + OfCode(cable, code, ps[1..])
  }

  /** End packets of the cable whose last byte is not F7: code 6 has one byte, 7 two and 8 three. */
  function Unended(cable: nat, ps: seq<Packet>): nat {
    if ps == [] then 0
    else
      var p := ps[0];
      var bad := (Carries(p, cable, 6) && p.b1 != 0xF7) || (Carries(p, cable, 7) && p.b2 != 0xF7) || (Carries(p, cable, 8) && p.b3 != 0xF7);
      (if bad then 1 else 0) + Unended(cable, ps[1..])
  }

  /** Start packets of the cable outside a run that do not begin with F0. */
  function Misbegun(cable: nat, inside: bool, ps: seq<Packet>): nat
    decreases |ps|
  {
    if ps == [] then 0
    else
      var p, rest := ps[0], ps[1..];
      if Carries(p, cable, 4) then (if !inside && p.b1 != 0xF0 then 1 else 0) + Misbegun(cable, true, rest)
      else Misbegun(cable, inside && !Carries(p, cable, 6) && !Carries(p, cable, 7) && !Carries(p, cable, 8), rest)
  }

  /** Every counter but those of the queue says how many packets of its kind came in. */
  lemma {:induction false} Counted(s: Rx, ps: seq<Packet>)
    ensures var a, b := s.stats, FeedAll(s, ps).stats;
      && b.packets == a.packets + |ps| && b.messages == a.messages
      && b.droppedMisroute == a.droppedMisroute + Strangers(s.cable, ps)
      && b.droppedMisc == a.droppedMisc + OfCode(s.cable, 0, ps)
      && b.droppedCable == a.droppedCable + OfCode(s.cable, 1, ps)
    decreases |ps|
  {
    if ps != [] {
      Header(ps[0], s.cable);
      Counted(Feed(s, ps[0]), ps[1..]);
    }
  }

  lemma {:induction false} MalformedCounted(s: Rx, ps: seq<Packet>)
    ensures var a, b := s.stats, FeedAll(s, ps).stats;
      && b.sysexEndNoEox == a.sysexEndNoEox + Unended(s.cable, ps)
      && b.malformedStart == a.malformedStart + Misbegun(s.cable, s.inSysex, ps)
    decreases |ps|
  {
    if ps != [] {
      Header(ps[0], s.cable);
      MalformedCounted(Feed(s, ps[0]), ps[1..]);
    }
  }

  lemma Header(p: Packet, cable: nat)
    ensures forall code: nat | code < 16 :: Carries(p, cable, code) <==> p.b0 / 16 == cable && p.b0 % 16 == code
  {
  }

  /** Packets with MIDI data, all of this cable. */
  predicate AllMidi(cable: nat, ps: seq<Packet>) {
    forall k | 0 <= k < |ps| :: 16 * cable + 2 <= ps[k].b0 as int < 16 * cable + 16
  }

  /** Sixteen messages wait at most: later ones are turned away and counted until one is taken, and those waiting stay. */
  lemma {:induction false} QueueHolds(s: Rx, ps: seq<Packet>)
    requires |s.queue| <= 16 && AllMidi(s.cable, ps)
    ensures var t, n := FeedAll(s, ps), |s.queue| + |ps|;
      && |t.queue| == (if n <= 16 then n else 16) && s.queue <= t.queue
      && t.stats.droppedFull == s.stats.droppedFull + (if n <= 16 then 0 else n - 16)
    decreases |ps|
  {
    if ps != [] {
      OneQueued(s, ps[0]);
      assert AllMidi(s.cable, ps[1..]) by { assert forall k | 0 <= k < |ps[1..]| :: ps[1..][k] == ps[k + 1]; }
      QueueHolds(Feed(s, ps[0]), ps[1..]);
    }
  }

  lemma OneQueued(s: Rx, p: Packet)
    requires |s.queue| <= 16 && 16 * s.cable + 2 <= p.b0 as int < 16 * s.cable + 16
    ensures var t := Feed(s, p);
      && t.cable == s.cable && s.queue <= t.queue && |t.queue| == (if |s.queue| < 16 then |s.queue| + 1 else 16)
      && t.stats.droppedFull == s.stats.droppedFull + (if |s.queue| < 16 then 0 else 1)
  {
    assert p.b0 / 16 == s.cable && p.b0 % 16 >= 2;
  }
}
