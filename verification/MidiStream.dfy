/** The per-cable converters between Event Packets and conventional MIDI messages. */
module MidiStream {
  import opened Words
  import opened Packets
  import opened Ring

  const RX_QUEUE := 16

  /** SysEx position of a received message; NoCont marks a complete message. */
  datatype Tag = NoCont | Start | Mid | End

  /** One received message: three bytes, of which the first `len` count, and its SysEx position. */
  datatype Received = Received(d0: byte, d1: byte, d2: byte, len: nat, tag: Tag) {
    function Bytes(): seq<byte>
    {
      [d0, d1, d2][..if len <= 3 then len else 3]
    }
  }

  datatype RxStats = RxStats(
    packets: nat, messages: nat, droppedMisc: nat, droppedCable: nat, droppedFull: nat,
    droppedMisroute: nat, malformedStart: nat, sysexEndNoEox: nat)

  const NoRxStats := RxStats(0, 0, 0, 0, 0, 0, 0, 0)

  // ---- specification of the receiver -------------------------------------------

  /** The state of a receive stream as its client sees it. */
  datatype Rx = Rx(cable: nat, inSysex: bool, queue: seq<Received>, stats: RxStats)

  function Fresh(cable: nat): Rx {
    Rx(if cable <= MAX_CABLE then cable else 0, false, [], NoRxStats)
  }

  predicate IsSysexStart(cin: nat) { cin == CIN_SYSEX_START }
  predicate IsSysexEnd(cin: nat) { CIN_SYSEX_END_1 <= cin <= CIN_SYSEX_END_3 }
  predicate CarriesMidi(cin: nat) { cin != CIN_MISC && cin != CIN_CABLE_EVENT }

  /** Where a packet leaves the receiver with respect to SysEx runs. */
  function NextInSysex(inSysex: bool, cin: nat): bool {
    if IsSysexStart(cin) then true else if IsSysexEnd(cin) then false else inSysex
  }

  function TagOf(inSysex: bool, cin: nat, first: byte): Tag {
    if IsSysexStart(cin) then (if inSysex then Mid else Start)
    else if IsSysexEnd(cin) then (if !inSysex && first == 0xF0 then NoCont else End)
    else NoCont
  }

  /** The message a packet carries for a receiver that is (not) inside a SysEx run. */
  function MessageOf(inSysex: bool, p: Packet): (m: Received)
    ensures m.len == CinDataLength(p.b0 % 16)
  {
    var n := CinDataLength(p.b0 % 16);
    Received(p.b1, if n > 1 then p.b2 else 0, if n > 2 then p.b3 else 0, n, TagOf(inSysex, p.b0 % 16, p.b1))
  }

  /** The malformation counters after a packet that carries MIDI data. */
  function Noted(st: RxStats, inSysex: bool, p: Packet): RxStats {
    var cin := p.b0 % 16;
    if IsSysexStart(cin) then
      if !inSysex && p.b1 != 0xF0 then st.(malformedStart := st.malformedStart + 1) else st
    else if IsSysexEnd(cin) then
      if [p.b1, p.b2, p.b3][CinDataLength(cin) - 1] != 0xF7 then st.(sysexEndNoEox := st.sysexEndNoEox + 1) else st
    else st
  }

  /** The bounded queue: a full one turns the newest message away and counts it. */
  function Queued(s: Rx, m: Received): Rx {
    if |s.queue| >= RX_QUEUE then s.(stats := s.stats.(droppedFull := s.stats.droppedFull + 1))
    else s.(queue := s.queue + [m])
  }

  /** Feeding one Event Packet. */
  function Feed(s: Rx, p: Packet): Rx {
    var cin := p.b0 % 16;
    var st := s.stats.(packets := s.stats.packets + 1);
    if p.b0 / 16 != s.cable then s.(stats := st.(droppedMisroute := st.droppedMisroute + 1))
    else if cin == CIN_MISC then s.(stats := st.(droppedMisc := st.droppedMisc + 1))
    else if cin == CIN_CABLE_EVENT then s.(stats := st.(droppedCable := st.droppedCable + 1))
    else
      Queued(s.(inSysex := NextInSysex(s.inSysex, cin), stats := Noted(st, s.inSysex, p)), MessageOf(s.inSysex, p))
  }

  /** Taking the oldest message away. */
  function Take(s: Rx): Rx
    requires s.queue != []
  {
    s.(queue := s.queue[1..], stats := s.stats.(messages := s.stats.messages + 1))
  }

  // ---- the receiver ----------------------------------------------------------------

  class RxStream {
    var cable: nat
    var inSysex: bool
    var head: nat
    var count: nat
    const pending: array<Received>
    var stats: RxStats
    ghost var queue: seq<Received>

    ghost predicate Valid()
      reads this, pending
    {
      && cable <= MAX_CABLE && pending.Length == RX_QUEUE && head < RX_QUEUE && count <= RX_QUEUE
      && queue == Window(pending[..], head, count)
    }

    ghost function View(): Rx
      reads this
    {
      Rx(cable, inSysex, queue, stats)
    }

    constructor (cable: nat)
      ensures Valid() && fresh(pending) && View() == Fresh(cable)
    {
      this.cable := if cable <= MAX_CABLE then cable else 0;
      inSysex, head, count, stats, queue := false, 0, 0, NoRxStats, [];
      pending := new Received[RX_QUEUE](_ => Received(0, 0, 0, 0, NoCont));
    }

    /** Re-initialises the stream, as at a MIDI (re)start. */
    method Init(cable: nat)
      requires Valid()
      modifies this, pending
      ensures Valid() && View() == Fresh(cable)
    {
      this.cable := if cable <= MAX_CABLE then cable else 0;
      inSysex, head, count, stats, queue := false, 0, 0, NoRxStats, [];
      forall i | 0 <= i < pending.Length { pending[i] := Received(0, 0, 0, 0, NoCont); }
    }

    /** Appends to the bounded queue; a full queue drops the newest message and counts it. */
    method EnqueueMessage(m: Received)
      requires Valid()
      modifies this`count, this`stats, this`queue, pending
      ensures Valid() && View() == Queued(old(View()), m)
    {
      if count >= RX_QUEUE {
        stats := stats.(droppedFull := stats.droppedFull + 1);
        return;
      }
      var tail := (head + count) % RX_QUEUE;
      assert tail == Slot(head, count, RX_QUEUE);
      pending[tail] := m;
      count := count + 1;
      queue := queue + [m];
      assert queue == Window(pending[..], head, count);
    }

    /** The SysEx position of a packet with MIDI data, and what it does to the run and the counters. */
    method TagPacket(pkt: Decoded, ghost p: Packet) returns (sysex: Tag)
      requires pkt == Decode(p) && CarriesMidi(pkt.cin)
      modifies this`inSysex, this`stats
      ensures sysex == TagOf(old(inSysex), pkt.cin, p.b1) && inSysex == NextInSysex(old(inSysex), pkt.cin)
      ensures stats == Noted(old(stats), old(inSysex), p)
    {
      if pkt.cin == CIN_SYSEX_START {
        if !inSysex {
          if pkt.data[0] != 0xF0 {
            stats := stats.(malformedStart := stats.malformedStart + 1);
          }
          inSysex := true;
          sysex := Start;
        } else {
          sysex := Mid;
        }
      } else if pkt.cin == CIN_SYSEX_END_1 || pkt.cin == CIN_SYSEX_END_2 || pkt.cin == CIN_SYSEX_END_3 {
        if pkt.length > 0 && pkt.data[pkt.length - 1] != 0xF7 {
          stats := stats.(sysexEndNoEox := stats.sysexEndNoEox + 1);
        }
        if !inSysex && pkt.length > 0 && pkt.data[0] == 0xF0 {
          sysex := NoCont;
        } else {
          sysex := End;
        }
        inSysex := false;
      } else {
        sysex := NoCont;
      }
    }

    /** A packet that is not MIDI data for this stream is counted. */
    method Discarded(pkt: Decoded) returns (yes: bool)
      modifies this`stats
      ensures yes == (pkt.cable != cable || !CarriesMidi(pkt.cin))
      ensures stats ==
        if pkt.cable != cable then old(stats).(droppedMisroute := old(stats).droppedMisroute + 1)
        else if pkt.cin == CIN_MISC then old(stats).(droppedMisc := old(stats).droppedMisc + 1)
        else if pkt.cin == CIN_CABLE_EVENT then old(stats).(droppedCable := old(stats).droppedCable + 1)
        else old(stats)
    {
      if pkt.cable != cable {
        stats := stats.(droppedMisroute := stats.droppedMisroute + 1);
        return true;
      }
      if pkt.cin == CIN_MISC {
        stats := stats.(droppedMisc := stats.droppedMisc + 1);
        return true;
      }
      if pkt.cin == CIN_CABLE_EVENT {
        stats := stats.(droppedCable := stats.droppedCable + 1);
        return true;
      }
      yes := false;
    }

    /** Feeds one raw packet; false for anything that is not four bytes long. */
    method PacketIn(buf: seq<byte>) returns (ok: bool)
      requires Valid()
      modifies this, pending
      ensures Valid() && ok == (|buf| == PACKET_SIZE)
      ensures ok ==> View() == Feed(old(View()), Packet(buf[0], buf[1], buf[2], buf[3]))
      ensures !ok ==> View() == old(View())
    {
      if |buf| != PACKET_SIZE { return false; }
      ghost var p := Packet(buf[0], buf[1], buf[2], buf[3]);
      var pkt := Decode(Packet(buf[0], buf[1], buf[2], buf[3]));
      stats := stats.(packets := stats.packets + 1);
      var discarded := Discarded(pkt);
      if discarded { return true; }
      var sysex := TagPacket(pkt, p);
      if pkt.length == 0 { return true; }
      EnqueueMessage(Received(pkt.data[0], if pkt.length > 1 then pkt.data[1] else 0,
                              if pkt.length > 2 then pkt.data[2] else 0, pkt.length, sysex));
      return true;
    }

    /** Takes the oldest pending message, if any. */
    method MessageOut() returns (m: Option<Received>)
      requires Valid()
      modifies this
      ensures Valid()
      ensures m.None? <==> old(queue) == []
      ensures m.None? ==> View() == old(View())
      ensures m.Some? ==> m.value == old(queue)[0] && View() == Take(old(View()))
    {
      if count == 0 { return None; }
      m := Some(pending[head]);
      assert pending[head] == queue[0];
      WindowShrinks(pending[..], head, 1, count);
      head := (head + 1) % RX_QUEUE;
      count := count - 1;
      stats := stats.(messages := stats.messages + 1);
      queue := queue[1..];
    }
  }

  // ---- specification of the transmitter ----------------------------------------------

  /** Code index of a SysEx end packet with `n` bytes. */
  function EndCin(n: nat): (c: nat)
    ensures 1 <= n <= 3 ==> IsSysexEnd(c) && CinDataLength(c) == n
  {
    if n <= 1 then CIN_SYSEX_END_1 else if n == 2 then CIN_SYSEX_END_2 else CIN_SYSEX_END_3
  }

  /** The packets of a SysEx run: three bytes at a time, the last one to three in an end packet. */
  function SysexPackets(cable: nat, run: seq<byte>): (ps: seq<Packet>)
    ensures |ps| > 0
  {
    if |run| <= 3 then [Build(cable, EndCin(|run|), run)]
    else [Build(cable, CIN_SYSEX_START, run[..3])] + SysexPackets(cable, run[3..])
  }

  predicate IsSysexRun(msg: seq<byte>) {
    |msg| >= 2 && msg[0] == 0xF0 && msg[|msg| - 1] == 0xF7
  }

  /** The packets of one conventional message, or None when the message is malformed. */
  function TxPackets(cable: nat, msg: seq<byte>): Option<seq<Packet>> {
    if cable > MAX_CABLE || |msg| < 1 || msg[0] < 0x80 then None
    else if msg[0] == 0xF0 then
      if IsSysexRun(msg) then Some(SysexPackets(cable, msg)) else None
    else if msg == [0xF7] then Some([Build(cable, CIN_SYSEX_END_1, msg)])
    else
      var e := Encode(cable, msg);
      if e.Some? then Some([e.value]) else None
  }

  lemma {:induction false} SysexPacketCount(cable: nat, run: seq<byte>)
    requires |run| >= 1
    ensures |SysexPackets(cable, run)| == (|run| + 2) / 3
  {
    if |run| > 3 { SysexPacketCount(cable, run[3..]); }
  }

  /** Packet `k` of a long run is a start packet with the k-th three bytes; the last one is the end packet. */
  lemma {:induction false} SysexPacketAt(cable: nat, run: seq<byte>, k: nat)
    requires k < |SysexPackets(cable, run)| && |run| >= 1
    ensures 3 * k < |run|
    ensures SysexPackets(cable, run)[k] ==
      if |run| - 3 * k <= 3 then Build(cable, EndCin(|run| - 3 * k), run[3 * k..])
      else Build(cable, CIN_SYSEX_START, run[3 * k..3 * k + 3])
  {
    if |run| > 3 && k > 0 {
      SysexPacketAt(cable, run[3..], k - 1);
      var rest := run[3..];
      assert rest[3 * (k - 1)..] == run[3 * k..];
      if |run| - 3 * k > 3 {
        assert rest[3 * (k - 1)..3 * (k - 1) + 3] == run[3 * k..3 * k + 3];
      }
    }
  }

  // ---- the transmitter ---------------------------------------------------------------

  datatype TxStats = TxStats(messages: nat, malformed: nat)

  class TxStream {
    var cable: nat
    var stats: TxStats

    constructor (cable: nat)
      ensures this.cable == (if cable <= MAX_CABLE then cable else 0) && stats == TxStats(0, 0)
    {
      this.cable := if cable <= MAX_CABLE then cable else 0;
      stats := TxStats(0, 0);
    }

    method Reject() returns (n: nat)
      modifies this`stats
      ensures n == 0 && stats == old(stats).(malformed := old(stats).malformed + 1)
    {
      stats := stats.(malformed := stats.malformed + 1);
      n := 0;
    }

    method Accept()
      modifies this`stats
      ensures stats == old(stats).(messages := old(stats).messages + 1)
    {
      stats := stats.(messages := stats.messages + 1);
    }

    /**
     * Encodes one message; `cable` selects the packets' cable nibble. All or nothing: either every packet
     * is written to `out` and counted, or nothing is written and the message is counted as malformed.
     */
    method MessageIn(cable: nat, msg: seq<byte>, out: array?<Packet>, maxPackets: nat) returns (n: nat)
      requires out != null ==> maxPackets <= out.Length
      modifies this`stats, out
      ensures var ps := TxPackets(cable, msg);
        if out != null && ps.Some? && |ps.value| <= maxPackets then
          n == |ps.value| && out[..] == ps.value + old(out[n..])
          && stats == old(stats).(messages := old(stats).messages + 1)
        else
          n == 0 && (out != null ==> out[..] == old(out[..]))
          && stats == old(stats).(malformed := old(stats).malformed + 1)
    {
      if out == null { n := Reject(); return; }
      if cable > MAX_CABLE || |msg| < 1 || msg[0] < 0x80 { n := Reject(); return; }
      if msg[0] == 0xF0 {
        if |msg| < 2 || msg[|msg| - 1] != 0xF7 { n := Reject(); return; }
        n := SysexIn(cable, msg, out, maxPackets);
        return;
      }
      if msg[0] == 0xF7 {
        if |msg| != 1 { n := Reject(); return; }
        if maxPackets < 1 { n := Reject(); return; }
        assert msg == [0xF7];
        out[0] := Build(cable, CIN_SYSEX_END_1, msg);
        Accept();
        return 1;
      }
      var e := Encode(cable, msg);
      if e.None? { n := Reject(); return; }
      if maxPackets < 1 { n := Reject(); return; }
      out[0] := e.value;
      Accept();
      n := 1;
    }

    method SysexIn(cable: nat, msg: seq<byte>, out: array<Packet>, maxPackets: nat) returns (n: nat)
      requires maxPackets <= out.Length && cable <= MAX_CABLE && IsSysexRun(msg)
      modifies this`stats, out
      ensures var ps := SysexPackets(cable, msg);
        if |ps| <= maxPackets then
          n == |ps| && out[..] == ps + old(out[n..])
          && stats == old(stats).(messages := old(stats).messages + 1)
        else
          n == 0 && out[..] == old(out[..]) && stats == old(stats).(malformed := old(stats).malformed + 1)
    {
      SysexPacketCount(cable, msg);
      if |msg| <= 3 {
        if maxPackets < 1 { n := Reject(); return; }
        out[0] := Build(cable, EndCin(|msg|), msg);
        Accept();
        return 1;
      }
      var rest := |msg| - 3;
      var needed := 1 + (rest + 2) / 3;
      if needed > maxPackets { n := Reject(); return; }
      WriteRun(cable, msg, out, needed);
      Accept();
      n := needed;
    }

    /** The start packet, the middle packets and the end packet of a run of at least four bytes. */
    method WriteRun(cable: nat, msg: seq<byte>, out: array<Packet>, needed: nat)
      requires |msg| > 3 && needed == |SysexPackets(cable, msg)| <= out.Length && needed == (|msg| + 2) / 3
      modifies out
      ensures out[..] == SysexPackets(cable, msg) + old(out[needed..])
    {
      ghost var ps := SysexPackets(cable, msg);
      out[0] := Build(cable, CIN_SYSEX_START, msg[..3]);
      SysexPacketAt(cable, msg, 0);
      var pos := 3;
      ghost var k := 1;
      while |msg| - pos > 3
        invariant 1 <= k < needed && pos == 3 * k && pos < |msg|
        invariant forall j :: 0 <= j < out.Length ==> out[j] == if j < k then ps[j] else old(out[j])
      {
        SysexPacketAt(cable, msg, k);
        assert 1 + (pos - 3) / 3 == k;
        out[1 + (pos - 3) / 3] := Build(cable, CIN_SYSEX_START, msg[pos..pos + 3]);
        pos := pos + 3;
        k := k + 1;
      }
      SysexPacketAt(cable, msg, k);
      assert k == needed - 1;
      out[needed - 1] := Build(cable, EndCin(|msg| - pos), msg[pos..]);
    }
  }
}
