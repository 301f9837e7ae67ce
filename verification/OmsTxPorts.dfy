/** The send hook over all its ports: each behaves as if the packets addressed to it were the only ones. */
module OmsTxPorts {
  import opened Words
  import opened Packets
  import opened MidiStream
  import opened OmsTx
  import opened OmsTxRuns

  /** One call of the hook. */
  datatype Call = Call(refCon: word, pkt: OmsPacket)

  predicate AllCalls(cs: seq<Call>) { forall i | 0 <= i < |cs| :: cs[i].pkt.Valid() }

  predicate OnPortOf(c: Call, k: nat) { PortIndex(c.refCon) == Some(k) }

  function Calls(h: Hook, cs: seq<Call>): (r: Hook)
    requires AllCalls(cs) && |h.carries| == MAX_INTERFACES * CABLES
    ensures |r.carries| == |h.carries|
    decreases |cs|
  {
    if cs == [] then h else Calls(SendTo(h, cs[0].refCon, cs[0].pkt), cs[1..])
  }

  /** The packets addressed to port `k`. */
  function ForPort(cs: seq<Call>, k: nat): (ps: seq<OmsPacket>)
    requires AllCalls(cs)
    ensures AllValid(ps)
  {
    if cs == [] then [] else (if OnPortOf(cs[0], k) then [cs[0].pkt] else []) + ForPort(cs[1..], k)
  }

  /** The port code of port `k`: interface number from 1, cable. */
  function CodeOf(k: nat): nat { (k / CABLES + 1) * 256 + k % CABLES }

  /** What the wire carries under a port code. */
  function Under(code: nat, ws: seq<Wired>): seq<Packet> {
    if ws == [] then [] else (if ws[0].portCode == code then [ws[0].packet] else []) + Under(code, ws[1..])
  }

  /** Everything a port sends, in order; SendAll sorts the same packets into SysEx and others. */
  function Stream(carry: seq<byte>, cable: nat, pkts: seq<OmsPacket>): seq<Packet>
    requires AllValid(pkts)
    decreases |pkts|
  {
    if pkts == [] then []
    else
      var s := SendEffect(carry, cable, pkts[0]);
      s.packets + Stream(s.carry, cable, pkts[1..])
  }

  /** The packets a port sends for SysEx chunks and for conventional messages, among calls to all ports. */
  function Output(h: Hook, cs: seq<Call>, k: nat): OmsTxRuns.Output
    requires AllCalls(cs) && |h.carries| == MAX_INTERFACES * CABLES && k < |h.carries|
    decreases |cs|
  {
    if cs == [] then OmsTxRuns.Output(h.carries[k], [], [], 0)
    else
      var o := Output(SendTo(h, cs[0].refCon, cs[0].pkt), cs[1..], k);
      if !OnPortOf(cs[0], k) then o
      else
        var s := SendEffect(h.carries[k], cs[0].refCon % 256, cs[0].pkt);
        if IsConventional(cs[0].pkt) then o.(other := s.packets + o.other, malformed := s.malformed + o.malformed)
        else o.(sysex := s.packets + o.sysex, malformed := s.malformed + o.malformed)
  }

  lemma AddressOf(refCon: word, k: nat)
    requires PortIndex(refCon) == Some(k)
    ensures refCon % 256 == k % CABLES && refCon % 65536 == CodeOf(k)
  {
    PortCode(refCon);
    var iface, cable := refCon / 256 % 256, refCon % 256;
    DivUnique(k, CABLES, iface - 1, cable);
  }

  lemma CodesDiffer(j: nat, k: nat)
    requires j != k
    ensures CodeOf(j) != CodeOf(k)
  {
    if CodeOf(j) == CodeOf(k) {
      DivUnique(CodeOf(j), 256, j / CABLES + 1, j % CABLES);
      DivUnique(CodeOf(k), 256, k / CABLES + 1, k % CABLES);
    }
  }

  lemma {:induction false} UnderConcat(code: nat, a: seq<Wired>, b: seq<Wired>)
    ensures Under(code, a + b) == Under(code, a) + Under(code, b)
  {
    if a == [] {
      assert a + b == b;
    } else {
      assert (a + b)[1..] == a[1..] + b;
      UnderConcat(code, a[1..], b);
      Assoc(if a[0].portCode == code then [a[0].packet] else [], Under(code, a[1..]), Under(code, b));
    }
  }

  lemma {:induction false} UnderOnPort(code: nat, portCode: nat, ps: seq<Packet>)
    ensures Under(code, OnPort(portCode, ps)) == if code == portCode then ps else []
    decreases |ps|
  {
    if ps != [] {
      UnderOnPort(code, portCode, ps[1..]);
      assert OnPort(portCode, ps)[1..] == OnPort(portCode, ps[1..]);
    }
  }

  /** One call, seen from port `k`. */
  lemma CallFrom(h: Hook, c: Call, k: nat)
    requires c.pkt.Valid() && |h.carries| == MAX_INTERFACES * CABLES && k < |h.carries|
    ensures var r := SendTo(h, c.refCon, c.pkt);
      if OnPortOf(c, k) then
        var s := SendEffect(h.carries[k], k % CABLES, c.pkt);
        r.carries[k] == s.carry && Under(CodeOf(k), r.wire) == Under(CodeOf(k), h.wire) + s.packets
      else r.carries[k] == h.carries[k] && Under(CodeOf(k), r.wire) == Under(CodeOf(k), h.wire)
  {
    var j := PortIndex(c.refCon);
    if j.Some? {
      AddressOf(c.refCon, j.value);
      var s := SendEffect(h.carries[j.value], c.refCon % 256, c.pkt);
      UnderConcat(CodeOf(k), h.wire, OnPort(c.refCon % 65536, s.packets));
      UnderOnPort(CodeOf(k), c.refCon % 65536, s.packets);
      if j.value != k { CodesDiffer(j.value, k); }
    }
  }

  /** On the wire and in its carry, port `k` is as if the packets addressed to it were the only ones. */
  lemma {:induction false} PortsIndependent(h: Hook, cs: seq<Call>, k: nat)
    requires AllCalls(cs) && |h.carries| == MAX_INTERFACES * CABLES && k < |h.carries|
    ensures var r := Calls(h, cs);
      && r.carries[k] == SendAll(h.carries[k], k % CABLES, ForPort(cs, k)).carry
      && Under(CodeOf(k), r.wire) == Under(CodeOf(k), h.wire) + Stream(h.carries[k], k % CABLES, ForPort(cs, k))
    decreases |cs|
  {
    if cs == [] {
      assert Under(CodeOf(k), h.wire) + [] == Under(CodeOf(k), h.wire);
    } else {
      var h1 := SendTo(h, cs[0].refCon, cs[0].pkt);
      CallFrom(h, cs[0], k);
      PortsIndependent(h1, cs[1..], k);
      if OnPortOf(cs[0], k) {
        var s := SendEffect(h.carries[k], k % CABLES, cs[0].pkt);
        var rest := ForPort(cs[1..], k);
        assert ForPort(cs, k) == [cs[0].pkt] + rest && ([cs[0].pkt] + rest)[1..] == rest;
        Assoc(Under(CodeOf(k), h.wire), s.packets, Stream(s.carry, k % CABLES, rest));
      } else {
        assert ForPort(cs, k) == ForPort(cs[1..], k);
      }
    }
  }

  lemma {:induction false} OutputAlone(h: Hook, cs: seq<Call>, k: nat)
    requires AllCalls(cs) && |h.carries| == MAX_INTERFACES * CABLES && k < |h.carries|
    ensures Output(h, cs, k) == SendAll(h.carries[k], k % CABLES, ForPort(cs, k))
    decreases |cs|
  {
    if cs != [] {
      CallFrom(h, cs[0], k);
      OutputAlone(SendTo(h, cs[0].refCon, cs[0].pkt), cs[1..], k);
      var rest := ForPort(cs[1..], k);
      if OnPortOf(cs[0], k) {
        AddressOf(cs[0].refCon, k);
        assert ForPort(cs, k) == [cs[0].pkt] + rest && ([cs[0].pkt] + rest)[1..] == rest;
      } else {
        assert ForPort(cs, k) == rest;
      }
    }
  }

  /**
   * Chunking independence with any traffic on the other ports: if what is addressed to an idle port spells the
   * runs `runs` and the messages `msgs`, the port sends the one-shot packets of the runs and of the messages,
   * ends idle, and refuses nothing.
   */
  lemma ChunkingIndependenceOnPort(h: Hook, cs: seq<Call>, k: nat, runs: seq<seq<byte>>, msgs: seq<seq<byte>>)
    requires AllCalls(cs) && |h.carries| == MAX_INTERFACES * CABLES && k < |h.carries| && h.carries[k] == []
    requires Spells([], runs, msgs, ForPort(cs, k)) && Runs(runs) && Plain(k % CABLES, msgs)
    ensures Output(h, cs, k) == OmsTxRuns.Output([], OneShot(k % CABLES, runs), OneShot(k % CABLES, msgs), 0)
    ensures Calls(h, cs).carries[k] == []
    ensures msgs == [] ==> Under(CodeOf(k), Calls(h, cs).wire) == Under(CodeOf(k), h.wire) + OneShot(k % CABLES, runs)
  {
    OutputAlone(h, cs, k);
    ChunkingIndependence(k % CABLES, runs, msgs, ForPort(cs, k));
    PortsIndependent(h, cs, k);
    if msgs == [] { OnlySysex([], [], k % CABLES, runs, ForPort(cs, k)); }
  }

  /** Without conventional messages all a port sends is SysEx. */
  lemma {:induction false} OnlySysex(carry: seq<byte>, acc: seq<byte>, cable: nat, runs: seq<seq<byte>>, pkts: seq<OmsPacket>)
    requires AllValid(pkts) && Spells(acc, runs, [], pkts)
    ensures Stream(carry, cable, pkts) == SendAll(carry, cable, pkts).sysex
    decreases |pkts|
  {
    if pkts != [] {
      var p, rest := pkts[0], pkts[1..];
      var s := SendEffect(carry, cable, p);
      match ModeOf(p)
      case Whole => OnlySysex(s.carry, [], cable, runs[1..], rest);
      case Starts => OnlySysex(s.carry, p.Bytes(), cable, runs, rest);
      case Continues => OnlySysex(s.carry, acc + p.Bytes(), cable, runs, rest);
      case Ends => OnlySysex(s.carry, [], cable, runs[1..], rest);
    }
  }
}
