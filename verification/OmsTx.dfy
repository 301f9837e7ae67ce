/** The send hook: OMS packets of up to four bytes, re-chunked into three-byte Event Packets. */
module OmsTx {
  import opened Words
  import opened Packets
  import opened MidiStream

  const MAX_INTERFACES := 8
  const CABLES := 16

  const OMS_NO_CONT := 0
  const OMS_START_CONT := 1
  const OMS_END_CONT := 2
  const OMS_MID_CONT := 3

  /** An OMSMIDIPacket: flags, the number of MIDI bytes, and the fixed four-byte data field. */
  datatype OmsPacket = OmsPacket(flags: byte, len: byte, data: seq<byte>) {
    predicate Valid() { |data| == 4 }
    function Cont(): nat { flags % 4 }
    function Bytes(): seq<byte> requires Valid() { data[..Min(len, 4)] }
  }

  /** How a SysEx chunk relates to its run; Whole is a complete run in one packet. */
  datatype Mode = Starts | Ends | Continues | Whole

  // ---- specification -------------------------------------------------------------------

  /** The three-byte start packets that can be made of `a`, and the bytes left over. */
  function StartPackets(cable: nat, a: seq<byte>): seq<Packet> {
    if |a| < 3 then [] else [Build(cable, CIN_SYSEX_START, a[..3])] + StartPackets(cable, a[3..])
  }

  function Remainder(a: seq<byte>): (r: seq<byte>)
    ensures |r| < 3
  {
    if |a| < 3 then a else Remainder(a[3..])
  }

  /** What one call leaves in the carry, sends, and adds to the malformed counter. */
  datatype Sent = Sent(carry: seq<byte>, packets: seq<Packet>, malformed: nat)

  predicate BadStart(carry: seq<byte>, mode: Mode, len: nat, first: byte) {
    (mode == Starts || mode == Whole) && (carry != [] || len == 0 || first != 0xF0)
  }

  predicate Overflows(carry: seq<byte>, len: nat) { |carry| + len > 6 }

  function ChunkEffect(carry: seq<byte>, cable: nat, mode: Mode, len: nat, data: seq<byte>): Sent
    requires |data| == 4
  {
    var bad := BadStart(carry, mode, len, data[0]);
    var m := if bad then 1 else 0;
    var c := if bad then [] else carry;
    if mode == Whole && (len < 2 || len > 4 || data[len - 1] != 0xF7) then Sent(c, [], m + 1)
    else if len == 0 || len > 4 then Sent(c, [], m + 1)
    else if Overflows(c, len) then Sent([], [], m + 1)
    else if mode == Ends || mode == Whole then Sent([], SysexPackets(cable, c + data[..len]), m)
    else Sent(Remainder(c + data[..len]), StartPackets(cable, c + data[..len]), m)
  }

  predicate IsConventional(pkt: OmsPacket)
    requires pkt.Valid()
  {
    pkt.Cont() == OMS_NO_CONT && !(pkt.len >= 1 && pkt.data[0] == 0xF0)
  }

  function ModeOf(pkt: OmsPacket): Mode
    requires pkt.Valid() && !IsConventional(pkt)
  {
    match pkt.Cont()
    case 0 => Whole
    case 1 => Starts
    case 2 => Ends
    case _ => Continues
  }

  /** The effect of the send hook on the addressed port. */
  function SendEffect(carry: seq<byte>, cable: nat, pkt: OmsPacket): Sent
    requires pkt.Valid()
  {
    if IsConventional(pkt) then
      if pkt.len < 1 || pkt.len > 3 then Sent(carry, [], 1)
      else
        var ps := TxPackets(cable, pkt.Bytes());
        if ps.None? || |ps.value| != 1 then Sent(carry, [], 1) else Sent(carry, ps.value, 0)
    else ChunkEffect(carry, cable, ModeOf(pkt), pkt.len, pkt.data)
  }

  /** A carry of at most two bytes stays that small, whatever is sent, and the overflow guard never fires. */
  lemma CarryStaysSmall(carry: seq<byte>, cable: nat, pkt: OmsPacket)
    requires pkt.Valid() && |carry| <= 2
    ensures |SendEffect(carry, cable, pkt).carry| <= 2
    ensures 1 <= pkt.len <= 4 ==> !Overflows(carry, pkt.len) && !Overflows([], pkt.len)
  {
  }

  // ---- the code ---------------------------------------------------------------------------

  class TxPort {
    const tx: TxStream
    const txCarry: array<byte>
    var txCarryLen: nat

    constructor (cable: nat)
      ensures fresh(tx) && fresh(txCarry) && Valid() && Carry() == []
    {
      tx := new TxStream(cable);
      txCarry := new byte[3](_ => 0);
      txCarryLen := 0;
    }

    ghost predicate Valid() reads this { txCarry.Length == 3 && txCarryLen <= 2 }

    ghost function Carry(): seq<byte>
      requires Valid()
      reads this, txCarry
    {
      txCarry[..txCarryLen]
    }
  }

  /** The port a refCon addresses: interface number in bits 8-15 (from 1), cable in bits 0-7. */
  function PortIndex(refCon: word): (r: Option<nat>)
    ensures r.Some? ==> r.value < MAX_INTERFACES * CABLES
  {
    var iface, cable := refCon / 256 % 256, refCon % 256;
    if iface < 1 || iface > MAX_INTERFACES || cable >= CABLES then None
    else Some((iface - 1) * CABLES + cable)
  }

  datatype Wired = Wired(portCode: nat, packet: Packet)

  /** The C ports are separate structures: no two share a carry buffer or a transmit stream. */
  ghost predicate Separate(ports: seq<TxPort>) {
    forall i, j | 0 <= i < |ports| && 0 <= j < |ports| && i != j ::
      ports[i] != ports[j] && ports[i].txCarry != ports[j].txCarry && ports[i].tx != ports[j].tx
  }

  /** The send hook as its callers see it: the carry of every port, what went out, what was refused. */
  datatype Hook = Hook(carries: seq<seq<byte>>, wire: seq<Wired>, malformed: nat)

  /** One call of the hook: an unusable refCon is malformed; otherwise only the addressed port's carry changes. */
  function SendTo(h: Hook, refCon: word, pkt: OmsPacket): (r: Hook)
    requires pkt.Valid() && |h.carries| == MAX_INTERFACES * CABLES
    ensures |r.carries| == |h.carries|
  {
    var k := PortIndex(refCon);
    if k.None? then h.(malformed := h.malformed + 1)
    else
      var s := SendEffect(h.carries[k.value], refCon % 256, pkt);
      Hook(h.carries[k.value := s.carry], h.wire + OnPort(refCon % 65536, s.packets), h.malformed + s.malformed)
  }

  function OnPort(portCode: nat, ps: seq<Packet>): (ws: seq<Wired>)
    ensures |ws| == |ps|
  {
    seq(|ps|, i requires 0 <= i < |ps| => Wired(portCode, ps[i]))
  }

  class OmsOutput {
    const ports: seq<TxPort>  // interface-major: CABLES ports for each interface
    var converted: nat
    var malformed: nat
    var wire: seq<Wired>      // everything handed to the transport

    /** Sixteen idle ports for each interface. */
    constructor ()
      ensures Valid() && View() == Hook(seq(MAX_INTERFACES * CABLES, _ => []), [], 0) && converted == 0
      ensures forall p <- ports :: fresh(p) && fresh(p.tx) && fresh(p.txCarry)
    {
      var ps: seq<TxPort> := [];
      for i := 0 to MAX_INTERFACES * CABLES
        invariant |ps| == i && Separate(ps)
        invariant forall p <- ps :: fresh(p) && fresh(p.tx) && fresh(p.txCarry) && p.Valid() && p.Carry() == []
      {
        var p := new TxPort(i % CABLES);
        ps := ps + [p];
      }
      ports := ps;
      converted, malformed, wire := 0, 0, [];
    }

    method Emit(portCode: nat, cable: nat, cin: nat, data: seq<byte>)
      modifies this`converted, this`wire
      ensures wire == old(wire) + [Wired(portCode, Build(cable, cin, data))] && converted == old(converted) + 1
    {
      converted := converted + 1;
      wire := wire + [Wired(portCode, Build(cable, cin, data))];
    }

    /** Start packets while `keep` bytes or more remain; returns how many bytes were sent. */
    method EmitStarts(portCode: nat, cable: nat, a: array<byte>, n: nat, keep: nat) returns (pos: nat)
      requires n <= a.Length && 3 <= keep <= 4
      modifies this`converted, this`wire
      ensures pos <= n && n - pos < keep && (0 < n && keep == 4 ==> pos < n)
      ensures pos % 3 == 0
      ensures wire == old(wire) + OnPort(portCode, StartPackets(cable, a[..pos]))
      ensures converted == old(converted) + |StartPackets(cable, a[..pos])|
    {
      pos := 0;
      ghost var k := 0;
      assert StartPackets(cable, a[..0]) == [] && OnPort(portCode, []) == [];
      while n - pos >= keep
        invariant pos <= n && pos == 3 * k
        invariant 0 < n && keep == 4 ==> pos < n
        invariant wire == old(wire) + OnPort(portCode, StartPackets(cable, a[..pos]))
        invariant converted == old(converted) + |StartPackets(cable, a[..pos])|
      {
        Emit(portCode, cable, CIN_SYSEX_START, a[pos..pos + 3]);
        StartPacketsGrow(cable, a[..pos], a[pos..pos + 3]);
        assert a[..pos + 3] == a[..pos] + a[pos..pos + 3];
        pos := pos + 3;
        k := k + 1;
      }
    }

    /** One SysEx chunk of `len` bytes; `beyond` is what lies in memory where the last byte of an over-long one
        would be. */
    method SysexChunk(port: TxPort, portCode: nat, cable: nat, mode: Mode, data: seq<byte>, len: nat, beyond: byte)
      requires port.Valid() && |data| == 4
      modifies this, port, port.txCarry
      ensures port.Valid()
      ensures var s := ChunkEffect(old(port.Carry()), cable, mode, len, data);
        && port.Carry() == s.carry
        && wire == old(wire) + OnPort(portCode, s.packets)
        && converted == old(converted) + |s.packets|
        && malformed == old(malformed) + s.malformed
    {
      assert OnPort(portCode, []) == [];
      var isStart := mode == Starts || mode == Whole;
      var isEnd := mode == Ends || mode == Whole;
      if isStart {
        if port.txCarryLen != 0 || len == 0 || data[0] != 0xF0 {
          malformed := malformed + 1;
          port.txCarryLen := 0;
        }
      }
      if mode == Whole && (len < 2 || (if len > 4 then beyond else data[len - 1]) != 0xF7) {
        malformed := malformed + 1;
        return;
      }
      if len == 0 || len > 4 {
        malformed := malformed + 1;
        return;
      }
      if port.txCarryLen + len > 6 {
        assert false;  // the defensive branch of the C code is dead: the carry holds at most two bytes
      }
      var carry := new byte[6](_ => 0);
      var carryLen := Append(carry, port, data, len);
      port.txCarryLen := 0;
      if isEnd {
        FlushRun(portCode, cable, carry, carryLen);
      } else {
        SendKeepingRest(port, portCode, cable, carry, carryLen);
      }
    }

    /** End of a run: middle packets until one to three bytes remain, which form the end packet. */
    method FlushRun(portCode: nat, cable: nat, carry: array<byte>, n: nat)
      requires 0 < n <= carry.Length
      modifies this`converted, this`wire
      ensures var ps := SysexPackets(cable, carry[..n]);
        wire == old(wire) + OnPort(portCode, ps) && converted == old(converted) + |ps|
    {
      var pos := EmitStarts(portCode, cable, carry, n, 4);
      Emit(portCode, cable, EndCin(n - pos), carry[pos..n]);
      assert carry[..n][..pos] == carry[..pos] && carry[..n][pos..] == carry[pos..n];
      SplitAtEnd(cable, carry[..n], pos);
    }

    /** Inside a run: middle packets while three bytes remain; the rest waits in the port's carry. */
    method SendKeepingRest(port: TxPort, portCode: nat, cable: nat, carry: array<byte>, n: nat)
      requires n <= carry.Length && port.txCarry.Length == 3 && carry != port.txCarry
      modifies this`converted, this`wire, port, port.txCarry
      ensures port.Valid() && port.Carry() == Remainder(carry[..n])
      ensures var ps := StartPackets(cable, carry[..n]);
        wire == old(wire) + OnPort(portCode, ps) && converted == old(converted) + |ps|
    {
      var pos := EmitStarts(portCode, cable, carry, n, 3);
      assert carry[..n][..pos] == carry[..pos] && carry[..n][pos..] == carry[pos..n];
      SplitAtRest(cable, carry[..n], pos);
      port.txCarryLen := n - pos;
      for i := 0 to n - pos
        invariant forall k :: 0 <= k < i ==> port.txCarry[k] == carry[pos + k]
        modifies port.txCarry
      {
        port.txCarry[i] := carry[pos + i];
      }
    }

    /** Collects the port's carry and the new chunk. */
    method Append(carry: array<byte>, port: TxPort, data: seq<byte>, len: nat) returns (n: nat)
      requires port.Valid() && carry != port.txCarry && carry.Length == 6
      requires len <= |data| && port.txCarryLen + len <= 6
      modifies carry
      ensures n == port.txCarryLen + len && carry[..n] == port.Carry() + data[..len]
    {
      n := port.txCarryLen;
      for i := 0 to port.txCarryLen
        invariant forall k :: 0 <= k < i ==> carry[k] == port.txCarry[k]
      {
        carry[i] := port.txCarry[i];
      }
      for i := 0 to len
        invariant n == port.txCarryLen + i
        invariant forall k :: 0 <= k < n ==> carry[k] == (port.Carry() + data[..len])[k]
      {
        carry[n] := data[i];
        n := n + 1;
      }
    }

    /** The part of the send hook that works on the port it has found. */
    method SendOn(port: TxPort, portCode: nat, cable: nat, pkt: OmsPacket, beyond: byte)
      requires pkt.Valid() && port.Valid() && cable <= MAX_CABLE
      modifies this, port, port.txCarry, port.tx
      ensures port.Valid()
      ensures var s := SendEffect(old(port.Carry()), cable, pkt);
        && port.Carry() == s.carry
        && wire == old(wire) + OnPort(portCode, s.packets)
        && converted == old(converted) + |s.packets|
        && malformed == old(malformed) + s.malformed
    {
      assert OnPort(portCode, []) == [];
      if pkt.Cont() == OMS_NO_CONT {
        if pkt.len >= 1 && pkt.data[0] == 0xF0 {
          SysexChunk(port, portCode, cable, Whole, pkt.data, pkt.len, beyond);
        } else {
          if pkt.len < 1 || pkt.len > 3 {
            malformed := malformed + 1;
            return;
          }
          var out := new Packet[2](_ => Packet(0, 0, 0, 0));
          var n := port.tx.MessageIn(cable, pkt.data[..pkt.len], out, 2);
          if n != 1 {
            malformed := malformed + 1;
            return;
          }
          var p := out[0];
          ConventionalPacket(cable, pkt.data[..pkt.len], p);
          Emit(portCode, cable, p.b0 % 16, [p.b1, p.b2, p.b3][..pkt.len]);
        }
      } else {
        var mode := if pkt.Cont() == OMS_START_CONT then Starts
                    else if pkt.Cont() == OMS_END_CONT then Ends else Continues;
        SysexChunk(port, portCode, cable, mode, pkt.data, pkt.len, beyond);
      }
    }

    /** All ports are in order. */
    ghost predicate Valid()
      reads ports
    {
      |ports| == MAX_INTERFACES * CABLES && Separate(ports) && forall i | 0 <= i < |ports| :: ports[i].Valid()
    }

    ghost function Carries(): (cs: seq<seq<byte>>)
      requires Valid()
      reads ports, set p <- ports :: p.txCarry
      ensures |cs| == |ports|
    {
      seq(|ports|, i requires 0 <= i < |ports| reads ports, set p <- ports :: p.txCarry requires Valid() => ports[i].Carry())
    }

    ghost function View(): Hook
      requires Valid()
      reads this, ports, set p <- ports :: p.txCarry
    {
      Hook(Carries(), wire, malformed)
    }

    /** The send hook; it returns the port it has found. */
    method Send(pkt: OmsPacket, refCon: word, beyond: byte) returns (port: TxPort?)
      requires pkt.Valid() && Valid()
      modifies this, ports, set p <- ports :: p.tx, set p <- ports :: p.txCarry
      ensures Valid() && View() == SendTo(old(View()), refCon, pkt)
      ensures converted == old(converted) + |wire| - |old(wire)|
      ensures port == if PortIndex(refCon).Some? then ports[PortIndex(refCon).value] else null
      ensures forall p <- ports :: p != port ==> p.tx.stats == old(p.tx.stats)
    {
      var iface, cable := refCon / 256 % 256, refCon % 256;
      if iface < 1 || iface > MAX_INTERFACES || cable >= CABLES {
        malformed := malformed + 1;
        assert Carries() == old(Carries());
        return null;
      }
      var k := (iface - 1) * CABLES + cable;
      port := ports[k];
      PortCode(refCon);
      SendOn(port, iface * 256 + cable, cable, pkt, beyond);
      assert Carries() == old(Carries())[k := port.Carry()];
    }
  }

  /** The port code is the two low bytes of the refCon. */
  lemma PortCode(refCon: word)
    ensures (refCon / 256 % 256) * 256 + refCon % 256 == refCon % 65536
  {
    var hi, lo := refCon / 256, refCon % 256;
    assert refCon == (hi / 256) * 65536 + ((hi % 256) * 256 + lo);
    DivUnique(refCon, 65536, hi / 256, (hi % 256) * 256 + lo);
  }

  /** Re-emitting the only packet of a message that is no SysEx run gives the packet itself. */
  lemma ConventionalPacket(cable: nat, msg: seq<byte>, p: Packet)
    requires TxPackets(cable, msg) == Some([p]) && msg[0] != 0xF0
    ensures |msg| <= 3 && Build(cable, p.b0 % 16, [p.b1, p.b2, p.b3][..|msg|]) == p
  {
    var cin := if msg[0] == 0xF7 then CIN_SYSEX_END_1 else CinForStatus(msg[0]).value.cin;
    assert p == Build(cable, cin, msg);
    HeaderByte(cable, cin);
  }

  lemma {:induction false} StartPacketsGrow(cable: nat, a: seq<byte>, b: seq<byte>)
    requires |a| % 3 == 0 && |b| == 3
    ensures StartPackets(cable, a + b) == StartPackets(cable, a) + [Build(cable, CIN_SYSEX_START, b)]
  {
    if a == [] {
      assert a + b == b && b[..3] == b;
    } else {
      assert (a + b)[3..] == a[3..] + b && (a + b)[..3] == a[..3];
      StartPacketsGrow(cable, a[3..], b);
    }
  }

  /** Once fewer than three bytes remain, the split into start packets and remainder is done. */
  lemma {:induction false} SplitAtRest(cable: nat, a: seq<byte>, pos: nat)
    requires pos % 3 == 0 && pos <= |a| < pos + 3
    ensures StartPackets(cable, a) == StartPackets(cable, a[..pos]) && Remainder(a) == a[pos..]
  {
    if pos > 0 {
      SplitAtRest(cable, a[3..], pos - 3);
      assert a[3..][..pos - 3] == a[..pos][3..] && a[3..][pos - 3..] == a[pos..] && a[..pos][..3] == a[..3];
    }
  }

  /** The last one to three bytes form the end packet. */
  lemma {:induction false} SplitAtEnd(cable: nat, a: seq<byte>, pos: nat)
    requires pos % 3 == 0 && pos < |a| <= pos + 3
    ensures SysexPackets(cable, a) ==
      StartPackets(cable, a[..pos]) + [Build(cable, EndCin(|a| - pos), a[pos..])]
  {
    if pos > 0 {
      SplitAtEnd(cable, a[3..], pos - 3);
      assert a[3..][..pos - 3] == a[..pos][3..] && a[3..][pos - 3..] == a[pos..] && a[..pos][..3] == a[..3];
    } else {
      assert a[0..] == a;
    }
  }
}
