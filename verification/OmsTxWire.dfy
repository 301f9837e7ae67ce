/** What the send hook makes of every packet, malformed ones included, said in bytes. */
module OmsTxWire {
  import opened Words
  import opened Packets
  import opened MidiStream
  import opened OmsTx
  import opened Wire

  // ---- what a packet asks for ---------------------------------------------------------------

  predicate Begins(pkt: OmsPacket)
    requires pkt.Valid()
  {
    pkt.flags % 4 == 1 || IsRun(pkt)
  }

  /** Without continuation flags, F0 in front makes a packet a whole SysEx run. */
  predicate IsRun(pkt: OmsPacket)
    requires pkt.Valid()
  {
    pkt.flags % 4 == 0 && pkt.len >= 1 && pkt.data[0] == 0xF0
  }

  predicate IsChunk(pkt: OmsPacket)
    requires pkt.Valid()
  {
    pkt.flags % 4 != 0 || IsRun(pkt)
  }

  /** A chunk that begins a run in the middle of another, or not with F0. */
  predicate OutOfPlace(carry: seq<byte>, pkt: OmsPacket)
    requires pkt.Valid()
  {
    Begins(pkt) && (carry != [] || pkt.len == 0 || pkt.data[0] != 0xF0)
  }

  /** A chunk that is not sent: without bytes, with more than four, or a whole run that is too short or does not end with F7. */
  predicate Unsendable(pkt: OmsPacket)
    requires pkt.Valid()
  {
    pkt.len == 0 || pkt.len > 4 || (IsRun(pkt) && (pkt.len < 2 || pkt.data[pkt.len - 1] != 0xF7))
  }

  // ---- what goes out -------------------------------------------------------------------------

  /** The data bytes of SysEx packets: code 4 has three, and the end codes 6, 7 and 8 one, two and three. */
  function Carried(ps: seq<Packet>): seq<byte> {
    if ps == [] then []
    else
      var p := ps[0];
      [p.b1, p.b2, p.b3][..Count(p.b0 as int % 16)] + Carried(ps[1..])
  }

  function Count(code: nat): (n: nat)
    ensures n <= 3
  {
    if code == 4 || code == 8 then 3 else if code == 7 then 2 else if code == 6 then 1 else 0
  }

  predicate AllCode4(cable: nat, ps: seq<Packet>) { forall k | 0 <= k < |ps| :: ps[k].b0 as int == 16 * cable + 4 }

  /** One end packet, and it comes last. */
  predicate Ended(cable: nat, ps: seq<Packet>) {
    && ps != [] && AllCode4(cable, ps[..|ps| - 1])
    && 16 * cable + 6 <= ps[|ps| - 1].b0 as int <= 16 * cable + 8
  }

  lemma {:induction false} StartsCarried(cable: nat, a: seq<byte>)
    requires cable <= 15
    ensures Carried(StartPackets(cable, a)) + Remainder(a) == a && AllCode4(cable, StartPackets(cable, a))
    decreases |a|
  {
    if |a| >= 3 {
      var p, rest := Build(cable, 4, a[..3]), StartPackets(cable, a[3..]);
      BuildOnWire(cable, 4, a[..3]);
      StartsCarried(cable, a[3..]);
      HeaderByte(cable, 4);
      assert StartPackets(cable, a) == [p] + rest && ([p] + rest)[1..] == rest;
      assert [p.b1, p.b2, p.b3][..3] == a[..3];
      Assoc(a[..3], Carried(rest), Remainder(a[3..]));
    }
  }

  lemma {:induction false} RunCarried(cable: nat, a: seq<byte>)
    requires cable <= 15 && a != []
    ensures Carried(SysexPackets(cable, a)) == a && Ended(cable, SysexPackets(cable, a))
    decreases |a|
  {
    if |a| > 3 {
      var p, rest := Build(cable, 4, a[..3]), SysexPackets(cable, a[3..]);
      BuildOnWire(cable, 4, a[..3]);
      RunCarried(cable, a[3..]);
      HeaderByte(cable, 4);
      var ps := SysexPackets(cable, a);
      assert ps == [p] + rest && ps[1..] == rest;
      assert [p.b1, p.b2, p.b3][..3] == a[..3];
      assert ps[..|ps| - 1] == [p] + rest[..|rest| - 1];
      assert ps[|ps| - 1] == rest[|rest| - 1];
    } else {
      LastCarried(cable, a);
    }
  }

  lemma LastCarried(cable: nat, a: seq<byte>)
    requires cable <= 15 && 1 <= |a| <= 3
    ensures Carried(SysexPackets(cable, a)) == a && Ended(cable, SysexPackets(cable, a))
  {
    var p := Build(cable, 5 + |a|, a);
    BuildOnWire(cable, 5 + |a|, a);
    HeaderByte(cable, 5 + |a|);
    assert SysexPackets(cable, a) == [p];
    assert [p.b1, p.b2, p.b3][..|a|] == a;
    assert [p][1..] == [];
  }

  // ---- one call of the hook -----------------------------------------------------------------------

  /** A conventional packet is sent as its one message, or counted, and leaves the run alone. */
  lemma ConventionalIs(carry: seq<byte>, cable: nat, pkt: OmsPacket)
    requires pkt.Valid() && !IsChunk(pkt) && cable <= 15
    ensures var s := SendEffect(carry, cable, pkt);
      && s.carry == carry
      && (if 1 <= pkt.len <= 3 && Wire.Whole(pkt.data[..pkt.len]) then
            s.malformed == 0 && |s.packets| == 1 && Some(s.packets) == TxPackets(cable, pkt.data[..pkt.len])
          else s.malformed == 1 && s.packets == [])
  {
    if 1 <= pkt.len <= 3 { AcceptedIff(cable, pkt.data[..pkt.len]); }
  }

  /** Exactly which chunks are counted as malformed: those out of place and those that cannot be sent, twice if both. A
      chunk out of place drops what has been carried; one that cannot be sent changes nothing else. */
  lemma MalformedIs(carry: seq<byte>, cable: nat, pkt: OmsPacket)
    requires pkt.Valid() && IsChunk(pkt) && |carry| <= 2
    ensures var s := SendEffect(carry, cable, pkt);
      && s.malformed == (if OutOfPlace(carry, pkt) then 1 else 0) + (if Unsendable(pkt) then 1 else 0)
      && (Unsendable(pkt) ==> s.packets == [] && s.carry == if OutOfPlace(carry, pkt) then [] else carry)
  {
  }

  lemma ChunkSent(carry: seq<byte>, cable: nat, pkt: OmsPacket, base: seq<byte>)
    requires pkt.Valid() && IsChunk(pkt) && |carry| <= 2 && !Unsendable(pkt) && base == if OutOfPlace(carry, pkt) then [] else carry
    ensures var s, a := SendEffect(carry, cable, pkt), base + pkt.data[..pkt.len];
      if pkt.flags % 4 == 1 || pkt.flags % 4 == 3 then s.packets == StartPackets(cable, a) && s.carry == Remainder(a)
      else s.packets == SysexPackets(cable, a) && s.carry == []
  {
  }

  /** Every byte of a chunk goes out or is kept: the data of the packets and then the new carry are the old carry and then
      the chunk. A chunk with the flags 1 or 3 sends packets of code 4 alone; with the flags 2 or 0 the run is ended. */
  lemma ChunkConserves(carry: seq<byte>, cable: nat, pkt: OmsPacket)
    requires pkt.Valid() && IsChunk(pkt) && |carry| <= 2 && !Unsendable(pkt) && cable <= 15
    ensures var s, base := SendEffect(carry, cable, pkt), if OutOfPlace(carry, pkt) then [] else carry;
      && Carried(s.packets) + s.carry == base + pkt.data[..pkt.len] && |s.carry| <= 2
      && (if pkt.flags % 4 == 1 || pkt.flags % 4 == 3 then AllCode4(cable, s.packets)
          else s.carry == [] && Ended(cable, s.packets))
  {
    var base := if OutOfPlace(carry, pkt) then [] else carry;
    var a := base + pkt.data[..pkt.len];
    ChunkSent(carry, cable, pkt, base);
    StartsCarried(cable, a);
    RunCarried(cable, a);
    assert a + [] == a;
  }

  /** Which ports there are, and that no two interfaces or cables share one. */
  lemma PortsApart(a: word, b: word)
    ensures PortIndex(a).Some? <==> 1 <= a / 256 % 256 <= 8 && a % 256 < 16
    ensures PortIndex(a).Some? && PortIndex(a) == PortIndex(b) ==> a / 256 % 256 == b / 256 % 256 && a % 256 == b % 256
  {
  }
}
