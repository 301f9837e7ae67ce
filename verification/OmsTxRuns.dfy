/** However a SysEx run is cut into OMS packets, the wire carries the packets of the whole run. */
module OmsTxRuns {
  import opened Words
  import opened Packets
  import opened MidiStream
  import opened OmsTx

  /** What a sequence of sends leaves behind and emits, SysEx packets and other packets apart. */
  datatype Output = Output(carry: seq<byte>, sysex: seq<Packet>, other: seq<Packet>, malformed: nat)

  predicate AllValid(pkts: seq<OmsPacket>) { forall p <- pkts :: p.Valid() }

  function SendAll(carry: seq<byte>, cable: nat, pkts: seq<OmsPacket>): Output
    requires AllValid(pkts)
    decreases |pkts|
  {
    if pkts == [] then Output(carry, [], [], 0)
    else
      var s := SendEffect(carry, cable, pkts[0]);
      var o := SendAll(s.carry, cable, pkts[1..]);
      if IsConventional(pkts[0]) then Output(o.carry, o.sysex, s.packets + o.other, s.malformed + o.malformed)
      else Output(o.carry, s.packets + o.sysex, o.other, s.malformed + o.malformed)
  }

  /**
   * The packets carry the SysEx runs `runs`, of whose first one `acc` has been carried already, and the
   * conventional messages `msgs`, in any interleaving: every run is one whole packet, or a start chunk,
   * any number of middle chunks and an end chunk, of one to four bytes each.
   */
  predicate Spells(acc: seq<byte>, runs: seq<seq<byte>>, msgs: seq<seq<byte>>, pkts: seq<OmsPacket>)
    requires AllValid(pkts)
    decreases |pkts|
  {
    if pkts == [] then acc == [] && runs == [] && msgs == []
    else
      var p, rest := pkts[0], pkts[1..];
      if IsConventional(p) then
        p.len <= 4 && msgs != [] && p.Bytes() == msgs[0] && Spells(acc, runs, msgs[1..], rest)
      else
        && 1 <= p.len <= 4 && runs != []
        && match ModeOf(p)
           case Whole => acc == [] && p.Bytes() == runs[0] && Spells([], runs[1..], msgs, rest)
           case Starts => acc == [] && Spells(p.Bytes(), runs, msgs, rest)
           case Continues => acc != [] && Spells(acc + p.Bytes(), runs, msgs, rest)
           case Ends => acc != [] && acc + p.Bytes() == runs[0] && Spells([], runs[1..], msgs, rest)
  }

  predicate Runs(rs: seq<seq<byte>>) { forall r <- rs :: IsSysexRun(r) }

  /** Messages that are no SysEx runs and that the one-shot encoder accepts. */
  predicate Plain(cable: nat, ms: seq<seq<byte>>) {
    forall m <- ms :: TxPackets(cable, m).Some? && m[0] != 0xF0
  }

  /** The packets the one-shot encoder builds for each message in turn. */
  function OneShot(cable: nat, ms: seq<seq<byte>>): seq<Packet>
    requires forall m <- ms :: TxPackets(cable, m).Some?
  {
    if ms == [] then [] else TxPackets(cable, ms[0]).value + OneShot(cable, ms[1..])
  }

  // ---- cutting a run -------------------------------------------------------------------

  lemma {:induction false} StartSplit(cable: nat, a: seq<byte>, b: seq<byte>)
    ensures StartPackets(cable, a + b) == StartPackets(cable, a) + StartPackets(cable, Remainder(a) + b)
    ensures Remainder(a + b) == Remainder(Remainder(a) + b)
  {
    if |a| >= 3 {
      assert (a + b)[3..] == a[3..] + b && (a + b)[..3] == a[..3];
      StartSplit(cable, a[3..], b);
    }
  }

  lemma {:induction false} EndSplit(cable: nat, a: seq<byte>, b: seq<byte>)
    requires b != []
    ensures SysexPackets(cable, a + b) == StartPackets(cable, a) + SysexPackets(cable, Remainder(a) + b)
  {
    if |a| >= 3 {
      assert (a + b)[3..] == a[3..] + b && (a + b)[..3] == a[..3];
      EndSplit(cable, a[3..], b);
    }
  }

  /** What has been carried of an open run is the beginning of that run. */
  lemma {:induction false} CarriedPrefix(acc: seq<byte>, runs: seq<seq<byte>>, msgs: seq<seq<byte>>, pkts: seq<OmsPacket>)
    requires AllValid(pkts) && acc != [] && Spells(acc, runs, msgs, pkts)
    ensures runs != [] && acc <= runs[0]
    decreases |pkts|
  {
    var p, rest := pkts[0], pkts[1..];
    if IsConventional(p) {
      CarriedPrefix(acc, runs, msgs[1..], rest);
    } else if ModeOf(p) == Continues {
      CarriedPrefix(acc + p.Bytes(), runs, msgs, rest);
    }
  }

  // ---- one send ------------------------------------------------------------------------

  lemma StartChunk(cable: nat, p: OmsPacket, run: seq<byte>)
    requires p.Valid() && !IsConventional(p) && ModeOf(p) == Starts && 1 <= p.len <= 4
    requires IsSysexRun(run) && p.Bytes() <= run
    ensures SendEffect([], cable, p) == Sent(Remainder(p.Bytes()), StartPackets(cable, p.Bytes()), 0)
  {
    assert p.data[0] == p.Bytes()[0] == run[0];
    assert [] + p.data[..p.len] == p.Bytes();
  }

  lemma MiddleChunk(cable: nat, acc: seq<byte>, p: OmsPacket)
    requires p.Valid() && !IsConventional(p) && ModeOf(p) == Continues && 1 <= p.len <= 4
    ensures var s := SendEffect(Remainder(acc), cable, p);
      && s.carry == Remainder(acc + p.Bytes()) && s.malformed == 0
      && StartPackets(cable, acc) + s.packets == StartPackets(cable, acc + p.Bytes())
  {
    StartSplit(cable, acc, p.Bytes());
  }

  lemma EndChunk(cable: nat, acc: seq<byte>, p: OmsPacket)
    requires p.Valid() && !IsConventional(p) && ModeOf(p) == Ends && 1 <= p.len <= 4
    ensures var s := SendEffect(Remainder(acc), cable, p);
      && s.carry == [] && s.malformed == 0
      && StartPackets(cable, acc) + s.packets == SysexPackets(cable, acc + p.Bytes())
  {
    EndSplit(cable, acc, p.Bytes());
  }

  lemma WholeRun(cable: nat, p: OmsPacket)
    requires p.Valid() && !IsConventional(p) && ModeOf(p) == Whole && 1 <= p.len <= 4
    requires IsSysexRun(p.Bytes())
    ensures SendEffect([], cable, p) == Sent([], SysexPackets(cable, p.Bytes()), 0)
  {
    assert p.data[p.len - 1] == p.Bytes()[p.len - 1];
    assert [] + p.data[..p.len] == p.Bytes();
  }

  lemma PlainMessage(cable: nat, carry: seq<byte>, p: OmsPacket)
    requires p.Valid() && IsConventional(p) && p.len <= 4 && TxPackets(cable, p.Bytes()).Some?
    requires p.Bytes()[0] != 0xF0
    ensures SendEffect(carry, cable, p) == Sent(carry, TxPackets(cable, p.Bytes()).value, 0)
  {
  }

  // ---- whole streams ---------------------------------------------------------------------

  lemma {:induction false} Chunked(cable: nat, acc: seq<byte>, runs: seq<seq<byte>>, msgs: seq<seq<byte>>,
                                   pkts: seq<OmsPacket>)
    requires cable <= MAX_CABLE && AllValid(pkts) && Spells(acc, runs, msgs, pkts)
    requires Runs(runs) && Plain(cable, msgs)
    ensures var o := SendAll(Remainder(acc), cable, pkts);
      && o.carry == [] && o.malformed == 0 && o.other == OneShot(cable, msgs)
      && StartPackets(cable, acc) + o.sysex == OneShot(cable, runs)
    decreases |pkts|
  {
    if pkts != [] {
      var p, rest := pkts[0], pkts[1..];
      if IsConventional(p) {
        PlainMessage(cable, Remainder(acc), p);
        Chunked(cable, acc, runs, msgs[1..], rest);
      } else {
        ChunkedRun(cable, acc, runs, msgs, pkts);
      }
    }
  }

  lemma {:induction false} ChunkedRun(cable: nat, acc: seq<byte>, runs: seq<seq<byte>>, msgs: seq<seq<byte>>,
                                      pkts: seq<OmsPacket>)
    requires cable <= MAX_CABLE && AllValid(pkts) && Spells(acc, runs, msgs, pkts)
    requires Runs(runs) && Plain(cable, msgs) && pkts != [] && !IsConventional(pkts[0])
    ensures var o := SendAll(Remainder(acc), cable, pkts);
      && o.carry == [] && o.malformed == 0 && o.other == OneShot(cable, msgs)
      && StartPackets(cable, acc) + o.sysex == OneShot(cable, runs)
    decreases |pkts|, 0
  {
    var p, rest := pkts[0], pkts[1..];
    var s := SendEffect(Remainder(acc), cable, p);
    assert Runs(runs[1..]);
    match ModeOf(p)
    case Whole =>
      WholeRun(cable, p);
      Chunked(cable, [], runs[1..], msgs, rest);
      NextRun(cable, acc, runs, pkts, s);
    case Starts =>
      CarriedPrefix(p.Bytes(), runs, msgs, rest);
      StartChunk(cable, p, runs[0]);
      Chunked(cable, p.Bytes(), runs, msgs, rest);
      SameRun(cable, acc, p.Bytes(), runs, pkts, s);
    case Continues =>
      MiddleChunk(cable, acc, p);
      Chunked(cable, acc + p.Bytes(), runs, msgs, rest);
      SameRun(cable, acc, acc + p.Bytes(), runs, pkts, s);
    case Ends =>
      EndChunk(cable, acc, p);
      Chunked(cable, [], runs[1..], msgs, rest);
      NextRun(cable, acc, runs, pkts, s);
  }

  /** The send `s` extends the open run from `acc` to `acc1`. */
  lemma SameRun(cable: nat, acc: seq<byte>, acc1: seq<byte>, runs: seq<seq<byte>>, pkts: seq<OmsPacket>, s: Sent)
    requires AllValid(pkts) && pkts != [] && !IsConventional(pkts[0]) && Runs(runs) && cable <= MAX_CABLE
    requires s == SendEffect(Remainder(acc), cable, pkts[0])
    requires StartPackets(cable, acc) + s.packets == StartPackets(cable, acc1)
    requires StartPackets(cable, acc1) + SendAll(s.carry, cable, pkts[1..]).sysex == OneShot(cable, runs)
    ensures StartPackets(cable, acc) + SendAll(Remainder(acc), cable, pkts).sysex == OneShot(cable, runs)
  {
    Assoc(StartPackets(cable, acc), s.packets, SendAll(s.carry, cable, pkts[1..]).sysex);
  }

  /** The send `s` completes the first run. */
  lemma NextRun(cable: nat, acc: seq<byte>, runs: seq<seq<byte>>, pkts: seq<OmsPacket>, s: Sent)
    requires AllValid(pkts) && pkts != [] && !IsConventional(pkts[0]) && cable <= MAX_CABLE
    requires Runs(runs) && runs != [] && Runs(runs[1..])
    requires s == SendEffect(Remainder(acc), cable, pkts[0])
    requires StartPackets(cable, acc) + s.packets == SysexPackets(cable, runs[0])
    requires SendAll(s.carry, cable, pkts[1..]).sysex == OneShot(cable, runs[1..])
    ensures StartPackets(cable, acc) + SendAll(Remainder(acc), cable, pkts).sysex == OneShot(cable, runs)
  {
    assert IsSysexRun(runs[0]);
    Assoc(StartPackets(cable, acc), s.packets, SendAll(s.carry, cable, pkts[1..]).sysex);
  }

  /**
   * Chunking independence: for all runs F0 .. F7, however each is cut into chunks of one to four bytes and
   * whatever conventional messages come in between, the SysEx packets sent are exactly those the one-shot
   * encoder builds for the whole runs, the conventional packets are theirs, the carry is empty at the end
   * and nothing is counted as malformed.
   */
  lemma ChunkingIndependence(cable: nat, runs: seq<seq<byte>>, msgs: seq<seq<byte>>, pkts: seq<OmsPacket>)
    requires cable <= MAX_CABLE && AllValid(pkts) && Spells([], runs, msgs, pkts)
    requires Runs(runs) && Plain(cable, msgs)
    ensures SendAll([], cable, pkts) == Output([], OneShot(cable, runs), OneShot(cable, msgs), 0)
  {
    Chunked(cable, [], runs, msgs, pkts);
  }

  /** Over any packets whatever, well-formed or not, the carry never exceeds two bytes. */
  lemma {:induction false} CarryBounded(carry: seq<byte>, cable: nat, pkts: seq<OmsPacket>)
    requires AllValid(pkts) && |carry| <= 2
    ensures |SendAll(carry, cable, pkts).carry| <= 2
    decreases |pkts|
  {
    if pkts != [] {
      CarryStaysSmall(carry, cable, pkts[0]);
      CarryBounded(SendEffect(carry, cable, pkts[0]).carry, cable, pkts[1..]);
    }
  }
}
