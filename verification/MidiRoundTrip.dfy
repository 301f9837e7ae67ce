/** What is transmitted on a cable comes back as the same messages, realtime bytes interleaved or not. */
module MidiRoundTrip {
  import opened Words
  import opened Packets
  import opened MidiStream

  type Message = seq<byte>

  /** Feeding packets with one take after each of them: the final state and the messages taken. */
  function Deliver(s: Rx, ps: seq<Packet>): (Rx, seq<Received>)
    decreases |ps|
  {
    if ps == [] then (s, [])
    else
      var s1 := Feed(s, ps[0]);
      if s1.queue == [] then Deliver(s1, ps[1..])
      else
        var (s2, ms) := Deliver(Take(s1), ps[1..]);
        (s2, [s1.queue[0]] + ms)
  }

  /** The messages of a packet stream in which every packet carries MIDI data. */
  function Entries(inSysex: bool, ps: seq<Packet>): seq<Received>
    decreases |ps|
  {
    if ps == [] then []
    else [MessageOf(inSysex, ps[0])] + Entries(NextInSysex(inSysex, ps[0].b0 % 16), ps[1..])
  }

  /** The client's view: complete messages as they come, continued ones when their end arrives. */
  function Regroup(acc: Message, es: seq<Received>): seq<Message>
    decreases |es|
  {
    if es == [] then []
    else
      match es[0].tag
      case NoCont => [es[0].Bytes()] + Regroup(acc, es[1..])
      case Start => Regroup(es[0].Bytes(), es[1..])
      case Mid => Regroup(acc + es[0].Bytes(), es[1..])
      case End => [acc + es[0].Bytes()] + Regroup([], es[1..])
  }

  // ---- realtime bytes -----------------------------------------------------------

  predicate IsRealtime(m: Message) { |m| == 1 && m[0] >= 0xF8 }

  predicate IsRealtimePacket(cable: nat, p: Packet) {
    p.b1 >= 0xF8 && p == Build(cable, CIN_SYS_COMMON_1, [p.b1])
  }

  function Realtime(ms: seq<Message>): seq<Message> {
    if ms == [] then [] else (if IsRealtime(ms[0]) then [ms[0]] else []) + Realtime(ms[1..])
  }

  function Ordinary(ms: seq<Message>): seq<Message> {
    if ms == [] then [] else (if IsRealtime(ms[0]) then [] else [ms[0]]) + Ordinary(ms[1..])
  }

  /** The packets that are left when the realtime packets are taken out. */
  function Strip(cable: nat, ps: seq<Packet>): seq<Packet> {
    if ps == [] then []
    else (if IsRealtimePacket(cable, ps[0]) then [] else [ps[0]]) + Strip(cable, ps[1..])
  }

  /** The realtime bytes of a packet stream, in order, each as a message. */
  function RealtimeBytes(cable: nat, ps: seq<Packet>): seq<Message> {
    if ps == [] then []
    else (if IsRealtimePacket(cable, ps[0]) then [[ps[0].b1]] else []) + RealtimeBytes(cable, ps[1..])
  }

  // ---- the transmitted stream ------------------------------------------------------

  /** Messages the transmitter accepts, realtime messages excepted: those are the inserted ones. */
  predicate Accepted(cable: nat, ms: seq<Message>) {
    forall m <- ms :: TxPackets(cable, m).Some? && !IsRealtime(m)
  }

  function PacketsOf(cable: nat, ms: seq<Message>): seq<Packet>
    requires Accepted(cable, ms)
  {
    if ms == [] then [] else TxPackets(cable, ms[0]).value + PacketsOf(cable, ms[1..])
  }

  /** What the wire still has to carry: the rest `r` of an open SysEx run, then whole messages. */
  function Expected(cable: nat, r: Message, ms: seq<Message>): seq<Packet>
    requires Accepted(cable, ms)
  {
    (if r == [] then [] else SysexPackets(cable, r)) + PacketsOf(cable, ms)
  }

  /** Every packet is on the cable, carries MIDI data, and trips neither malformation counter. */
  predicate WellFormed(cable: nat, inSysex: bool, ps: seq<Packet>)
    decreases |ps|
  {
    ps == [] ||
    (HeadOk(cable, inSysex, ps[0]) && WellFormed(cable, NextInSysex(inSysex, ps[0].b0 % 16), ps[1..]))
  }

  predicate HeadOk(cable: nat, inSysex: bool, p: Packet) {
    var cin := p.b0 % 16;
    && p.b0 / 16 == cable && CarriesMidi(cin)
    && (IsSysexStart(cin) && !inSysex ==> p.b1 == 0xF0)
    && (IsSysexEnd(cin) ==> [p.b1, p.b2, p.b3][CinDataLength(cin) - 1] == 0xF7)
  }

  /** What a receiver makes of a packet: its tag, its bytes, and whether it is inside a run afterwards. */
  predicate Reads(inSysex: bool, p: Packet, tag: Tag, data: Message, next: bool) {
    && MessageOf(inSysex, p).tag == tag && MessageOf(inSysex, p).Bytes() == data
    && NextInSysex(inSysex, p.b0 % 16) == next
  }

  lemma HeadAndTail<T>(x: T, a: seq<T>, b: seq<T>)
    ensures ([x] + a) + b == [x] + (a + b)
    ensures (([x] + a) + b)[1..] == a + b
  {
  }

  /** Taking the first packet off a long run leaves the packets of its rest. */
  lemma ExpectedTail(cable: nat, r: Message, ms: seq<Message>)
    requires Accepted(cable, ms) && |r| > 3
    ensures Expected(cable, r, ms)[0] == SysexPackets(cable, r)[0]
    ensures Expected(cable, r, ms)[1..] == Expected(cable, r[3..], ms)
  {
    HeadAndTail(Build(cable, CIN_SYSEX_START, r[..3]), SysexPackets(cable, r[3..]), PacketsOf(cable, ms));
  }

  /** A packet built from `data` gives back `data`. */
  lemma MessageOfBuild(inSysex: bool, cable: nat, cin: nat, data: Message)
    requires cable <= MAX_CABLE && cin <= 15 && CarriesMidi(cin) && |data| == CinDataLength(cin)
    ensures var p := Build(cable, cin, data);
      && p.b0 / 16 == cable && p.b0 % 16 == cin && p.b1 == data[0]
      && MessageOf(inSysex, p).Bytes() == data
      && [p.b1, p.b2, p.b3][|data| - 1] == data[|data| - 1]
      && MessageOf(inSysex, p).tag == TagOf(inSysex, cin, data[0])
  {
    HeaderByte(cable, cin);
    var p := Build(cable, cin, data);
    assert MessageOf(inSysex, p).Bytes() == data;
  }

  /** The first packet of an open run. */
  lemma RunPacket(cable: nat, r: Message, p: Packet)
    requires cable <= MAX_CABLE && r != [] && r[|r| - 1] == 0xF7 && p == SysexPackets(cable, r)[0]
    ensures HeadOk(cable, true, p) && !IsRealtimePacket(cable, p)
    ensures |r| <= 3 ==> Reads(true, p, End, r, false)
    ensures |r| > 3 ==> Reads(true, p, Mid, r[..3], true)
  {
    var data, cin := r[..Min(|r|, 3)], if |r| <= 3 then EndCin(|r|) else CIN_SYSEX_START;
    MessageOfBuild(true, cable, cin, data);
    HeaderByte(cable, CIN_SYS_COMMON_1);
  }

  predicate IsLongRun(m: Message) { IsSysexRun(m) && |m| > 3 }

  /** The first packet of a message, for a receiver outside any run. */
  lemma FirstPacket(cable: nat, m: Message, p: Packet)
    requires TxPackets(cable, m).Some? && !IsRealtime(m) && p == TxPackets(cable, m).value[0]
    ensures HeadOk(cable, false, p) && !IsRealtimePacket(cable, p)
    ensures IsLongRun(m) ==> Reads(false, p, Start, m[..3], true)
    ensures !IsLongRun(m) ==>
      && TxPackets(cable, m).value == [p]
      && (Reads(false, p, NoCont, m, false) || Reads(false, p, End, m, false))
  {
    HeaderByte(cable, CIN_SYS_COMMON_1);
    if m[0] == 0xF0 {
      if |m| > 3 {
        MessageOfBuild(false, cable, CIN_SYSEX_START, m[..3]);
      } else {
        MessageOfBuild(false, cable, EndCin(|m|), m);
      }
    } else if m[0] == 0xF7 {
      MessageOfBuild(false, cable, CIN_SYSEX_END_1, m);
    } else {
      MessageOfBuild(false, cable, CinForStatus(m[0]).value.cin, m);
    }
  }

  /** The state of the induction: `acc` was received of an open run whose rest `r` is still to come. */
  ghost predicate Awaiting(cable: nat, acc: Message, r: Message, ms: seq<Message>, ps: seq<Packet>) {
    && cable <= MAX_CABLE && Accepted(cable, ms)
    && (r != [] ==> acc != [] && r[|r| - 1] == 0xF7) && (r == [] ==> acc == [])
    && Strip(cable, ps) == Expected(cable, r, ms)
  }

  lemma {:induction false} Regrouped(cable: nat, acc: Message, r: Message, ms: seq<Message>, ps: seq<Packet>)
    requires Awaiting(cable, acc, r, ms, ps)
    ensures WellFormed(cable, r != [], ps)
    ensures var outs := Regroup(acc, Entries(r != [], ps));
      Ordinary(outs) == (if r == [] then [] else [acc + r]) + ms && Realtime(outs) == RealtimeBytes(cable, ps)
    decreases |ps|
  {
    if ps == [] {
      NothingLeft(cable, r, ms);
    } else if IsRealtimePacket(cable, ps[0]) {
      MessageOfBuild(r != [], cable, CIN_SYS_COMMON_1, [ps[0].b1]);
      Regrouped(cable, acc, r, ms, ps[1..]);
    } else if r != [] {
      if |r| <= 3 { RunEnds(cable, acc, r, ms, ps); } else { RunGoesOn(cable, acc, r, ms, ps); }
    } else {
      StripHead(cable, ps);
      if IsLongRun(ms[0]) { RunBegins(cable, ms, ps); } else { ShortMessage(cable, ms, ps); }
    }
  }

  lemma NothingLeft(cable: nat, r: Message, ms: seq<Message>)
    requires Accepted(cable, ms) && Expected(cable, r, ms) == []
    ensures r == [] && ms == []
  {
    assert PacketsOf(cable, ms) == [];
  }

  lemma StripHead(cable: nat, ps: seq<Packet>)
    requires ps != [] && !IsRealtimePacket(cable, ps[0])
    ensures Strip(cable, ps) == [ps[0]] + Strip(cable, ps[1..])
    ensures Strip(cable, ps[1..]) == Strip(cable, ps)[1..]
    ensures RealtimeBytes(cable, ps) == RealtimeBytes(cable, ps[1..])
  {
  }

  /** The client's view of one packet. */
  lemma OnePacket(inSysex: bool, acc: Message, ps: seq<Packet>, tag: Tag, data: Message, next: bool)
    requires ps != [] && Reads(inSysex, ps[0], tag, data, next)
    ensures var es := Entries(next, ps[1..]);
      Regroup(acc, Entries(inSysex, ps)) ==
        match tag
        case NoCont => [data] + Regroup(acc, es)
        case Start => Regroup(data, es)
        case Mid => Regroup(acc + data, es)
        case End => [acc + data] + Regroup([], es)
  {
    var e, es := MessageOf(inSysex, ps[0]), Entries(next, ps[1..]);
    assert Entries(inSysex, ps) == [e] + es && ([e] + es)[1..] == es;
  }

  lemma OneMessage(m: Message, outs: seq<Message>)
    requires !IsRealtime(m)
    ensures Ordinary([m] + outs) == [m] + Ordinary(outs) && Realtime([m] + outs) == Realtime(outs)
  {
    assert ([m] + outs)[1..] == outs;
  }

  /** The last packet of an open run. */
  lemma {:induction false} RunEnds(cable: nat, acc: Message, r: Message, ms: seq<Message>, ps: seq<Packet>)
    requires Awaiting(cable, acc, r, ms, ps) && 0 < |r| <= 3 && ps != [] && !IsRealtimePacket(cable, ps[0])
    ensures WellFormed(cable, true, ps)
    ensures var outs := Regroup(acc, Entries(true, ps));
      Ordinary(outs) == [acc + r] + ms && Realtime(outs) == RealtimeBytes(cable, ps)
    decreases |ps|, 0
  {
    LastOfRun(cable, acc, r, ms, ps);
    Regrouped(cable, [], [], ms, ps[1..]);
    RunClosed(cable, acc, r, ms, ps);
  }

  lemma RunClosed(cable: nat, acc: Message, r: Message, ms: seq<Message>, ps: seq<Packet>)
    requires Awaiting(cable, acc, r, ms, ps) && 0 < |r| <= 3 && ps != [] && !IsRealtimePacket(cable, ps[0])
    requires ps[0] == SysexPackets(cable, r)[0] && WellFormed(cable, false, ps[1..])
    requires var outs := Regroup([], Entries(false, ps[1..]));
      Ordinary(outs) == [] + ms && Realtime(outs) == RealtimeBytes(cable, ps[1..])
    ensures WellFormed(cable, true, ps)
    ensures var outs := Regroup(acc, Entries(true, ps));
      Ordinary(outs) == [acc + r] + ms && Realtime(outs) == RealtimeBytes(cable, ps)
  {
    RunPacket(cable, r, ps[0]);
    OnePacket(true, acc, ps, End, r, false);
    Delivered(acc + r, Regroup([], Entries(false, ps[1..])), ms);
    StripHead(cable, ps);
  }

  lemma Delivered(m: Message, outs: seq<Message>, ms: seq<Message>)
    requires !IsRealtime(m) && Ordinary(outs) == [] + ms
    ensures Ordinary([m] + outs) == [m] + ms && Realtime([m] + outs) == Realtime(outs)
  {
    OneMessage(m, outs);
    assert [] + ms == ms;
  }

  lemma LastOfRun(cable: nat, acc: Message, r: Message, ms: seq<Message>, ps: seq<Packet>)
    requires Awaiting(cable, acc, r, ms, ps) && 0 < |r| <= 3 && ps != [] && !IsRealtimePacket(cable, ps[0])
    ensures ps[0] == SysexPackets(cable, r)[0] && Awaiting(cable, [], [], ms, ps[1..])
  {
    StripHead(cable, ps);
    assert ps[0] == Strip(cable, ps)[0];
    assert Expected(cable, r, ms)[1..] == Expected(cable, [], ms);
  }

  /** A packet of an open run with more to follow. */
  lemma {:induction false} RunGoesOn(cable: nat, acc: Message, r: Message, ms: seq<Message>, ps: seq<Packet>)
    requires Awaiting(cable, acc, r, ms, ps) && 3 < |r| && ps != [] && !IsRealtimePacket(cable, ps[0])
    ensures WellFormed(cable, true, ps)
    ensures var outs := Regroup(acc, Entries(true, ps));
      Ordinary(outs) == [acc + r] + ms && Realtime(outs) == RealtimeBytes(cable, ps)
    decreases |ps|, 0
  {
    NextOfRun(cable, acc, r, ms, ps);
    Regrouped(cable, acc + r[..3], r[3..], ms, ps[1..]);
    RunContinued(cable, acc, r, ms, ps);
  }

  lemma RunContinued(cable: nat, acc: Message, r: Message, ms: seq<Message>, ps: seq<Packet>)
    requires Awaiting(cable, acc, r, ms, ps) && 3 < |r| && ps != [] && !IsRealtimePacket(cable, ps[0])
    requires ps[0] == SysexPackets(cable, r)[0] && WellFormed(cable, true, ps[1..])
    requires var outs := Regroup(acc + r[..3], Entries(true, ps[1..]));
      Ordinary(outs) == [acc + r[..3] + r[3..]] + ms && Realtime(outs) == RealtimeBytes(cable, ps[1..])
    ensures WellFormed(cable, true, ps)
    ensures var outs := Regroup(acc, Entries(true, ps));
      Ordinary(outs) == [acc + r] + ms && Realtime(outs) == RealtimeBytes(cable, ps)
  {
    RunPacket(cable, r, ps[0]);
    MiddlePacket(cable, acc, r[..3], ps);
    Rejoined(acc, r);
  }

  lemma Rejoined(acc: Message, r: Message)
    requires 3 < |r|
    ensures acc + r[..3] + r[3..] == acc + r
  {
  }

  /** A packet inside a run only adds to what has been collected. */
  lemma MiddlePacket(cable: nat, acc: Message, data: Message, ps: seq<Packet>)
    requires ps != [] && !IsRealtimePacket(cable, ps[0]) && Reads(true, ps[0], Mid, data, true)
    ensures Regroup(acc, Entries(true, ps)) == Regroup(acc + data, Entries(true, ps[1..]))
    ensures RealtimeBytes(cable, ps) == RealtimeBytes(cable, ps[1..])
  {
    OnePacket(true, acc, ps, Mid, data, true);
    StripHead(cable, ps);
  }

  lemma NextOfRun(cable: nat, acc: Message, r: Message, ms: seq<Message>, ps: seq<Packet>)
    requires Awaiting(cable, acc, r, ms, ps) && 3 < |r| && ps != [] && !IsRealtimePacket(cable, ps[0])
    ensures ps[0] == SysexPackets(cable, r)[0] && Awaiting(cable, acc + r[..3], r[3..], ms, ps[1..])
  {
    StripHead(cable, ps);
    assert ps[0] == Strip(cable, ps)[0];
    ExpectedTail(cable, r, ms);
  }

  /** The first packet of a long SysEx run. */
  lemma {:induction false} RunBegins(cable: nat, ms: seq<Message>, ps: seq<Packet>)
    requires Awaiting(cable, [], [], ms, ps) && ps != [] && !IsRealtimePacket(cable, ps[0])
    requires ms != [] && IsLongRun(ms[0])
    ensures WellFormed(cable, false, ps)
    ensures var outs := Regroup([], Entries(false, ps));
      Ordinary(outs) == ms && Realtime(outs) == RealtimeBytes(cable, ps)
    decreases |ps|, 0
  {
    var m := ms[0];
    FirstOfRun(cable, ms, ps);
    FirstPacket(cable, m, ps[0]);
    Regrouped(cable, m[..3], m[3..], ms[1..], ps[1..]);
    OnePacket(false, [], ps, Start, m[..3], true);
    assert m[..3] + m[3..] == m;
    StripHead(cable, ps);
  }

  lemma FirstOfRun(cable: nat, ms: seq<Message>, ps: seq<Packet>)
    requires Awaiting(cable, [], [], ms, ps) && ps != [] && !IsRealtimePacket(cable, ps[0])
    requires ms != [] && IsLongRun(ms[0])
    ensures ps[0] == TxPackets(cable, ms[0]).value[0] && !IsRealtime(ms[0])
    ensures Awaiting(cable, ms[0][..3], ms[0][3..], ms[1..], ps[1..])
  {
    StripHead(cable, ps);
    assert ps[0] == Strip(cable, ps)[0];
    LongRunExpected(cable, ms);
    ExpectedTail(cable, ms[0], ms[1..]);
  }

  lemma LongRunExpected(cable: nat, ms: seq<Message>)
    requires Accepted(cable, ms) && ms != [] && IsLongRun(ms[0])
    ensures Accepted(cable, ms[1..])
    ensures PacketsOf(cable, ms) == Expected(cable, ms[0], ms[1..])
  {
  }

  /** The packet of a message that needs only one. */
  lemma {:induction false} ShortMessage(cable: nat, ms: seq<Message>, ps: seq<Packet>)
    requires Awaiting(cable, [], [], ms, ps) && ps != [] && !IsRealtimePacket(cable, ps[0])
    requires ms != [] && !IsLongRun(ms[0])
    ensures WellFormed(cable, false, ps)
    ensures var outs := Regroup([], Entries(false, ps));
      Ordinary(outs) == ms && Realtime(outs) == RealtimeBytes(cable, ps)
    decreases |ps|, 0
  {
    OnlyOfMessage(cable, ms, ps);
    Regrouped(cable, [], [], ms[1..], ps[1..]);
    ShortDelivered(cable, ms, ps);
  }

  lemma ShortDelivered(cable: nat, ms: seq<Message>, ps: seq<Packet>)
    requires Awaiting(cable, [], [], ms, ps) && ps != [] && !IsRealtimePacket(cable, ps[0])
    requires ms != [] && !IsLongRun(ms[0]) && ps[0] == TxPackets(cable, ms[0]).value[0] && !IsRealtime(ms[0])
    requires WellFormed(cable, false, ps[1..])
    requires var outs := Regroup([], Entries(false, ps[1..]));
      Ordinary(outs) == [] + ms[1..] && Realtime(outs) == RealtimeBytes(cable, ps[1..])
    ensures WellFormed(cable, false, ps)
    ensures var outs := Regroup([], Entries(false, ps));
      Ordinary(outs) == ms && Realtime(outs) == RealtimeBytes(cable, ps)
  {
    var m := ms[0];
    FirstPacket(cable, m, ps[0]);
    assert [] + m == m;
    OnePacket(false, [], ps, if Reads(false, ps[0], End, m, false) then End else NoCont, m, false);
    Delivered(m, Regroup([], Entries(false, ps[1..])), ms[1..]);
    StripHead(cable, ps);
  }

  lemma OnlyOfMessage(cable: nat, ms: seq<Message>, ps: seq<Packet>)
    requires Awaiting(cable, [], [], ms, ps) && ps != [] && !IsRealtimePacket(cable, ps[0])
    requires ms != [] && !IsLongRun(ms[0])
    ensures ps[0] == TxPackets(cable, ms[0]).value[0] && !IsRealtime(ms[0])
    ensures Awaiting(cable, [], [], ms[1..], ps[1..])
  {
    StripHead(cable, ps);
    assert ps[0] == Strip(cable, ps)[0];
    FirstPacket(cable, ms[0], TxPackets(cable, ms[0]).value[0]);
    assert PacketsOf(cable, ms)[1..] == Expected(cable, [], ms[1..]);
  }

  /** On a well-formed stream, taking after each packet yields every message and counts no malformation. */
  lemma {:induction false} DeliverEntries(s: Rx, ps: seq<Packet>)
    requires s.queue == [] && WellFormed(s.cable, s.inSysex, ps)
    ensures var (t, ms) := Deliver(s, ps);
      && ms == Entries(s.inSysex, ps) && t.queue == [] && t.cable == s.cable
      && t.stats == s.stats.(packets := s.stats.packets + |ps|, messages := s.stats.messages + |ps|)
    decreases |ps|
  {
    if ps != [] {
      var s1 := Feed(s, ps[0]);
      assert s1.queue == [MessageOf(s.inSysex, ps[0])];
      DeliverEntries(Take(s1), ps[1..]);
    }
  }

  // ---- the order of everything ------------------------------------------------------

  /** Whether a receiver is inside a run after these packets. */
  function Inside(inSysex: bool, ps: seq<Packet>): bool
    decreases |ps|
  {
    if ps == [] then inSysex else Inside(NextInSysex(inSysex, ps[0].b0 % 16), ps[1..])
  }

  /** What a client sees as the packets pass by, told from the messages that were sent: a realtime byte at once, a
      message when its last packet passes. Of an open run `acc` has passed and `r` is still to come. */
  function Seen(cable: nat, acc: Message, r: Message, ms: seq<Message>, ps: seq<Packet>): seq<Message>
    decreases |ps|
  {
    if ps == [] then []
    else if IsRealtimePacket(cable, ps[0]) then [[ps[0].b1]] + Seen(cable, acc, r, ms, ps[1..])
    else if |r| > 3 then Seen(cable, acc + r[..3], r[3..], ms, ps[1..])
    else if r != [] then [acc + r] + Seen(cable, [], [], ms, ps[1..])
    else if ms == [] then []
    else if IsLongRun(ms[0]) then Seen(cable, ms[0][..3], ms[0][3..], ms[1..], ps[1..])
    else [ms[0]] + Seen(cable, [], [], ms[1..], ps[1..])
  }

  /** The client gets the messages and the realtime bytes in exactly that order, and no run stays open. */
  lemma {:induction false} SeenInOrder(cable: nat, acc: Message, r: Message, ms: seq<Message>, ps: seq<Packet>)
    requires Awaiting(cable, acc, r, ms, ps)
    ensures Regroup(acc, Entries(r != [], ps)) == Seen(cable, acc, r, ms, ps) && !Inside(r != [], ps)
    decreases |ps|
  {
    if ps == [] {
      NothingLeft(cable, r, ms);
    } else if IsRealtimePacket(cable, ps[0]) {
      MessageOfBuild(r != [], cable, CIN_SYS_COMMON_1, [ps[0].b1]);
      SeenInOrder(cable, acc, r, ms, ps[1..]);
      OnePacket(r != [], acc, ps, NoCont, [ps[0].b1], r != []);
    } else if r != [] {
      SeenOfRun(cable, acc, r, ms, ps);
    } else {
      StripHead(cable, ps);
      SeenOfMessage(cable, ms, ps);
    }
  }

  lemma {:induction false} SeenOfRun(cable: nat, acc: Message, r: Message, ms: seq<Message>, ps: seq<Packet>)
    requires Awaiting(cable, acc, r, ms, ps) && r != [] && ps != [] && !IsRealtimePacket(cable, ps[0])
    ensures Regroup(acc, Entries(true, ps)) == Seen(cable, acc, r, ms, ps) && !Inside(true, ps)
    decreases |ps|, 0
  {
    if |r| <= 3 {
      LastOfRun(cable, acc, r, ms, ps);
      SeenInOrder(cable, [], [], ms, ps[1..]);
      RunPacket(cable, r, ps[0]);
      OnePacket(true, acc, ps, End, r, false);
    } else {
      NextOfRun(cable, acc, r, ms, ps);
      SeenInOrder(cable, acc + r[..3], r[3..], ms, ps[1..]);
      RunPacket(cable, r, ps[0]);
      OnePacket(true, acc, ps, Mid, r[..3], true);
    }
  }

  lemma {:induction false} SeenOfMessage(cable: nat, ms: seq<Message>, ps: seq<Packet>)
    requires Awaiting(cable, [], [], ms, ps) && ps != [] && ms != [] && !IsRealtimePacket(cable, ps[0])
    ensures Regroup([], Entries(false, ps)) == Seen(cable, [], [], ms, ps) && !Inside(false, ps)
    decreases |ps|, 0
  {
    var m := ms[0];
    if IsLongRun(m) {
      FirstOfRun(cable, ms, ps);
      SeenInOrder(cable, m[..3], m[3..], ms[1..], ps[1..]);
      FirstPacket(cable, m, ps[0]);
      OnePacket(false, [], ps, Start, m[..3], true);
    } else {
      OnlyOfMessage(cable, ms, ps);
      SeenInOrder(cable, [], [], ms[1..], ps[1..]);
      FirstPacket(cable, m, ps[0]);
      OnePacket(false, [], ps, if Reads(false, ps[0], End, m, false) then End else NoCont, m, false);
      assert [] + m == m;
    }
  }

  lemma {:induction false} DeliverInside(s: Rx, ps: seq<Packet>)
    requires s.queue == [] && WellFormed(s.cable, s.inSysex, ps)
    ensures Deliver(s, ps).0.inSysex == Inside(s.inSysex, ps)
    decreases |ps|
  {
    if ps != [] {
      var s1 := Feed(s, ps[0]);
      assert s1.queue == [MessageOf(s.inSysex, ps[0])];
      DeliverInside(Take(s1), ps[1..]);
    }
  }

  /**
   * The round trip. `ms` is any list of messages the transmitter accepts and `ps` any stream that becomes
   * their packets when the realtime packets inserted anywhere in it are taken out. Then a fresh receive
   * stream, with a take after each packet, yields messages that regroup to exactly `ms` and the realtime
   * bytes, each where it passed, counts no drop and no malformation, and is idle at the end.
   */
  lemma RoundTrip(cable: nat, ms: seq<Message>, ps: seq<Packet>)
    requires cable <= MAX_CABLE && Accepted(cable, ms) && Strip(cable, ps) == PacketsOf(cable, ms)
    ensures var (t, es) := Deliver(Fresh(cable), ps);
      && Ordinary(Regroup([], es)) == ms
      && Realtime(Regroup([], es)) == RealtimeBytes(cable, ps)
      && Regroup([], es) == Seen(cable, [], [], ms, ps)
      && t.queue == [] && !t.inSysex
      && t.stats == NoRxStats.(packets := |ps|, messages := |ps|)
  {
    assert Expected(cable, [], ms) == PacketsOf(cable, ms);
    Regrouped(cable, [], [], ms, ps);
    SeenInOrder(cable, [], [], ms, ps);
    DeliverEntries(Fresh(cable), ps);
    DeliverInside(Fresh(cable), ps);
  }

  // ---- realtime messages among those sent ----------------------------------------------

  predicate Sendable(cable: nat, ms: seq<Message>) { forall m <- ms :: TxPackets(cable, m).Some? }

  function AllPackets(cable: nat, ms: seq<Message>): seq<Packet>
    requires Sendable(cable, ms)
  {
    if ms == [] then [] else TxPackets(cable, ms[0]).value + AllPackets(cable, ms[1..])
  }

  lemma {:induction false} OrdinaryAccepted(cable: nat, ms: seq<Message>)
    requires Sendable(cable, ms)
    ensures Accepted(cable, Ordinary(ms))
  {
    if ms != [] { OrdinaryAccepted(cable, ms[1..]); }
  }

  /** A realtime message travels as one realtime packet. */
  lemma RealtimeSent(cable: nat, m: Message)
    requires cable <= MAX_CABLE && IsRealtime(m)
    ensures TxPackets(cable, m) == Some([Build(cable, CIN_SYS_COMMON_1, m)])
    ensures IsRealtimePacket(cable, Build(cable, CIN_SYS_COMMON_1, m)) && [Build(cable, CIN_SYS_COMMON_1, m).b1] == m
  {
    assert m == [m[0]];
  }

  /** What the wire has to carry of an open run, then all the messages. */
  function Sent(cable: nat, r: Message, ms: seq<Message>): seq<Packet>
    requires Sendable(cable, ms)
  {
    (if r == [] then [] else SysexPackets(cable, r)) + AllPackets(cable, ms)
  }

  lemma SentTail(cable: nat, r: Message, ms: seq<Message>)
    requires Sendable(cable, ms) && r != []
    ensures Sent(cable, r, ms) != [] && Sent(cable, r, ms)[0] == SysexPackets(cable, r)[0]
    ensures Sent(cable, r, ms)[1..] == Sent(cable, if |r| > 3 then r[3..] else [], ms)
  {
    if |r| > 3 { HeadAndTail(Build(cable, CIN_SYSEX_START, r[..3]), SysexPackets(cable, r[3..]), AllPackets(cable, ms)); }
  }

  lemma OrdinaryCons(m: Message, rest: seq<Message>)
    ensures Ordinary([m] + rest) == if IsRealtime(m) then Ordinary(rest) else [m] + Ordinary(rest)
  {
    assert ([m] + rest)[1..] == rest;
  }

  lemma SentCons(cable: nat, m: Message, rest: seq<Message>)
    requires TxPackets(cable, m).Some? && Sendable(cable, rest)
    ensures Sendable(cable, [m] + rest) && Sent(cable, [], [m] + rest) == TxPackets(cable, m).value + AllPackets(cable, rest)
  {
    assert ([m] + rest)[1..] == rest;
  }

  /** Just the packets of the messages, realtime ones among them: the client sees the messages as they were sent. */
  lemma {:induction false} SentIsSeen(cable: nat, acc: Message, r: Message, ms: seq<Message>)
    requires cable <= MAX_CABLE && Sendable(cable, ms) && (r != [] ==> r[|r| - 1] == 0xF7)
    ensures Seen(cable, acc, r, Ordinary(ms), Sent(cable, r, ms)) == (if r == [] then [] else [acc + r]) + ms
    decreases |ms|, |r|, 1
  {
    if r != [] {
      SentRunSeen(cable, acc, r, ms);
    } else if ms != [] {
      assert ms == [ms[0]] + ms[1..];
      SentMessageSeen(cable, acc, ms[0], ms[1..]);
    }
  }

  lemma {:induction false} SentRunSeen(cable: nat, acc: Message, r: Message, ms: seq<Message>)
    requires cable <= MAX_CABLE && Sendable(cable, ms) && r != [] && r[|r| - 1] == 0xF7
    ensures Seen(cable, acc, r, Ordinary(ms), Sent(cable, r, ms)) == [acc + r] + ms
    decreases |ms|, |r|, 0
  {
    var ps, os := Sent(cable, r, ms), Ordinary(ms);
    SentTail(cable, r, ms);
    RunPacket(cable, r, ps[0]);
    if |r| > 3 {
      SentIsSeen(cable, acc + r[..3], r[3..], ms);
      Rejoined(acc, r);
      OpenRunSeen(cable, acc, r, os, ps);
    } else {
      SentIsSeen(cable, [], [], ms);
      LastOfRunSeen(cable, acc, r, os, ps);
    }
  }

  lemma OpenRunSeen(cable: nat, acc: Message, r: Message, os: seq<Message>, ps: seq<Packet>)
    requires ps != [] && !IsRealtimePacket(cable, ps[0]) && |r| > 3
    ensures Seen(cable, acc, r, os, ps) == Seen(cable, acc + r[..3], r[3..], os, ps[1..])
  {
  }

  lemma LastOfRunSeen(cable: nat, acc: Message, r: Message, os: seq<Message>, ps: seq<Packet>)
    requires ps != [] && !IsRealtimePacket(cable, ps[0]) && 0 < |r| <= 3
    ensures Seen(cable, acc, r, os, ps) == [acc + r] + Seen(cable, [], [], os, ps[1..])
  {
  }

  lemma {:induction false} SentMessageSeen(cable: nat, acc: Message, m: Message, rest: seq<Message>)
    requires cable <= MAX_CABLE && TxPackets(cable, m).Some? && Sendable(cable, rest) && Sendable(cable, [m] + rest)
    ensures Seen(cable, acc, [], Ordinary([m] + rest), Sent(cable, [], [m] + rest)) == [m] + rest
    decreases |rest| + 1, 0, 0
  {
    SentCons(cable, m, rest);
    OrdinaryCons(m, rest);
    var ps := Sent(cable, [], [m] + rest);
    if IsRealtime(m) {
      RealtimeSent(cable, m);
      RestSent(cable, ps, rest);
      SentIsSeen(cable, acc, [], rest);
      RealtimeSeen(cable, acc, m, Ordinary(rest), ps);
    } else if IsLongRun(m) {
      FirstPacket(cable, m, ps[0]);
      SentTail(cable, m, rest);
      SentIsSeen(cable, m[..3], m[3..], rest);
      assert m[..3] + m[3..] == m;
      LongRunSeen(cable, acc, m, rest, ps);
    } else {
      FirstPacket(cable, m, ps[0]);
      RestSent(cable, ps, rest);
      SentIsSeen(cable, [], [], rest);
      ShortSeen(cable, acc, m, Ordinary(rest), ps);
    }
  }

  lemma RestSent(cable: nat, ps: seq<Packet>, rest: seq<Message>)
    requires Sendable(cable, rest) && ps != [] && ps == [ps[0]] + AllPackets(cable, rest)
    ensures ps[1..] == Sent(cable, [], rest)
  {
  }

  lemma RealtimeSeen(cable: nat, acc: Message, m: Message, os: seq<Message>, ps: seq<Packet>)
    requires ps != [] && IsRealtimePacket(cable, ps[0]) && m == [ps[0].b1]
    ensures Seen(cable, acc, [], os, ps) == [m] + Seen(cable, acc, [], os, ps[1..])
  {
  }

  lemma ShortSeen(cable: nat, acc: Message, m: Message, os: seq<Message>, ps: seq<Packet>)
    requires ps != [] && !IsRealtimePacket(cable, ps[0]) && !IsLongRun(m)
    ensures Seen(cable, acc, [], [m] + os, ps) == [m] + Seen(cable, [], [], os, ps[1..])
  {
    assert ([m] + os)[1..] == os;
  }

  lemma LongRunSeen(cable: nat, acc: Message, m: Message, rest: seq<Message>, ps: seq<Packet>)
    requires IsLongRun(m) && ps != [] && !IsRealtimePacket(cable, ps[0])
    ensures Seen(cable, acc, [], [m] + Ordinary(rest), ps) == Seen(cable, m[..3], m[3..], Ordinary(rest), ps[1..])
  {
    assert ([m] + Ordinary(rest))[1..] == Ordinary(rest);
  }

  lemma {:induction false} StripConcat(cable: nat, a: seq<Packet>, b: seq<Packet>)
    ensures Strip(cable, a + b) == Strip(cable, a) + Strip(cable, b)
  {
    if a == [] {
      assert a + b == b;
    } else {
      assert (a + b)[1..] == a[1..] + b;
      StripConcat(cable, a[1..], b);
    }
  }

  lemma {:induction false} StripRun(cable: nat, r: Message)
    requires cable <= MAX_CABLE && r != [] && r[|r| - 1] == 0xF7
    ensures Strip(cable, SysexPackets(cable, r)) == SysexPackets(cable, r)
  {
    RunPacket(cable, r, SysexPackets(cable, r)[0]);
    if |r| > 3 {
      StripRun(cable, r[3..]);
      assert SysexPackets(cable, r)[1..] == SysexPackets(cable, r[3..]);
    }
  }

  lemma StripMessage(cable: nat, m: Message)
    requires cable <= MAX_CABLE && TxPackets(cable, m).Some?
    ensures Strip(cable, TxPackets(cable, m).value) == if IsRealtime(m) then [] else TxPackets(cable, m).value
  {
    if IsRealtime(m) {
      RealtimeSent(cable, m);
    } else if IsLongRun(m) {
      StripRun(cable, m);
    } else {
      FirstPacket(cable, m, TxPackets(cable, m).value[0]);
    }
  }

  lemma {:induction false} StripSent(cable: nat, ms: seq<Message>)
    requires cable <= MAX_CABLE && Sendable(cable, ms)
    ensures Accepted(cable, Ordinary(ms)) && Strip(cable, AllPackets(cable, ms)) == PacketsOf(cable, Ordinary(ms))
  {
    OrdinaryAccepted(cable, ms);
    if ms != [] {
      var m, rest := ms[0], ms[1..];
      StripSent(cable, rest);
      StripMessage(cable, m);
      StripConcat(cable, TxPackets(cable, m).value, AllPackets(cable, rest));
      assert ms == [m] + rest;
      OrdinaryCons(m, rest);
      if !IsRealtime(m) { PacketsCons(cable, m, Ordinary(rest)); }
    }
  }

  lemma PacketsCons(cable: nat, m: Message, rest: seq<Message>)
    requires Accepted(cable, [m] + rest) && Accepted(cable, rest)
    ensures PacketsOf(cable, [m] + rest) == TxPackets(cable, m).value + PacketsOf(cable, rest)
  {
    assert ([m] + rest)[1..] == rest;
  }

  /** Any list of accepted messages, realtime messages among them, is received as exactly that list. */
  lemma RoundTripExact(cable: nat, ms: seq<Message>)
    requires cable <= MAX_CABLE && Sendable(cable, ms)
    ensures var (t, es) := Deliver(Fresh(cable), AllPackets(cable, ms)); Regroup([], es) == ms && t.queue == [] && !t.inSysex
  {
    StripSent(cable, ms);
    RoundTrip(cable, Ordinary(ms), AllPackets(cable, ms));
    SentIsSeen(cable, [], [], ms);
    assert Sent(cable, [], ms) == AllPackets(cable, ms);
  }
}
