/** A MIDIStreaming interface as its descriptors lay it out, byte by byte, and what the parser makes of it. */
module TopologyBytes {
  import opened Words
  import opened Descriptors
  import opened Topology

  // ---- the descriptors ----------------------------------------------------------------------

  type half = h: int | 0 <= h < 0x1_0000

  function Low(h: half): byte { var x: int := h; x % 256 }

  function High(h: half): byte { var x: int := h; x / 256 }

  /** What stands between the interface and the next one; `more` is whatever else the descriptor has. */
  datatype Item =
    | Header(version: half, total: half, more: seq<byte>)
    | JackIn(id: byte, kind: byte, more: seq<byte>)
    | JackOut(id: byte, kind: byte, pins: byte, sources: seq<byte>, last: byte)
    | Bulk(address: byte, attributes: byte, size: half, more: seq<byte>)
    | Embedded(count: byte, ids: seq<byte>)

  predicate Small(s: seq<byte>, n: nat) { |s| <= 255 - n }

  predicate Layable(i: Item) {
    match i
    case Header(_, _, more) => Small(more, 7)
    case JackIn(_, _, more) => 1 <= |more| && Small(more, 5)
    case JackOut(_, _, _, sources, _) => 2 <= |sources| && Small(sources, 7)
    case Bulk(_, _, _, more) => 1 <= |more| && Small(more, 6)
    case Embedded(_, ids) => 1 <= |ids| && Small(ids, 4)
  }

  /** The bytes of a descriptor: its length, its type, its subtype if it is class-specific, and its fields. */
  function Laid(i: Item): (d: desc)
    requires Layable(i)
    ensures Honest(d)
  {
    match i
    case Header(version, total, more) =>
      [7 + |more|, 0x24, 1, Low(version), High(version), Low(total), High(total)] + more
    case JackIn(id, kind, more) => [5 + |more|, 0x24, 2, kind, id] + more
    case JackOut(id, kind, pins, sources, last) => [7 + |sources|, 0x24, 3, kind, id, pins] + sources + [last]
    case Bulk(address, attributes, size, more) => [6 + |more|, 5, address, attributes, Low(size), High(size)] + more
    case Embedded(count, ids) => [4 + |ids|, 0x25, 1, count] + ids
  }

  predicate AllLayable(xs: seq<Item>) { forall k | 0 <= k < |xs| :: Layable(xs[k]) }

  function LaidOut(xs: seq<Item>): (ds: seq<desc>)
    requires AllLayable(xs)
    ensures AllHonest(ds) && |ds| == |xs|
  {
    if xs == [] then [] else [Laid(xs[0])] + LaidOut(xs[1..])
  }

  /** An interface of class 1 and subclass 3. */
  function MsInterface(number: byte, alternate: byte, endpoints: byte, protocol: byte, name: byte): (d: desc)
    ensures Honest(d)
  {
    [9, 4, number, alternate, endpoints, 1, 3, protocol, name]
  }

  /** A device descriptor; six bytes stand in front of vendor and product, and six behind. */
  function Device(front: seq<byte>, vendor: half, product: half, behind: seq<byte>): (d: desc)
    requires |front| == 6 && |behind| == 6
    ensures Honest(d)
  {
    [18, 1] + front + [Low(vendor), High(vendor), Low(product), High(product)] + behind
  }

  // ---- what they mean ------------------------------------------------------------------------------

  /** As many of `s` as are announced, there at all, and room for. */
  function Fitting(s: seq<byte>, announced: nat, room: nat): (r: seq<byte>) {
    if announced <= |s| && announced <= room then s[..announced] else if room <= |s| then s[..room] else s
  }

  function JackOf(x: Item): seq<Jack> {
    match x
    case JackIn(id, kind, _) => [Jack(id, kind, In, [])]
    case JackOut(id, kind, pins, sources, _) => [Jack(id, kind, Out, Fitting(sources, pins, 8))]
    case _ => []
  }

  function JacksIn(xs: seq<Item>): seq<Jack> {
    if xs == [] then [] else JackOf(xs[0]) + JacksIn(xs[1..])
  }

  /** Each list of embedded jacks belongs to the endpoint described before it, if that has an address. */
  function EndpointsIn(xs: seq<Item>, address: byte, attributes: byte, size: nat): seq<Endpoint> {
    if xs == [] then []
    else
      match xs[0]
      case Bulk(a, b, s, _) => EndpointsIn(xs[1..], a, b, s)
      case Embedded(count, ids) =>
        (if address == 0 then [] else [Endpoint(address, attributes, size, Fitting(ids, count, 16))])
        + EndpointsIn(xs[1..], address, attributes, size)
      case _ => EndpointsIn(xs[1..], address, attributes, size)
  }

  function HeaderIn(xs: seq<Item>, h: (nat, nat)): (nat, nat) {
    if xs == [] then h
    else match xs[0]
      case Header(version, total, _) => HeaderIn(xs[1..], (version, total))
      case _ => HeaderIn(xs[1..], h)
  }

  // ---- reading the fields back -----------------------------------------------------------------------

  lemma HalfBack(h: half)
    ensures Low(h) as int + 256 * (High(h) as int) == h as int
  {
  }

  lemma {:induction false} IdsAre(d: desc, from: nat, n: nat)
    requires from + n <= |d|
    ensures Ids(d, from, n) == d[from..from + n]
    decreases n
  {
    if n > 0 {
      IdsAre(d, from, n - 1);
      assert d[from..from + n] == d[from..from + n - 1] + [d[from + n - 1]];
    }
  }

  lemma HeaderLaid(i: Item)
    requires Layable(i) && i.Header?
    ensures var d := Laid(i); !Ends(d) && IsHeader(d) && !IsEndpoint(d) && !IsInJack(d) && !IsOutJack(d) && !IsGeneral(d)
                              && U16(d, 3) == i.version as int && U16(d, 5) == i.total as int
  {
    HalfBack(i.version);
    HalfBack(i.total);
  }

  lemma JackInLaid(i: Item)
    requires Layable(i) && i.JackIn?
    ensures var d := Laid(i); !Ends(d) && IsInJack(d) && !IsEndpoint(d) && !IsHeader(d) && !IsOutJack(d) && !IsGeneral(d)
                              && InJack(d) == Jack(i.id, i.kind, In, [])
  {
  }

  lemma JackOutLaid(i: Item)
    requires Layable(i) && i.JackOut?
    ensures var d := Laid(i); !Ends(d) && IsOutJack(d) && !IsEndpoint(d) && !IsHeader(d) && !IsInJack(d) && !IsGeneral(d)
                              && OutJack(d) == Jack(i.id, i.kind, Out, Fitting(i.sources, i.pins, 8))
  {
    var d := Laid(i);
    var n := PinCount(d);
    IdsAre(d, 6, n);
    assert n <= |i.sources| && d[6..6 + n] == i.sources[..n];
  }

  lemma BulkLaid(i: Item)
    requires Layable(i) && i.Bulk?
    ensures var d := Laid(i); !Ends(d) && IsEndpoint(d) && !IsHeader(d) && !IsInJack(d) && !IsOutJack(d) && !IsGeneral(d)
                              && U8(d, 2) == i.address && U8(d, 3) == i.attributes && U16(d, 4) == i.size as int
  {
    HalfBack(i.size);
  }

  lemma EmbeddedLaid(i: Item, c: Current)
    requires Layable(i) && i.Embedded?
    ensures var d := Laid(i); !Ends(d) && IsGeneral(d) && !IsEndpoint(d) && !IsHeader(d) && !IsInJack(d) && !IsOutJack(d)
                              && EndpointOf(d, c) == Endpoint(c.address, c.attributes, c.maxPacket, Fitting(i.ids, i.count, 16))
  {
    var d := Laid(i);
    var n := EmbeddedCount(d);
    IdsAre(d, 4, n);
    assert n <= |i.ids| && d[4..4 + n] == i.ids[..n];
  }

  // ---- the whole list ----------------------------------------------------------------------------------

  lemma ItemLaid(x: Item)
    requires Layable(x)
    ensures !Ends(Laid(x))
    ensures JackOf(x) == if IsInJack(Laid(x)) then [InJack(Laid(x))] else if IsOutJack(Laid(x)) then [OutJack(Laid(x))] else []
    ensures IsHeader(Laid(x)) <==> x.Header?
    ensures x.Header? ==> U16(Laid(x), 3) == x.version as int && U16(Laid(x), 5) == x.total as int
  {
    match x
    case Header(_, _, _) => HeaderLaid(x);
    case JackIn(_, _, _) => JackInLaid(x);
    case JackOut(_, _, _, _, _) => JackOutLaid(x);
    case Bulk(_, _, _, _) => BulkLaid(x);
    case Embedded(_, _) => EmbeddedLaid(x, Current(0, 0, 0));
  }

  lemma LayableTail(xs: seq<Item>)
    requires AllLayable(xs) && xs != []
    ensures Layable(xs[0]) && AllLayable(xs[1..])
    ensures LaidOut(xs)[0] == Laid(xs[0]) && LaidOut(xs)[1..] == LaidOut(xs[1..])
  {
  }

  lemma {:induction false} JacksLaid(xs: seq<Item>)
    requires AllLayable(xs)
    ensures Jacks(LaidOut(xs)) == JacksIn(xs)
  {
    if xs != [] {
      LayableTail(xs);
      ItemLaid(xs[0]);
      JacksLaid(xs[1..]);
    }
  }

  lemma {:induction false} HeaderLaidOut(xs: seq<Item>, h: (nat, nat))
    requires AllLayable(xs)
    ensures LastHeader(LaidOut(xs), h) == HeaderIn(xs, h)
    decreases |xs|
  {
    if xs != [] {
      LayableTail(xs);
      ItemLaid(xs[0]);
      HeaderLaidOut(xs[1..], if xs[0].Header? then (xs[0].version, xs[0].total) else h);
    }
  }

  lemma EndpointLaid(x: Item, c: Current)
    requires Layable(x)
    ensures IsEndpoint(Laid(x)) <==> x.Bulk?
    ensures x.Bulk? ==> Current(U8(Laid(x), 2), U8(Laid(x), 3), U16(Laid(x), 4)) == Current(x.address, x.attributes, x.size)
    ensures !x.Bulk? ==> (IsGeneral(Laid(x)) <==> x.Embedded?)
    ensures x.Embedded? ==> EndpointOf(Laid(x), c) == Endpoint(c.address, c.attributes, c.maxPacket, Fitting(x.ids, x.count, 16))
  {
    match x
    case Header(_, _, _) => HeaderLaid(x);
    case JackIn(_, _, _) => JackInLaid(x);
    case JackOut(_, _, _, _, _) => JackOutLaid(x);
    case Bulk(_, _, _, _) => BulkLaid(x);
    case Embedded(_, _) => EmbeddedLaid(x, c);
  }

  lemma {:induction false} EndpointsLaid(xs: seq<Item>, c: Current)
    requires AllLayable(xs)
    ensures Endpoints(LaidOut(xs), c) == EndpointsIn(xs, c.address, c.attributes, c.maxPacket)
    decreases |xs|
  {
    if xs != [] {
      LayableTail(xs);
      EndpointLaid(xs[0], c);
      EndpointsLaid(xs[1..], if xs[0].Bulk? then Current(xs[0].address, xs[0].attributes, xs[0].size) else c);
      if !xs[0].Bulk? && !xs[0].Embedded? {
        assert [] + Endpoints(LaidOut(xs[1..]), c) == Endpoints(LaidOut(xs[1..]), c);
      }
    }
  }

  /** What follows the interface's own descriptors: nothing, or a device, configuration or interface descriptor and anything. */
  predicate Closes(tail: seq<desc>) {
    AllHonest(tail) && (tail == [] || tail[0][1] == 1 || tail[0][1] == 2 || tail[0][1] == 4)
  }

  lemma BodyHead(d: desc, rest: seq<desc>, tail: seq<desc>)
    requires !Ends(d)
    ensures Body(([d] + rest) + tail) == [d] + Body(rest + tail)
  {
    assert (([d] + rest) + tail)[1..] == rest + tail;
  }

  lemma {:induction false} BodyLaid(xs: seq<Item>, tail: seq<desc>)
    requires AllLayable(xs) && Closes(tail)
    ensures Body(LaidOut(xs) + tail) == LaidOut(xs)
    decreases |xs|
  {
    if xs == [] {
      assert [] + tail == tail;
    } else {
      LayableTail(xs);
      ItemLaid(xs[0]);
      BodyLaid(xs[1..], tail);
      BodyHead(Laid(xs[0]), LaidOut(xs[1..]), tail);
    }
  }

  /** The descriptors of a device with one MIDIStreaming interface. */
  function DeviceWith(front: seq<byte>, vendor: half, product: half, behind: seq<byte>, number: byte, alternate: byte, endpoints: byte,
                      protocol: byte, name: byte, xs: seq<Item>, tail: seq<desc>): (ds: seq<desc>)
    requires |front| == 6 && |behind| == 6 && AllLayable(xs)
  {
    [Device(front, vendor, product, behind), MsInterface(number, alternate, endpoints, protocol, name)] + (LaidOut(xs) + tail)
  }

  lemma DeviceLaid(front: seq<byte>, vendor: half, product: half, behind: seq<byte>)
    requires |front| == 6 && |behind| == 6
    ensures var d := Device(front, vendor, product, behind);
      IsDevice(d) && !IsMsInterface(d) && U16(d, 8) == vendor as int && U16(d, 10) == product as int
  {
    HalfBack(vendor);
    HalfBack(product);
  }

  lemma SecondIsFirst(ds: seq<desc>)
    requires |ds| >= 2 && !IsMsInterface(ds[0]) && IsMsInterface(ds[1]) && IsDevice(ds[0])
    ensures FirstMs(ds) == 1 && LastDevice(ds[..1], (0, 0)) == (U16(ds[0], 8), U16(ds[0], 10))
  {
    assert ds[1..][0] == ds[1] && ds[..1][0] == ds[0] && ds[..1][1..] == [];
    assert FirstMs(ds[1..]) == 0;
  }

  /** A device whose descriptors are laid out as USB and USB-MIDI have them is read back: its identity, its interface, the last
      header, the first sixteen jacks and the first eight endpoints with their embedded jacks. */
  lemma TopologyRead(front: seq<byte>, vendor: half, product: half, behind: seq<byte>, number: byte, alternate: byte, endpoints: byte,
                     protocol: byte, name: byte, xs: seq<Item>, tail: seq<desc>)
    requires |front| == 6 && |behind| == 6 && AllLayable(xs) && Closes(tail)
    ensures var ds := DeviceWith(front, vendor, product, behind, number, alternate, endpoints, protocol, name, xs, tail);
      var o := Parse(Initial(), Flatten(ds));
      var info := o.st.info;
      && o.error == NoError && info.found && info.vid == vendor as int && info.pid == product as int
      && info.number == number && info.alternate == alternate && info.declared == endpoints && info.class_ == 1 && info.subclass == 3
      && (info.bcdMsc, info.totalLength) == HeaderIn(xs, (0, 0))
      && info.jacks == Take(JacksIn(xs), 16) && info.endpoints == Take(EndpointsIn(xs, 0, 0, 0), 8)
  {
    var ds := DeviceWith(front, vendor, product, behind, number, alternate, endpoints, protocol, name, xs, tail);
    AllLaid(front, vendor, product, behind, number, alternate, endpoints, protocol, name, xs, tail, ds);
    WalkFlatten(ds);
    ParseIsFold(Initial(), Flatten(ds));
    DeviceLaid(front, vendor, product, behind);
    SecondIsFirst(ds);
    Summary(ds);
    BodyLaid(xs, tail);
    JacksLaid(xs);
    EndpointsLaid(xs, Current(0, 0, 0));
    HeaderLaidOut(xs, (0, 0));
  }

  lemma AllLaid(front: seq<byte>, vendor: half, product: half, behind: seq<byte>, number: byte, alternate: byte, endpoints: byte,
                protocol: byte, name: byte, xs: seq<Item>, tail: seq<desc>, ds: seq<desc>)
    requires |front| == 6 && |behind| == 6 && AllLayable(xs) && Closes(tail)
    requires ds == DeviceWith(front, vendor, product, behind, number, alternate, endpoints, protocol, name, xs, tail)
    ensures AllHonest(ds) && |ds| >= 2 && ds[0] == Device(front, vendor, product, behind) && IsMsInterface(ds[1])
    ensures ds[1] == MsInterface(number, alternate, endpoints, protocol, name) && ds[2..] == LaidOut(xs) + tail
  {
  }

  /** Jack `i` of endpoint `e` is the port of cable `i` if fewer than 32 come before it: its direction is the top bit of the
      address, and it stands behind the jacks of the endpoints before. */
  lemma PortsRead(es: seq<Endpoint>, e: nat, i: nat)
    requires e < |es| && i < |es[e].embedded| && Offset(es, e) + i < 32
    ensures var ps, at := Ports(es), Offset(es, e) + i;
      |ps| <= 32 && at < |ps| && ps[at] == Port(es[e].address, es[e].address >= 128, i, es[e].embedded[i])
  {
    PortAt(es, e, i);
    assert es[e].address / 128 % 2 == 1 <==> es[e].address >= 128;
  }

  // ---- jacks with several pins --------------------------------------------------------------------------------

  /** In table 6-4 of the USB-MIDI 1.0 specification each pin of an OUT jack has two bytes: the jack it is fed from, and that
      jack's pin. */
  function PinPairs(ids: seq<byte>, pins: seq<byte>): (s: seq<byte>)
    requires |ids| == |pins|
    ensures |s| == 2 * |ids|
  {
    if ids == [] then [] else PinPairs(ids[..|ids| - 1], pins[..|pins| - 1]) + [ids[|ids| - 1], pins[|pins| - 1]]
  }

  lemma {:induction false} PairAt(ids: seq<byte>, pins: seq<byte>, k: nat)
    requires |ids| == |pins| && k < 2 * |ids|
    ensures PinPairs(ids, pins)[k] == if k % 2 == 0 then ids[k / 2] else pins[k / 2]
    decreases |ids|
  {
    var n := |ids| - 1;
    if k < 2 * n { PairAt(ids[..n], pins[..n], k); }
  }

  /** The parser reads the sources byte after byte, so what it records are the first bytes of the pairs. */
  predicate Recorded(ids: seq<byte>, pins: seq<byte>, j: nat)
    requires |ids| == |pins| && j < |ids|
  {
    ids[j] == if j % 2 == 0 then ids[j / 2] else pins[j / 2]
  }

  /** An OUT jack of up to eight pins is recorded with its sources exactly if each source is the byte at its place among the
      pairs; with one pin it always is. */
  lemma SourcesIff(id: byte, kind: byte, ids: seq<byte>, pins: seq<byte>, last: byte)
    requires 1 <= |ids| == |pins| <= 8
    ensures var x := JackOut(id, kind, |ids|, PinPairs(ids, pins), last);
      && Layable(x) && IsOutJack(Laid(x))
      && (OutJack(Laid(x)) == Jack(id, kind, Out, ids) <==> forall j | 0 <= j < |ids| :: Recorded(ids, pins, j))
    ensures |ids| == 1 ==> Recorded(ids, pins, 0)
  {
    var n, s := |ids|, PinPairs(ids, pins);
    var x := JackOut(id, kind, n, s, last);
    JackOutLaid(x);
    assert OutJack(Laid(x)) == Jack(id, kind, Out, s[..n]);
    forall j | 0 <= j < n ensures s[..n][j] == ids[j] <==> Recorded(ids, pins, j) { PairAt(ids, pins, j); }
    if forall j | 0 <= j < n :: Recorded(ids, pins, j) { assert s[..n] == ids; }
  }

  /** The smallest jack recorded with a wrong source: two pins, fed from jacks 1 and 2. */
  lemma SecondSourceLost()
    ensures var x := JackOut(3, 1, 2, [1, 1, 2, 1], 0); Layable(x) && OutJack(Laid(x)) == Jack(3, 1, Out, [1, 1])
  {
    JackOutLaid(JackOut(3, 1, 2, [1, 1, 2, 1], 0));
  }
}
