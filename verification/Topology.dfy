/** What the parser extracts from a descriptor list: a fold with fixed caps, and what it amounts to. */
module Topology {
  import opened Words
  import opened Descriptors

  const MAX_JACKS := 16
  const MAX_SOURCES := 8
  const MAX_ENDPOINTS := 8
  const MAX_EMBEDDED := 16
  const MAX_PORTS := 32

  datatype Direction = In | Out

  datatype Jack = Jack(id: byte, kind: byte, direction: Direction, sources: seq<byte>)
  datatype Endpoint = Endpoint(address: byte, attributes: byte, maxPacket: nat, embedded: seq<byte>)

  datatype Info = Info(found: bool, vid: nat, pid: nat, number: byte, alternate: byte, class_: byte, subclass: byte,
                       declared: byte, bcdMsc: nat, totalLength: nat,
                       jacks: seq<Jack>, numIn: nat, numOut: nat, endpoints: seq<Endpoint>)

  /** The standard endpoint descriptor read last. */
  datatype Current = Current(address: byte, attributes: byte, maxPacket: nat)

  datatype State = State(info: Info, inMs: bool, current: Current)

  function Initial(): State {
    State(Info(false, 0, 0, 0, 0, 0, 0, 0, 0, 0, [], 0, 0, []), false, Current(0, 0, 0))
  }

  // ---- kinds of descriptor ------------------------------------------------------------------

  predicate IsDevice(d: desc) { U8(d, 1) == 1 && |d| >= 18 }

  predicate IsMsInterface(d: desc) { U8(d, 1) == 4 && |d| >= 9 && U8(d, 5) == 1 && U8(d, 6) == 3 }

  /** Interface, configuration and device descriptors end the MIDIStreaming set. */
  predicate Ends(d: desc) { U8(d, 1) == 4 || U8(d, 1) == 2 || U8(d, 1) == 1 }

  predicate IsEndpoint(d: desc) { U8(d, 1) == 5 && |d| >= 7 }

  predicate IsHeader(d: desc) { U8(d, 1) == 0x24 && U8(d, 2) == 1 && |d| >= 7 }

  predicate IsInJack(d: desc) { U8(d, 1) == 0x24 && U8(d, 2) == 2 && |d| >= 6 }

  predicate IsOutJack(d: desc) { U8(d, 1) == 0x24 && U8(d, 2) == 3 && |d| >= 9 }

  predicate IsGeneral(d: desc) { U8(d, 1) == 0x25 && U8(d, 2) == 1 && |d| >= 5 }

  function Ids(d: desc, from: nat, n: nat): (s: seq<byte>)
    ensures |s| == n
    decreases n
  {
    if n == 0 then [] else Ids(d, from, n - 1) + [U8(d, from + n - 1)]
  }

  /** Source pins of a MIDI OUT jack: what is declared, what is recorded at most, what is there. */
  function PinCount(d: desc): nat
    requires |d| >= 7
  {
    var n: nat := U8(d, 5);
    var capped := if n > MAX_SOURCES then MAX_SOURCES else n;
    if capped > |d| - 7 then |d| - 7 else capped
  }

  function EmbeddedCount(d: desc): nat
    requires |d| >= 4
  {
    var n: nat := U8(d, 3);
    var capped := if n > MAX_EMBEDDED then MAX_EMBEDDED else n;
    if capped > |d| - 4 then |d| - 4 else capped
  }

  // ---- one descriptor ---------------------------------------------------------------------------

  function Identify(info: Info, d: desc): Info { info.(vid := U16(d, 8), pid := U16(d, 10)) }

  function Enter(info: Info, d: desc): Info {
    info.(found := true, number := U8(d, 2), alternate := U8(d, 3), declared := U8(d, 4), class_ := U8(d, 5), subclass := U8(d, 6))
  }

  /** In front of the MIDIStreaming interface, and the interface itself. */
  function Before(st: State, d: desc): State
  {
    if IsDevice(d) then st.(info := Identify(st.info, d))
    else if IsMsInterface(d) then st.(inMs := true, info := Enter(st.info, d))
    else st
  }

  function AddJack(info: Info, j: Jack): Info {
    if |info.jacks| >= MAX_JACKS then info
    else if j.direction == In then info.(jacks := info.jacks + [j], numIn := info.numIn + 1)
    else info.(jacks := info.jacks + [j], numOut := info.numOut + 1)
  }

  function AddEndpoint(info: Info, e: Endpoint): Info {
    if |info.endpoints| >= MAX_ENDPOINTS then info else info.(endpoints := info.endpoints + [e])
  }

  function InJack(d: desc): Jack { Jack(U8(d, 4), U8(d, 3), In, []) }

  function OutJack(d: desc): Jack
    requires |d| >= 7
  {
    Jack(U8(d, 4), U8(d, 3), Out, Ids(d, 6, PinCount(d)))
  }

  function EndpointOf(d: desc, c: Current): Endpoint
    requires |d| >= 4
  {
    Endpoint(c.address, c.attributes, c.maxPacket, Ids(d, 4, EmbeddedCount(d)))
  }

  /** Inside the MIDIStreaming set; descriptors of other kinds are passed over. */
  function Within(st: State, d: desc): State {
    if IsEndpoint(d) then st.(current := Current(U8(d, 2), U8(d, 3), U16(d, 4)))
    else if IsHeader(d) then st.(info := st.info.(bcdMsc := U16(d, 3), totalLength := U16(d, 5)))
    else if IsInJack(d) then st.(info := AddJack(st.info, InJack(d)))
    else if IsOutJack(d) then st.(info := AddJack(st.info, OutJack(d)))
    else if IsGeneral(d) && st.current.address != 0 then st.(info := AddEndpoint(st.info, EndpointOf(d, st.current)))
    else st
  }

  /** The fold; it goes no further than the end of the set. */
  function Run(st: State, ds: seq<desc>): State
    decreases |ds|
  {
    if ds == [] then st
    else if !st.inMs then Run(Before(st, ds[0]), ds[1..])
    else if Ends(ds[0]) then st
    else Run(Within(st, ds[0]), ds[1..])
  }

  /** The fold has met the end of the set. */
  predicate Stopped(inMs: bool, ds: seq<desc>)
    decreases |ds|
  {
    ds != [] && if !inMs then Stopped(!IsDevice(ds[0]) && IsMsInterface(ds[0]), ds[1..]) else Ends(ds[0]) || Stopped(true, ds[1..])
  }

  // ---- the loop over bytes is the fold over descriptors ------------------------------------------

  datatype Outcome = Outcome(st: State, error: Error)

  function Parse(st: State, left: seq<byte>): Outcome
    decreases |left|
  {
    var a := Look(left);
    if a.End? then Outcome(st, NoError)
    else if a.Bad? then Outcome(st, a.error)
    else if !st.inMs then Parse(Before(st, a.d), left[|a.d|..])
    else if Ends(a.d) then Outcome(st, NoError)
    else Parse(Within(st, a.d), left[|a.d|..])
  }

  /** What is extracted is the fold over the walked descriptors; an error counts only when the walk
      meets it before the end of the set. */
  lemma {:induction false} ParseIsFold(st: State, left: seq<byte>)
    ensures Parse(st, left).st == Run(st, Walk(left).descs)
    ensures Parse(st, left).error == if Stopped(st.inMs, Walk(left).descs) then NoError else Walk(left).error
    decreases |left|
  {
    var a := Look(left);
    if a.Got? {
      var rest := Walk(left[|a.d|..]);
      assert ([a.d] + rest.descs)[1..] == rest.descs && Walk(left).descs == [a.d] + rest.descs;
      if !st.inMs {
        ParseIsFold(Before(st, a.d), left[|a.d|..]);
      } else if !Ends(a.d) {
        ParseIsFold(Within(st, a.d), left[|a.d|..]);
      }
    }
  }

  // ---- what the fold amounts to --------------------------------------------------------------------

  function Take<T>(s: seq<T>, n: nat): seq<T> { s[..Min(n, |s|)] }

  /** The descriptors of the set, up to the next interface, configuration or device. */
  function Body(ds: seq<desc>): seq<desc> {
    if ds == [] || Ends(ds[0]) then [] else [ds[0]] + Body(ds[1..])
  }

  function Jacks(ds: seq<desc>): seq<Jack> {
    if ds == [] then []
    else (if IsInJack(ds[0]) then [InJack(ds[0])] else if IsOutJack(ds[0]) then [OutJack(ds[0])] else []) + Jacks(ds[1..])
  }

  /** Each class-specific endpoint descriptor with the standard one before it. */
  function Endpoints(ds: seq<desc>, c: Current): seq<Endpoint> {
    if ds == [] then []
    else if IsEndpoint(ds[0]) then Endpoints(ds[1..], Current(U8(ds[0], 2), U8(ds[0], 3), U16(ds[0], 4)))
    else (if IsGeneral(ds[0]) && c.address != 0 then [EndpointOf(ds[0], c)] else []) + Endpoints(ds[1..], c)
  }

  lemma TakeMore<T>(s: seq<T>, x: T, rest: seq<T>, n: nat)
    ensures |s| < n ==> Take(s + ([x] + rest), n) == Take((s + [x]) + rest, n)
    ensures |s| >= n ==> Take(s + ([x] + rest), n) == Take(s + rest, n)
  {
    Assoc(s, [x], rest);
  }

  lemma {:induction false} JacksOfRun(st: State, ds: seq<desc>)
    requires st.inMs && |st.info.jacks| <= MAX_JACKS
    ensures Run(st, ds).info.jacks == Take(st.info.jacks + Jacks(Body(ds)), MAX_JACKS)
    decreases |ds|
  {
    if ds == [] || Ends(ds[0]) {
      assert st.info.jacks + [] == st.info.jacks;
    } else {
      var rest := Jacks(Body(ds[1..]));
      BodyCons(ds);
      JacksOfRun(Within(st, ds[0]), ds[1..]);
      if IsInJack(ds[0]) {
        TakeMore(st.info.jacks, InJack(ds[0]), rest, MAX_JACKS);
      } else if IsOutJack(ds[0]) {
        TakeMore(st.info.jacks, OutJack(ds[0]), rest, MAX_JACKS);
      } else {
        assert [] + rest == rest;
      }
    }
  }

  lemma BodyCons(ds: seq<desc>)
    requires ds != [] && !Ends(ds[0])
    ensures Body(ds) != [] && Body(ds)[0] == ds[0] && Body(ds)[1..] == Body(ds[1..])
  {
  }

  lemma {:induction false} EndpointsOfRun(st: State, ds: seq<desc>)
    requires st.inMs && |st.info.endpoints| <= MAX_ENDPOINTS
    ensures Run(st, ds).info.endpoints == Take(st.info.endpoints + Endpoints(Body(ds), st.current), MAX_ENDPOINTS)
    decreases |ds|
  {
    if ds == [] || Ends(ds[0]) {
      assert st.info.endpoints + [] == st.info.endpoints;
    } else {
      var next := Within(st, ds[0]);
      var rest := Endpoints(Body(ds[1..]), next.current);
      BodyCons(ds);
      EndpointsOfRun(next, ds[1..]);
      if IsGeneral(ds[0]) && st.current.address != 0 {
        TakeMore(st.info.endpoints, EndpointOf(ds[0], st.current), rest, MAX_ENDPOINTS);
      } else {
        assert [] + rest == rest;
      }
    }
  }

  function CountOf(js: seq<Jack>, dir: Direction): nat {
    if js == [] then 0 else (if js[|js| - 1].direction == dir then 1 else 0) + CountOf(js[..|js| - 1], dir)
  }

  /** Caps and counters hold in every state. */
  predicate Sound(info: Info) {
    && |info.jacks| <= MAX_JACKS && |info.endpoints| <= MAX_ENDPOINTS
    && info.numIn == CountOf(info.jacks, In) && info.numOut == CountOf(info.jacks, Out)
  }

  lemma WithinSound(st: State, d: desc)
    requires Sound(st.info)
    ensures Sound(Within(st, d).info)
  {
    if IsInJack(d) {
      JackCounted(st.info.jacks, InJack(d));
    } else if IsOutJack(d) {
      JackCounted(st.info.jacks, OutJack(d));
    }
  }

  lemma JackCounted(js: seq<Jack>, j: Jack)
    ensures CountOf(js + [j], In) == CountOf(js, In) + if j.direction == In then 1 else 0
    ensures CountOf(js + [j], Out) == CountOf(js, Out) + if j.direction == Out then 1 else 0
  {
    assert (js + [j])[..|js|] == js;
  }

  lemma {:induction false} RunSound(st: State, ds: seq<desc>)
    requires Sound(st.info)
    ensures Sound(Run(st, ds).info)
    decreases |ds|
  {
    if ds == [] {
    } else if !st.inMs {
      RunSound(Before(st, ds[0]), ds[1..]);
    } else if !Ends(ds[0]) {
      WithinSound(st, ds[0]);
      RunSound(Within(st, ds[0]), ds[1..]);
    }
  }

  /** The first MIDIStreaming interface, if there is one. */
  function FirstMs(ds: seq<desc>): (k: nat)
    ensures k <= |ds|
  {
    if ds == [] then 0 else if IsMsInterface(ds[0]) then 0 else 1 + FirstMs(ds[1..])
  }

  /** Vendor and product of the last full device descriptor in front of the interface. */
  function LastDevice(ds: seq<desc>, ids: (nat, nat)): (nat, nat) {
    if ds == [] then ids
    else LastDevice(ds[1..], if IsDevice(ds[0]) then (U16(ds[0], 8), U16(ds[0], 10)) else ids)
  }

  lemma FirstMsCons(ds: seq<desc>)
    requires ds != [] && !IsMsInterface(ds[0])
    ensures FirstMs(ds) == 1 + FirstMs(ds[1..])
    ensures ds[..FirstMs(ds)] != [] && ds[..FirstMs(ds)][0] == ds[0]
    ensures ds[..FirstMs(ds)][1..] == ds[1..][..FirstMs(ds[1..])]
    ensures ds[FirstMs(ds)..] == ds[1..][FirstMs(ds[1..])..]
  {
  }

  /** Up to the interface only vendor and product change. */
  lemma {:induction false} RunBefore(st: State, ds: seq<desc>) returns (mid: State)
    requires !st.inMs
    ensures !mid.inMs && Run(st, ds) == Run(mid, ds[FirstMs(ds)..])
    ensures var ids := LastDevice(ds[..FirstMs(ds)], (st.info.vid, st.info.pid));
      mid == st.(info := st.info.(vid := ids.0, pid := ids.1))
    decreases |ds|
  {
    if ds == [] || IsMsInterface(ds[0]) {
      mid := st;
      assert ds[0..] == ds;
    } else {
      FirstMsCons(ds);
      mid := RunBefore(Before(st, ds[0]), ds[1..]);
    }
  }

  /** Version and total length of the last class-specific header of the set. */
  function LastHeader(ds: seq<desc>, h: (nat, nat)): (nat, nat) {
    if ds == [] then h else LastHeader(ds[1..], if IsHeader(ds[0]) then (U16(ds[0], 3), U16(ds[0], 5)) else h)
  }

  lemma {:induction false} HeaderOfRun(st: State, ds: seq<desc>)
    requires st.inMs
    ensures var info := Run(st, ds).info;
      (info.bcdMsc, info.totalLength) == LastHeader(Body(ds), (st.info.bcdMsc, st.info.totalLength))
    decreases |ds|
  {
    if ds != [] && !Ends(ds[0]) {
      BodyCons(ds);
      HeaderOfRun(Within(st, ds[0]), ds[1..]);
    }
  }

  /** What the interface itself and what precedes it have set. */
  predicate SameFront(a: Info, b: Info) {
    && a.found == b.found && a.vid == b.vid && a.pid == b.pid && a.number == b.number && a.alternate == b.alternate
    && a.class_ == b.class_ && a.subclass == b.subclass && a.declared == b.declared
  }

  lemma {:induction false} RunKeepsFront(st: State, ds: seq<desc>)
    requires st.inMs
    ensures SameFront(Run(st, ds).info, st.info)
    decreases |ds|
  {
    if ds != [] && !Ends(ds[0]) { RunKeepsFront(Within(st, ds[0]), ds[1..]); }
  }

  /** Everything a parse of these descriptors reports, said without the fold: the first MIDIStreaming
      interface, the last device descriptor before it, the last header of its set, and the jacks and endpoints
      of the set, cut at the caps. */
  lemma Summary(ds: seq<desc>)
    ensures var k, info := FirstMs(ds), Run(Initial(), ds).info;
      && (info.vid, info.pid) == LastDevice(ds[..k], (0, 0))
      && (info.found <==> k < |ds|)
      && (k < |ds| ==>
            && info.number == U8(ds[k], 2) && info.alternate == U8(ds[k], 3) && info.declared == U8(ds[k], 4)
            && info.class_ == U8(ds[k], 5) && info.subclass == U8(ds[k], 6)
            && (info.bcdMsc, info.totalLength) == LastHeader(Body(ds[k + 1..]), (0, 0))
            && info.jacks == Take(Jacks(Body(ds[k + 1..])), MAX_JACKS)
            && info.endpoints == Take(Endpoints(Body(ds[k + 1..]), Current(0, 0, 0)), MAX_ENDPOINTS))
      && Sound(info)
  {
    var k := FirstMs(ds);
    var mid := RunBefore(Initial(), ds);
    RunSound(Initial(), ds);
    if k < |ds| {
      FirstMsIs(ds);
      AfterInterface(mid, ds[k], ds[k..]);
      assert ds[k..][1..] == ds[k + 1..];
    }
  }

  /** With two full device descriptors in front of the interface, vendor and product are those of the second. */
  lemma SecondDeviceWins(a: desc, b: desc, ms: desc)
    requires IsDevice(a) && IsDevice(b) && IsMsInterface(ms)
    ensures var info := Run(Initial(), [a, b, ms]).info; info.vid == U16(b, 8) && info.pid == U16(b, 10)
  {
    var ds := [a, b, ms];
    var one, two := Before(Initial(), a), Before(Before(Initial(), a), b);
    assert ds[1..] == [b, ms] && [b, ms][1..] == [ms] && [ms][1..] == [];
    assert Run(Initial(), ds) == Run(one, [b, ms]) == Run(two, [ms]) == Run(Before(two, ms), []);
  }

  lemma {:induction false} FirstMsIs(ds: seq<desc>)
    requires FirstMs(ds) < |ds|
    ensures IsMsInterface(ds[FirstMs(ds)])
  {
    if !IsMsInterface(ds[0]) { FirstMsIs(ds[1..]); }
  }

  lemma AfterInterface(mid: State, d: desc, ds: seq<desc>)
    requires !mid.inMs && ds != [] && ds[0] == d && IsMsInterface(d) && mid.info.jacks == [] && mid.info.endpoints == []
    ensures var info, start := Run(mid, ds).info, Before(mid, d);
      && SameFront(info, start.info)
      && (info.bcdMsc, info.totalLength) == LastHeader(Body(ds[1..]), (mid.info.bcdMsc, mid.info.totalLength))
      && info.jacks == Take(Jacks(Body(ds[1..])), MAX_JACKS)
      && info.endpoints == Take(Endpoints(Body(ds[1..]), mid.current), MAX_ENDPOINTS)
  {
    var start := Before(mid, d);
    RunKeepsFront(start, ds[1..]);
    HeaderOfRun(start, ds[1..]);
    JacksOfRun(start, ds[1..]);
    EndpointsOfRun(start, ds[1..]);
    assert [] + Jacks(Body(ds[1..])) == Jacks(Body(ds[1..]));
    assert [] + Endpoints(Body(ds[1..]), mid.current) == Endpoints(Body(ds[1..]), mid.current);
  }

  // ---- ports -------------------------------------------------------------------------------------------

  datatype Port = Port(address: byte, receives: bool, cable: nat, jack: byte)

  /** One port for each embedded jack of an endpoint, the cable being its index. */
  function PortsOf(e: Endpoint, n: nat): (ps: seq<Port>)
    requires n <= |e.embedded|
    ensures |ps| == n
    decreases n
  {
    if n == 0 then [] else PortsOf(e, n - 1) + [Port(e.address, e.address / 128 % 2 == 1, n - 1, e.embedded[n - 1])]
  }

  function Pairs(es: seq<Endpoint>): seq<Port> {
    if es == [] then [] else PortsOf(es[0], |es[0].embedded|) + Pairs(es[1..])
  }

  function Ports(es: seq<Endpoint>): seq<Port> { Take(Pairs(es), MAX_PORTS) }

  /** Embedded jacks of the endpoints before `e`. */
  function Offset(es: seq<Endpoint>, e: nat): nat
    requires e <= |es|
  {
    if e == 0 then 0 else |es[0].embedded| + Offset(es[1..], e - 1)
  }

  lemma {:induction false} PortsOfAt(e: Endpoint, n: nat, i: nat)
    requires i < n <= |e.embedded|
    ensures PortsOf(e, n)[i] == Port(e.address, e.address / 128 % 2 == 1, i, e.embedded[i])
    decreases n
  {
    if i < n - 1 { PortsOfAt(e, n - 1, i); }
  }

  lemma {:induction false} PairsLength(es: seq<Endpoint>)
    ensures |Pairs(es)| == Offset(es, |es|)
  {
    if es != [] { PairsLength(es[1..]); }
  }

  lemma {:induction false} PairsAt(es: seq<Endpoint>, e: nat, i: nat)
    requires e < |es| && i < |es[e].embedded|
    ensures var at := Offset(es, e) + i;
      at < |Pairs(es)| && Pairs(es)[at] == Port(es[e].address, es[e].address / 128 % 2 == 1, i, es[e].embedded[i])
    decreases e
  {
    if e == 0 {
      PortsOfAt(es[0], |es[0].embedded|, i);
    } else {
      PairsAt(es[1..], e - 1, i);
    }
  }

  /** The ports are the first 32 pairs of an endpoint and an index into its jacks, in order. */
  lemma PortAt(es: seq<Endpoint>, e: nat, i: nat)
    requires e < |es| && i < |es[e].embedded|
    ensures |Ports(es)| == Min(MAX_PORTS, Offset(es, |es|))
    ensures var at := Offset(es, e) + i;
      if at < MAX_PORTS then
        at < |Ports(es)| && Ports(es)[at] == Port(es[e].address, es[e].address / 128 % 2 == 1, i, es[e].embedded[i])
      else at >= |Ports(es)|
  {
    PairsLength(es);
    PairsAt(es, e, i);
  }
}
