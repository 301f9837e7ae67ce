/** The parser as it runs: a walker, the structure it fills in, and the port list. */
module TopologyRun {
  import opened Words
  import opened Descriptors
  import opened Topology

  /** The structure the parser fills in; jack and endpoint slots beyond the counts are not modelled. */
  class MsInfo {
    var found: bool
    var vid: nat
    var pid: nat
    var number: byte
    var alternate: byte
    var class_: byte
    var subclass: byte
    var declared: byte
    var bcdMsc: nat
    var totalLength: nat
    var jacks: seq<Jack>
    var numIn: nat
    var numOut: nat
    var endpoints: seq<Endpoint>

    function View(): Info
      reads this
    {
      Info(found, vid, pid, number, alternate, class_, subclass, declared, bcdMsc, totalLength, jacks, numIn, numOut, endpoints)
    }

    constructor ()
      ensures View() == Initial().info
    {
      found, vid, pid, number, alternate, class_, subclass, declared := false, 0, 0, 0, 0, 0, 0, 0;
      bcdMsc, totalLength, jacks, numIn, numOut, endpoints := 0, 0, [], 0, 0, [];
    }

    /** At the cap recording stops and parsing goes on. */
    method RecordJack(j: Jack)
      modifies this
      ensures View() == AddJack(old(View()), j)
    {
      if |jacks| >= MAX_JACKS { return; }
      jacks := jacks + [j];
      if j.direction == In { numIn := numIn + 1; } else { numOut := numOut + 1; }
    }

    method RecordEndpoint(e: Endpoint)
      modifies this
      ensures View() == AddEndpoint(old(View()), e)
    {
      if |endpoints| >= MAX_ENDPOINTS { return; }
      endpoints := endpoints + [e];
    }

    method OnDevice(it: DescIter)
      requires it.Valid()
      modifies this
      ensures View() == Identify(old(View()), it.Current())
    {
      vid, pid := it.ReadU16(8), it.ReadU16(10);
    }

    method OnMsInterface(it: DescIter)
      requires it.Valid()
      modifies this
      ensures View() == Enter(old(View()), it.Current())
    {
      found := true;
      number, alternate, declared := it.ReadU8(2), it.ReadU8(3), it.ReadU8(4);
      class_, subclass := it.ReadU8(5), it.ReadU8(6);
    }

    /** A descriptor in front of the MIDIStreaming interface, or the interface. */
    method OnBefore(it: DescIter, ghost c: Current) returns (entered: bool)
      requires it.Valid() && it.blen >= 2 && it.btype == U8(it.Current(), 1)
      modifies this
      ensures State(View(), entered, c) == Before(State(old(View()), false, c), it.Current())
    {
      entered := false;
      if it.btype == 1 && it.blen >= 18 {
        OnDevice(it);
      } else if it.btype == 4 && it.blen >= 9 && it.ReadU8(5) == 1 && it.ReadU8(6) == 3 {
        entered := true;
        OnMsInterface(it);
      }
    }

    /** A class-specific interface descriptor. */
    method OnInterface(it: DescIter, ghost c: Current)
      requires it.Valid() && it.blen >= 2 && it.btype == U8(it.Current(), 1) == 0x24
      modifies this
      ensures State(View(), true, c) == Within(State(old(View()), true, c), it.Current())
    {
      var subtype := it.ReadU8(2);
      if subtype == 1 && it.blen >= 7 {
        bcdMsc, totalLength := it.ReadU16(3), it.ReadU16(5);
      } else if subtype == 2 && it.blen >= 6 {
        RecordJack(Jack(it.ReadU8(4), it.ReadU8(3), In, []));
      } else if subtype == 3 && it.blen >= 9 {
        var pins: nat := it.ReadU8(5);
        if pins > MAX_SOURCES { pins := MAX_SOURCES; }
        if pins > it.blen - 7 { pins := it.blen - 7; }
        var sources := ReadIds(it, 6, pins);
        RecordJack(Jack(it.ReadU8(4), it.ReadU8(3), Out, sources));
      }
    }

    /** A class-specific endpoint descriptor, which belongs to the standard one before it. */
    method OnEndpoint(it: DescIter, c: Current)
      requires it.Valid() && it.blen >= 2 && it.btype == U8(it.Current(), 1) == 0x25
      modifies this
      ensures State(View(), true, c) == Within(State(old(View()), true, c), it.Current())
    {
      if it.ReadU8(2) == 1 && it.blen >= 5 && c.address != 0 {
        var n: nat := it.ReadU8(3);
        if n > MAX_EMBEDDED { n := MAX_EMBEDDED; }
        if n > it.blen - 4 { n := it.blen - 4; }
        var ids := ReadIds(it, 4, n);
        RecordEndpoint(Endpoint(c.address, c.attributes, c.maxPacket, ids));
      }
    }
  }

  method ReadIds(it: DescIter, from: nat, n: nat) returns (ids: seq<byte>)
    requires it.Valid()
    ensures ids == Ids(it.Current(), from, n)
  {
    ids := [];
    var i: nat := 0;
    while i < n
      invariant i <= n && ids == Ids(it.Current(), from, i)
    {
      ids := ids + [it.ReadU8(from + i)];
      i := i + 1;
    }
  }

  /** One descriptor inside the set; the current endpoint is a local of the loop. */
  method OnWithin(info: MsInfo, it: DescIter, c: Current) returns (next: Current)
    requires it.Valid() && it.blen >= 2 && it.btype == U8(it.Current(), 1)
    modifies info
    ensures State(info.View(), true, next) == Within(State(old(info.View()), true, c), it.Current())
  {
    next := c;
    if it.btype == 5 && it.blen >= 7 {
      next := Current(it.ReadU8(2), it.ReadU8(3), it.ReadU16(4));
    } else if it.btype == 0x24 {
      info.OnInterface(it, c);
    } else if it.btype == 0x25 {
      info.OnEndpoint(it, c);
    }
  }

  lemma ParseLook(st: State, left: seq<byte>)
    ensures Look(left).End? ==> Parse(st, left) == Outcome(st, NoError)
    ensures Look(left).Bad? ==> Parse(st, left) == Outcome(st, Look(left).error)
    ensures Look(left).Got? ==>
      var d := Look(left).d;
      && (!st.inMs ==> Parse(st, left) == Parse(Before(st, d), left[|d|..]))
      && (st.inMs && Ends(d) ==> Parse(st, left) == Outcome(st, NoError))
      && (st.inMs && !Ends(d) ==> Parse(st, left) == Parse(Within(st, d), left[|d|..]))
  {
  }

  /** What the parse still comes to, when `d` is the descriptor at hand. */
  predicate Pending(whole: Outcome, st: State, d: desc, left: seq<byte>) {
    if !st.inMs then whole == Parse(Before(st, d), left)
    else if Ends(d) then whole == Outcome(st, NoError)
    else whole == Parse(Within(st, d), left)
  }

  /** The next descriptor, if there is one, and what it leaves of the parse. */
  method Advance(it: DescIter, ghost st: State, ghost whole: Outcome) returns (more: bool, ghost d: desc)
    requires it.Valid() && !it.nullBuf && it.err == NoError && whole == Parse(st, it.Left())
    modifies it
    ensures it.Valid()
    ensures !more ==> whole == Outcome(st, it.err)
    ensures more ==> it.err == NoError && it.blen >= 2 && it.Current() == d && it.btype == U8(d, 1)
    ensures more ==> |it.Left()| < |old(it.Left())| && Pending(whole, st, d, it.Left())
  {
    ParseLook(st, it.Left());
    more := it.Next();
    d := it.Current();
  }

  /** The parse loop: success, and what it has filled in. */
  method ParseMs(buf: seq<byte>) returns (ok: bool, info: MsInfo)
    ensures fresh(info)
    ensures info.View() == Parse(Initial(), buf).st.info && (ok <==> Parse(Initial(), buf).error == NoError)
  {
    info := new MsInfo();
    var it := new DescIter(buf);
    var inMs, c := false, Current(0, 0, 0);
    ghost var whole, st := Parse(Initial(), buf), Initial();
    var more, d := Advance(it, st, whole);
    while more
      invariant it.Valid() && fresh(it) && fresh(info) && st == State(info.View(), inMs, c)
      invariant more ==> it.err == NoError && it.blen >= 2 && it.Current() == d && it.btype == U8(d, 1)
      invariant more ==> Pending(whole, st, d, it.Left())
      invariant !more ==> whole == Outcome(st, it.err)
      decreases more, if more then |it.Left()| else 0
    {
      if !inMs {
        inMs := info.OnBefore(it, c);
        st := Before(st, d);
      } else if it.btype == 4 || it.btype == 2 || it.btype == 1 {
        break;
      } else {
        c := OnWithin(info, it, c);
        st := Within(st, d);
      }
      more, d := Advance(it, st, whole);
    }
    ok := it.err == NoError;
  }

  lemma {:induction false} PortsPrefix(e: Endpoint, i: nat, n: nat)
    requires i <= n <= |e.embedded|
    ensures PortsOf(e, i) == PortsOf(e, n)[..i]
    decreases n
  {
    if i < n {
      PortsPrefix(e, i, n - 1);
    } else {
      assert PortsOf(e, n)[..n] == PortsOf(e, n);
    }
  }

  /** When the cap is met inside an endpoint, what is out already is the answer. */
  lemma Capped(whole: seq<Port>, start: seq<Port>, e: Endpoint, i: nat, rest: seq<Port>)
    requires i <= |e.embedded| && whole == start + (PortsOf(e, |e.embedded|) + rest) && |start| + i == MAX_PORTS
    ensures start + PortsOf(e, i) == Take(whole, MAX_PORTS)
  {
    PortsPrefix(e, i, |e.embedded|);
  }

  method PortsFromMs(es: seq<Endpoint>) returns (ports: seq<Port>)
    ensures ports == Ports(es)
  {
    ports := [];
    var e: nat := 0;
    ghost var whole := Pairs(es);
    assert es[0..] == es;
    while e < |es|
      invariant e <= |es| && |ports| <= MAX_PORTS && whole == ports + Pairs(es[e..])
    {
      var ep := es[e];
      ghost var start, rest := ports, Pairs(es[e + 1..]);
      assert es[e..][1..] == es[e + 1..];
      var i: nat := 0;
      while i < |ep.embedded|
        invariant i <= |ep.embedded| && |ports| <= MAX_PORTS && ports == start + PortsOf(ep, i)
      {
        if |ports| >= MAX_PORTS {
          Capped(whole, start, ep, i, rest);
          return;
        }
        Assoc(start, PortsOf(ep, i), [Port(ep.address, ep.address / 128 % 2 == 1, i, ep.embedded[i])]);
        ports := ports + [Port(ep.address, ep.address / 128 % 2 == 1, i, ep.embedded[i])];
        i := i + 1;
      }
      Assoc(start, PortsOf(ep, |ep.embedded|), rest);
      e := e + 1;
    }
    assert whole == ports + [];
  }

  /** Descriptors to ports; a parse that fails gives no ports. */
  method ParsePorts(buf: seq<byte>) returns (ports: Option<seq<Port>>)
    ensures ports.Some? <==> Parse(Initial(), buf).error == NoError
    ensures ports.Some? ==> ports.value == Ports(Run(Initial(), Walk(buf).descs).info.endpoints)
  {
    var ok, info := ParseMs(buf);
    ParseIsFold(Initial(), buf);
    if !ok { return None; }
    var ps := PortsFromMs(info.endpoints);
    ports := Some(ps);
  }
}
