/** What one instance asks of the library and makes of the answers, told call by call. */
module UsbService {
  import opened Words
  import opened UsbMachine
  import opened UsbRegistry

  // ---- answers and when they come -------------------------------------------------------------

  /** The view with the call of its stage outstanding. */
  function Waiting(v: View): View { v.(refcon := Refcon(v.refcon.stage, false, true)) }

  predicate Active(v: View) { !v.removing && v.refcon.stage <= READ && !v.refcon.returned }

  datatype Served = Served(view: View, events: seq<Event>)

  /** The library completes the outstanding call with each of `os` in turn, always later, until the machine stops;
      a completion then makes one call at most (`LaterAnswer`). */
  function Serve(v: View, slot: nat, os: seq<Outcome>): Served
    decreases |os|
  {
    if os == [] || v.refcon.returned then Served(v, [])
    else
      var d := Finish(v, slot, os[0], [], 0, 1);
      var rest := Serve(d.view, slot, os[1..]);
      Served(rest.view, d.events + rest.events)
  }

  /** When the next call is completed later, nothing else of the script and of the depth matters. */
  lemma LaterAnswer(v: View, slot: nat, o: Outcome, script: seq<Response>, n: nat, budget: nat)
    requires Answer(script, n).Later? && budget > 0
    ensures var d, e := Finish(v, slot, o, script, n, budget), Finish(v, slot, o, [], 0, 1);
      d.view == e.view && d.events == e.events
  {
  }

  /** One completion moves the instance from `v` to `u` and shows `es`. */
  predicate Moves(v: View, slot: nat, o: Outcome, u: View, es: seq<Event>) {
    var d := Finish(v, slot, o, [], 0, 1);
    d.view == u && d.events == es
  }

  lemma ServeNext(v: View, slot: nat, os: seq<Outcome>, u: View, es: seq<Event>, rest: seq<Outcome>)
    requires !v.refcon.returned && os != [] && Moves(v, slot, os[0], u, es) && rest == os[1..]
    ensures Serve(v, slot, os).view == Serve(u, slot, rest).view
    ensures Serve(v, slot, os).events == es + Serve(u, slot, rest).events
  {
  }

  /** The answer carries this outcome without delay: inside the call, or as a success without callback. */
  predicate Gives(r: Response, o: Outcome) {
    match r
    case Inside(p, _) => p == o
    case Quiet(buffer, reference, wValue) => o == Outcome(0, [], buffer, reference, wValue)
    case _ => false
  }

  predicate GivesAll(script: seq<Response>, n: nat, os: seq<Outcome>) {
    forall k | 0 <= k < |os| :: Gives(Answer(script, n + k), os[k])
  }

  lemma OnlyStageMatters(v: View, slot: nat, o: Outcome, script: seq<Response>, n: nat, budget: nat)
    ensures Finish(Waiting(v), slot, o, script, n, budget) == Finish(v, slot, o, script, n, budget)
  {
  }

  /** The same is done, and the machine is left in the same state but for a call that fails at once. */
  predicate Agree(d: Driven, e: Event, s: Served, last: Response) {
    && d.events == [e] + s.events
    && d.view == if last.Later? || s.view.refcon.returned then s.view else s.view.(refcon := RETURN)
  }

  predicate Ending(last: Response) { last.Later? || last.Fails? }

  /** Whether the outcomes come inside the calls, without callback or later makes no difference to what is done; a
      call that fails at once stops the machine where it is. */
  lemma {:induction false} DeliveryIrrelevant(v: View, slot: nat, script: seq<Response>, n: nat, budget: nat, os: seq<Outcome>)
    requires Active(v) && |os| < budget && GivesAll(script, n, os) && Ending(Answer(script, n + |os|))
    ensures Agree(Drive(v, slot, script, n, budget), SubmitOf(v, slot), Serve(Waiting(v), slot, os), Answer(script, n + |os|))
    decreases |os|
  {
    if os == [] {
      NothingGiven(v, slot, script, n, budget);
    } else {
      var c := Complete(v, slot, os[0]);
      CompleteSubmitsNothing(v, slot, os[0]);
      GivesRest(script, n, os);
      if c.view.refcon.returned {
        LastGiven(v, slot, script, n, budget, os, c);
      } else {
        DeliveryIrrelevant(c.view, slot, script, n + 1, budget - 1, os[1..]);
        OneGiven(v, slot, script, n, budget, os, c);
      }
    }
  }

  lemma NothingGiven(v: View, slot: nat, script: seq<Response>, n: nat, budget: nat)
    requires Active(v) && budget > 0 && Ending(Answer(script, n))
    ensures Agree(Drive(v, slot, script, n, budget), SubmitOf(v, slot), Serve(Waiting(v), slot, []), Answer(script, n))
  {
  }

  lemma GivesRest(script: seq<Response>, n: nat, os: seq<Outcome>)
    requires GivesAll(script, n, os) && os != []
    ensures Gives(Answer(script, n), os[0]) && GivesAll(script, n + 1, os[1..])
  {
    assert Gives(Answer(script, n + 0), os[0]);
    forall k | 0 <= k < |os[1..]| ensures Gives(Answer(script, n + 1 + k), os[1..][k]) {
      assert Gives(Answer(script, n + (k + 1)), os[k + 1]);
    }
  }

  lemma LastGiven(v: View, slot: nat, script: seq<Response>, n: nat, budget: nat, os: seq<Outcome>, c: Completed)
    requires Active(v) && budget > 0 && os != [] && Gives(Answer(script, n), os[0]) && c == Complete(v, slot, os[0])
    requires c.view.refcon.returned
    ensures Agree(Drive(v, slot, script, n, budget), SubmitOf(v, slot), Serve(Waiting(v), slot, os), Answer(script, n + |os|))
  {
    NextCall(v, slot, script, n, budget, os, c);
  }

  lemma OneGiven(v: View, slot: nat, script: seq<Response>, n: nat, budget: nat, os: seq<Outcome>, c: Completed)
    requires Active(v) && budget > 0 && os != [] && Gives(Answer(script, n), os[0]) && c == Complete(v, slot, os[0])
    requires !c.view.refcon.returned
    requires Agree(Drive(c.view, slot, script, n + 1, budget - 1), SubmitOf(c.view, slot), Serve(Waiting(c.view), slot, os[1..]),
                   Answer(script, n + |os|))
    ensures Agree(Drive(v, slot, script, n, budget), SubmitOf(v, slot), Serve(Waiting(v), slot, os), Answer(script, n + |os|))
  {
    NextCall(v, slot, script, n, budget, os, c);
    Joined(c.events, SubmitOf(c.view, slot), Serve(Waiting(c.view), slot, os[1..]).events);
  }

  lemma Joined(a: seq<Event>, e: Event, b: seq<Event>)
    ensures a + ([e] + b) == (a + [e]) + b
  {
  }

  lemma NextCall(v: View, slot: nat, script: seq<Response>, n: nat, budget: nat, os: seq<Outcome>, c: Completed)
    requires Active(v) && budget > 0 && os != [] && Gives(Answer(script, n), os[0]) && c == Complete(v, slot, os[0])
    ensures var d, s := Drive(v, slot, script, n, budget), Serve(Waiting(v), slot, os);
      if c.view.refcon.returned then
        d.view == s.view == c.view && d.events == [SubmitOf(v, slot)] + c.events && s.events == c.events
      else
        var e, t := Drive(c.view, slot, script, n + 1, budget - 1), Serve(Waiting(c.view), slot, os[1..]);
        && d.view == e.view && d.events == [SubmitOf(v, slot)] + (c.events + e.events)
        && s.view == t.view && s.events == (c.events + [SubmitOf(c.view, slot)]) + t.events
  {
    FirstAnswer(v, slot, script, n, budget, os[0]);
    OnlyStageMatters(v, slot, os[0], [], 0, 1);
    CompleteSubmitsNothing(v, slot, os[0]);
    if c.view.refcon.returned { StopsHere(v, slot, os, c); } else { GoesOn(v, slot, os[0]); }
  }

  lemma FirstAnswer(v: View, slot: nat, script: seq<Response>, n: nat, budget: nat, o: Outcome)
    requires Active(v) && budget > 0 && Gives(Answer(script, n), o)
    ensures Drive(v, slot, script, n, budget) ==
      Prefixed(SubmitOf(v, slot), Finish(v, slot, o, script, n + 1, budget - 1))
  {
  }

  lemma GoesOn(v: View, slot: nat, o: Outcome)
    requires Active(v) && !Complete(v, slot, o).view.refcon.returned
    ensures var c, d := Complete(v, slot, o), Finish(v, slot, o, [], 0, 1);
      d.view == Waiting(c.view) && d.events == c.events + [SubmitOf(c.view, slot)]
  {
    CompleteSubmitsNothing(v, slot, o);
  }

  lemma StopsHere(v: View, slot: nat, os: seq<Outcome>, c: Completed)
    requires Active(v) && os != [] && c == Complete(v, slot, os[0]) && c.view.refcon.returned
    ensures Serve(Waiting(v), slot, os) == Served(c.view, c.events)
  {
    assert c.events + [] == c.events;
  }

  // ---- the set-up ---------------------------------------------------------------------------------

  predicate Good(o: Outcome) { o.status == 0 }

  function Block(slot: nat, block: nat): seq<Event> { if block == 0 then [] else [Allocated(slot, block)] }

  /** The first multiple of 64 at or above `base`, as a 32-bit address. */
  predicate IsAligned(base: nat, b: nat) {
    b % 64 == 0 && b <= (base + 63) % 0x1_0000_0000 < b + 64
  }

  /** The last multiple of 64 within 63 bytes of `base`, as a 32-bit address. */
  function Above(base: nat): (b: nat)
    ensures IsAligned(base, b)
  {
    var x := (base + 63) % 0x1_0000_0000;
    x - x % 64
  }

  lemma AboveIsAligned(base: nat)
    ensures AlignedBuffer(base) == Above(base)
    ensures base + 63 < 0x1_0000_0000 ==> base <= Above(base) < base + 64
  {
  }

  /** The instance waits for its call of stage `stage`. */
  predicate WaitsAt(v: View, stage: nat) { !v.removing && v.refcon == Refcon(stage, false, true) }

  lemma RingDone(v: View, slot: nat, o: Outcome)
    requires WaitsAt(v, 0) && Good(o)
    ensures Moves(v, slot, o, v.(ringBuffer := o.buffer, refcon := Refcon(1, false, true)),
                  Block(slot, o.buffer) + [Submit(slot, 1, v.interfaceRef, 0, 0)])
  {
  }

  lemma Configured(v: View, slot: nat, o: Outcome)
    requires WaitsAt(v, 1) && Good(o)
    ensures Moves(v, slot, o, v.(refcon := Refcon(2, false, true)), [Submit(slot, 2, v.interfaceRef, 0, 0)])
  {
  }

  lemma PipeFound(v: View, slot: nat, o: Outcome)
    requires WaitsAt(v, 2) && Good(o)
    ensures Moves(v, slot, o, v.(bulkInPipe := o.reference, maxPacketSize := o.wValue, refcon := Refcon(3, false, true)),
                  [Submit(slot, 3, v.interfaceRef, 0, o.wValue + 63)])
  {
  }

  lemma BufferDone(v: View, slot: nat, o: Outcome)
    requires WaitsAt(v, 3) && Good(o)
    ensures Moves(v, slot, o, v.(readBase := o.buffer, readBuffer := Above(o.buffer), refcon := Refcon(4, false, true)),
                  Block(slot, o.buffer) + [Submit(slot, 4, v.bulkInPipe, Above(o.buffer), v.maxPacketSize)])
  {
    AboveIsAligned(o.buffer);
  }

  /** A set-up call that fails stops the machine, and nothing more is asked for. */
  lemma SetUpFails(v: View, slot: nat, o: Outcome, stage: nat)
    requires WaitsAt(v, stage) && stage < 4 && !Good(o)
    ensures Moves(v, slot, o, v.(refcon := Refcon(0, true, false)), [])
  {
  }

  /** The calls among the events. */
  function Calls(es: seq<Event>): seq<Event> {
    if es == [] then [] else (if es[0].Submit? then [es[0]] else []) + Calls(es[1..])
  }

  lemma {:induction false} CallsConcat(a: seq<Event>, b: seq<Event>)
    ensures Calls(a + b) == Calls(a) + Calls(b)
  {
    if a == [] {
      assert a + b == b;
    } else {
      assert (a + b)[1..] == a[1..] + b;
      CallsConcat(a[1..], b);
      Assoc(if a[0].Submit? then [a[0]] else [], Calls(a[1..]), Calls(b));
    }
  }

  /** One call behind what a completion has done with a block. */
  lemma CallsAfter(slot: nat, block: nat, e: Event, rest: seq<Event>)
    requires e.Submit?
    ensures Calls((Block(slot, block) + [e]) + rest) == [e] + Calls(rest)
    ensures Calls([e] + rest) == [e] + Calls(rest)
  {
    CallsConcat(Block(slot, block) + [e], rest);
    CallsConcat(Block(slot, block), [e]);
    CallsConcat([e], rest);
    assert Calls([e]) == [e] && Calls(Block(slot, block)) == [];
  }

  // ---- the story of an instance -----------------------------------------------------------------------

  /** The calls made, and where the instance is left. */
  datatype Story = Story(calls: seq<Event>, left: Refcon)

  function Before(e: Event, s: Story): Story { Story([e] + s.calls, s.left) }

  const STOPPED := Story([], Refcon(0, true, false))

  /** What an instance of the interface `ref` does from `stage` on, with the pipe, the packet size and the buffer it has
      by then: as the answers come in, it has its ring allocated, the interface configured, the pipe found, the read
      buffer allocated, and then reads, again and again, also after a stall; whatever else is answered stops it. */
  function Tell(slot: nat, ref: int, stage: nat, pipe: int, w: nat, b: nat, os: seq<Outcome>): Story
    requires stage <= 4
    decreases |os|
  {
    if os == [] then Story([], Refcon(stage, false, true))
    else
      var o, rest := os[0], os[1..];
      if stage == 4 && (o.status == 0 || o.status == -6979) then
        Before(Submit(slot, 4, pipe, b, w), Tell(slot, ref, 4, pipe, w, b, rest))
      else if o.status != 0 then STOPPED
      else if stage == 0 then Before(Submit(slot, 1, ref, 0, 0), Tell(slot, ref, 1, pipe, w, b, rest))
      else if stage == 1 then Before(Submit(slot, 2, ref, 0, 0), Tell(slot, ref, 2, pipe, w, b, rest))
      else if stage == 2 then
        Before(Submit(slot, 3, ref, 0, o.wValue + 63), Tell(slot, ref, 3, o.reference, o.wValue, b, rest))
      else Before(Submit(slot, 4, pipe, Above(o.buffer), w), Tell(slot, ref, 4, pipe, w, Above(o.buffer), rest))
  }

  /** What one answer makes of the instance: the calls it leads to, and what the next ones depend on. */
  predicate Asked(v: View, slot: nat, stage: nat, o: Outcome, u: View, es: seq<Event>) {
    if stage == 4 && (o.status == 0 || o.status == -6979) then
      && Calls(es) == [Submit(slot, 4, v.bulkInPipe, v.readBuffer, v.maxPacketSize)]
      && WaitsAt(u, 4) && Alike(v, u, v.bulkInPipe, v.maxPacketSize, v.readBuffer)
    else if o.status != 0 then Calls(es) == [] && u.refcon == Refcon(0, true, false)
    else if stage == 2 then
      && Calls(es) == [Submit(slot, 3, v.interfaceRef, 0, o.wValue + 63)]
      && WaitsAt(u, 3) && Alike(v, u, o.reference, o.wValue, v.readBuffer)
    else if stage == 3 then
      && Calls(es) == [Submit(slot, 4, v.bulkInPipe, Above(o.buffer), v.maxPacketSize)]
      && WaitsAt(u, 4) && Alike(v, u, v.bulkInPipe, v.maxPacketSize, Above(o.buffer))
    else
      && Calls(es) == [Submit(slot, stage + 1, v.interfaceRef, 0, 0)]
      && WaitsAt(u, stage + 1) && Alike(v, u, v.bulkInPipe, v.maxPacketSize, v.readBuffer)
  }

  predicate Alike(v: View, u: View, pipe: int, w: nat, b: nat) {
    u.interfaceRef == v.interfaceRef && u.bulkInPipe == pipe && u.maxPacketSize == w && u.readBuffer == b
  }

  lemma OneCall(slot: nat, block: nat, e: Event)
    requires e.Submit?
    ensures Calls(Block(slot, block) + [e]) == [e] == Calls([e])
  {
    CallsAfter(slot, block, e, []);
    assert (Block(slot, block) + [e]) + [] == Block(slot, block) + [e] && [e] + [] == [e];
  }

  lemma SetUpAnswer(v: View, slot: nat, o: Outcome, stage: nat) returns (u: View, es: seq<Event>)
    requires WaitsAt(v, stage) && stage < 4
    ensures Moves(v, slot, o, u, es) && Asked(v, slot, stage, o, u, es)
  {
    if !Good(o) {
      SetUpFails(v, slot, o, stage);
      u, es := v.(refcon := Refcon(0, true, false)), [];
    } else if stage == 0 {
      RingDone(v, slot, o);
      u := v.(ringBuffer := o.buffer, refcon := Refcon(1, false, true));
      es := Block(slot, o.buffer) + [Submit(slot, 1, v.interfaceRef, 0, 0)];
      OneCall(slot, o.buffer, Submit(slot, 1, v.interfaceRef, 0, 0));
    } else if stage == 1 {
      Configured(v, slot, o);
      u, es := v.(refcon := Refcon(2, false, true)), [Submit(slot, 2, v.interfaceRef, 0, 0)];
    } else if stage == 2 {
      PipeFound(v, slot, o);
      u := v.(bulkInPipe := o.reference, maxPacketSize := o.wValue, refcon := Refcon(3, false, true));
      es := [Submit(slot, 3, v.interfaceRef, 0, o.wValue + 63)];
    } else {
      BufferDone(v, slot, o);
      u := v.(readBase := o.buffer, readBuffer := Above(o.buffer), refcon := Refcon(4, false, true));
      es := Block(slot, o.buffer) + [Submit(slot, 4, v.bulkInPipe, Above(o.buffer), v.maxPacketSize)];
      OneCall(slot, o.buffer, Submit(slot, 4, v.bulkInPipe, Above(o.buffer), v.maxPacketSize));
    }
  }

  // ---- reads ------------------------------------------------------------------------------------------------

  /** What a completed read shows before the next one: its data are stored and the client told, or a stall cleared. */
  function Received(v: View, slot: nat, o: Outcome): seq<Event> {
    if o.status == 0 then
      if o.data == [] then []
      else if v.hook then [Store(slot, o.data), Hook(slot, v.hookRefcon)]
      else [Store(slot, o.data)]
    else if o.status == -6979 then [ClearStall(slot, v.bulkInPipe)]
    else []
  }

  lemma ReadGoesOn(v: View, slot: nat, o: Outcome)
    requires WaitsAt(v, 4) && (o.status == 0 || o.status == -6979)
    ensures Moves(v, slot, o, v.(lastStatus := o.status, lastCount := |o.data|),
                  Received(v, slot, o) + [Submit(slot, 4, v.bulkInPipe, v.readBuffer, v.maxPacketSize)])
  {
  }

  lemma ReadStops(v: View, slot: nat, o: Outcome)
    requires WaitsAt(v, 4) && o.status != 0 && o.status != -6979
    ensures Moves(v, slot, o, v.(lastStatus := o.status, lastCount := |o.data|, refcon := Refcon(0, true, false)), [])
  {
  }

  lemma ReceivedCalls(v: View, slot: nat, o: Outcome, e: Event)
    requires e.Submit?
    ensures Calls(Received(v, slot, o) + [e]) == [e]
  {
    CallsConcat(Received(v, slot, o), [e]);
    assert Calls([e]) == [e];
    if o.status == 0 && o.data != [] && v.hook {
      assert Received(v, slot, o)[1..] == [Hook(slot, v.hookRefcon)];
    }
  }

  lemma ReadAnswer(v: View, slot: nat, o: Outcome) returns (u: View, es: seq<Event>)
    requires WaitsAt(v, 4)
    ensures Moves(v, slot, o, u, es) && Asked(v, slot, 4, o, u, es)
  {
    u := v.(lastStatus := o.status, lastCount := |o.data|);
    if o.status == 0 || o.status == -6979 {
      ReadGoesOn(v, slot, o);
      es := Received(v, slot, o) + [Submit(slot, 4, v.bulkInPipe, v.readBuffer, v.maxPacketSize)];
      ReceivedCalls(v, slot, o, Submit(slot, 4, v.bulkInPipe, v.readBuffer, v.maxPacketSize));
    } else {
      ReadStops(v, slot, o);
      u, es := u.(refcon := Refcon(0, true, false)), [];
    }
  }

  // ---- every instance does as told --------------------------------------------------------------------------

  predicate Tells(v: View, slot: nat, os: seq<Outcome>, s: Served, stage: nat)
    requires stage <= 4
  {
    var t := Tell(slot, v.interfaceRef, stage, v.bulkInPipe, v.maxPacketSize, v.readBuffer, os);
    Calls(s.events) == t.calls && s.view.refcon == t.left
  }

  lemma TellsMore(v: View, slot: nat, os: seq<Outcome>, stage: nat, u: View, es: seq<Event>, s: Served)
    requires stage <= 4 && os != [] && Asked(v, slot, stage, os[0], u, es)
    requires u.refcon.returned ==> s == Served(u, [])
    requires !u.refcon.returned ==> u.refcon.stage <= 4 && Tells(u, slot, os[1..], s, u.refcon.stage)
    ensures Tells(v, slot, os, Served(s.view, es + s.events), stage)
  {
    CallsConcat(es, s.events);
  }

  /** Every instance does as told, for every list of answers. */
  lemma {:induction false} AsTold(v: View, slot: nat, os: seq<Outcome>, stage: nat)
    requires WaitsAt(v, stage) && stage <= 4
    ensures Tells(v, slot, os, Serve(v, slot, os), stage)
    decreases |os|
  {
    if os != [] {
      var u, es;
      if stage < 4 { u, es := SetUpAnswer(v, slot, os[0], stage); } else { u, es := ReadAnswer(v, slot, os[0]); }
      ServeNext(v, slot, os, u, es, os[1..]);
      if !u.refcon.returned { AsTold(u, slot, os[1..], u.refcon.stage); }
      TellsMore(v, slot, os, stage, u, es, Serve(u, slot, os[1..]));
    }
  }

  /** All four set-up calls succeed: the interface is configured, its pipe found, and the read buffer allocated, in
      this order, before the first read goes out on that pipe into that buffer. */
  lemma SetUpInOrder(v: View, slot: nat, os: seq<Outcome>)
    requires WaitsAt(v, 0) && |os| >= 4 && Good(os[0]) && Good(os[1]) && Good(os[2]) && Good(os[3])
    ensures var p, w, b := os[2].reference, os[2].wValue, Above(os[3].buffer);
      Calls(Serve(v, slot, os).events) ==
        [Submit(slot, 1, v.interfaceRef, 0, 0), Submit(slot, 2, v.interfaceRef, 0, 0),
         Submit(slot, 3, v.interfaceRef, 0, w + 63), Submit(slot, 4, p, b, w)]
        + Tell(slot, v.interfaceRef, 4, p, w, b, os[4..]).calls
  {
    AsTold(v, slot, os, 0);
    TellFour(slot, v.interfaceRef, v.bulkInPipe, v.maxPacketSize, v.readBuffer, os);
  }

  lemma TellFour(slot: nat, ref: int, pipe: int, size: nat, buffer: nat, os: seq<Outcome>)
    requires |os| >= 4 && Good(os[0]) && Good(os[1]) && Good(os[2]) && Good(os[3])
    ensures var p, w, b := os[2].reference, os[2].wValue, Above(os[3].buffer);
      Tell(slot, ref, 0, pipe, size, buffer, os).calls ==
        [Submit(slot, 1, ref, 0, 0), Submit(slot, 2, ref, 0, 0), Submit(slot, 3, ref, 0, w + 63), Submit(slot, 4, p, b, w)]
        + Tell(slot, ref, 4, p, w, b, os[4..]).calls
  {
    var p, w, b := os[2].reference, os[2].wValue, Above(os[3].buffer);
    assert os[1..][1..] == os[2..] && os[2..][1..] == os[3..] && os[3..][1..] == os[4..];
    var t4 := Tell(slot, ref, 4, p, w, b, os[4..]);
    var t3 := Tell(slot, ref, 3, p, w, buffer, os[3..]);
    var t2 := Tell(slot, ref, 2, pipe, size, buffer, os[2..]);
    assert t3 == Before(Submit(slot, 4, p, b, w), t4);
    assert t2 == Before(Submit(slot, 3, ref, 0, w + 63), t3);
    assert Tell(slot, ref, 1, pipe, size, buffer, os[1..]) == Before(Submit(slot, 2, ref, 0, 0), t2);
  }

  /** The set-up comes as far as its calls succeed: after a failure nothing is asked for any more, and otherwise the
      instance waits for the next one. */
  lemma SetUpStops(v: View, slot: nat, os: seq<Outcome>, k: nat)
    requires WaitsAt(v, 0) && k <= 3 && k <= |os| && (forall i | 0 <= i < k :: Good(os[i]))
    requires k < |os| ==> !Good(os[k])
    ensures var w := if k < 3 then 0 else os[2].wValue;
      Calls(Serve(v, slot, os).events) == [Submit(slot, 1, v.interfaceRef, 0, 0), Submit(slot, 2, v.interfaceRef, 0, 0),
                                           Submit(slot, 3, v.interfaceRef, 0, w + 63)][..k]
    ensures Serve(v, slot, os).view.refcon == if k < |os| then Refcon(0, true, false) else Refcon(k, false, true)
  {
    AsTold(v, slot, os, 0);
    TellStops(slot, v.interfaceRef, v.bulkInPipe, v.maxPacketSize, v.readBuffer, os, k);
  }

  lemma TellStops(slot: nat, ref: int, pipe: int, size: nat, buffer: nat, os: seq<Outcome>, k: nat)
    requires k <= 3 && k <= |os| && (forall i | 0 <= i < k :: Good(os[i])) && (k < |os| ==> !Good(os[k]))
    ensures var t, w := Tell(slot, ref, 0, pipe, size, buffer, os), if k < 3 then 0 else os[2].wValue;
      && t.calls == [Submit(slot, 1, ref, 0, 0), Submit(slot, 2, ref, 0, 0), Submit(slot, 3, ref, 0, w + 63)][..k]
      && t.left == if k < |os| then Refcon(0, true, false) else Refcon(k, false, true)
  {
    if k >= 1 {
      var t1 := Tell(slot, ref, 1, pipe, size, buffer, os[1..]);
      if k >= 2 {
        assert os[1..][1..] == os[2..];
        var t2 := Tell(slot, ref, 2, pipe, size, buffer, os[2..]);
        assert t1 == Before(Submit(slot, 2, ref, 0, 0), t2);
        if k == 3 {
          assert os[2..][1..] == os[3..];
          var t3 := Tell(slot, ref, 3, os[2].reference, os[2].wValue, buffer, os[3..]);
          assert t2 == Before(Submit(slot, 3, ref, 0, os[2].wValue + 63), t3);
        }
      }
    }
  }

  /** What a newly claimed instance starts with: nothing but its interface, and the hook the slot has had. */
  function Newcomer(v: View, ref: int): View {
    View(Refcon(0, false, true), ref, 0, 0, 0, 0, 0, 0, 0, false, v.hook, v.hookRefcon)
  }

  /** Initialize: the ring is asked for, and then the instance does as told, whenever the outcomes come. */
  lemma InitializeTells(s: Sys, script: seq<Response>, f: Interface, os: seq<Outcome>) returns (es: seq<Event>)
    requires |s.slots| == MAX_INTERFACES && Claims(s, f) && |os| < 16 && GivesAll(script, s.calls, os)
    requires Ending(Answer(script, s.calls + |os|))
    ensures var i, t := s.count, Initialize(s, script, f);
      && t.trace == s.trace + ([Submit(i, 0, f.ref, 0, 4096)] + es) && t.count == i + 1
      && Calls(es) == Tell(i, f.ref, 0, 0, 0, 0, os).calls
      && t.slots[i].refcon ==
           (if Answer(script, s.calls + |os|).Fails? then Refcon(0, true, false) else Tell(i, f.ref, 0, 0, 0, 0, os).left)
      && forall k | 0 <= k < |s.slots| && k != i :: t.slots[k] == s.slots[k]
  {
    var v := Newcomer(s.slots[s.count], f.ref);
    DeliveryIrrelevant(FreshView(s.slots[s.count], f.ref), s.count, script, s.calls, MAX_SYNC_DEPTH, os);
    AsTold(v, s.count, os, 0);
    TellEnds(s.count, f.ref, 0, 0, 0, 0, os);
    es := Serve(v, s.count, os).events;
  }

  lemma {:induction false} TellEnds(slot: nat, ref: int, stage: nat, pipe: int, w: nat, b: nat, os: seq<Outcome>)
    requires stage <= 4
    ensures var r := Tell(slot, ref, stage, pipe, w, b, os).left; r.returned ==> r == Refcon(0, true, false)
    decreases |os|
  {
    if os != [] {
      TellEnds(slot, ref, 4, pipe, w, b, os[1..]);
      TellEnds(slot, ref, if stage < 4 then stage + 1 else 4, pipe, w, b, os[1..]);
      TellEnds(slot, ref, 3, os[0].reference, os[0].wValue, b, os[1..]);
      TellEnds(slot, ref, 4, pipe, w, Above(os[0].buffer), os[1..]);
    }
  }

  /** A completion whose next call stays pending serves the instance once more. */
  lemma FireServes(s: Sys, script: seq<Response>, f: Fire)
    requires f.slot < |s.slots| && f.slot in s.held && !s.slots[f.slot].refcon.returned && Answer(script, s.calls).Later?
    ensures var t, d := FireOne(s, script, f), Serve(s.slots[f.slot], f.slot, [f.outcome]);
      && t.slots == s.slots[f.slot := d.view] && t.trace == s.trace + d.events
  {
    LaterAnswer(s.slots[f.slot], f.slot, f.outcome, script, s.calls, MAX_SYNC_DEPTH);
    var d := Finish(s.slots[f.slot], f.slot, f.outcome, [], 0, 1);
    ServeNext(s.slots[f.slot], f.slot, [f.outcome], d.view, d.events, []);
    assert d.events + [] == d.events;
  }

  /** As many answers inside the calls as the depth allows, none of which stops the machine, are as many calls. */
  lemma {:induction false} DepthReached(v: View, slot: nat, script: seq<Response>, n: nat, budget: nat, os: seq<Outcome>)
    requires Active(v) && |os| == budget && GivesAll(script, n, os) && !Serve(Waiting(v), slot, os).view.refcon.returned
    ensures var d := Drive(v, slot, script, n, budget); d.calls == n + budget && d.view.refcon == Refcon(0, true, false)
    decreases budget
  {
    if budget > 0 {
      var c := Complete(v, slot, os[0]);
      CompleteSubmitsNothing(v, slot, os[0]);
      GivesRest(script, n, os);
      NextCall(v, slot, script, n, budget, os, c);
      CallsOnward(v, slot, script, n, budget, os[0], c);
      DepthReached(c.view, slot, script, n + 1, budget - 1, os[1..]);
    }
  }

  lemma CallsOnward(v: View, slot: nat, script: seq<Response>, n: nat, budget: nat, o: Outcome, c: Completed)
    requires Active(v) && budget > 0 && Gives(Answer(script, n), o) && c == Complete(v, slot, o) && !c.view.refcon.returned
    ensures Drive(v, slot, script, n, budget).calls == Drive(c.view, slot, script, n + 1, budget - 1).calls
    ensures Drive(v, slot, script, n, budget).view == Drive(c.view, slot, script, n + 1, budget - 1).view
  {
    FirstAnswer(v, slot, script, n, budget, o);
    CompleteSubmitsNothing(v, slot, o);
  }

  /** When sixteen calls of a new instance are answered inside the call, and none of the answers stops it, it has made
      exactly these sixteen calls, and stops. */
  lemma SixteenCalls(s: Sys, script: seq<Response>, f: Interface, os: seq<Outcome>) returns (es: seq<Event>)
    requires |s.slots| == MAX_INTERFACES && Claims(s, f) && |os| == 16 && GivesAll(script, s.calls, os)
    requires !Tell(s.count, f.ref, 0, 0, 0, 0, os).left.returned
    ensures var t := Initialize(s, script, f);
      && t.calls == s.calls + 16 && t.trace == s.trace + es && Submits(es) == 16
      && t.slots[s.count].refcon == Refcon(0, true, false)
  {
    var v := FreshView(s.slots[s.count], f.ref);
    AsTold(Newcomer(s.slots[s.count], f.ref), s.count, os, 0);
    DepthReached(v, s.count, script, s.calls, MAX_SYNC_DEPTH, os);
    DriveBounded(v, s.count, script, s.calls, MAX_SYNC_DEPTH);
    es := Drive(v, s.count, script, s.calls, MAX_SYNC_DEPTH).events;
  }

  // ---- what is received ---------------------------------------------------------------------------------------

  function StoredBytes(es: seq<Event>): seq<byte> {
    if es == [] then [] else (if es[0].Store? then es[0].data else []) + StoredBytes(es[1..])
  }

  function Hooks(es: seq<Event>): seq<Event> {
    if es == [] then [] else (if es[0].Hook? then [es[0]] else []) + Hooks(es[1..])
  }

  function Clears(es: seq<Event>): seq<Event> {
    if es == [] then [] else (if es[0].ClearStall? then [es[0]] else []) + Clears(es[1..])
  }

  lemma {:induction false} SeenConcat(a: seq<Event>, b: seq<Event>)
    ensures StoredBytes(a + b) == StoredBytes(a) + StoredBytes(b)
    ensures Hooks(a + b) == Hooks(a) + Hooks(b) && Clears(a + b) == Clears(a) + Clears(b)
  {
    if a == [] {
      assert a + b == b;
    } else {
      assert (a + b)[1..] == a[1..] + b;
      SeenConcat(a[1..], b);
      Assoc(if a[0].Store? then a[0].data else [], StoredBytes(a[1..]), StoredBytes(b));
      Assoc(if a[0].Hook? then [a[0]] else [], Hooks(a[1..]), Hooks(b));
      Assoc(if a[0].ClearStall? then [a[0]] else [], Clears(a[1..]), Clears(b));
    }
  }

  /** The reads that are completed before the machine stops: up to the first that neither succeeds nor stalls. */
  function Taken(os: seq<Outcome>): (n: nat)
    ensures n <= |os|
  {
    if os == [] || (os[0].status != 0 && os[0].status != -6979) then 0 else 1 + Taken(os[1..])
  }

  function DataOf(os: seq<Outcome>): seq<byte> {
    if os == [] then [] else (if os[0].status == 0 then os[0].data else []) + DataOf(os[1..])
  }

  /** Reads that brought something, and reads that met a stall. */
  function Filled(os: seq<Outcome>): nat {
    if os == [] then 0 else IsFilled(os[0]) + Filled(os[1..])
  }

  function Stalled(os: seq<Outcome>): nat {
    if os == [] then 0 else IsStalled(os[0]) + Stalled(os[1..])
  }

  function IsFilled(o: Outcome): nat { if o.status == 0 && o.data != [] then 1 else 0 }

  function IsStalled(o: Outcome): nat { if o.status == -6979 then 1 else 0 }

  predicate AllAre(es: seq<Event>, e: Event, n: nat) {
    |es| == n && forall i | 0 <= i < |es| :: es[i] == e
  }

  /** The client is told once for each read that brought something while its hook is set. */
  predicate ToldOf(v: View, slot: nat, es: seq<Event>, filled: nat) {
    AllAre(Hooks(es), Hook(slot, v.hookRefcon), if v.hook then filled else 0)
  }

  predicate ClearedOf(v: View, slot: nat, es: seq<Event>, stalled: nat) {
    AllAre(Clears(es), ClearStall(slot, v.bulkInPipe), stalled)
  }

  /** What an instance that reads has shown, and where it is left, after these answers. */
  predicate ReadsAs(v: View, slot: nat, os: seq<Outcome>, s: Served) {
    var rs := os[..Taken(os)];
    && StoredBytes(s.events) == DataOf(rs) && ToldOf(v, slot, s.events, Filled(rs)) && ClearedOf(v, slot, s.events, Stalled(rs))
    && s.view.refcon == if Taken(os) < |os| then Refcon(0, true, false) else Refcon(4, false, true)
  }

  lemma ReadsOn(v: View, slot: nat, os: seq<Outcome>, e: Event, s: Served)
    requires os != [] && (os[0].status == 0 || os[0].status == -6979) && e.Submit? && ReadsAs(v, slot, os[1..], s)
    ensures ReadsAs(v, slot, os, Served(s.view, (Received(v, slot, os[0]) + [e]) + s.events))
  {
    TakenMore(os);
    ReadingMore(v, slot, os[0], os[1..][..Taken(os[1..])], e, s.events);
  }

  /**
   * Reading, for every list of answers: the stored bytes are the data of the successful reads one after the other, the
   * client is told once for each that brought something while its hook is set, and every stall is cleared on the pipe.
   */
  lemma {:induction false} Reading(v: View, slot: nat, os: seq<Outcome>)
    requires WaitsAt(v, 4)
    ensures ReadsAs(v, slot, os, Serve(v, slot, os))
    decreases |os|
  {
    if os != [] {
      var o := os[0];
      var u := v.(lastStatus := o.status, lastCount := |o.data|);
      if o.status == 0 || o.status == -6979 {
        var e := Submit(slot, 4, v.bulkInPipe, v.readBuffer, v.maxPacketSize);
        ReadGoesOn(v, slot, o);
        ServeNext(v, slot, os, u, Received(v, slot, o) + [e], os[1..]);
        Reading(u, slot, os[1..]);
        SameReader(v, u, slot, os[1..], Serve(u, slot, os[1..]));
        ReadsOn(v, slot, os, e, Serve(u, slot, os[1..]));
      } else {
        ReadStops(v, slot, o);
        ServeNext(v, slot, os, u.(refcon := Refcon(0, true, false)), [], os[1..]);
      }
    }
  }

  /** The status and count of the last read make no difference. */
  lemma SameReader(v: View, u: View, slot: nat, os: seq<Outcome>, s: Served)
    requires ReadsAs(u, slot, os, s) && u.hook == v.hook && u.hookRefcon == v.hookRefcon && u.bulkInPipe == v.bulkInPipe
    ensures ReadsAs(v, slot, os, s)
  {
  }

  lemma TakenMore(os: seq<Outcome>)
    requires os != [] && (os[0].status == 0 || os[0].status == -6979)
    ensures var rs, rest := os[..Taken(os)], os[1..][..Taken(os[1..])];
      && DataOf(rs) == (if os[0].status == 0 then os[0].data else []) + DataOf(rest)
      && Filled(rs) == IsFilled(os[0]) + Filled(rest) && Stalled(rs) == IsStalled(os[0]) + Stalled(rest)
  {
    var rs, rest := os[..Taken(os)], os[1..][..Taken(os[1..])];
    assert rs[1..] == rest;
  }

  lemma ReadingMore(v: View, slot: nat, o: Outcome, rest: seq<Outcome>, e: Event, es: seq<Event>)
    requires (o.status == 0 || o.status == -6979) && e.Submit?
    requires StoredBytes(es) == DataOf(rest) && ToldOf(v, slot, es, Filled(rest)) && ClearedOf(v, slot, es, Stalled(rest))
    ensures var all := (Received(v, slot, o) + [e]) + es;
      && StoredBytes(all) == (if o.status == 0 then o.data else []) + DataOf(rest)
      && ToldOf(v, slot, all, IsFilled(o) + Filled(rest)) && ClearedOf(v, slot, all, IsStalled(o) + Stalled(rest))
  {
    SeenConcat(Received(v, slot, o) + [e], es);
    ReceivedSeen(v, slot, o, e);
  }

  lemma SeenOne(e: Event)
    ensures StoredBytes([e]) == (if e.Store? then e.data else [])
    ensures Hooks([e]) == (if e.Hook? then [e] else []) && Clears([e]) == (if e.ClearStall? then [e] else [])
  {
    assert [e][1..] == [];
  }

  lemma ReceivedSeen(v: View, slot: nat, o: Outcome, e: Event)
    requires (o.status == 0 || o.status == -6979) && e.Submit?
    ensures var r := Received(v, slot, o) + [e];
      && StoredBytes(r) == (if o.status == 0 then o.data else [])
      && ToldOf(v, slot, r, IsFilled(o)) && ClearedOf(v, slot, r, IsStalled(o))
  {
    var s, h := Store(slot, o.data), Hook(slot, v.hookRefcon);
    SeenOne(s);
    SeenOne(h);
    SeenOne(e);
    SeenOne(ClearStall(slot, v.bulkInPipe));
    SeenConcat([s], [h]);
    SeenConcat(Received(v, slot, o), [e]);
    assert [s] + [h] == [s, h] && o.data + [] == o.data;
  }
}
