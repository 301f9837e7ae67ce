/** The driver's task-time entry points and the completions that interrupt them, against the registry model. */
module UsbEntry {
  import opened Words
  import opened UsbMachine
  import opened UsbRegistry
  import opened UsbDriver

  function Views(insts: seq<Instance>): (vs: seq<View>)
    ensures |vs| == |insts|
  {
    seq(|insts|, i requires 0 <= i < |insts| => ViewOf(insts[i]))
  }

  /** The registry model's state of a snapshot. */
  function SysOf(s: Snap, count: nat): Sys { Sys(Views(s.insts), count, s.calls, s.held, s.trace) }

  /** No transaction is being started: the state between two stimuli. */
  predicate Outside(insts: seq<Instance>) { forall a <- insts :: a.transDepth == 0 }

  ghost function Abs(d: Driver): Sys
    reads d, d.instances
  {
    SysOf(d.Now(), d.count)
  }

  ghost predicate Ready(d: Driver)
    reads d, d.instances
  {
    d.instances.Length == MAX_INTERFACES && d.count <= MAX_INTERFACES && Outside(d.instances[..])
  }

  lemma DidIsAfter(s: Snap, t: Snap, count: nat, i: nat, d: Driven)
    requires Did(s, t, i, d)
    ensures SysOf(t, count) == After(SysOf(s, count), i, d)
  {
  }

  /** The library completes the call it holds on slot `i`; anything else is no event. */
  method CompletionFires(d: Driver, f: Fire)
    requires Ready(d)
    modifies d`calls, d`outstanding, d`trace, d`stoppedBranch, d.instances
    ensures Ready(d) && Abs(d) == FireOne(old(Abs(d)), d.script, f)
  {
    if f.slot < d.instances.Length && f.slot in d.outstanding {
      d.outstanding := d.outstanding - multiset{f.slot};
      ghost var s := d.Now();
      d.LibraryCompletes(f.slot, f.outcome);
      DidIsAfter(s, d.Now(), d.count, f.slot,
                 Finish(ViewOf(s.insts[f.slot]), f.slot, f.outcome, d.script, s.calls, MAX_SYNC_DEPTH));
    }
  }

  /** Completions that interrupt the driver between two of its steps. */
  method Interrupts(d: Driver, fs: seq<Fire>)
    requires Ready(d)
    modifies d`calls, d`outstanding, d`trace, d`stoppedBranch, d.instances
    ensures Ready(d) && Abs(d) == FireAll(old(Abs(d)), d.script, fs)
  {
    var k := 0;
    while k < |fs|
      invariant 0 <= k <= |fs| && Ready(d)
      invariant FireAll(Abs(d), d.script, fs[k..]) == FireAll(old(Abs(d)), d.script, fs)
    {
      assert fs[k..][1..] == fs[k + 1..];
      CompletionFires(d, fs[k]);
      k := k + 1;
    }
  }

  /** USBMIDI9InitializeInterfaceProc. */
  method InitializeInterface(d: Driver, f: Interface) returns (status: int)
    requires Ready(d)
    modifies d, d.instances
    ensures Ready(d) && Abs(d) == Initialize(old(Abs(d)), d.script, f)
    ensures status == if Claims(old(Abs(d)), f) then NO_ERR else USB_INTERNAL_ERR
  {
    if !f.present { return USB_INTERNAL_ERR; }
    if f.cls != AUDIO_CLASS || f.subclass != MIDI_SUBCLASS { return USB_INTERNAL_ERR; }
    if f.endpoints < 1 { return USB_INTERNAL_ERR; }
    if d.count >= MAX_INTERFACES { return USB_INTERNAL_ERR; }
    var i := d.count;
    ClaimInstance(d, f.ref);
    StartMachine(d, i);
    return NO_ERR;
  }

  /** Claims the next free slot and sets all of it up but the client's event callback. */
  method ClaimInstance(d: Driver, ref: int)
    requires Ready(d) && d.count < MAX_INTERFACES
    modifies d`count, d.instances
    ensures Ready(d) && d.instances[old(d.count)].pb.refcon == At(ALLOC_RING)
    ensures var s, i := old(Abs(d)), old(d.count);
      Abs(d) == s.(count := i + 1, slots := s.slots[i := FreshView(s.slots[i], ref)])
  {
    var i := d.count;
    d.count := d.count + 1;
    var a := d.instances[i];
    var pb := InitParamBlock(a, ref).pb.(refcon := At(ALLOC_RING));
    d.instances[i] := Instance(pb, ref, 0, 0, 0, 0, 0, NO_ERR, 0, 0, 0, 0, false, a.hook, a.hookRefcon);
    assert Views(d.instances[..]) == Views(old(d.instances[..]))[i := FreshView(ViewOf(a), ref)];
  }

  /** Starts the state machine of a claimed instance. */
  method StartMachine(d: Driver, i: nat)
    requires Ready(d) && i < d.instances.Length && d.instances[i].pb.refcon == At(ALLOC_RING)
    modifies d`calls, d`outstanding, d`trace, d`stoppedBranch, d.instances
    ensures Ready(d)
    ensures var s := old(Abs(d)); Abs(d) == After(s, i, Drive(s.slots[i], i, d.script, s.calls, MAX_SYNC_DEPTH))
  {
    ghost var s := d.Now();
    d.Initiate(i);
    DidIsAfter(s, d.Now(), d.count, i, Drive(ViewOf(s.insts[i]), i, d.script, s.calls, MAX_SYNC_DEPTH));
  }

  /** Marks instance `i` as being removed and forgets its client. */
  method MarkRemoving(d: Driver, i: nat)
    requires Ready(d) && i < d.instances.Length
    modifies d.instances
    ensures Ready(d) && Abs(d) == Mark(old(Abs(d)), i)
  {
    d.instances[i] := d.instances[i].(removing := true, hook := false, hookRefcon := 0);
    assert Views(d.instances[..]) == Views(old(d.instances[..]))[i := ViewOf(d.instances[i])];
  }

  /** Aborts the pipe of instance `i`; a refused abort clears the pending bit. */
  method AbortTransfer(d: Driver, i: nat, p: NotifyStep)
    requires Ready(d) && i < d.instances.Length
    modifies d`calls, d`outstanding, d`trace, d`stoppedBranch, d.instances
    ensures Ready(d) && Abs(d) == Abort(old(Abs(d)), d.script, i, p)
  {
    d.trace := d.trace + [AbortPipe(i, d.instances[i].bulkInPipe)];
    Interrupts(d, p.aborting);
    AbortAnswered(d, i, p.reply);
  }

  /** What the driver makes of the answer to an abort. */
  method AbortAnswered(d: Driver, i: nat, reply: AbortReply)
    requires Ready(d) && i < d.instances.Length
    modifies d`outstanding, d.instances
    ensures Ready(d) && Abs(d) == Answered(old(Abs(d)), i, reply)
  {
    if reply.AbortFailed? {
      d.instances[i] := WithRefcon(d.instances[i], d.instances[i].pb.refcon.(pending := false));
      if reply.gone { d.outstanding := d.outstanding - multiset{i}; }
      assert Views(d.instances[..]) == Views(old(d.instances[..]))[i := ViewOf(d.instances[i])];
    }
  }

  /** The body of the notification loop. */
  method NotifyInstance(d: Driver, i: nat, p: NotifyStep) returns (busy: bool)
    requires Ready(d) && i < d.instances.Length
    modifies d`calls, d`outstanding, d`trace, d`stoppedBranch, d.instances
    ensures Ready(d) && Notified(Abs(d), busy) == NotifyOne(old(Abs(d)), d.script, i, p)
  {
    Interrupts(d, p.before);
    MarkRemoving(d, i);
    Interrupts(d, p.marked);
    assert Abs(d).slots[i] == ViewOf(d.instances[i]);
    busy := false;
    if d.instances[i].pb.refcon.pending {
      if d.instances[i].bulkInPipe != 0 {
        AbortTransfer(d, i, p);
      }
      busy := true;
    }
  }

  /** USBMIDI9NotifyProc for kNotifyDriverBeingRemoved. */
  method NotifyBeingRemoved(d: Driver, plan: seq<NotifyStep>) returns (status: int)
    requires Ready(d)
    modifies d`calls, d`outstanding, d`trace, d`stoppedBranch, d.instances
    ensures Ready(d)
    ensures var n := Notify(old(Abs(d)), d.script, plan, d.count);
      Abs(d) == n.s && status == if n.busy then DEVICE_BUSY else NO_ERR
  {
    var busy := false;
    for i := 0 to d.count
      invariant Ready(d) && Notified(Abs(d), busy) == Notify(old(Abs(d)), d.script, plan, i)
    {
      ghost var r := Notified(Abs(d), busy);
      var b := NotifyInstance(d, i, StepAt(plan, i));
      busy := busy || b;
      assert Notified(Abs(d), busy) == NotifyNext(r, d.script, i, StepAt(plan, i));
    }
    return if busy then DEVICE_BUSY else NO_ERR;
  }

  /** USBMIDI9FinalizeProc. */
  method FinalizeInterface(d: Driver, ref: int) returns (status: int)
    requires Ready(d)
    modifies d`count, d`trace, d.instances
    ensures Ready(d) && Abs(d) == Finalize(old(Abs(d)), ref) && status == NO_ERR
  {
    var i := 0;
    while i < d.count
      invariant 0 <= i <= d.count && Find(Abs(d), ref, i) == Find(Abs(d), ref, 0)
    {
      assert Abs(d).slots[i] == ViewOf(d.instances[i]);
      if d.instances[i].interfaceRef == ref {
        DisposeInstance(d, i);
        break;
      }
      i := i + 1;
    }
    return NO_ERR;
  }

  /** USBMIDI9DeallocBlock: frees a block that is there, reusing the instance's parameter block. */
  method DeallocBlock(d: Driver, i: nat, block: nat)
    requires Ready(d) && i < d.instances.Length
    modifies d`trace, d.instances
    ensures Outside(d.instances[..])
    ensures d.trace == old(d.trace) + (if block != 0 then [Dealloc(i, block)] else [])
    ensures var a := old(d.instances[i]);
      ViewOf(d.instances[i]) == ViewOf(a).(refcon := if block != 0 then At(0) else a.pb.refcon)
    ensures forall j :: 0 <= j < d.instances.Length && j != i ==> d.instances[j] == old(d.instances[j])
  {
    if block != 0 {
      var a := d.instances[i];
      d.instances[i] := a.(pb := a.pb.(reference := a.interfaceRef, refcon := At(0), buffer := block));
      d.trace := d.trace + [Dealloc(i, block)];
    }
  }

  /** USBMIDI9DisposeInstance: frees the blocks and compacts the registry. */
  method DisposeInstance(d: Driver, i: nat)
    requires Ready(d) && i < d.count
    modifies d`count, d`trace, d.instances
    ensures Ready(d) && Abs(d) == Dispose(old(Abs(d)), i)
  {
    FreeBlocks(d, i);
    ghost var emptied := Views(d.instances[..]);
    d.count := d.count - 1;
    if i < d.count {
      d.instances[i] := d.instances[d.count];
      assert Views(d.instances[..]) == emptied[i := emptied[d.count]];
    }
  }

  /** Gives back the two blocks of an instance and forgets them. */
  method FreeBlocks(d: Driver, i: nat)
    requires Ready(d) && i < d.instances.Length
    modifies d`trace, d.instances
    ensures Ready(d) && d.trace == old(d.trace) + Deallocs(i, ViewOf(old(d.instances[i])))
    ensures Views(d.instances[..]) == Views(old(d.instances[..]))[i := Emptied(ViewOf(old(d.instances[i])))]
  {
    ghost var v := ViewOf(d.instances[i]);
    DeallocBlock(d, i, d.instances[i].ringBuffer);
    DeallocBlock(d, i, d.instances[i].readBase);
    d.instances[i] := d.instances[i].(ringBuffer := 0, readBase := 0, readBuffer := 0);
    assert ViewOf(d.instances[i]) == Emptied(v);
    Assoc(old(d.trace), if v.ringBuffer != 0 then [Dealloc(i, v.ringBuffer)] else [],
          if v.readBase != 0 then [Dealloc(i, v.readBase)] else []);
  }

  /** USBMIDI9SetEventCallback. */
  method SetEventCallback(d: Driver, i: nat, on: bool, refcon: int) returns (ok: bool)
    requires Ready(d)
    modifies d.instances
    ensures Ready(d) && Abs(d) == SetHook(old(Abs(d)), i, on, refcon) && ok == (i < d.count)
  {
    if i >= d.count { return false; }
    d.instances[i] := d.instances[i].(hook := on, hookRefcon := refcon);
    assert Views(d.instances[..]) == Views(old(d.instances[..]))[i := ViewOf(d.instances[i])];
    return true;
  }
}
