/** The registry of instances and the removal protocol, over machine views. */
module UsbRegistry {
  import opened Words
  import opened UsbMachine

  const MAX_INTERFACES := 8
  const AUDIO_CLASS := 1
  const MIDI_SUBCLASS := 3
  const DEVICE_BUSY := -6977

  /** The registry (slots beyond `count` are free), the next call's number, the slots the library holds. */
  datatype Sys = Sys(slots: seq<View>, count: nat, calls: nat, held: multiset<nat>, trace: seq<Event>)

  function Held(slot: nat, r: Refcon): multiset<nat> { if r.pending then multiset{slot} else multiset{} }

  /** Slot `i` after a stimulus. */
  function After(s: Sys, i: nat, d: Driven): Sys
    requires i < |s.slots|
  {
    s.(slots := s.slots[i := d.view], calls := d.calls, held := s.held + Held(i, d.view.refcon),
       trace := s.trace + d.events)
  }

  // ---- the library completes an outstanding call -----------------------------------------------

  datatype Fire = Fire(slot: nat, outcome: Outcome)

  /** The library lets go of the parameter block and runs the completion. */
  function FireOne(s: Sys, script: seq<Response>, f: Fire): (t: Sys)
    ensures |t.slots| == |s.slots| && t.count == s.count
  {
    if f.slot < |s.slots| && f.slot in s.held then
      After(s.(held := s.held - multiset{f.slot}), f.slot,
            Finish(s.slots[f.slot], f.slot, f.outcome, script, s.calls, MAX_SYNC_DEPTH))
    else s
  }

  /** Completions that interrupt the driver, one after the other. */
  function FireAll(s: Sys, script: seq<Response>, fs: seq<Fire>): (t: Sys)
    ensures |t.slots| == |s.slots| && t.count == s.count
    decreases |fs|
  {
    if fs == [] then s else FireAll(FireOne(s, script, fs[0]), script, fs[1..])
  }

  // ---- initialize ----------------------------------------------------------------------------------

  /** The descriptors an interface is offered with; `present` is false for nil descriptor pointers. */
  datatype Interface = Interface(present: bool, cls: nat, subclass: nat, endpoints: nat, ref: int)

  predicate Supported(f: Interface) {
    f.present && f.cls == AUDIO_CLASS && f.subclass == MIDI_SUBCLASS && f.endpoints >= 1
  }

  function FreshView(v: View, ref: int): View {
    View(At(ALLOC_RING), ref, 0, 0, 0, 0, 0, NO_ERR, 0, false, v.hook, v.hookRefcon)
  }

  predicate Claims(s: Sys, f: Interface) { Supported(f) && s.count < MAX_INTERFACES }

  function Initialize(s: Sys, script: seq<Response>, f: Interface): Sys
    requires |s.slots| == MAX_INTERFACES
  {
    if !Claims(s, f) then s
    else
      After(s.(count := s.count + 1), s.count,
            Drive(FreshView(s.slots[s.count], f.ref), s.count, script, s.calls, MAX_SYNC_DEPTH))
  }

  // ---- the removal notification -------------------------------------------------------------------------

  /** The library accepts an abort (the call will complete), or refuses it; `gone`: no completion will come. */
  datatype AbortReply = AbortAccepted | AbortFailed(gone: bool)

  /** What interrupts the notification at one instance, and how the abort is answered. */
  datatype NotifyStep = NotifyStep(before: seq<Fire>, marked: seq<Fire>, reply: AbortReply, aborting: seq<Fire>)

  function StepAt(plan: seq<NotifyStep>, i: nat): NotifyStep {
    if i < |plan| then plan[i] else NotifyStep([], [], AbortAccepted, [])
  }

  function Mark(s: Sys, i: nat): Sys
    requires i < |s.slots|
  {
    s.(slots := s.slots[i := s.slots[i].(removing := true, hook := false, hookRefcon := 0)])
  }

  /** The abort has been issued and completions have interrupted it. */
  function Aborting(s: Sys, script: seq<Response>, i: nat, p: NotifyStep): (t: Sys)
    requires i < |s.slots|
    ensures |t.slots| == |s.slots| && t.count == s.count
  {
    FireAll(s.(trace := s.trace + [AbortPipe(i, s.slots[i].bulkInPipe)]), script, p.aborting)
  }

  /** A refused abort clears the pending bit. */
  function Answered(t: Sys, i: nat, reply: AbortReply): (u: Sys)
    requires i < |t.slots|
    ensures |u.slots| == |t.slots| && u.count == t.count
  {
    match reply
    case AbortAccepted => t
    case AbortFailed(gone) =>
      t.(slots := t.slots[i := t.slots[i].(refcon := t.slots[i].refcon.(pending := false))],
         held := if gone then t.held - multiset{i} else t.held)
  }

  function Abort(s: Sys, script: seq<Response>, i: nat, p: NotifyStep): (t: Sys)
    requires i < |s.slots|
    ensures |t.slots| == |s.slots| && t.count == s.count
  {
    Answered(Aborting(s, script, i, p), i, p.reply)
  }

  datatype Notified = Notified(s: Sys, busy: bool)

  /** The state in which the notification, having marked instance `i`, looks at its pending bit. */
  function Marked(s: Sys, script: seq<Response>, i: nat, p: NotifyStep): (t: Sys)
    requires i < |s.slots|
    ensures |t.slots| == |s.slots| && t.count == s.count
  {
    FireAll(Mark(FireAll(s, script, p.before), i), script, p.marked)
  }

  function NotifyOne(s: Sys, script: seq<Response>, i: nat, p: NotifyStep): (n: Notified)
    requires i < |s.slots|
    ensures |n.s.slots| == |s.slots| && n.s.count == s.count
  {
    var t := Marked(s, script, i, p);
    if !t.slots[i].refcon.pending then Notified(t, false)
    else Notified(if t.slots[i].bulkInPipe != 0 then Abort(t, script, i, p) else t, true)
  }

  /** The loop over the first `n` instances. */
  function Notify(s: Sys, script: seq<Response>, plan: seq<NotifyStep>, n: nat): (r: Notified)
    requires n <= |s.slots|
    ensures |r.s.slots| == |s.slots| && r.s.count == s.count
  {
    if n == 0 then Notified(s, false)
    else NotifyNext(Notify(s, script, plan, n - 1), script, n - 1, StepAt(plan, n - 1))
  }

  /** One more instance, after the notification has reached `r`. */
  function NotifyNext(r: Notified, script: seq<Response>, i: nat, p: NotifyStep): (q: Notified)
    requires i < |r.s.slots|
    ensures |q.s.slots| == |r.s.slots| && q.s.count == r.s.count
  {
    var q := NotifyOne(r.s, script, i, p);
    Notified(q.s, r.busy || q.busy)
  }

  // ---- finalize ------------------------------------------------------------------------------------------

  /** The first instance of an interface, or `count` when there is none. */
  function Find(s: Sys, ref: int, i: nat): (k: nat)
    requires i <= s.count <= |s.slots|
    ensures i <= k <= s.count
    ensures k < s.count ==> s.slots[k].interfaceRef == ref
    decreases s.count - i
  {
    if i == s.count || s.slots[i].interfaceRef == ref then i else Find(s, ref, i + 1)
  }

  function Deallocs(i: nat, v: View): seq<Event> {
    (if v.ringBuffer != 0 then [Dealloc(i, v.ringBuffer)] else [])
    + (if v.readBase != 0 then [Dealloc(i, v.readBase)] else [])
  }

  function Emptied(v: View): View {
    v.(ringBuffer := 0, readBase := 0, readBuffer := 0,
       refcon := if v.ringBuffer != 0 || v.readBase != 0 then At(0) else v.refcon)
  }

  /** Frees the blocks of instance `i` and moves the last instance into its slot. */
  function Dispose(s: Sys, i: nat): (t: Sys)
    requires i < s.count <= |s.slots|
    ensures |t.slots| == |s.slots|
  {
    var slots := s.slots[i := Emptied(s.slots[i])];
    var last := s.count - 1;
    s.(slots := if i < last then slots[i := slots[last]] else slots, count := last,
       trace := s.trace + Deallocs(i, s.slots[i]))
  }

  function Finalize(s: Sys, ref: int): (t: Sys)
    requires s.count <= |s.slots|
    ensures |t.slots| == |s.slots|
  {
    var k := Find(s, ref, 0);
    if k < s.count then Dispose(s, k) else s
  }

  function SetHook(s: Sys, i: nat, on: bool, refcon: int): (t: Sys)
    requires s.count <= |s.slots|
    ensures |t.slots| == |s.slots|
  {
    if i >= s.count then s else s.(slots := s.slots[i := s.slots[i].(hook := on, hookRefcon := refcon)])
  }
}
