/** After a removal notification no instance that existed then makes another transfer, whatever happens to others. */
module UsbRemoval {
  import opened Words
  import opened UsbMachine
  import opened UsbRegistry
  import opened UsbRuns

  /** How many calls the slots in `set` have submitted. */
  ghost function SubmitsFrom(es: seq<Event>, slots: iset<nat>): nat {
    if es == [] then 0
    else (if es[0].Submit? && es[0].slot in slots then 1 else 0) + SubmitsFrom(es[1..], slots)
  }

  lemma {:induction false} FromConcat(a: seq<Event>, b: seq<Event>, slots: iset<nat>)
    ensures SubmitsFrom(a + b, slots) == SubmitsFrom(a, slots) + SubmitsFrom(b, slots)
  {
    if a == [] {
      assert a + b == b;
    } else {
      assert (a + b)[1..] == a[1..] + b;
      FromConcat(a[1..], b, slots);
    }
  }

  lemma {:induction false} FromAtMostAll(es: seq<Event>, slots: iset<nat>)
    ensures SubmitsFrom(es, slots) <= Submits(es)
  {
    if es != [] { FromAtMostAll(es[1..], slots); }
  }

  ghost const Everyone: iset<nat> := iset i: nat | true

  lemma {:induction false} FromEveryone(es: seq<Event>)
    ensures SubmitsFrom(es, Everyone) == Submits(es)
  {
    if es != [] { FromEveryone(es[1..]); }
  }

  // ---- one stimulus ------------------------------------------------------------------------------

  lemma CompleteFrom(v: View, slot: nat, o: Outcome, slots: iset<nat>)
    ensures SubmitsFrom(Complete(v, slot, o).events, slots) == 0
  {
    CompleteSubmitsNothing(v, slot, o);
    FromAtMostAll(Complete(v, slot, o).events, slots);
  }

  /** A stimulus submits calls of its own instance only. */
  lemma {:induction false} DriveFrom(v: View, slot: nat, script: seq<Response>, n: nat, budget: nat, slots: iset<nat>)
    requires slot !in slots
    ensures SubmitsFrom(Drive(v, slot, script, n, budget).events, slots) == 0
    decreases budget, 1
  {
    if !(v.removing || budget == 0 || v.refcon.stage > READ) {
      match Answer(script, n)
      case Later =>
      case Fails(_) =>
      case Quiet(_, _, _) => FinishFrom(v, slot, QuietOutcome(Answer(script, n)), script, n + 1, budget - 1, slots);
      case Inside(o, _) => FinishFrom(v, slot, o, script, n + 1, budget - 1, slots);
    }
  }

  lemma {:induction false} FinishFrom(v: View, slot: nat, o: Outcome, script: seq<Response>, n: nat, budget: nat, slots: iset<nat>)
    requires slot !in slots
    ensures SubmitsFrom(Finish(v, slot, o, script, n, budget).events, slots) == 0
    ensures SubmitsFrom([SubmitOf(v, slot)] + Finish(v, slot, o, script, n, budget).events, slots) == 0
    decreases budget, 2
  {
    var c := Complete(v, slot, o);
    CompleteFrom(v, slot, o, slots);
    if !(c.view.refcon.returned || c.view.removing) {
      DriveFrom(c.view, slot, script, n, budget, slots);
      FromConcat(c.events, Drive(c.view, slot, script, n, budget).events, slots);
    }
    FromConcat([SubmitOf(v, slot)], Finish(v, slot, o, script, n, budget).events, slots);
  }

  // ---- the whole driver ---------------------------------------------------------------------------

  /** Whatever lives in these slots is being removed. */
  ghost predicate AllMarked(s: Sys, slots: iset<nat>) {
    s.count <= |s.slots| && forall i: nat :: i in slots && i < s.count ==> s.slots[i].removing
  }

  /** From `s` to `t` these slots have submitted nothing and have stayed marked. */
  ghost predicate Silent(s: Sys, t: Sys, slots: iset<nat>) {
    SubmitsFrom(t.trace, slots) == SubmitsFrom(s.trace, slots) && AllMarked(t, slots)
  }

  lemma FireOneSilent(s: Sys, script: seq<Response>, f: Fire, slots: iset<nat>)
    requires Good(s) && AllMarked(s, slots)
    ensures Silent(s, FireOne(s, script, f), slots)
  {
    if f.slot < |s.slots| && f.slot in s.held {
      var v := s.slots[f.slot];
      assert s.held[f.slot] == 1;
      var d := Finish(v, f.slot, f.outcome, script, s.calls, MAX_SYNC_DEPTH);
      FinishBounded(v, f.slot, f.outcome, script, s.calls, MAX_SYNC_DEPTH);
      FromConcat(s.trace, d.events, slots);
      if f.slot in slots {
        FromAtMostAll(d.events, slots);
      } else {
        FinishFrom(v, f.slot, f.outcome, script, s.calls, MAX_SYNC_DEPTH, slots);
      }
    }
  }

  lemma {:induction false} FireAllSilent(s: Sys, script: seq<Response>, fs: seq<Fire>, slots: iset<nat>)
    requires Good(s) && AllMarked(s, slots)
    ensures Silent(s, FireAll(s, script, fs), slots)
    decreases |fs|
  {
    if fs != [] {
      FireOneSilent(s, script, fs[0], slots);
      FireOneGood(s, script, fs[0]);
      FireAllSilent(FireOne(s, script, fs[0]), script, fs[1..], slots);
    }
  }

  lemma MarkedSilent(s: Sys, script: seq<Response>, i: nat, p: NotifyStep, slots: iset<nat>)
    requires Good(s) && AllMarked(s, slots) && i < s.count
    ensures Silent(s, Marked(s, script, i, p), slots)
  {
    FireAllSilent(s, script, p.before, slots);
    FireAllGood(s, script, p.before);
    MarkGood(FireAll(s, script, p.before), i);
    FireAllSilent(Mark(FireAll(s, script, p.before), i), script, p.marked, slots);
  }

  lemma AbortSilent(s: Sys, script: seq<Response>, i: nat, p: NotifyStep, slots: iset<nat>)
    requires Good(s) && AllMarked(s, slots) && i < s.count
    ensures Silent(s, Abort(s, script, i, p), slots)
  {
    var e := AbortPipe(i, s.slots[i].bulkInPipe);
    FromConcat(s.trace, [e], slots);
    FireAllSilent(s.(trace := s.trace + [e]), script, p.aborting, slots);
  }

  lemma NotifyOneSilent(s: Sys, script: seq<Response>, i: nat, p: NotifyStep, slots: iset<nat>)
    requires Good(s) && AllMarked(s, slots) && i < s.count
    ensures Silent(s, NotifyOne(s, script, i, p).s, slots)
  {
    MarkedSilent(s, script, i, p, slots);
    MarkedGood(s, script, i, p);
    var t := Marked(s, script, i, p);
    if t.slots[i].refcon.pending && t.slots[i].bulkInPipe != 0 { AbortSilent(t, script, i, p, slots); }
  }

  lemma {:induction false} NotifySilent(s: Sys, script: seq<Response>, plan: seq<NotifyStep>, n: nat, slots: iset<nat>)
    requires Good(s) && AllMarked(s, slots) && n <= s.count && Honest(s, script, plan, n)
    ensures Silent(s, Notify(s, script, plan, n).s, slots)
  {
    if n > 0 {
      NotifySilent(s, script, plan, n - 1, slots);
      NotifyReaches(s, script, plan, n - 1);
      NotifyOneSilent(Notify(s, script, plan, n - 1).s, script, n - 1, StepAt(plan, n - 1), slots);
    }
  }

  /** An interface that is claimed meanwhile takes a slot of its own. */
  lemma InitializeSilent(s: Sys, script: seq<Response>, f: Interface, slots: iset<nat>)
    requires Good(s) && AllMarked(s, slots) && (Claims(s, f) ==> s.count !in slots)
    ensures Silent(s, Initialize(s, script, f), slots)
  {
    if Claims(s, f) {
      var v := FreshView(s.slots[s.count], f.ref);
      DriveFrom(v, s.count, script, s.calls, MAX_SYNC_DEPTH, slots);
      FromConcat(s.trace, Drive(v, s.count, script, s.calls, MAX_SYNC_DEPTH).events, slots);
    }
  }

  lemma FinalizeSubmitsNothing(s: Sys, ref: int, slots: iset<nat>)
    requires s.count <= |s.slots|
    ensures SubmitsFrom(Finalize(s, ref).trace, slots) == SubmitsFrom(s.trace, slots)
  {
    var k := Find(s, ref, 0);
    if k < s.count {
      var v := s.slots[k];
      var ring, read := if v.ringBuffer != 0 then [Dealloc(k, v.ringBuffer)] else [],
                        if v.readBase != 0 then [Dealloc(k, v.readBase)] else [];
      FromConcat(ring, read, slots);
      FromConcat(s.trace, Deallocs(k, v), slots);
    }
  }

  // ---- following one instance -------------------------------------------------------------------------

  /** Where the instance in slot `i` is after a step: finalize disposes of one and may move another. */
  function Moved(s: Sys, op: Op, i: nat): (j: Option<nat>)
    requires i < s.count <= |s.slots|
  {
    if !op.DoFinalize? then Some(i)
    else
      var k := Find(s, op.ref, 0);
      if i == k then None else if k < s.count && i == s.count - 1 then Some(k) else Some(i)
  }

  /** Any allowed step: a marked instance submits nothing, and as long as it is there it stays marked. */
  lemma StepSilent(r: State, script: seq<Response>, op: Op, i: nat)
    requires Safe(r) && Allowed(r, script, op) && i < r.s.count && r.s.slots[i].removing
    ensures var t := Step(r, script, op).s;
      && SubmitsFrom(t.trace, iset{i}) == SubmitsFrom(r.s.trace, iset{i})
      && var j := Moved(r.s, op, i);
        j.Some? ==> j.value < t.count && t.slots[j.value].removing
  {
    match op
    case DoInitialize(f) => InitializeSilent(r.s, script, f, iset{i});
    case DoFire(f) => FireOneSilent(r.s, script, f, iset{i});
    case DoNotify(plan) => NotifySilent(r.s, script, plan, r.s.count, iset{i});
    case DoFinalize(ref) => FinalizeSubmitsNothing(r.s, ref, iset{i});
    case DoSetHook(_, _, _) =>
  }

  /** Where the instance is after a run, if it has not been disposed of. */
  function Survivor(r: State, script: seq<Response>, ops: seq<Op>, i: nat): (j: Option<nat>)
    requires |r.s.slots| == MAX_INTERFACES && r.s.count <= MAX_INTERFACES && i < r.s.count
    decreases |ops|
  {
    if ops == [] then Some(i)
    else
      var t, j := Step(r, script, ops[0]), Moved(r.s, ops[0], i);
      if j.Some? && j.value < t.s.count then Survivor(t, script, ops[1..], j.value) else None
  }

  /** How many calls the instance has submitted in a run, from whatever slot it was in. */
  ghost function Transfers(r: State, script: seq<Response>, ops: seq<Op>, i: nat): int
    requires |r.s.slots| == MAX_INTERFACES && r.s.count <= MAX_INTERFACES && i < r.s.count
    decreases |ops|
  {
    if ops == [] then 0
    else
      var t, j := Step(r, script, ops[0]), Moved(r.s, ops[0], i);
      SubmitsFrom(t.s.trace, iset{i}) - SubmitsFrom(r.s.trace, iset{i})
      + if j.Some? && j.value < t.s.count then Transfers(t, script, ops[1..], j.value) else 0
  }

  lemma {:induction false} MarkedInstanceSilent(r: State, script: seq<Response>, ops: seq<Op>, i: nat)
    requires Safe(r) && AllAllowed(r, script, ops) && i < r.s.count && r.s.slots[i].removing
    ensures Transfers(r, script, ops, i) == 0
    ensures var j := Survivor(r, script, ops, i);
      j.Some? ==> j.value < RunFrom(r, script, ops).s.count && RunFrom(r, script, ops).s.slots[j.value].removing
    decreases |ops|
  {
    if ops != [] {
      StepSafe(r, script, ops[0]);
      StepSilent(r, script, ops[0], i);
      var j := Moved(r.s, ops[0], i);
      if j.Some? { MarkedInstanceSilent(Step(r, script, ops[0]), script, ops[1..], j.value); }
    }
  }

  /**
   * After a removal notification no instance that existed then submits another call, in any run whatever: while
   * other interfaces are initialized, completions arrive, and finalize moves it to another slot, it makes no
   * transfer and stays marked until it is disposed of.
   */
  lemma NoTransferAfterRemoval(r: State, script: seq<Response>, plan: seq<NotifyStep>, ops: seq<Op>, i: nat)
    requires Safe(r) && Honest(r.s, script, plan, r.s.count) && i < r.s.count
    requires AllAllowed(Step(r, script, DoNotify(plan)), script, ops)
    ensures var t := Step(r, script, DoNotify(plan));
      && t.s.count == r.s.count && Transfers(t, script, ops, i) == 0
      && var j := Survivor(t, script, ops, i);
        j.Some? ==> j.value < RunFrom(t, script, ops).s.count && RunFrom(t, script, ops).s.slots[j.value].removing
  {
    StepSafe(r, script, DoNotify(plan));
    NotifyReaches(r.s, script, plan, r.s.count);
    MarkedInstanceSilent(Step(r, script, DoNotify(plan)), script, ops, i);
  }

  // ---- the driver as a whole --------------------------------------------------------------------------

  lemma StepQuiet(r: State, script: seq<Response>, op: Op)
    requires Safe(r) && AllRemoving(r.s) && Allowed(r, script, op) && (op.DoInitialize? ==> !Claims(r.s, op.f))
    ensures var t := Step(r, script, op); AllRemoving(t.s) && SubmitsFrom(t.s.trace, Everyone) == SubmitsFrom(r.s.trace, Everyone)
  {
    match op
    case DoInitialize(f) =>
    case DoFire(f) => FireOneSilent(r.s, script, f, Everyone);
    case DoNotify(plan) => NotifySilent(r.s, script, plan, r.s.count, Everyone);
    case DoFinalize(ref) => FinalizeSubmitsNothing(r.s, ref, Everyone);
    case DoSetHook(_, _, _) =>
  }

  /** While every instance is marked and none is claimed, no call is made at all. */
  lemma {:induction false} QuietUntilClaimed(r: State, script: seq<Response>, ops: seq<Op>)
    requires Safe(r) && AllRemoving(r.s) && AllAllowed(r, script, ops) && forall op <- ops :: !op.DoInitialize?
    ensures AllRemoving(RunFrom(r, script, ops).s) && Submits(RunFrom(r, script, ops).s.trace) == Submits(r.s.trace)
    decreases |ops|
  {
    if ops != [] {
      assert ops[0] in ops;
      StepQuiet(r, script, ops[0]);
      StepSafe(r, script, ops[0]);
      FromEveryone(r.s.trace);
      FromEveryone(Step(r, script, ops[0]).s.trace);
      QuietUntilClaimed(Step(r, script, ops[0]), script, ops[1..]);
    }
  }
}
