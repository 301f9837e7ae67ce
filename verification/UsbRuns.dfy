/** What every run of the driver keeps, for every behaviour of the library. */
module UsbRuns {
  import opened Words
  import opened UsbMachine
  import opened UsbRegistry

  // ---- the states between two stimuli ------------------------------------------------------------

  /** A live instance between two stimuli: pending, stopped, or being removed. */
  predicate Quiescent(v: View) {
    AtRest(v.refcon) || (v.removing && v.refcon == At(v.refcon.stage) && v.refcon.stage <= READ)
  }

  /** The pending bit of an instance tells exactly whether the library holds its one parameter block. */
  ghost predicate FlagsTell(s: Sys) {
    && |s.slots| == MAX_INTERFACES && s.count <= MAX_INTERFACES
    && forall i: nat :: s.held[i] == if i < s.count && s.slots[i].refcon.pending then 1 else 0
  }

  ghost predicate Good(s: Sys) {
    FlagsTell(s) && forall i: nat :: i < s.count ==> Quiescent(s.slots[i])
  }

  const Blank := View(At(0), 0, 0, 0, 0, 0, 0, 0, 0, false, false, 0)
  const Boot := Sys([Blank, Blank, Blank, Blank, Blank, Blank, Blank, Blank], 0, 0, multiset{}, [])

  /** A stimulus of one live instance that is not outstanding keeps the invariant. */
  lemma AfterGood(s: Sys, i: nat, d: Driven)
    requires |s.slots| == MAX_INTERFACES && i < s.count <= MAX_INTERFACES
    requires forall j: nat :: s.held[j] == if j < s.count && j != i && s.slots[j].refcon.pending then 1 else 0
    requires forall j: nat :: j < s.count && j != i ==> Quiescent(s.slots[j])
    requires Quiescent(d.view)
    ensures Good(After(s, i, d))
  {
  }

  ghost predicate SameMarks(s: Sys, t: Sys) {
    s.count == t.count && |s.slots| == |t.slots| && forall j :: 0 <= j < |s.slots| ==> s.slots[j].removing == t.slots[j].removing
  }

  lemma FireOneGood(s: Sys, script: seq<Response>, f: Fire)
    requires Good(s)
    ensures Good(FireOne(s, script, f)) && SameMarks(s, FireOne(s, script, f))
  {
    if f.slot < |s.slots| && f.slot in s.held {
      var v := s.slots[f.slot];
      assert s.held[f.slot] == 1;
      FinishBounded(v, f.slot, f.outcome, script, s.calls, MAX_SYNC_DEPTH);
      CompleteSubmitsNothing(v, f.slot, f.outcome);
      AfterGood(s.(held := s.held - multiset{f.slot}), f.slot,
                Finish(v, f.slot, f.outcome, script, s.calls, MAX_SYNC_DEPTH));
    }
  }

  lemma {:induction false} FireAllGood(s: Sys, script: seq<Response>, fs: seq<Fire>)
    requires Good(s)
    ensures Good(FireAll(s, script, fs)) && SameMarks(s, FireAll(s, script, fs))
    decreases |fs|
  {
    if fs != [] {
      FireOneGood(s, script, fs[0]);
      FireAllGood(FireOne(s, script, fs[0]), script, fs[1..]);
    }
  }

  lemma InitializeGood(s: Sys, script: seq<Response>, f: Interface)
    requires Good(s)
    ensures Good(Initialize(s, script, f))
  {
    if Claims(s, f) {
      var v := FreshView(s.slots[s.count], f.ref);
      DriveBounded(v, s.count, script, s.calls, MAX_SYNC_DEPTH);
      AfterGood(s.(count := s.count + 1), s.count, Drive(v, s.count, script, s.calls, MAX_SYNC_DEPTH));
    }
  }

  // ---- the removal notification ----------------------------------------------------------------------

  /**
   * The library keeps its word about an abort: after a refused one no completion comes, or the call has been
   * completed while the abort was being refused.
   */
  predicate KeepsWord(s: Sys, script: seq<Response>, i: nat, p: NotifyStep)
    requires i < |s.slots|
  {
    p.reply != AbortFailed(false) || Aborting(s, script, i, p).held[i] == 0
  }

  /** The same for the turn of instance `i`, in which the abort may not be issued at all. */
  predicate HonestAt(s: Sys, script: seq<Response>, i: nat, p: NotifyStep)
    requires i < |s.slots|
  {
    var t := Marked(s, script, i, p);
    t.slots[i].refcon.pending && t.slots[i].bulkInPipe != 0 ==> KeepsWord(t, script, i, p)
  }

  /** And for the notification at the first `n` instances. */
  predicate Honest(s: Sys, script: seq<Response>, plan: seq<NotifyStep>, n: nat)
    requires n <= |s.slots|
  {
    n == 0 || (Honest(s, script, plan, n - 1)
               && HonestAt(Notify(s, script, plan, n - 1).s, script, n - 1, StepAt(plan, n - 1)))
  }

  lemma MarkGood(s: Sys, i: nat)
    requires Good(s) && i < s.count
    ensures Good(Mark(s, i)) && Mark(s, i).slots[i].removing
    ensures forall j :: 0 <= j < s.count && s.slots[j].removing ==> Mark(s, i).slots[j].removing
  {
  }

  lemma AbortingGood(s: Sys, script: seq<Response>, i: nat, p: NotifyStep)
    requires Good(s) && i < s.count
    ensures Good(Aborting(s, script, i, p)) && SameMarks(s, Aborting(s, script, i, p))
  {
    FireAllGood(s.(trace := s.trace + [AbortPipe(i, s.slots[i].bulkInPipe)]), script, p.aborting);
  }

  /** Clearing the pending bit, and letting go of the block or not. */
  lemma ClearedGood(t: Sys, i: nat, u: Sys, gone: bool)
    requires Good(t) && i < t.count && t.slots[i].removing
    requires u == t.(slots := t.slots[i := t.slots[i].(refcon := t.slots[i].refcon.(pending := false))],
                     held := if gone then t.held - multiset{i} else t.held)
    ensures Good(u) <==> gone || t.held[i] == 0
  {
    assert u.held[i] == if gone then 0 else t.held[i];
    assert Quiescent(t.slots[i]) && Quiescent(u.slots[i]);
  }

  /** Exactly which aborts keep the invariant: those about which the library keeps its word. */
  lemma AbortGoodIff(s: Sys, script: seq<Response>, i: nat, p: NotifyStep)
    requires Good(s) && i < s.count && s.slots[i].removing
    ensures Good(Abort(s, script, i, p)) <==> KeepsWord(s, script, i, p)
    ensures SameMarks(s, Abort(s, script, i, p))
  {
    AbortingGood(s, script, i, p);
    if p.reply.AbortFailed? {
      ClearedGood(Aborting(s, script, i, p), i, Abort(s, script, i, p), p.reply.gone);
    }
  }

  lemma MarkedGood(s: Sys, script: seq<Response>, i: nat, p: NotifyStep)
    requires Good(s) && i < s.count
    ensures var t := Marked(s, script, i, p);
      && Good(t) && t.slots[i].removing
      && (forall j :: 0 <= j < s.count && s.slots[j].removing ==> t.slots[j].removing)
  {
    FireAllGood(s, script, p.before);
    MarkGood(FireAll(s, script, p.before), i);
    FireAllGood(Mark(FireAll(s, script, p.before), i), script, p.marked);
  }

  /** The notification at one instance; when it is not busy there, the instance is marked and drained. */
  lemma NotifyOneGood(s: Sys, script: seq<Response>, i: nat, p: NotifyStep)
    requires Good(s) && i < s.count && HonestAt(s, script, i, p)
    ensures var n := NotifyOne(s, script, i, p);
      && Good(n.s) && n.s.slots[i].removing
      && (forall j :: 0 <= j < s.count && s.slots[j].removing ==> n.s.slots[j].removing)
      && (!n.busy ==> n.s.held[i] == 0)
  {
    MarkedGood(s, script, i, p);
    var t := Marked(s, script, i, p);
    if t.slots[i].refcon.pending && t.slots[i].bulkInPipe != 0 {
      AbortGoodIff(t, script, i, p);
    }
  }

  /** A removing instance that is not outstanding never becomes outstanding again by a completion. */
  lemma FireOneDrained(s: Sys, script: seq<Response>, f: Fire, j: nat)
    requires Good(s) && j < s.count && s.slots[j].removing && s.held[j] == 0
    ensures FireOne(s, script, f).held[j] == 0
  {
  }

  lemma {:induction false} FireAllDrained(s: Sys, script: seq<Response>, fs: seq<Fire>, j: nat)
    requires Good(s) && j < s.count && s.slots[j].removing && s.held[j] == 0
    ensures FireAll(s, script, fs).held[j] == 0
    decreases |fs|
  {
    if fs != [] {
      FireOneGood(s, script, fs[0]);
      FireOneDrained(s, script, fs[0], j);
      FireAllDrained(FireOne(s, script, fs[0]), script, fs[1..], j);
    }
  }

  lemma MarkedDrained(s: Sys, script: seq<Response>, i: nat, p: NotifyStep, j: nat)
    requires Good(s) && i < s.count && j < s.count && s.slots[j].removing && s.held[j] == 0
    ensures Marked(s, script, i, p).held[j] == 0
  {
    FireAllGood(s, script, p.before);
    FireAllDrained(s, script, p.before, j);
    MarkGood(FireAll(s, script, p.before), i);
    FireAllDrained(Mark(FireAll(s, script, p.before), i), script, p.marked, j);
  }

  lemma NotifyOneDrained(s: Sys, script: seq<Response>, i: nat, p: NotifyStep, j: nat)
    requires Good(s) && i < s.count && j < s.count && s.slots[j].removing && s.held[j] == 0
    ensures NotifyOne(s, script, i, p).s.held[j] == 0
  {
    MarkedGood(s, script, i, p);
    MarkedDrained(s, script, i, p, j);
    var t := Marked(s, script, i, p);
    if t.slots[i].refcon.pending && t.slots[i].bulkInPipe != 0 {
      FireAllDrained(t.(trace := t.trace + [AbortPipe(i, t.slots[i].bulkInPipe)]), script, p.aborting, j);
    }
  }

  /** The first `n` instances are being removed, and the library holds none of them unless it was busy. */
  predicate Visited(r: Notified, n: nat) {
    && n <= |r.s.slots|
    && (forall j :: 0 <= j < n ==> r.s.slots[j].removing)
    && (!r.busy ==> forall j :: 0 <= j < n ==> r.s.held[j] == 0)
  }

  /** Every live instance is being removed. */
  predicate AllRemoving(s: Sys) {
    s.count <= |s.slots| && forall i :: 0 <= i < s.count ==> s.slots[i].removing
  }

  /** What the notification has established after `n` instances. */
  ghost predicate Reached(s: Sys, r: Notified, n: nat) {
    Good(r.s) && Visited(r, n) && r.s.count == s.count
  }

  lemma StayDrained(s: Sys, script: seq<Response>, i: nat, p: NotifyStep)
    requires Good(s) && i < s.count
    requires forall j | 0 <= j < i :: s.slots[j].removing && s.held[j] == 0
    ensures forall j | 0 <= j < i :: NotifyOne(s, script, i, p).s.held[j] == 0
  {
    forall j | 0 <= j < i ensures NotifyOne(s, script, i, p).s.held[j] == 0 {
      NotifyOneDrained(s, script, i, p, j);
    }
  }

  lemma NextReached(s: Sys, r: Notified, script: seq<Response>, i: nat, p: NotifyStep)
    requires Reached(s, r, i) && i < s.count && HonestAt(r.s, script, i, p)
    ensures Reached(s, NotifyNext(r, script, i, p), i + 1)
  {
    NotifyOneGood(r.s, script, i, p);
    if !r.busy { StayDrained(r.s, script, i, p); }
  }

  /**
   * The notification, with completions interrupting it anywhere: afterwards every instance it has visited
   * is being removed, and if it was busy at none of them the library holds none of their blocks.
   */
  lemma {:induction false} NotifyReaches(s: Sys, script: seq<Response>, plan: seq<NotifyStep>, n: nat)
    requires Good(s) && n <= s.count && Honest(s, script, plan, n)
    ensures Reached(s, Notify(s, script, plan, n), n)
  {
    if n > 0 {
      NotifyReaches(s, script, plan, n - 1);
      NextReached(s, Notify(s, script, plan, n - 1), script, n - 1, StepAt(plan, n - 1));
    }
  }

  // ---- finalize ------------------------------------------------------------------------------------------

  /**
   * Exactly when finalize is safe: the invariant survives the disposal of instance `i`, and the move of the
   * last one into its slot, if and only if the library holds neither of the two parameter blocks.
   */
  lemma FinalizeSafeIff(s: Sys, i: nat)
    requires Good(s) && i < s.count
    ensures Good(Dispose(s, i)) <==> s.held[i] == 0 && s.held[s.count - 1] == 0
  {
    var t, last := Dispose(s, i), s.count - 1;
    assert t.held == s.held;
    if Good(t) {
      assert t.held[last] == 0;
      if i < last { assert t.slots[i] == s.slots[last]; assert t.held[i] == 0; }
    } else {
      if s.held[i] == 0 && s.held[last] == 0 {
        DisposeGood(s, i);
        assert false;
      }
    }
  }

  lemma DisposeGood(s: Sys, i: nat)
    requires Good(s) && i < s.count && s.held[i] == 0 && s.held[s.count - 1] == 0
    ensures Good(Dispose(s, i))
  {
    var t, last := Dispose(s, i), s.count - 1;
    forall j: nat ensures t.held[j] == if j < t.count && t.slots[j].refcon.pending then 1 else 0 {
      assert j < last && j != i ==> t.slots[j] == s.slots[j];
      assert j < last && j == i ==> t.slots[j] == s.slots[last];
    }
  }

  // ---- runs ------------------------------------------------------------------------------------------------

  datatype Op =
    | DoInitialize(f: Interface)
    | DoFire(fire: Fire)
    | DoNotify(plan: seq<NotifyStep>)
    | DoFinalize(ref: int)
    | DoSetHook(slot: nat, on: bool, refcon: int)

  /** `clear`: the last notification answered kUSBNoErr and no interface has been initialized since. */
  datatype State = State(s: Sys, clear: bool)

  /**
   * What the environment may do: the library completes only calls it holds and keeps its word about refused
   * aborts; the USB manager finalizes only after a notification that was not busy.
   */
  predicate Allowed(r: State, script: seq<Response>, op: Op)
    requires r.s.count <= |r.s.slots|
  {
    match op
    case DoFire(f) => f.slot in r.s.held
    case DoNotify(plan) => Honest(r.s, script, plan, r.s.count)
    case DoFinalize(_) => r.clear
    case _ => true
  }

  function Step(r: State, script: seq<Response>, op: Op): (t: State)
    requires |r.s.slots| == MAX_INTERFACES && r.s.count <= MAX_INTERFACES
    ensures |t.s.slots| == MAX_INTERFACES && t.s.count <= MAX_INTERFACES
  {
    match op
    case DoInitialize(f) => State(Initialize(r.s, script, f), r.clear && !Claims(r.s, f))
    case DoFire(f) => State(FireOne(r.s, script, f), r.clear)
    case DoNotify(plan) => var n := Notify(r.s, script, plan, r.s.count); State(n.s, !n.busy)
    case DoFinalize(ref) => State(Finalize(r.s, ref), r.clear)
    case DoSetHook(i, on, refcon) => State(SetHook(r.s, i, on, refcon), r.clear)
  }

  function RunFrom(r: State, script: seq<Response>, ops: seq<Op>): (t: State)
    requires |r.s.slots| == MAX_INTERFACES && r.s.count <= MAX_INTERFACES
    ensures |t.s.slots| == MAX_INTERFACES && t.s.count <= MAX_INTERFACES
    decreases |ops|
  {
    if ops == [] then r else RunFrom(Step(r, script, ops[0]), script, ops[1..])
  }

  predicate AllAllowed(r: State, script: seq<Response>, ops: seq<Op>)
    requires |r.s.slots| == MAX_INTERFACES && r.s.count <= MAX_INTERFACES
    decreases |ops|
  {
    ops == [] || (Allowed(r, script, ops[0]) && AllAllowed(Step(r, script, ops[0]), script, ops[1..]))
  }

  ghost predicate Safe(r: State) {
    Good(r.s) && (r.clear ==> AllRemoving(r.s) && r.s.held == multiset{})
  }

  lemma NothingHeld(s: Sys)
    requires Good(s) && forall j :: 0 <= j < s.count ==> s.held[j] == 0
    ensures s.held == multiset{}
  {
    assert forall j: nat :: s.held[j] == 0;
  }

  lemma FinalizeSafe(s: Sys, ref: int)
    requires Good(s) && AllRemoving(s) && s.held == multiset{}
    ensures var t := Finalize(s, ref); Good(t) && AllRemoving(t) && t.held == multiset{}
  {
    var k := Find(s, ref, 0);
    if k < s.count { DisposeGood(s, k); }
  }

  lemma StepSafe(r: State, script: seq<Response>, op: Op)
    requires Safe(r) && Allowed(r, script, op)
    ensures Safe(Step(r, script, op))
  {
    match op
    case DoInitialize(f) => InitializeGood(r.s, script, f);
    case DoFire(f) => FireOneGood(r.s, script, f);
    case DoNotify(plan) =>
      NotifyReaches(r.s, script, plan, r.s.count);
      var n := Notify(r.s, script, plan, r.s.count);
      if !n.busy { NothingHeld(n.s); }
    case DoFinalize(ref) => FinalizeSafe(r.s, ref);
    case DoSetHook(i, on, refcon) =>
  }

  lemma BootSafe()
    ensures Safe(State(Boot, false))
  {
  }

  /**
   * Safety over whole runs. Whatever the library answers and whenever it completes, each instance's
   * parameter block is held at most once, exactly when its pending bit says so; every live instance is
   * pending, stopped or being removed; and from a notification that was not busy to the next initialize
   * nothing is outstanding, so every finalize in between is safe.
   */
  lemma {:induction false} RunsAreSafe(r: State, script: seq<Response>, ops: seq<Op>)
    requires Safe(r) && AllAllowed(r, script, ops)
    ensures Safe(RunFrom(r, script, ops))
    decreases |ops|
  {
    if ops != [] {
      StepSafe(r, script, ops[0]);
      RunsAreSafe(Step(r, script, ops[0]), script, ops[1..]);
    }
  }

  lemma {:induction false} NothingPending(s: Sys, script: seq<Response>, n: nat)
    requires n <= s.count <= |s.slots| && forall j :: 0 <= j < s.count ==> !s.slots[j].refcon.pending
    ensures var r := Notify(s, script, [], n);
      !r.busy && r.s.held == s.held && forall j :: 0 <= j < s.count ==> !r.s.slots[j].refcon.pending
  {
    if n > 0 {
      NothingPending(s, script, n - 1);
      var r := Notify(s, script, [], n - 1);
      assert Marked(r.s, script, n - 1, StepAt([], n - 1)) == Mark(r.s, n - 1);
    }
  }

  /**
   * What a broken word leads to: when the library refuses to abort the last outstanding call and still holds
   * its block, the next notification answers kUSBNoErr all the same.
   */
  lemma BrokenPromise(s: Sys, script: seq<Response>, i: nat, p: NotifyStep)
    requires Good(s) && i < s.count && s.slots[i].removing && !KeepsWord(s, script, i, p)
    requires forall j :: 0 <= j < s.count && j != i ==> Aborting(s, script, i, p).held[j] == 0
    ensures var r := Notify(Abort(s, script, i, p), script, [], s.count); !r.busy && r.s.held[i] == 1
  {
    AbortingGood(s, script, i, p);
    NothingPending(Abort(s, script, i, p), script, s.count);
  }
}
