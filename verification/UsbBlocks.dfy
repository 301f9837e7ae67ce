/** Every block the library hands out is owned by one instance until finalize gives it back, once. */
module UsbBlocks {
  import opened Words
  import opened UsbMachine
  import opened UsbRegistry
  import opened UsbRuns

  function One(block: nat, b: nat): nat { if block == b && b != 0 then 1 else 0 }

  /** How often an instance owns the block `b`. */
  function Owned(v: View, b: nat): nat { One(v.ringBuffer, b) + One(v.readBase, b) }

  /** How often the first `n` instances own it. */
  function OwnedBy(slots: seq<View>, n: nat, b: nat): nat
    requires n <= |slots|
  {
    if n == 0 then 0 else OwnedBy(slots, n - 1, b) + Owned(slots[n - 1], b)
  }

  /** How often the library has handed it out, and how often it has got it back. */
  function Given(es: seq<Event>, b: nat): nat {
    if es == [] then 0 else (if es[0].Allocated? then One(es[0].block, b) else 0) + Given(es[1..], b)
  }

  function Freed(es: seq<Event>, b: nat): nat {
    if es == [] then 0 else (if es[0].Dealloc? then One(es[0].block, b) else 0) + Freed(es[1..], b)
  }

  lemma {:induction false} EventsConcat(a: seq<Event>, c: seq<Event>, b: nat)
    ensures Given(a + c, b) == Given(a, b) + Given(c, b) && Freed(a + c, b) == Freed(a, b) + Freed(c, b)
  {
    if a == [] {
      assert a + c == c;
    } else {
      assert (a + c)[1..] == a[1..] + c;
      EventsConcat(a[1..], c, b);
    }
  }

  lemma {:induction false} OwnedUpdate(slots: seq<View>, i: nat, v: View, n: nat, b: nat)
    requires i < |slots| && n <= |slots|
    ensures OwnedBy(slots[i := v], n, b) == OwnedBy(slots, n, b) + (if i < n then Owned(v, b) - Owned(slots[i], b) else 0)
  {
    if n > 0 { OwnedUpdate(slots, i, v, n - 1, b); }
  }

  // ---- one instance ---------------------------------------------------------------------------

  /** A block is still to come for every allocation stage that has not been passed. */
  predicate StageOk(v: View) {
    !v.refcon.returned ==>
      (v.refcon.stage == ALLOC_RING ==> v.ringBuffer == 0) && (v.refcon.stage <= ALLOC_READ ==> v.readBase == 0)
  }

  /** From `v` to `w` nothing was freed, and what was handed out is owned by the instance. */
  predicate Keeps(v: View, w: View, es: seq<Event>, b: nat) {
    StageOk(w) && Owned(w, b) == Owned(v, b) + Given(es, b) && Freed(es, b) == 0
  }

  lemma CompleteKeeps(v: View, slot: nat, o: Outcome, b: nat)
    requires StageOk(v) && !v.refcon.returned
    ensures Keeps(v, Complete(v, slot, o).view, Complete(v, slot, o).events, b)
  {
    EventsConcat([Store(slot, o.data)], if v.hook then [Hook(slot, v.hookRefcon)] else [], b);
    EventsConcat([], [ClearStall(slot, v.bulkInPipe)], b);
  }

  lemma {:induction false} DriveKeeps(v: View, slot: nat, script: seq<Response>, n: nat, budget: nat, b: nat)
    requires StageOk(v) && v.refcon == At(v.refcon.stage)
    ensures var d := Drive(v, slot, script, n, budget); Keeps(v, d.view, d.events, b)
    decreases budget, 1
  {
    if !(v.removing || budget == 0 || v.refcon.stage > READ) {
      match Answer(script, n)
      case Later =>
      case Fails(_) =>
      case Quiet(_, _, _) => FinishKeeps(v, slot, QuietOutcome(Answer(script, n)), script, n + 1, budget - 1, b);
      case Inside(o, _) => FinishKeeps(v, slot, o, script, n + 1, budget - 1, b);
    }
  }

  lemma {:induction false} FinishKeeps(v: View, slot: nat, o: Outcome, script: seq<Response>, n: nat, budget: nat, b: nat)
    requires StageOk(v) && !v.refcon.returned
    ensures var d := Finish(v, slot, o, script, n, budget); Keeps(v, d.view, d.events, b)
    ensures var d := Finish(v, slot, o, script, n, budget); Keeps(v, d.view, [SubmitOf(v, slot)] + d.events, b)
    decreases budget, 2
  {
    var c := Complete(v, slot, o);
    CompleteKeeps(v, slot, o, b);
    CompleteSubmitsNothing(v, slot, o);
    if !(c.view.refcon.returned || c.view.removing) {
      DriveKeeps(c.view, slot, script, n, budget, b);
      EventsConcat(c.events, Drive(c.view, slot, script, n, budget).events, b);
    }
    EventsConcat([SubmitOf(v, slot)], Finish(v, slot, o, script, n, budget).events, b);
  }

  // ---- the whole driver -----------------------------------------------------------------------------

  /** The books: what was handed out is owned or has been given back. */
  ghost predicate Balanced(s: Sys, b: nat) {
    && Good(s) && (forall i: nat :: i < s.count ==> StageOk(s.slots[i]))
    && OwnedBy(s.slots, s.count, b) + Freed(s.trace, b) == Given(s.trace, b)
  }

  lemma AfterBalanced(s: Sys, i: nat, d: Driven, b: nat)
    requires |s.slots| == MAX_INTERFACES && i < s.count <= MAX_INTERFACES
    requires forall j: nat :: j < s.count && j != i ==> StageOk(s.slots[j])
    requires OwnedBy(s.slots, s.count, b) + Freed(s.trace, b) == Given(s.trace, b)
    requires Keeps(s.slots[i], d.view, d.events, b) && Good(After(s, i, d))
    ensures Balanced(After(s, i, d), b)
  {
    OwnedUpdate(s.slots, i, d.view, s.count, b);
    EventsConcat(s.trace, d.events, b);
  }

  lemma FireOneBalanced(s: Sys, script: seq<Response>, f: Fire, b: nat)
    requires Balanced(s, b)
    ensures Balanced(FireOne(s, script, f), b)
  {
    FireOneGood(s, script, f);
    if f.slot < |s.slots| && f.slot in s.held {
      assert s.held[f.slot] == 1;
      var v := s.slots[f.slot];
      FinishKeeps(v, f.slot, f.outcome, script, s.calls, MAX_SYNC_DEPTH, b);
      AfterBalanced(s.(held := s.held - multiset{f.slot}), f.slot,
                    Finish(v, f.slot, f.outcome, script, s.calls, MAX_SYNC_DEPTH), b);
    }
  }

  lemma {:induction false} FireAllBalanced(s: Sys, script: seq<Response>, fs: seq<Fire>, b: nat)
    requires Balanced(s, b)
    ensures Balanced(FireAll(s, script, fs), b)
    decreases |fs|
  {
    if fs != [] {
      FireOneBalanced(s, script, fs[0], b);
      FireAllBalanced(FireOne(s, script, fs[0]), script, fs[1..], b);
    }
  }

  lemma InitializeBalanced(s: Sys, script: seq<Response>, f: Interface, b: nat)
    requires Balanced(s, b)
    ensures Balanced(Initialize(s, script, f), b)
  {
    InitializeGood(s, script, f);
    if Claims(s, f) {
      var v := FreshView(s.slots[s.count], f.ref);
      var t := s.(count := s.count + 1, slots := s.slots[s.count := v]);
      var d := Drive(v, s.count, script, s.calls, MAX_SYNC_DEPTH);
      OwnedUpdate(s.slots, s.count, v, s.count, b);
      DriveKeeps(v, s.count, script, s.calls, MAX_SYNC_DEPTH, b);
      assert After(t, s.count, d) == Initialize(s, script, f);
      AfterBalanced(t, s.count, d, b);
    }
  }

  /** Changing nothing but flags of one instance keeps the books. */
  lemma FlagsBalanced(s: Sys, t: Sys, i: nat, b: nat)
    requires Balanced(s, b) && Good(t) && t.count == s.count && i < |s.slots| == |t.slots|
    requires t.slots == s.slots[i := t.slots[i]] && Owned(t.slots[i], b) == Owned(s.slots[i], b)
    requires i < s.count ==> StageOk(t.slots[i])
    requires Freed(t.trace, b) == Freed(s.trace, b) && Given(t.trace, b) == Given(s.trace, b)
    ensures Balanced(t, b)
  {
    OwnedUpdate(s.slots, i, t.slots[i], s.count, b);
  }

  lemma AbortBalanced(s: Sys, script: seq<Response>, i: nat, p: NotifyStep, b: nat)
    requires Balanced(s, b) && i < s.count && s.slots[i].removing && KeepsWord(s, script, i, p)
    ensures Balanced(Abort(s, script, i, p), b)
  {
    var e := AbortPipe(i, s.slots[i].bulkInPipe);
    var s1 := s.(trace := s.trace + [e]);
    EventsConcat(s.trace, [e], b);
    FlagsBalanced(s, s1, i, b);
    FireAllBalanced(s1, script, p.aborting, b);
    AbortGoodIff(s, script, i, p);
    FlagsBalanced(FireAll(s1, script, p.aborting), Abort(s, script, i, p), i, b);
  }

  lemma NotifyOneBalanced(s: Sys, script: seq<Response>, i: nat, p: NotifyStep, b: nat)
    requires Balanced(s, b) && i < s.count && HonestAt(s, script, i, p)
    ensures Balanced(NotifyOne(s, script, i, p).s, b)
  {
    FireAllBalanced(s, script, p.before, b);
    var s1 := FireAll(s, script, p.before);
    MarkGood(s1, i);
    FlagsBalanced(s1, Mark(s1, i), i, b);
    FireAllBalanced(Mark(s1, i), script, p.marked, b);
    FireAllGood(Mark(s1, i), script, p.marked);
    var t := FireAll(Mark(s1, i), script, p.marked);
    if t.slots[i].refcon.pending && t.slots[i].bulkInPipe != 0 {
      AbortBalanced(t, script, i, p, b);
    }
  }

  lemma {:induction false} NotifyBalanced(s: Sys, script: seq<Response>, plan: seq<NotifyStep>, n: nat, b: nat)
    requires Balanced(s, b) && n <= s.count && Honest(s, script, plan, n)
    ensures Balanced(Notify(s, script, plan, n).s, b)
  {
    if n > 0 {
      var p := StepAt(plan, n - 1);
      NotifyBalanced(s, script, plan, n - 1, b);
      NextBalanced(Notify(s, script, plan, n - 1), script, n - 1, p, b);
    }
  }

  lemma NextBalanced(r: Notified, script: seq<Response>, i: nat, p: NotifyStep, b: nat)
    requires Balanced(r.s, b) && i < r.s.count && HonestAt(r.s, script, i, p)
    ensures Balanced(NotifyNext(r, script, i, p).s, b)
  {
    NotifyOneBalanced(r.s, script, i, p, b);
  }

  /** Disposal gives back exactly the instance's own blocks. */
  lemma DisposeBalanced(s: Sys, i: nat, b: nat)
    requires Balanced(s, b) && i < s.count && Good(Dispose(s, i))
    ensures Balanced(Dispose(s, i), b)
  {
    var v, last := s.slots[i], s.count - 1;
    var emptied := s.slots[i := Emptied(v)];
    DeallocsFree(i, v, b);
    EventsConcat(s.trace, Deallocs(i, v), b);
    OwnedUpdate(s.slots, i, Emptied(v), s.count, b);
    if i < last { OwnedUpdate(emptied, i, emptied[last], last, b); }
  }

  lemma DeallocsFree(i: nat, v: View, b: nat)
    ensures Freed(Deallocs(i, v), b) == Owned(v, b) && Given(Deallocs(i, v), b) == 0
  {
    var ring := if v.ringBuffer != 0 then [Dealloc(i, v.ringBuffer)] else [];
    var read := if v.readBase != 0 then [Dealloc(i, v.readBase)] else [];
    EventsConcat(ring, read, b);
  }

  lemma StepBalanced(r: State, script: seq<Response>, op: Op, b: nat)
    requires Safe(r) && Balanced(r.s, b) && Allowed(r, script, op)
    ensures Balanced(Step(r, script, op).s, b)
  {
    StepSafe(r, script, op);
    match op
    case DoInitialize(f) => InitializeBalanced(r.s, script, f, b);
    case DoFire(f) => FireOneBalanced(r.s, script, f, b);
    case DoNotify(plan) => NotifyBalanced(r.s, script, plan, r.s.count, b);
    case DoFinalize(ref) =>
      var k := Find(r.s, ref, 0);
      if k < r.s.count { DisposeBalanced(r.s, k, b); }
    case DoSetHook(i, on, refcon) =>
      if i < r.s.count { FlagsBalanced(r.s, Step(r, script, op).s, i, b); }
  }

  lemma {:induction false} RunsBalance(r: State, script: seq<Response>, ops: seq<Op>, b: nat)
    requires Safe(r) && Balanced(r.s, b) && AllAllowed(r, script, ops)
    ensures Balanced(RunFrom(r, script, ops).s, b)
    decreases |ops|
  {
    if ops != [] {
      StepSafe(r, script, ops[0]);
      StepBalanced(r, script, ops[0], b);
      RunsBalance(Step(r, script, ops[0]), script, ops[1..], b);
    }
  }

  /**
   * Over every run from power-up, no block is given back more often than it was handed out, and when no
   * instance is left every block has been given back exactly as often as it was handed out.
   */
  lemma EveryBlockFreedOnce(script: seq<Response>, ops: seq<Op>, b: nat)
    requires AllAllowed(State(Boot, false), script, ops)
    ensures var s := RunFrom(State(Boot, false), script, ops).s;
      && Freed(s.trace, b) <= Given(s.trace, b)
      && (s.count == 0 ==> Freed(s.trace, b) == Given(s.trace, b))
  {
    BootSafe();
    RunsBalance(State(Boot, false), script, ops, b);
  }
}
