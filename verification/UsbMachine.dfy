/**
 * The read machine of one driver instance, seen from outside: an iterative machine that issues one library
 * call after the other. The recursive, token-guarded code of UsbDriver refines it.
 */
module UsbMachine {
  import opened Words

  const NO_ERR := 0
  const USB_PENDING := 1
  const USB_INTERNAL_ERR := -6999
  const USB_STALLED := -6979
  const MAX_SYNC_DEPTH := 16
  const RING_SIZE := 4096
  const READ_ALIGNMENT := 64

  const ALLOC_RING := 0
  const CONFIGURE := 1
  const FIND_PIPE := 2
  const ALLOC_READ := 3
  const READ := 4

  /** The refcon word: stage in the low byte, kReturnFromDriver, kCompletionPending. */
  datatype Refcon = Refcon(stage: nat, returned: bool, pending: bool)

  const RETURN := Refcon(0, true, false)

  function At(stage: nat): Refcon { Refcon(stage, false, false) }

  // ---- the USB library, an arbitrary environment ------------------------------------------

  /** What a completed call leaves in the parameter block. */
  datatype Outcome = Outcome(status: int, data: seq<byte>, buffer: nat, reference: int, wValue: nat)

  type Failure = c: int | c != NO_ERR && c != USB_PENDING witness -1

  /**
   * How the library answers one call: it completes later; it fails at once; it succeeds without calling
   * back, with its results in the parameter block; or it calls back inside the call and then returns any code whatever.
   */
  datatype Response = Later | Fails(code: Failure) | Quiet(buffer: nat, reference: int, wValue: nat) | Inside(outcome: Outcome, result: int)

  /** The answer to the n-th call of a run; beyond the script every call completes later. */
  function Answer(script: seq<Response>, n: nat): Response {
    if n < |script| then script[n] else Later
  }

  /** What can be seen from outside: library calls, ring stores, client notifications, block ownership. */
  datatype Event =
    | Submit(slot: nat, stage: nat, reference: int, buffer: nat, reqCount: nat)
    | Allocated(slot: nat, block: nat)
    | Store(slot: nat, data: seq<byte>)
    | Hook(slot: nat, refcon: int)
    | ClearStall(slot: nat, pipe: int)
    | AbortPipe(slot: nat, pipe: int)
    | Dealloc(slot: nat, block: nat)

  // ---- one instance --------------------------------------------------------------------------

  /** The part of an instance that matters from outside; block 0 is nil, pipe 0 is none. */
  datatype View = View(
    refcon: Refcon, interfaceRef: int, bulkInPipe: int, maxPacketSize: nat,
    ringBuffer: nat, readBase: nat, readBuffer: nat,
    lastStatus: int, lastCount: nat, removing: bool, hook: bool, hookRefcon: int)

  /** The first multiple of 64 at or above a block address, in 32-bit arithmetic. */
  function AlignedBuffer(base: nat): nat {
    ((base + (READ_ALIGNMENT - 1)) % 0x1_0000_0000) / 64 * 64
  }

  /** The call the machine makes at its stage. */
  function SubmitOf(v: View, slot: nat): Event {
    match v.refcon.stage
    case 0 => Submit(slot, ALLOC_RING, v.interfaceRef, 0, RING_SIZE)
    case 3 => Submit(slot, ALLOC_READ, v.interfaceRef, 0, v.maxPacketSize + (READ_ALIGNMENT - 1))
    case 4 => Submit(slot, READ, v.bulkInPipe, v.readBuffer, v.maxPacketSize)
    case s => Submit(slot, s, v.interfaceRef, 0, 0)
  }

  /** What a success without callback amounts to: whatever results the library has put into the parameter block,
      but no data, since the code clears the count itself. */
  function QuietOutcome(r: Response): Outcome
    requires r.Quiet?
  {
    Outcome(NO_ERR, [], r.buffer, r.reference, r.wValue)
  }

  datatype Completed = Completed(view: View, events: seq<Event>)

  function NewBlock(slot: nat, block: nat): seq<Event> {
    if block == 0 then [] else [Allocated(slot, block)]
  }

  /** The stage transition of a completion. */
  function Complete(v: View, slot: nat, o: Outcome): Completed {
    var ok := o.status == NO_ERR;
    match v.refcon.stage
    case 0 =>
      if ok then Completed(v.(ringBuffer := o.buffer, refcon := At(CONFIGURE)), NewBlock(slot, o.buffer))
      else Completed(v.(refcon := RETURN), [])
    case 1 => Completed(v.(refcon := if ok then At(FIND_PIPE) else RETURN), [])
    case 2 =>
      if ok then Completed(v.(bulkInPipe := o.reference, maxPacketSize := o.wValue, refcon := At(ALLOC_READ)), [])
      else Completed(v.(refcon := RETURN), [])
    case 3 =>
      if ok then Completed(v.(readBase := o.buffer, readBuffer := AlignedBuffer(o.buffer), refcon := At(READ)),
                           NewBlock(slot, o.buffer))
      else Completed(v.(refcon := RETURN), [])
    case 4 =>
      var stored := if ok && o.data != []
        then [Store(slot, o.data)] + (if v.hook then [Hook(slot, v.hookRefcon)] else []) else [];
      var w := v.(lastStatus := o.status, lastCount := |o.data|);
      if ok then Completed(w.(refcon := At(READ)), stored)
      else if o.status == USB_STALLED then Completed(w.(refcon := At(READ)), stored + [ClearStall(slot, v.bulkInPipe)])
      else Completed(w.(refcon := RETURN), stored)
    case _ => Completed(v.(refcon := RETURN), [])
  }

  /** Where a stimulus leaves the machine: the view, the number of the next call, what was seen. */
  datatype Driven = Driven(view: View, calls: nat, events: seq<Event>)

  /** At most `budget` calls, one after the other, until one stays pending or the machine stops. */
  function Drive(v: View, slot: nat, script: seq<Response>, n: nat, budget: nat): Driven
    decreases budget, 1
  {
    if v.removing || budget == 0 || v.refcon.stage > READ then Driven(v.(refcon := RETURN), n, [])
    else
      match Answer(script, n)
      case Later => Driven(v.(refcon := Refcon(v.refcon.stage, false, true)), n + 1, [SubmitOf(v, slot)])
      case Fails(_) => Driven(v.(refcon := RETURN), n + 1, [SubmitOf(v, slot)])
      case Quiet(_, _, _) => Prefixed(SubmitOf(v, slot), Finish(v, slot, QuietOutcome(Answer(script, n)), script, n + 1, budget - 1))
      case Inside(o, _) => Prefixed(SubmitOf(v, slot), Finish(v, slot, o, script, n + 1, budget - 1))
  }

  /** A completion: the stage transition, then the next call unless the machine stops. */
  function Finish(v: View, slot: nat, o: Outcome, script: seq<Response>, n: nat, budget: nat): Driven
    decreases budget, 2
  {
    var c := Complete(v, slot, o);
    if c.view.refcon.returned || c.view.removing then Driven(c.view, n, c.events)
    else
      var d := Drive(c.view, slot, script, n, budget);
      Driven(d.view, d.calls, c.events + d.events)
  }

  function Prefixed(e: Event, d: Driven): Driven { Driven(d.view, d.calls, [e] + d.events) }

  // ---- what every stimulus does ----------------------------------------------------------------

  function Submits(es: seq<Event>): nat {
    if es == [] then 0 else (if es[0].Submit? then 1 else 0) + Submits(es[1..])
  }

  lemma {:induction false} SubmitsConcat(a: seq<Event>, b: seq<Event>)
    ensures Submits(a + b) == Submits(a) + Submits(b)
  {
    if a == [] {
      assert a + b == b;
    } else {
      assert (a + b)[1..] == a[1..] + b;
      SubmitsConcat(a[1..], b);
    }
  }

  lemma CompleteSubmitsNothing(v: View, slot: nat, o: Outcome)
    ensures Submits(Complete(v, slot, o).events) == 0
    ensures var c := Complete(v, slot, o).view; c.removing == v.removing && !c.refcon.pending
    ensures var c := Complete(v, slot, o).view; c.refcon == RETURN || c.refcon == At(c.refcon.stage)
    ensures var c := Complete(v, slot, o).view; c.refcon.stage <= READ
  {
    SubmitsConcat([Store(slot, o.data)], if v.hook then [Hook(slot, v.hookRefcon)] else []);
    SubmitsConcat([], [ClearStall(slot, v.bulkInPipe)]);
  }

  /** A machine at rest: one call pending, or stopped. */
  predicate AtRest(r: Refcon) {
    r == RETURN || (r.pending && !r.returned && r.stage <= READ)
  }

  /** One stimulus issues at most `budget` calls, counts each of them, and ends pending or stopped. */
  lemma {:induction false} DriveBounded(v: View, slot: nat, script: seq<Response>, n: nat, budget: nat)
    ensures var d := Drive(v, slot, script, n, budget);
      && n <= d.calls <= n + budget && Submits(d.events) == d.calls - n
      && AtRest(d.view.refcon) && d.view.removing == v.removing
    decreases budget, 1
  {
    if !(v.removing || budget == 0 || v.refcon.stage > READ) {
      var e := SubmitOf(v, slot);
      match Answer(script, n)
      case Later =>
      case Fails(_) =>
      case Quiet(_, _, _) =>
        FinishBounded(v, slot, QuietOutcome(Answer(script, n)), script, n + 1, budget - 1);
        SubmitsConcat([e], Finish(v, slot, QuietOutcome(Answer(script, n)), script, n + 1, budget - 1).events);
      case Inside(o, _) =>
        FinishBounded(v, slot, o, script, n + 1, budget - 1);
        SubmitsConcat([e], Finish(v, slot, o, script, n + 1, budget - 1).events);
    }
  }

  lemma {:induction false} FinishBounded(v: View, slot: nat, o: Outcome, script: seq<Response>, n: nat, budget: nat)
    ensures var d := Finish(v, slot, o, script, n, budget);
      && n <= d.calls <= n + budget && Submits(d.events) == d.calls - n
      && d.view.removing == v.removing
      && (if v.removing then d.view.refcon == RETURN || d.view.refcon == At(d.view.refcon.stage)
          else AtRest(d.view.refcon))
      && (v.removing ==> d.calls == n)
    decreases budget, 2
  {
    var c := Complete(v, slot, o);
    CompleteSubmitsNothing(v, slot, o);
    if !(c.view.refcon.returned || c.view.removing) {
      DriveBounded(c.view, slot, script, n, budget);
      SubmitsConcat(c.events, Drive(c.view, slot, script, n, budget).events);
    }
  }

  /** The bound is exact: a library that completes every read inside the call makes all `budget` calls. */
  lemma {:induction false} BoundIsReached(v: View, slot: nat, script: seq<Response>, n: nat, budget: nat)
    requires !v.removing && v.refcon == At(READ)
    requires forall k :: n <= k < n + budget ==>
      Answer(script, k).Inside? && Answer(script, k).outcome.status == NO_ERR
    ensures var d := Drive(v, slot, script, n, budget); d.calls == n + budget && d.view.refcon == RETURN
    decreases budget
  {
    if budget > 0 {
      var c := Complete(v, slot, Answer(script, n).outcome);
      BoundIsReached(c.view, slot, script, n + 1, budget - 1);
    }
  }

  /** Two scripts that differ only in the codes returned after a callback inside the call. */
  predicate SameButCodes(a: seq<Response>, b: seq<Response>) {
    |a| == |b| && forall i :: 0 <= i < |a| ==>
      a[i] == b[i] || (a[i].Inside? && b[i].Inside? && a[i].outcome == b[i].outcome)
  }

  /** Whatever the library returns after calling back inside the call changes nothing. */
  lemma {:induction false} CodesIgnored(v: View, slot: nat, a: seq<Response>, b: seq<Response>, n: nat, budget: nat)
    requires SameButCodes(a, b)
    ensures Drive(v, slot, a, n, budget) == Drive(v, slot, b, n, budget)
    decreases budget
  {
    if !(v.removing || budget == 0 || v.refcon.stage > READ) && n < |a| && (a[n].Inside? || a[n].Quiet?) {
      var o := if a[n].Quiet? then QuietOutcome(a[n]) else a[n].outcome;
      CodesIgnored(Complete(v, slot, o).view, slot, a, b, n + 1, budget - 1);
    }
  }

  /** The aligned read buffer lies inside the block that was asked for, with room for a whole packet. */
  lemma ReadStaysInBlock(base: nat, maxPacketSize: nat)
    requires base + READ_ALIGNMENT - 1 < 0x1_0000_0000
    ensures var b := AlignedBuffer(base);
      && b % 64 == 0 && base <= b
      && b + maxPacketSize <= base + (maxPacketSize + (READ_ALIGNMENT - 1))
  {
    var x := base + 63;
    assert x % 0x1_0000_0000 == x by { DivUnique(x, 0x1_0000_0000, 0, x); }
  }
}
