/** What the task-time entry points do to the registry, said instance by instance. */
module UsbTasks {
  import opened Words
  import opened UsbMachine
  import opened UsbRegistry

  // ---- initialize ---------------------------------------------------------------------------

  /** An interface is claimed exactly if it has both descriptors, is of class 1 and subclass 3, has an endpoint, and fewer
      than eight are claimed already; otherwise nothing happens. */
  lemma ClaimedIff(s: Sys, script: seq<Response>, f: Interface)
    requires |s.slots| == 8
    ensures var t, claimed := Initialize(s, script, f), f.present && f.cls == 1 && f.subclass == 3 && f.endpoints > 0 && s.count < 8;
      t.count == s.count + (if claimed then 1 else 0) && (!claimed ==> t == s)
  {
  }

  // ---- the removal notification -----------------------------------------------------------------

  /** The instance as the notification leaves it: being removed, its hook forgotten, all else as it was. */
  predicate Marks(v: View, w: View) {
    && w.removing && !w.hook && w.hookRefcon == 0 && w.refcon == v.refcon
    && w == v.(removing := true, hook := false, hookRefcon := 0)
  }

  /** The aborts of the first `n` instances: one for each that has a call pending and a pipe, on that pipe. */
  function Aborts(slots: seq<View>, n: nat): seq<Event>
    requires n <= |slots|
  {
    if n == 0 then []
    else
      var v := slots[n - 1];
      Aborts(slots, n - 1) + (if v.refcon.pending && v.bulkInPipe != 0 then [AbortPipe(n - 1, v.bulkInPipe)] else [])
  }

  predicate SomePending(slots: seq<View>, n: nat)
    requires n <= |slots|
  {
    exists j | 0 <= j < n :: slots[j].refcon.pending
  }

  /** What a notification that nothing interrupts, and whose aborts are accepted, has done after `n` instances. */
  predicate Notifies(s: Sys, r: Notified, n: nat)
    requires n <= |s.slots|
  {
    && r.s == s.(slots := r.s.slots, trace := s.trace + Aborts(s.slots, n)) && |r.s.slots| == |s.slots|
    && (r.busy <==> SomePending(s.slots, n))
    && (forall j | 0 <= j < n :: Marks(s.slots[j], r.s.slots[j]))
    && (forall j | n <= j < |s.slots| :: r.s.slots[j] == s.slots[j])
  }

  /** Every visited instance is marked, every pending transfer aborted on its pipe, and the answer is busy exactly if a
      call was pending. */
  lemma {:induction false} NotifyIs(s: Sys, script: seq<Response>, n: nat)
    requires n <= |s.slots|
    ensures Notifies(s, Notify(s, script, [], n), n)
    decreases n
  {
    if n == 0 {
      assert s.trace + [] == s.trace;
    } else {
      NotifyIs(s, script, n - 1);
      QuietNext(s, Notify(s, script, [], n - 1), script, n - 1);
    }
  }

  lemma QuietNext(s: Sys, r: Notified, script: seq<Response>, i: nat)
    requires i < |s.slots| && Notifies(s, r, i)
    ensures Notifies(s, NotifyNext(r, script, i, StepAt([], i)), i + 1)
  {
    var t, v := Mark(r.s, i), s.slots[i];
    QuietOne(r.s, script, i);
    assert Marks(v, t.slots[i]);
    assert SomePending(s.slots, i + 1) <==> SomePending(s.slots, i) || v.refcon.pending;
    Assoc(s.trace, Aborts(s.slots, i), [AbortPipe(i, v.bulkInPipe)]);
    assert s.trace + Aborts(s.slots, i) == s.trace + (Aborts(s.slots, i) + []);
  }

  lemma QuietOne(s: Sys, script: seq<Response>, i: nat)
    requires i < |s.slots|
    ensures var n, t, v := NotifyOne(s, script, i, StepAt([], i)), Mark(s, i), s.slots[i];
      && n.busy == v.refcon.pending
      && n.s == if v.refcon.pending && v.bulkInPipe != 0 then t.(trace := s.trace + [AbortPipe(i, v.bulkInPipe)]) else t
  {
  }

  /** When the notification looked at instance `j`, a call was pending. */
  predicate SeenPending(s: Sys, script: seq<Response>, plan: seq<NotifyStep>, j: nat)
    requires j < |s.slots|
  {
    Marked(Notify(s, script, plan, j).s, script, j, StepAt(plan, j)).slots[j].refcon.pending
  }

  lemma BusyNext(s: Sys, script: seq<Response>, plan: seq<NotifyStep>, n: nat)
    requires 0 < n <= |s.slots|
    ensures Notify(s, script, plan, n).busy == (Notify(s, script, plan, n - 1).busy || SeenPending(s, script, plan, n - 1))
  {
    var r := Notify(s, script, plan, n - 1);
    OneBusy(r.s, script, n - 1, StepAt(plan, n - 1));
  }

  lemma OneBusy(s: Sys, script: seq<Response>, i: nat, p: NotifyStep)
    requires i < |s.slots|
    ensures NotifyOne(s, script, i, p).busy == Marked(s, script, i, p).slots[i].refcon.pending
  {
  }

  /** What the notification saw at each of the first `n` instances. */
  function Looks(s: Sys, script: seq<Response>, plan: seq<NotifyStep>, n: nat): seq<bool>
    requires n <= |s.slots|
  {
    if n == 0 then [] else Looks(s, script, plan, n - 1) + [SeenPending(s, script, plan, n - 1)]
  }

  lemma LooksNext(s: Sys, script: seq<Response>, plan: seq<NotifyStep>, n: nat)
    requires 0 < n <= |s.slots|
    ensures true in Looks(s, script, plan, n) <==> true in Looks(s, script, plan, n - 1) || SeenPending(s, script, plan, n - 1)
  {
  }

  predicate BusyAsSeen(s: Sys, script: seq<Response>, plan: seq<NotifyStep>, n: nat)
    requires n <= |s.slots|
  {
    Notify(s, script, plan, n).busy <==> true in Looks(s, script, plan, n)
  }

  lemma BusyStep(s: Sys, script: seq<Response>, plan: seq<NotifyStep>, n: nat, a: bool, b: bool)
    requires 0 < n <= |s.slots| && a == Notify(s, script, plan, n - 1).busy && b == (true in Looks(s, script, plan, n - 1)) && a == b
    ensures BusyAsSeen(s, script, plan, n)
  {
    BusyNext(s, script, plan, n);
    LooksNext(s, script, plan, n);
  }

  /** Whatever interrupts it, the notification is busy exactly if some instance had a call pending when it was looked at. */
  lemma {:induction false} BusyIff(s: Sys, script: seq<Response>, plan: seq<NotifyStep>, n: nat)
    requires n <= |s.slots|
    ensures BusyAsSeen(s, script, plan, n)
    decreases n
  {
    if n > 0 {
      BusyIff(s, script, plan, n - 1);
      BusyStep(s, script, plan, n, Notify(s, script, plan, n - 1).busy, true in Looks(s, script, plan, n - 1));
    }
  }

  // ---- finalize ----------------------------------------------------------------------------------------

  /** The instance looked for is the first one of its interface, and it is missed only if there is none. */
  lemma {:induction false} FindIsFirst(s: Sys, ref: int, i: nat)
    requires i <= s.count <= |s.slots|
    ensures var k := Find(s, ref, i);
      (forall j | i <= j < k :: s.slots[j].interfaceRef != ref) && (k < s.count ==> s.slots[k].interfaceRef == ref)
    decreases s.count - i
  {
    if i < s.count && s.slots[i].interfaceRef != ref { FindIsFirst(s, ref, i + 1); }
  }

  predicate HasInterface(s: Sys, ref: int)
    requires s.count <= |s.slots|
  {
    exists j | 0 <= j < s.count :: s.slots[j].interfaceRef == ref
  }

  /** The blocks given back for an instance: its ring first, then its read buffer, each if it has one. */
  function GivenBack(i: nat, ring: nat, buffer: nat): seq<Event> {
    if ring != 0 && buffer != 0 then [Dealloc(i, ring), Dealloc(i, buffer)]
    else if ring != 0 then [Dealloc(i, ring)]
    else if buffer != 0 then [Dealloc(i, buffer)]
    else []
  }

  /** Finalize gives back the blocks of the first instance of the interface and fills its place with the last one; every
      other instance stays where and as it is. Without such an instance nothing happens. */
  lemma FinalizeIs(s: Sys, ref: int) returns (k: nat)
    requires s.count <= |s.slots|
    ensures !HasInterface(s, ref) ==> Finalize(s, ref) == s
    ensures HasInterface(s, ref) ==>
      (k < s.count && s.slots[k].interfaceRef == ref && (forall j | 0 <= j < k :: s.slots[j].interfaceRef != ref)
       && var t, last := Finalize(s, ref), s.count - 1;
          && t.count == last && t.calls == s.calls && t.held == s.held
          && t.trace == s.trace + GivenBack(k, s.slots[k].ringBuffer, s.slots[k].readBase)
          && forall j | 0 <= j < last :: t.slots[j] == if j == k then s.slots[last] else s.slots[j])
  {
    FindIsFirst(s, ref, 0);
    k := Find(s, ref, 0);
  }
}
