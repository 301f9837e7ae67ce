/** The class driver's code: the mutually recursive transaction starter and completion, token and all. */
module UsbDriver {
  import opened Words
  import opened UsbMachine
  import opened UsbRegistry

  /** The parameter block handed to the library; `data` stands for usbActCount bytes at usbBuffer. */
  datatype Pb = Pb(refcon: Refcon, reference: int, buffer: nat, reqCount: nat, data: seq<byte>,
                   status: int, wValue: nat)

  /** One slot of the static registry. */
  datatype Instance = Instance(
    pb: Pb, interfaceRef: int, bulkInPipe: int, maxPacketSize: nat,
    readBase: nat, readBuffer: nat, ringBuffer: nat, lastStatus: int, lastCount: nat,
    callToken: word, callInFlight: word, transDepth: nat,
    removing: bool, hook: bool, hookRefcon: int)

  const Blank := Instance(Pb(At(0), 0, 0, 0, [], 0, 0), 0, 0, 0, 0, 0, 0, 0, 0, 0, 0, 0, false, false, 0)

  function ViewOf(a: Instance): View {
    View(a.pb.refcon, a.interfaceRef, a.bulkInPipe, a.maxPacketSize, a.ringBuffer, a.readBase, a.readBuffer,
         a.lastStatus, a.lastCount, a.removing, a.hook, a.hookRefcon)
  }

  function OutcomeOf(pb: Pb): Outcome { Outcome(pb.status, pb.data, pb.buffer, pb.reference, pb.wValue) }

  function WithRefcon(a: Instance, r: Refcon): Instance { a.(pb := a.pb.(refcon := r)) }

  function InitParamBlock(a: Instance, ref: int): Instance {
    a.(pb := a.pb.(reference := ref, buffer := 0, reqCount := 0, data := [], status := NO_ERR, wValue := 0))
  }

  function SubmitEvent(slot: nat, pb: Pb): Event {
    Submit(slot, pb.refcon.stage, pb.reference, pb.buffer, pb.reqCount)
  }

  /** How far the call counter of an instance has moved, modulo 2^32. */
  function Advance(t: word, n: nat): word requires n < 0x1_0000_0000 { Wrap(t + n) }

  /** The token in flight after `used` calls from token `t0`: none, or that of one of these calls. */
  predicate TokenAhead(t0: word, used: nat, f: word) {
    f == 0 || 1 <= Wrap(f - t0) <= used
  }

  /** `a1` is what `used` further calls can make of the tokens and the depth of `a0`. */
  predicate Tokens(a0: Instance, a1: Instance, used: nat) {
    && used <= MAX_SYNC_DEPTH
    && a1.transDepth == a0.transDepth
    && a1.callToken == Advance(a0.callToken, used)
    && (if used == 0 then a1.callInFlight == a0.callInFlight || a1.callInFlight == 0
        else TokenAhead(a0.callToken, used, a1.callInFlight))
    && (a1.pb.refcon.pending ==> used >= 1 && a1.callInFlight == a1.callToken)
  }

  /** The token counter cannot reach 2^32 during this stimulus. */
  predicate NoWrap(a: Instance) { a.transDepth <= MAX_SYNC_DEPTH && a.callToken + (MAX_SYNC_DEPTH - a.transDepth) < 0x1_0000_0000 }

  /** The parameter block is set up for the call of its stage. */
  predicate Prepared(a: Instance, slot: nat) {
    var v := ViewOf(a);
    && a.pb.refcon == Refcon(a.pb.refcon.stage, false, true) && a.pb.refcon.stage <= READ
    && 1 <= a.transDepth <= MAX_SYNC_DEPTH && !a.removing && a.callInFlight == a.callToken
    && SubmitEvent(slot, a.pb) == SubmitOf(v, slot)
  }

  /** Depth, token, and the parameter block of the call the stage asks for. */
  function Prepare(a: Instance): (b: Instance)
    requires a.pb.refcon == At(a.pb.refcon.stage) && a.pb.refcon.stage <= READ
    requires a.transDepth < MAX_SYNC_DEPTH && !a.removing
    ensures b.transDepth == a.transDepth + 1 && b.callToken == Wrap(a.callToken + 1)
    ensures ViewOf(b).(refcon := At(a.pb.refcon.stage)) == ViewOf(a)
    ensures b.pb.refcon == a.pb.refcon.(pending := true)
    ensures forall slot: nat :: Prepared(b, slot)
  {
    var token := Wrap(a.callToken + 1);
    var a := a.(transDepth := a.transDepth + 1, callToken := token, callInFlight := token);
    var b := match a.pb.refcon.stage
      case 0 =>
        var p := InitParamBlock(a, a.interfaceRef);
        p.(pb := p.pb.(reqCount := RING_SIZE))
      case 3 =>
        var p := InitParamBlock(a, a.interfaceRef);
        p.(pb := p.pb.(reqCount := a.maxPacketSize + (READ_ALIGNMENT - 1)))
      case 4 =>
        var p := InitParamBlock(a, a.bulkInPipe);
        p.(pb := p.pb.(buffer := a.readBuffer, reqCount := a.maxPacketSize))
      case _ => InitParamBlock(a, a.interfaceRef);
    WithRefcon(b, b.pb.refcon.(pending := true))
  }

  /** What the starter leaves of an instance whose stage byte names no call: it stops. */
  function Halted(a: Instance): Instance {
    var token := Wrap(a.callToken + 1);
    WithRefcon(if a.removing || a.transDepth >= MAX_SYNC_DEPTH then a else a.(callToken := token, callInFlight := token), RETURN)
  }

  /** The token of a call is not one that a later call of the same stimulus left behind, unless it is 0. */
  lemma TokenDiffers(t: word, used: nat, f: word)
    requires used <= MAX_SYNC_DEPTH
    ensures TokenAhead(t, used, f) && f == t ==> t == 0
    ensures used >= 1 ==> Advance(t, used) != t
    ensures TokenAhead(t, used, f) && used < MAX_SYNC_DEPTH && t >= 1 ==> TokenAhead(t - 1, used + 1, f)
    ensures t == 0 && TokenAhead(t, used, f) && used < MAX_SYNC_DEPTH ==> TokenAhead(0xFFFF_FFFF, used + 1, f)
  {
  }

  /** The pending bit plays no part in a completion. */
  lemma PendingIrrelevant(v: View, slot: nat, o: Outcome, script: seq<Response>, n: nat, budget: nat)
    ensures Finish(v.(refcon := At(v.refcon.stage)), slot, o, script, n, budget) == Finish(v, slot, o, script, n, budget)
  {
  }

  /** One call of the machine, and what follows it. */
  lemma DriveUnfolds(v: View, slot: nat, script: seq<Response>, n: nat, budget: nat)
    requires !v.removing && v.refcon == Refcon(v.refcon.stage, false, true) && v.refcon.stage <= READ
    ensures var d, e := Drive(v.(refcon := At(v.refcon.stage)), slot, script, n, budget + 1), SubmitOf(v, slot);
      match Answer(script, n)
      case Later => d == Driven(v, n + 1, [e])
      case Fails(_) => d == Driven(v.(refcon := RETURN), n + 1, [e])
      case Quiet(_, _, _) => d == Prefixed(e, Finish(v, slot, QuietOutcome(Answer(script, n)), script, n + 1, budget))
      case Inside(o, _) => d == Prefixed(e, Finish(v, slot, o, script, n + 1, budget))
  {
    match Answer(script, n)
    case Later =>
    case Fails(_) =>
    case Quiet(_, _, _) => PendingIrrelevant(v, slot, QuietOutcome(Answer(script, n)), script, n + 1, budget);
    case Inside(o, _) => PendingIrrelevant(v, slot, o, script, n + 1, budget);
  }

  // ---- contracts over snapshots of the driver's state ---------------------------------------

  /** The registry, the number of the next call, the slots the library holds, what has been seen so far. */
  datatype Snap = Snap(insts: seq<Instance>, calls: nat, held: multiset<nat>, trace: seq<Event>, stopped: nat)

  /** From `s` to `t` a stimulus of slot `i` did what the machine does; no other slot changed. */
  predicate Did(s: Snap, t: Snap, i: nat, d: Driven) {
    && i < |s.insts| == |t.insts| && t.insts == s.insts[i := t.insts[i]]
    && ViewOf(t.insts[i]) == d.view && t.calls == d.calls && t.trace == s.trace + d.events
    && t.held == s.held + Held(i, d.view.refcon)
  }

  /** A completion of slot `i` with outcome `o`, and all the calls it leads to. */
  predicate Completion(s: Snap, t: Snap, i: nat, o: Outcome, script: seq<Response>) {
    && i < |s.insts| && s.insts[i].transDepth <= MAX_SYNC_DEPTH
    && var a := s.insts[i];
    && Did(s, t, i, Finish(ViewOf(a), i, o, script, s.calls, MAX_SYNC_DEPTH - a.transDepth))
    && s.calls <= t.calls && Tokens(a.(callInFlight := 0), t.insts[i], t.calls - s.calls)
    && (NoWrap(a) ==> t.stopped == s.stopped)
  }

  /** The results a library leaves in the parameter block when it succeeds without calling back. */
  function Reported(a: Instance, r: Response): Instance
    requires r.Quiet?
  {
    a.(pb := a.pb.(buffer := r.buffer, reference := r.reference, wValue := r.wValue))
  }

  /** One library call on slot `i`: its answer, and what happened inside it. */
  predicate Called(s: Snap, t: Snap, i: nat, script: seq<Response>, err: int) {
    && i < |s.insts| && s.insts[i].transDepth <= MAX_SYNC_DEPTH
    && var sent := s.(calls := s.calls + 1, trace := s.trace + [SubmitEvent(i, s.insts[i].pb)]);
    match Answer(script, s.calls)
    case Later => err == USB_PENDING && t == sent.(held := s.held + multiset{i})
    case Fails(c) => err == c && t == sent
    case Quiet(_, _, _) => err == NO_ERR && t == sent.(insts := s.insts[i := Reported(s.insts[i], Answer(script, s.calls))])
    case Inside(o, c) => err == c && Completion(sent, t, i, o, script)
  }

  /** What the code makes of the value the call with token `token` returned. */
  predicate Reacted(s: Snap, t: Snap, i: nat, script: seq<Response>, token: word, err: int) {
    && i < |s.insts|
    && var a := s.insts[i];
    if err == USB_PENDING || a.callInFlight != token then t == s
    else if err == NO_ERR && !a.pb.refcon.returned then
      Completion(s, t, i, Outcome(NO_ERR, [], a.pb.buffer, a.pb.reference, a.pb.wValue), script)
    else if err == NO_ERR then t == s.(stopped := s.stopped + 1)
    else t == s.(insts := s.insts[i := WithRefcon(a, RETURN)])
  }

  /** A prepared call of slot `i`, from its submission to the machine's next rest. */
  predicate Issued(s: Snap, t: Snap, i: nat, script: seq<Response>) {
    && i < |s.insts| && s.insts[i].transDepth <= MAX_SYNC_DEPTH
    && var a := s.insts[i];
    && Did(s, t, i, Drive(ViewOf(a).(refcon := At(a.pb.refcon.stage)), i, script, s.calls,
                          MAX_SYNC_DEPTH - a.transDepth + 1))
    && s.calls < t.calls && t.calls - s.calls - 1 <= MAX_SYNC_DEPTH
    && var b, used := t.insts[i], t.calls - s.calls - 1;
    && b.transDepth == a.transDepth && b.callToken == Advance(a.callToken, used)
    && (b.callInFlight == a.callToken || TokenAhead(a.callToken, used, b.callInFlight))
    && (b.pb.refcon.pending ==> b.callInFlight == b.callToken)
    && (NoWrap(a) && a.callToken >= 1 ==> t.stopped == s.stopped)
  }

  /** USBMIDI9InitiateTransaction on slot `i`. */
  predicate Initiated(s: Snap, t: Snap, i: nat, script: seq<Response>) {
    && i < |s.insts| && s.insts[i].transDepth <= MAX_SYNC_DEPTH
    && var a := s.insts[i];
    && Did(s, t, i, Drive(ViewOf(a), i, script, s.calls, MAX_SYNC_DEPTH - a.transDepth))
    && s.calls <= t.calls && Tokens(a, t.insts[i], t.calls - s.calls)
    && (NoWrap(a) ==> t.stopped == s.stopped)
  }

  /** Between the preparation of the call and the restored depth lies exactly one initiation. */
  lemma IssueInitiates(s: Snap, m: Snap, t: Snap, i: nat, script: seq<Response>)
    requires i < |s.insts|
    requires var a := s.insts[i];
      && a.pb.refcon == At(a.pb.refcon.stage) && a.pb.refcon.stage <= READ
      && a.transDepth < MAX_SYNC_DEPTH && !a.removing
      && Issued(s.(insts := s.insts[i := Prepare(a)]), m, i, script)
      && m.insts[i].transDepth >= 1
      && t == m.(insts := m.insts[i := m.insts[i].(transDepth := m.insts[i].transDepth - 1)])
    ensures Initiated(s, t, i, script)
  {
    var a := s.insts[i];
    DriveBounded(ViewOf(a), i, script, s.calls, MAX_SYNC_DEPTH - a.transDepth);
    IssuedTokens(a, t.insts[i], t.calls - s.calls);
  }

  /** One call more for the tokens. */
  lemma IssuedTokens(a: Instance, b: Instance, used: nat)
    requires 1 <= used <= MAX_SYNC_DEPTH && b.transDepth == a.transDepth
    requires var first := Wrap(a.callToken + 1);
      && b.callToken == Advance(first, used - 1) && (b.callInFlight == first || TokenAhead(first, used - 1, b.callInFlight))
    requires b.pb.refcon.pending ==> b.callInFlight == b.callToken
    ensures Tokens(a, b, used)
  {
    TokenDiffers(Wrap(a.callToken + 1), used - 1, b.callInFlight);
  }

  /** The library writes the results of a call into the parameter block. */
  function Filled(a: Instance, o: Outcome): Instance {
    a.(pb := a.pb.(status := o.status, data := o.data, buffer := o.buffer, reference := o.reference, wValue := o.wValue))
  }

  lemma FilledCompletes(s: Snap, t: Snap, i: nat, o: Outcome, script: seq<Response>)
    requires i < |s.insts|
    requires Completion(s.(insts := s.insts[i := Filled(s.insts[i], o)]), t, i, o, script)
    ensures Completion(s, t, i, o, script)
  {
    assert ViewOf(Filled(s.insts[i], o)) == ViewOf(s.insts[i]);
  }

  /** What the code does to the block before it drives the success transition of a quiet call itself. */
  function ClearPending(b: Instance): Instance {
    b.(pb := b.pb.(refcon := b.pb.refcon.(pending := false), status := NO_ERR, data := []))
  }

  lemma QuietCompletes(s: Snap, t: Snap, i: nat, script: seq<Response>)
    requires i < |s.insts| && !s.insts[i].pb.refcon.returned
    requires var b := ClearPending(s.insts[i]);
      Completion(s.(insts := s.insts[i := b]), t, i, OutcomeOf(b.pb), script)
    ensures var a := s.insts[i];
      Completion(s, t, i, Outcome(NO_ERR, [], a.pb.buffer, a.pb.reference, a.pb.wValue), script)
  {
    var a, b := s.insts[i], ClearPending(s.insts[i]);
    PendingIrrelevant(ViewOf(a), i, OutcomeOf(b.pb), script, s.calls, MAX_SYNC_DEPTH - a.transDepth);
    PendingIrrelevant(ViewOf(b), i, OutcomeOf(b.pb), script, s.calls, MAX_SYNC_DEPTH - a.transDepth);
  }

  /** The token logic is right: a call and the reaction to its return value make one step of the machine. */
  lemma CallAndReaction(s: Snap, m: Snap, t: Snap, i: nat, script: seq<Response>, err: int)
    requires i < |s.insts| && Prepared(s.insts[i], i)
    requires Called(s, m, i, script, err) && Reacted(m, t, i, script, s.insts[i].callToken, err)
    ensures Issued(s, t, i, script)
  {
    var a, v, e := s.insts[i], ViewOf(s.insts[i]), SubmitOf(ViewOf(s.insts[i]), i);
    var budget := MAX_SYNC_DEPTH - a.transDepth;
    DriveUnfolds(v, i, script, s.calls, budget);
    match Answer(script, s.calls)
    case Later =>
    case Fails(_) =>
    case Quiet(_, _, _) => QuietReaction(s, m, t, i, script, err);
    case Inside(o, _) => InsideReaction(s, m, t, i, script, err, o);
  }

  lemma QuietReaction(s: Snap, m: Snap, t: Snap, i: nat, script: seq<Response>, err: int)
    requires i < |s.insts| && Prepared(s.insts[i], i) && Answer(script, s.calls).Quiet?
    requires Called(s, m, i, script, err) && Reacted(m, t, i, script, s.insts[i].callToken, err)
    ensures Issued(s, t, i, script)
  {
    var a, v, e := s.insts[i], ViewOf(s.insts[i]), SubmitOf(ViewOf(s.insts[i]), i);
    var budget := MAX_SYNC_DEPTH - a.transDepth;
    DriveUnfolds(v, i, script, s.calls, budget);
    Assoc(s.trace, [e], Finish(v, i, QuietOutcome(Answer(script, s.calls)), script, s.calls + 1, budget).events);
  }

  lemma InsideReaction(s: Snap, m: Snap, t: Snap, i: nat, script: seq<Response>, err: int, o: Outcome)
    requires i < |s.insts| && Prepared(s.insts[i], i)
    requires Answer(script, s.calls).Inside? && o == Answer(script, s.calls).outcome
    requires Called(s, m, i, script, err) && Reacted(m, t, i, script, s.insts[i].callToken, err)
    ensures Issued(s, t, i, script)
  {
    InsideDid(s, m, i, script, err, o);
    InsideTokens(s, m, i, script, err, o);
    NothingMore(m, t, i, script, s.insts[i].callToken, err);
  }

  /** The call and the completion inside it make one step of the machine. */
  lemma InsideDid(s: Snap, m: Snap, i: nat, script: seq<Response>, err: int, o: Outcome)
    requires i < |s.insts| && Prepared(s.insts[i], i) && Called(s, m, i, script, err)
    requires Answer(script, s.calls).Inside? && o == Answer(script, s.calls).outcome
    ensures var a := s.insts[i];
      Did(s, m, i, Drive(ViewOf(a).(refcon := At(a.pb.refcon.stage)), i, script, s.calls, MAX_SYNC_DEPTH - a.transDepth + 1))
  {
    var a, v, e := s.insts[i], ViewOf(s.insts[i]), SubmitOf(ViewOf(s.insts[i]), i);
    var budget := MAX_SYNC_DEPTH - a.transDepth;
    DriveUnfolds(v, i, script, s.calls, budget);
    Assoc(s.trace, [e], Finish(v, i, o, script, s.calls + 1, budget).events);
  }

  /** What it leaves of the tokens: if the token still in flight is that of the call, the machine has stopped. */
  lemma InsideTokens(s: Snap, m: Snap, i: nat, script: seq<Response>, err: int, o: Outcome)
    requires i < |s.insts| && Prepared(s.insts[i], i) && Called(s, m, i, script, err)
    requires Answer(script, s.calls).Inside? && o == Answer(script, s.calls).outcome
    ensures s.calls < m.calls && m.calls - s.calls - 1 <= MAX_SYNC_DEPTH && i < |m.insts|
    ensures var a, b, used := s.insts[i], m.insts[i], m.calls - s.calls - 1;
      && b.transDepth == a.transDepth && b.callToken == Advance(a.callToken, used)
      && (b.callInFlight == a.callToken || TokenAhead(a.callToken, used, b.callInFlight))
      && (b.pb.refcon.pending ==> b.callInFlight == b.callToken)
      && (b.callInFlight == a.callToken ==> a.callToken == 0 && b.pb.refcon == RETURN)
      && (NoWrap(a) ==> m.stopped == s.stopped)
  {
    var a, v := s.insts[i], ViewOf(s.insts[i]);
    FinishBounded(v, i, o, script, s.calls + 1, MAX_SYNC_DEPTH - a.transDepth);
    TokenDiffers(a.callToken, m.calls - s.calls - 1, m.insts[i].callInFlight);
  }

  /** After a completion inside the call the reaction changes no more than the counter of its last branch. */
  lemma NothingMore(m: Snap, t: Snap, i: nat, script: seq<Response>, token: word, err: int)
    requires Reacted(m, t, i, script, token, err) && i < |m.insts|
    requires m.insts[i].callInFlight == token ==> m.insts[i].pb.refcon == RETURN
    ensures t == m.(stopped := t.stopped) && (m.insts[i].callInFlight != token ==> t == m)
  {
    var a := m.insts[i];
    if a.callInFlight == token {
      assert WithRefcon(a, RETURN) == a;
      assert m.insts[i := a] == m.insts;
    }
  }

  /** What a completion makes of an instance before the next call. */
  predicate Transited(a: Instance, b: Instance, i: nat) {
    ViewOf(b) == Complete(ViewOf(a), i, OutcomeOf(a.pb)).view
    && b.callToken == a.callToken && b.callInFlight == 0 && b.transDepth == a.transDepth
  }

  lemma TransitionStage(a: Instance, b: Instance, i: nat)
    requires Transited(a, b, i)
    ensures !b.pb.refcon.pending && b.pb.refcon.stage <= READ && (b.pb.refcon == RETURN || b.pb.refcon == At(b.pb.refcon.stage))
  {
    CompleteSubmitsNothing(ViewOf(a), i, OutcomeOf(a.pb));
  }

  /** The transition and the call it leads to, if any, make one completion. */
  lemma TransitionThenStart(s: Snap, m: Snap, t: Snap, i: nat, script: seq<Response>)
    requires i < |s.insts| == |m.insts| && s.insts[i].transDepth <= MAX_SYNC_DEPTH
    requires Transited(s.insts[i], m.insts[i], i) && m.insts == s.insts[i := m.insts[i]]
    requires m == s.(insts := m.insts, trace := s.trace + Complete(ViewOf(s.insts[i]), i, OutcomeOf(s.insts[i].pb)).events)
    requires if m.insts[i].pb.refcon.returned || m.insts[i].removing then t == m else Initiated(m, t, i, script)
    ensures Completion(s, t, i, OutcomeOf(s.insts[i].pb), script)
  {
    var a, o := s.insts[i], OutcomeOf(s.insts[i].pb);
    TransitionStage(a, m.insts[i], i);
    var c := Complete(ViewOf(a), i, o);
    if !(c.view.refcon.returned || c.view.removing) {
      Assoc(s.trace, c.events, Drive(c.view, i, script, s.calls, MAX_SYNC_DEPTH - a.transDepth).events);
    }
  }

  /** Exactly when the branch for a machine already stopped is taken: the completion ran inside a call that then
      reported success, and the token still in flight is that of the call. */
  predicate StaleToken(s: Snap, m: Snap, i: nat, script: seq<Response>) {
    && i < |s.insts| && i < |m.insts| && Answer(script, s.calls).Inside? && Answer(script, s.calls).result == NO_ERR
    && m.insts[i].callInFlight == s.insts[i].callToken
  }

  lemma StoppedBranchIff(s: Snap, m: Snap, t: Snap, i: nat, script: seq<Response>, err: int)
    requires i < |s.insts| && Prepared(s.insts[i], i) && Answer(script, s.calls).Inside?
    requires Called(s, m, i, script, err) && Reacted(m, t, i, script, s.insts[i].callToken, err)
    ensures StaleToken(s, m, i, script) ==> t == m.(stopped := m.stopped + 1) && s.insts[i].callToken == 0
    ensures !StaleToken(s, m, i, script) ==> t.stopped == m.stopped
  {
    InsideTokens(s, m, i, script, err, Answer(script, s.calls).outcome);
    NothingMore(m, t, i, script, s.insts[i].callToken, err);
  }

  /** It is taken: the token counter has wrapped to 0, and the completion inside the call reports an error. */
  lemma StoppedBranchTaken(s: Snap, m: Snap, t: Snap, i: nat, script: seq<Response>, err: int)
    requires i < |s.insts| && Prepared(s.insts[i], i) && s.insts[i].callToken == 0 && s.insts[i].pb.refcon.stage < READ
    requires Answer(script, s.calls).Inside? && Answer(script, s.calls).result == NO_ERR
    requires Answer(script, s.calls).outcome.status != NO_ERR
    requires Called(s, m, i, script, err) && Reacted(m, t, i, script, s.insts[i].callToken, err)
    ensures t.stopped == m.stopped + 1
  {
    assert Complete(ViewOf(s.insts[i]), i, Answer(script, s.calls).outcome).view.refcon == RETURN;
    StoppedBranchIff(s, m, t, i, script, err);
  }

  // ---- the code -------------------------------------------------------------------------------

  class Driver {
    const instances: array<Instance>
    var count: nat
    const script: seq<Response>       // the library's answers, in order
    var calls: nat                    // library calls made so far
    var outstanding: multiset<nat>    // slots whose parameter block the library still holds
    var trace: seq<Event>
    ghost var stoppedBranch: nat      // how often the "machine already stopped" branch was taken

    /** The static registry as the loader leaves it: all slots zero, none in use. */
    constructor (script: seq<Response>)
      ensures fresh(instances) && this.script == script && count == 0 && calls == 0
      ensures outstanding == multiset{} && trace == [] && stoppedBranch == 0
      ensures instances.Length == MAX_INTERFACES && forall i :: 0 <= i < MAX_INTERFACES ==> instances[i] == Blank
    {
      instances := new Instance[MAX_INTERFACES](_ => Blank);
      this.script := script;
      count, calls, outstanding, trace, stoppedBranch := 0, 0, multiset{}, [], 0;
    }

    ghost function Now(): Snap
      reads this, instances
    {
      Snap(instances[..], calls, outstanding, trace, stoppedBranch)
    }

    /** One call of the library on slot `i`'s parameter block. */
    method Call(i: nat) returns (err: int)
      requires i < instances.Length && Prepared(instances[i], i)
      modifies `calls, `outstanding, `trace, `stoppedBranch, instances
      ensures Called(old(Now()), Now(), i, script, err)
      decreases MAX_SYNC_DEPTH - instances[i].transDepth, 2
    {
      var r := Answer(script, calls);
      trace := trace + [SubmitEvent(i, instances[i].pb)];
      calls := calls + 1;
      match r {
        case Later =>
          outstanding := outstanding + multiset{i};
          err := USB_PENDING;
        case Fails(c) =>
          err := c;
        case Quiet(_, _, _) =>
          instances[i] := Reported(instances[i], r);
          err := NO_ERR;
        case Inside(o, c) =>
          LibraryCompletes(i, o);
          err := c;
      }
    }

    /** The library completes a call: results first, then the completion routine. */
    method LibraryCompletes(i: nat, o: Outcome)
      requires i < instances.Length && instances[i].transDepth <= MAX_SYNC_DEPTH
      modifies `calls, `outstanding, `trace, `stoppedBranch, instances
      ensures Completion(old(Now()), Now(), i, o, script)
      decreases MAX_SYNC_DEPTH - instances[i].transDepth, 1, 1
    {
      instances[i] := Filled(instances[i], o);
      CompletionProc(i);
      FilledCompletes(old(Now()), Now(), i, o, script);
    }

    /** USBMIDI9InitiateTransaction: issues the call of the current stage. */
    method Initiate(i: nat)
      requires i < instances.Length
      requires var a := instances[i]; a.pb.refcon == At(a.pb.refcon.stage) && a.transDepth <= MAX_SYNC_DEPTH
      modifies `calls, `outstanding, `trace, `stoppedBranch, instances
      ensures old(instances[i]).pb.refcon.stage <= READ ==> Initiated(old(Now()), Now(), i, script)
      ensures old(instances[i]).pb.refcon.stage > READ ==>
        Now() == old(Now()).(insts := old(Now()).insts[i := Halted(old(instances[i]))])
      decreases MAX_SYNC_DEPTH - instances[i].transDepth, 0
    {
      var a := instances[i];
      if a.removing {
        instances[i] := WithRefcon(a, RETURN);
        return;
      }
      if a.transDepth + 1 > MAX_SYNC_DEPTH {
        instances[i] := WithRefcon(a, RETURN);
        return;
      }
      if a.pb.refcon.stage > READ {
        instances[i] := Halted(a);
        return;
      }
      instances[i] := Prepare(a);
      IssueCall(i);
      ghost var m := Now();
      instances[i] := instances[i].(transDepth := instances[i].transDepth - 1);
      IssueInitiates(old(Now()), m, Now(), i, script);
    }

    /** The call itself and what the code makes of its return value. */
    method IssueCall(i: nat)
      requires i < instances.Length && Prepared(instances[i], i)
      modifies `calls, `outstanding, `trace, `stoppedBranch, instances
      ensures Issued(old(Now()), Now(), i, script)
      decreases MAX_SYNC_DEPTH - instances[i].transDepth, 3
    {
      var issuedToken := instances[i].callToken;
      var err := Call(i);
      ghost var m := Now();
      React(i, issuedToken, err);
      CallAndReaction(old(Now()), m, Now(), i, script, err);
    }

    method React(i: nat, issuedToken: word, err: int)
      requires i < instances.Length && instances[i].transDepth <= MAX_SYNC_DEPTH
      modifies `calls, `outstanding, `trace, `stoppedBranch, instances
      ensures Reacted(old(Now()), Now(), i, script, issuedToken, err)
      decreases MAX_SYNC_DEPTH - instances[i].transDepth, 2
    {
      if err != USB_PENDING {
        if instances[i].callInFlight != issuedToken {
          // the completion ran inside the call and has already advanced or stopped the machine
        } else if err == NO_ERR && !instances[i].pb.refcon.returned {
          var b := instances[i];
          instances[i] := ClearPending(b);
          CompletionProc(i);
          QuietCompletes(old(Now()), Now(), i, script);
        } else if err == NO_ERR {
          stoppedBranch := stoppedBranch + 1;
        } else {
          instances[i] := WithRefcon(instances[i], RETURN);
        }
      }
    }

    /** USBMIDI9CompletionProc. */
    method CompletionProc(i: nat)
      requires i < instances.Length && instances[i].transDepth <= MAX_SYNC_DEPTH
      modifies `calls, `outstanding, `trace, `stoppedBranch, instances
      ensures Completion(old(Now()), Now(), i, OutcomeOf(old(instances[i].pb)), script)
      decreases MAX_SYNC_DEPTH - instances[i].transDepth, 1, 0
    {
      ghost var s := Now();
      Transition(i);
      ghost var m := Now();
      TransitionStage(s.insts[i], m.insts[i], i);
      var a := instances[i];
      if !a.pb.refcon.returned && !a.removing {
        Initiate(i);
      }
      TransitionThenStart(s, m, Now(), i, script);
    }

    /** The stage switch of the completion, and the clearing of the pending bit. */
    method Transition(i: nat)
      requires i < instances.Length
      modifies `trace, instances
      ensures instances[..] == old(instances[..])[i := instances[i]] && Transited(old(instances[i]), instances[i], i)
      ensures trace == old(trace) + Complete(ViewOf(old(instances[i])), i, OutcomeOf(old(instances[i].pb))).events
    {
      var a := instances[i].(callInFlight := 0);
      var pb := a.pb;
      match pb.refcon.stage {
        case 0 =>
          if pb.status == NO_ERR {
            trace := trace + NewBlock(i, pb.buffer);
            a := WithRefcon(a.(ringBuffer := pb.buffer), At(CONFIGURE));
          } else {
            a := WithRefcon(a, RETURN);
          }
        case 1 =>
          a := WithRefcon(a, if pb.status == NO_ERR then At(FIND_PIPE) else RETURN);
        case 2 =>
          if pb.status == NO_ERR {
            a := WithRefcon(a.(bulkInPipe := pb.reference, maxPacketSize := pb.wValue), At(ALLOC_READ));
          } else {
            a := WithRefcon(a, RETURN);
          }
        case 3 =>
          if pb.status == NO_ERR {
            trace := trace + NewBlock(i, pb.buffer);
            a := WithRefcon(a.(readBase := pb.buffer, readBuffer := AlignedBuffer(pb.buffer)), At(READ));
          } else {
            a := WithRefcon(a, RETURN);
          }
        case 4 =>
          a := a.(lastStatus := pb.status, lastCount := |pb.data|);
          if pb.status == NO_ERR && |pb.data| > 0 {
            trace := trace + [Store(i, pb.data)];
            if a.hook {
              trace := trace + [Hook(i, a.hookRefcon)];
            }
          }
          if pb.status == NO_ERR {
            a := WithRefcon(a, At(READ));
          } else if pb.status == USB_STALLED {
            trace := trace + [ClearStall(i, a.bulkInPipe)];
            a := WithRefcon(a, At(READ));
          } else {
            a := WithRefcon(a, RETURN);
          }
        case _ =>
          a := WithRefcon(a, RETURN);
      }
      instances[i] := WithRefcon(a, a.pb.refcon.(pending := false));
    }
  }
}
