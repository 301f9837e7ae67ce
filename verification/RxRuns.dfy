/** What every run of a receive stream keeps: conservation of packets, FIFO order, and the tag grammar. */
module RxRuns {
  import opened Words
  import opened Packets
  import opened MidiStream

  datatype Op = FeedPacket(p: Packet) | TakeMessage

  /** A run: the stream, the messages it accepted, and the messages its client took. */
  datatype Trace = Trace(s: Rx, accepted: seq<Received>, taken: seq<Received>)

  function Step(t: Trace, op: Op): Trace {
    match op
    case FeedPacket(p) =>
      var s1 := Feed(t.s, p);
      Trace(s1, if |s1.queue| > |t.s.queue| then t.accepted + [s1.queue[|s1.queue| - 1]] else t.accepted, t.taken)
    case TakeMessage =>
      if t.s.queue == [] then t
      else Trace(Take(t.s), t.accepted, t.taken + [t.s.queue[0]])
  }

  function Run(cable: nat, ops: seq<Op>): Trace {
    if ops == [] then Trace(Fresh(cable), [], [])
    else Step(Run(cable, ops[..|ops| - 1]), ops[|ops| - 1])
  }

  // ---- conservation ---------------------------------------------------------------

  predicate Conserved(t: Trace) {
    var st := t.s.stats;
    && t.taken + t.s.queue == t.accepted
    && |t.taken| == st.messages
    && |t.s.queue| <= RX_QUEUE
    && st.packets == st.messages + |t.s.queue| + st.droppedMisc + st.droppedCable + st.droppedFull + st.droppedMisroute
  }

  lemma StepConserves(t: Trace, op: Op)
    requires Conserved(t)
    ensures Conserved(Step(t, op))
  {
    if op.FeedPacket? {
      var q := Feed(t.s, op.p).queue;
      if |q| > |t.s.queue| {
        assert t.taken + q == (t.taken + t.s.queue) + [q[|q| - 1]];
      }
    } else if t.s.queue != [] {
      assert t.s.queue == [t.s.queue[0]] + t.s.queue[1..];
    }
  }

  /** Every packet fed is accounted for exactly once, and messages leave in the order they arrived. */
  lemma {:induction false} Conservation(cable: nat, ops: seq<Op>)
    ensures Conserved(Run(cable, ops))
  {
    if ops != [] {
      Conservation(cable, ops[..|ops| - 1]);
      StepConserves(Run(cable, ops[..|ops| - 1]), ops[|ops| - 1]);
    }
  }

  // ---- the grammar of tags -----------------------------------------------------------

  /** (NoCont | End | Start (Mid | NoCont)* End)* */
  predicate Sentence(t: seq<Tag>)
    decreases |t|
  {
    t == [] || ((t[0] == NoCont || t[0] == End) && Sentence(t[1..])) || (t[0] == Start && Body(t[1..]))
  }

  /** (Mid | NoCont)* End Sentence */
  predicate Body(t: seq<Tag>)
    decreases |t|
  {
    t != [] && (((t[0] == Mid || t[0] == NoCont) && Body(t[1..])) || (t[0] == End && Sentence(t[1..])))
  }

  function Tags(ms: seq<Received>): seq<Tag> {
    seq(|ms|, i requires 0 <= i < |ms| => ms[i].tag)
  }

  /** Outside a run the tags are a sentence; inside one, a Mid may follow and an End then closes it. */
  predicate Grammatical(inSysex: bool, t: seq<Tag>) {
    Sentence(if inSysex then t + [Mid, End] else t)
  }

  lemma {:induction false} Append(t: seq<Tag>, u: seq<Tag>, v: seq<Tag>)
    requires Sentence(u) ==> Sentence(v)
    requires Body(u) ==> Body(v)
    ensures Sentence(t + u) ==> Sentence(t + v)
    ensures Body(t + u) ==> Body(t + v)
    decreases |t|
  {
    if t == [] {
      assert t + u == u && t + v == v;
    } else {
      assert (t + u)[1..] == t[1..] + u && (t + v)[1..] == t[1..] + v;
      Append(t[1..], u, v);
    }
  }

  /** How one accepted message extends the grammar state. */
  lemma Extend(inSysex: bool, t: seq<Tag>, tag: Tag, next: bool)
    requires Grammatical(inSysex, t)
    requires if inSysex then (tag == Mid && next) || (tag == NoCont && next) || (tag == End && !next)
             else (tag == Start && next) || (tag == NoCont && !next) || (tag == End && !next)
    ensures Grammatical(next, t + [tag])
  {
    assert Sentence([]) && !Body([]) && Body([End]);
    assert [End][1..] == [] && [Mid, End][1..] == [End] && Body([Mid, End]) && !Sentence([Mid, End]);
    var v := if next then [tag, Mid, End] else [tag];
    assert [tag, Mid, End][1..] == [Mid, End] && [tag][1..] == [];
    assert t + [] == t && (t + [tag]) + [Mid, End] == t + [tag, Mid, End];
    Append(t, if inSysex then [Mid, End] else [], v);
  }

  /** A full queue turns away a packet that begins or ends a run. */
  predicate Loses(s: Rx, op: Op) {
    && op.FeedPacket? && op.p.b0 / 16 == s.cable && |s.queue| >= RX_QUEUE
    && NextInSysex(s.inSysex, op.p.b0 % 16) != s.inSysex
  }

  /** No overflow of the run lost the begin or the end of a SysEx run; other messages may have been lost. */
  predicate NoneLost(cable: nat, ops: seq<Op>)
    decreases |ops|
  {
    ops == [] || (NoneLost(cable, ops[..|ops| - 1]) && !Loses(Run(cable, ops[..|ops| - 1]).s, ops[|ops| - 1]))
  }

  predicate TagsKept(t: Trace) { Grammatical(t.s.inSysex, Tags(t.accepted)) }

  lemma StepKeepsTags(t: Trace, op: Op)
    requires TagsKept(t) && !Loses(t.s, op)
    ensures TagsKept(Step(t, op))
  {
    if op.FeedPacket? {
      var p, s1 := op.p, Feed(t.s, op.p);
      if |s1.queue| > |t.s.queue| {
        var m := MessageOf(t.s.inSysex, p);
        Extend(t.s.inSysex, Tags(t.accepted), m.tag, s1.inSysex);
        assert Tags(t.accepted + [m]) == Tags(t.accepted) + [m.tag];
      }
    }
  }

  /** On arbitrary packets, overflows included, the tags follow the grammar as long as none has lost the begin
      or the end of a run. */
  lemma {:induction false} TagGrammar(cable: nat, ops: seq<Op>)
    requires NoneLost(cable, ops)
    ensures TagsKept(Run(cable, ops))
    decreases |ops|
  {
    if ops != [] {
      TagGrammar(cable, ops[..|ops| - 1]);
      StepKeepsTags(Run(cable, ops[..|ops| - 1]), ops[|ops| - 1]);
    } else {
      assert Tags([]) == [];
    }
  }

  // ---- the condition is exact ---------------------------------------------------------------------

  /** The tags can be continued to a sentence. */
  ghost predicate Continuable(t: seq<Tag>) { exists u :: Sentence(t + u) }

  lemma GrammaticalContinues(inSysex: bool, t: seq<Tag>)
    requires Grammatical(inSysex, t)
    ensures Continuable(t)
  {
    assert t + [] == t;
    assert Sentence(t + if inSysex then [Mid, End] else []);
  }

  /** If `x` may follow, `y` may not. */
  lemma {:induction false} Clash(t: seq<Tag>, x: seq<Tag>, y: seq<Tag>)
    requires Sentence(x) ==> !Sentence(y)
    requires Body(x) ==> !Body(y)
    ensures Sentence(t + x) ==> !Sentence(t + y)
    ensures Body(t + x) ==> !Body(t + y)
    decreases |t|
  {
    if t == [] {
      assert t + x == x && t + y == y;
    } else {
      assert (t + x)[1..] == t[1..] + x && (t + y)[1..] == t[1..] + y;
      Clash(t[1..], x, y);
    }
  }

  /** A Mid outside a run and a Start inside one cannot be mended by anything that follows. */
  lemma WrongTag(inSysex: bool, t: seq<Tag>)
    requires Grammatical(inSysex, t)
    ensures !Continuable(t + [if inSysex then Start else Mid])
  {
    var tag := if inSysex then Start else Mid;
    forall u ensures !Sentence((t + [tag]) + u) {
      assert (t + [tag]) + u == t + ([tag] + u) && t + [] == t;
      assert ([tag] + u)[0] == tag && [Mid, End][0] == Mid;
      Clash(t, if inSysex then [Mid, End] else [], [tag] + u);
    }
  }

  /** A start packet on the stream's cable. */
  predicate Starts(q: Packet, cable: nat) { q.b0 / 16 == cable && q.b0 % 16 == CIN_SYSEX_START }

  /** Make room and receive a start packet. */
  function Probe(q: Packet): seq<Op> { [TakeMessage, FeedPacket(q)] }

  lemma RunAppend(cable: nat, ops: seq<Op>, op: Op)
    ensures Run(cable, ops + [op]) == Step(Run(cable, ops), op)
    ensures NoneLost(cable, ops + [op]) <==> NoneLost(cable, ops) && !Loses(Run(cable, ops).s, op)
  {
    var more := ops + [op];
    assert more[..|more| - 1] == ops;
  }

  lemma RunProbe(cable: nat, ops: seq<Op>, q: Packet)
    ensures Run(cable, ops + Probe(q)) == Step(Step(Run(cable, ops), TakeMessage), FeedPacket(q))
    ensures NoneLost(cable, ops) && |Run(cable, ops).s.queue| <= RX_QUEUE ==> NoneLost(cable, ops + Probe(q))
  {
    RunAppend(cable, ops, TakeMessage);
    RunAppend(cable, ops + [TakeMessage], FeedPacket(q));
    assert ops + Probe(q) == (ops + [TakeMessage]) + [FeedPacket(q)];
  }

  lemma {:induction false} RunCable(cable: nat, ops: seq<Op>)
    ensures Run(cable, ops).s.cable == Fresh(cable).cable
    decreases |ops|
  {
    if ops != [] { RunCable(cable, ops[..|ops| - 1]); }
  }

  /** Once the begin or the end of a run is lost, the next start packet that gets through is tagged wrongly. */
  lemma LossShows(t: Trace, op: Op, q: Packet)
    requires TagsKept(t) && |t.s.queue| == RX_QUEUE && Loses(t.s, op) && Starts(q, t.s.cable)
    ensures !Continuable(Tags(Step(Step(Step(t, op), TakeMessage), FeedPacket(q)).accepted))
  {
    var s1 := Feed(t.s, op.p);
    assert s1.queue == t.s.queue && s1.inSysex != t.s.inSysex;
    var m := MessageOf(s1.inSysex, q);
    assert Feed(Take(s1), q).queue == Take(s1).queue + [m];
    assert Tags(t.accepted + [m]) == Tags(t.accepted) + [m.tag];
    WrongTag(t.s.inSysex, Tags(t.accepted));
  }

  /** The first loss of a run. */
  lemma {:induction false} FirstLoss(cable: nat, ops: seq<Op>) returns (k: nat)
    requires !NoneLost(cable, ops)
    ensures k < |ops| && NoneLost(cable, ops[..k]) && Loses(Run(cable, ops[..k]).s, ops[k])
    decreases |ops|
  {
    var front := ops[..|ops| - 1];
    if NoneLost(cable, front) {
      k := |ops| - 1;
    } else {
      k := FirstLoss(cable, front);
      assert front[..k] == ops[..k];
    }
  }

  lemma {:induction false} NoneLostBefore(cable: nat, ops: seq<Op>, k: nat)
    requires NoneLost(cable, ops) && k <= |ops|
    ensures NoneLost(cable, ops[..k])
    decreases |ops|
  {
    if k == |ops| {
      assert ops[..k] == ops;
    } else {
      NoneLostBefore(cable, ops[..|ops| - 1], k);
      assert ops[..|ops| - 1][..k] == ops[..k];
    }
  }

  lemma ProbeContinues(cable: nat, ops: seq<Op>, q: Packet)
    requires NoneLost(cable, ops)
    ensures Continuable(Tags(Run(cable, ops + Probe(q)).accepted))
  {
    Conservation(cable, ops);
    RunProbe(cable, ops, q);
    TagGrammar(cable, ops + Probe(q));
    GrammaticalContinues(Run(cable, ops + Probe(q)).s.inSysex, Tags(Run(cable, ops + Probe(q)).accepted));
  }

  lemma ProbeFails(cable: nat, ops: seq<Op>, op: Op, q: Packet)
    requires NoneLost(cable, ops) && Loses(Run(cable, ops).s, op) && Starts(q, Fresh(cable).cable)
    ensures !Continuable(Tags(Run(cable, (ops + [op]) + Probe(q)).accepted))
  {
    Conservation(cable, ops);
    RunCable(cable, ops);
    TagGrammar(cable, ops);
    RunAppend(cable, ops, op);
    RunProbe(cable, ops + [op], q);
    LossShows(Run(cable, ops), op, q);
  }

  lemma LossMeansFailure(cable: nat, ops: seq<Op>, q: Packet) returns (k: nat)
    requires !NoneLost(cable, ops) && Starts(q, Fresh(cable).cable)
    ensures k <= |ops| && !Continuable(Tags(Run(cable, ops[..k] + Probe(q)).accepted))
  {
    k := FirstLoss(cable, ops);
    ProbeFails(cable, ops[..k], ops[k], q);
    assert ops[..k] + [ops[k]] == ops[..k + 1];
    k := k + 1;
  }

  lemma NoLossContinues(cable: nat, ops: seq<Op>, q: Packet, k: nat)
    requires NoneLost(cable, ops) && k <= |ops|
    ensures Continuable(Tags(Run(cable, ops[..k] + Probe(q)).accepted))
  {
    NoneLostBefore(cable, ops, k);
    ProbeContinues(cable, ops[..k], q);
  }

  /** Exactly when overflows do no harm to the grammar: no overflow has lost the begin or the end of a run if and
      only if, had a start packet come through at any point, the tags could still be continued to a sentence. */
  lemma TagGrammarIff(cable: nat, ops: seq<Op>, q: Packet)
    requires Starts(q, Fresh(cable).cable)
    ensures NoneLost(cable, ops) <==>
      forall k | 0 <= k <= |ops| :: Continuable(Tags(Run(cable, ops[..k] + Probe(q)).accepted))
  {
    if NoneLost(cable, ops) {
      forall k | 0 <= k <= |ops| ensures Continuable(Tags(Run(cable, ops[..k] + Probe(q)).accepted)) {
        NoLossContinues(cable, ops, q, k);
      }
    } else {
      var k := LossMeansFailure(cable, ops, q);
    }
  }

  /** In particular a run without any overflow has lost nothing. */
  lemma {:induction false} NoOverflowNoLoss(cable: nat, ops: seq<Op>)
    ensures Run(cable, ops).s.stats.droppedFull == 0 ==> NoneLost(cable, ops)
    decreases |ops|
  {
    if ops != [] {
      NoOverflowNoLoss(cable, ops[..|ops| - 1]);
      OverflowCounted(Run(cable, ops[..|ops| - 1]), ops[|ops| - 1]);
    }
  }

  lemma OverflowCounted(t: Trace, op: Op)
    ensures Step(t, op).s.stats.droppedFull >= t.s.stats.droppedFull
    ensures Loses(t.s, op) ==> Step(t, op).s.stats.droppedFull == t.s.stats.droppedFull + 1
  {
  }
}
