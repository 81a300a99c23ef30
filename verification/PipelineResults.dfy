/** The guarantees of the ingestion protocol, for every run with crashes, lost commits, retries and
    failed sends anywhere, and any interleaving of the consumers. */
module PipelineResults {
  import opened Prelude
  import opened Documents
  import opened Versions
  import opened Guard
  import opened Pipeline
  import opened PipelineSafety

  /** The group has read every message of every partition. */
  predicate Drained(t: Topology, s: State, g: Group)
    requires Shaped(t, s)
  {
    forall k :: 0 <= k < t.parts ==> Lanes(s, g)[k].position == LogLength(s, g, k)
  }

  /** A dead letter carrying this paper version exists in the set. */
  ghost predicate LetterFor(letters: set<Failed>, id: string, version: nat) {
    exists f :: f in letters && PaperOf(f.payload).id == id && PaperOf(f.payload).version == version
  }

  /** Committing an offset is only ever done behind an outcome for every message below it. */
  lemma CommittedMeansAccounted(t: Topology, events: seq<Event>, s: State, g: Group, k: nat, o: nat)
    requires ValidTopology(t) && Reaches(t, events, s)
    requires Shaped(t, s) && k < t.parts && o < Lanes(s, g)[k].committed
    ensures o < LogLength(s, g, k) && Outcome(s, g, k, o)
  {
    RunKeepsInv(t, events, s);
    assert LaneOk(s, g, k);
    assert Done(s, g, k, o);
  }

  lemma DrainedPaperAccounted(t: Topology, s: State, k: nat, o: nat)
    requires ValidTopology(t) && Inv(t, s)
    requires Drained(t, s, Fast) || (Drained(t, s, Fetcher) && Drained(t, s, Slow))
    requires k < t.parts && o < |s.newLog[k]|
    ensures var p := s.newLog[k][o];
            p.id in s.rows || LetterFor(s.letters + s.dropped, p.id, p.version)
  {
    var p := s.newLog[k][o];
    if Drained(t, s, Fast) {
      assert Done(s, Fast, k, o);
      assert Outcome(s, Fast, k, o);
      if DeadLettered(s, Fast, NewPaper(p)) {
        assert Failed(WorkerStage, NewPaper(p)) in s.letters + s.dropped;
      }
    } else {
      assert Done(s, Fetcher, k, o);
      assert Outcome(s, Fetcher, k, o);
      if DeadLettered(s, Fetcher, NewPaper(p)) {
        assert Failed(FetcherStage, NewPaper(p)) in s.letters + s.dropped;
      } else {
        var i :| 0 <= i < |s.chunkedLog[k]| && s.chunkedLog[k][i].paper == p;
        assert Done(s, Slow, k, i);
        assert Outcome(s, Slow, k, i);
        var d := s.chunkedLog[k][i];
        if DeadLettered(s, Slow, ChunkedDoc(d)) {
          assert Failed(WorkerStage, ChunkedDoc(d)) in s.letters + s.dropped;
        }
      }
    }
  }

  /** No paper is lost: once either path is drained, every (id, version) in the seen set has a row for its
      paper or a dead-letter record of that very version.  The only way to have neither is a dead letter
      whose own send failed, and then that send was for this version. */
  lemma NoPaperLost(t: Topology, events: seq<Event>, s: State, id: string, version: nat)
    requires ValidTopology(t) && Reaches(t, events, s)
    requires Shaped(t, s) && (Drained(t, s, Fast) || (Drained(t, s, Fetcher) && Drained(t, s, Slow)))
    requires SeenMember(id, version) in s.seen
    ensures id in s.rows || LetterFor(s.letters, id, version) || LetterFor(s.dropped, id, version)
    ensures s.dropped == {} ==> id in s.rows || LetterFor(s.letters, id, version)
  {
    RunKeepsInv(t, events, s);
    var k, o :| 0 <= k < t.parts && 0 <= o < |s.newLog[k]| &&
                SeenMember(s.newLog[k][o].id, s.newLog[k][o].version) == SeenMember(id, version);
    SeenMemberInjective(s.newLog[k][o].id, s.newLog[k][o].version, id, version);
    DrainedPaperAccounted(t, s, k, o);
    if LetterFor(s.letters + s.dropped, id, version) {
      var f :| f in s.letters + s.dropped && PaperOf(f.payload).id == id && PaperOf(f.payload).version == version;
      assert f in s.letters || f in s.dropped;
    }
  }

  /** The paper's last chunked message is at m, is full text, and no version on papers.new is newer. */
  predicate LastWord(s: State, k: nat, m: nat)
    requires k < |s.newLog| == |s.chunkedLog| && m < |s.chunkedLog[k]|
  {
    var d := s.chunkedLog[k][m];
    && FullDoc(d)
    && (forall j :: m < j < |s.chunkedLog[k]| ==> s.chunkedLog[k][j].paper.id != d.paper.id)
    && (forall o :: 0 <= o < |s.newLog[k]| && s.newLog[k][o].id == d.paper.id ==>
          s.newLog[k][o].version <= d.paper.version)
  }

  /** Confluence of the two consumers: however the fast path interleaves, crashes or replays, once the
      full-text group is past the paper's last word, the stored row is that document (or that very
      message was dead-lettered). */
  lemma FullTextPrevails(t: Topology, events: seq<Event>, s: State, k: nat, m: nat)
    requires ValidTopology(t) && Reaches(t, events, s)
    requires Shaped(t, s) && k < t.parts && m < |s.chunkedLog[k]| && LastWord(s, k, m)
    requires m < s.slow[k].position
    ensures var d := s.chunkedLog[k][m];
            Stored(s, d.paper.id) == Some(d) || DeadLettered(s, Slow, ChunkedDoc(d))
  {
    hide Inv, Anchored, FullDoc;
    RunKeepsInv(t, events, s);
    LastWordIsAnchored(t, s, k, m);
    var i: nat :| Anchor(s, k, m, i);
    assert i == m;
    NothingOvertakes(s, k, m);
  }

  lemma LastWordIsAnchored(t: Topology, s: State, k: nat, m: nat)
    requires Shaped(t, s) && Inv(t, s) && k < t.parts && m < |s.chunkedLog[k]| && m < s.slow[k].position
    requires FullDoc(s.chunkedLog[k][m])
    ensures HasAnchor(s, k, m)
  {
    hide HasAnchor;
    assert FullTextAnchored(t, s);
    assert Done(s, Slow, k, m);
  }

  lemma NothingOvertakes(s: State, k: nat, m: nat)
    requires k < |s.newLog| == |s.chunkedLog| && m < |s.chunkedLog[k]| && LastWord(s, k, m)
    requires Anchored(s, k, s.chunkedLog[k][m])
    ensures var d := s.chunkedLog[k][m];
            Stored(s, d.paper.id) == Some(d) || DeadLettered(s, Slow, ChunkedDoc(d))
  {
  }

  /** In every reachable state each row is one message's document, whole. */
  lemma RowsAreWholeMessages(t: Topology, events: seq<Event>, s: State, id: string)
    requires ValidTopology(t) && Reaches(t, events, s) && Shaped(t, s) && id in s.rows
    ensures s.rows[id].paper.id == id && s.rows[id].paper in s.newLog[t.part(id)]
    ensures s.rows[id] in s.chunkedLog[t.part(id)] || s.rows[id] == FromAbstract(s.rows[id].paper)
  {
    RunKeepsInv(t, events, s);
  }

  // ---- the unlocked pre-check changes nothing: two-phase handling equals atomic handling ----

  /** The same protocol with the pre-check and the upsert fused into one step. */
  predicate AtomicEnabled(t: Topology, s: State, e: Event)
    requires Shaped(t, s)
  {
    match e
    case Check(_, _) => false
    case Retry(_, _) => false
    case Write(g, k, _) => !g.Fetcher? && Consuming(s, g, k) && Lanes(s, g)[k].phase.Ready?
    case _ => Enabled(t, s, e)
  }

  function AtomicNext(t: Topology, s: State, e: Event): (s': State)
    requires Shaped(t, s) && AtomicEnabled(t, s, e)
    ensures Shaped(t, s')
  {
    match e
    case Write(g, k, acked) =>
      SetPhase(StoreDoc(s, DocOf(Current(s, g, k))), g, k, if acked then Settled else Ready)
    case _ => Next(t, s, e)
  }

  ghost predicate AtomicSteps(t: Topology, s: State, events: seq<Event>, s': State)
    requires Shaped(t, s)
    decreases |events|
  {
    if events == [] then s' == s
    else AtomicEnabled(t, s, events[0]) && AtomicSteps(t, AtomicNext(t, s, events[0]), events[1..], s')
  }

  function ForgetChecks(lanes: seq<Lane>): (r: seq<Lane>)
    ensures |r| == |lanes|
  {
    seq(|lanes|, i requires 0 <= i < |lanes| =>
      if lanes[i].phase.Checked? then lanes[i].(phase := Ready) else lanes[i])
  }

  /** Forget which messages passed the pre-check. */
  function Abs(s: State): State {
    s.(fast := ForgetChecks(s.fast), slow := ForgetChecks(s.slow), fetcher := ForgetChecks(s.fetcher))
  }

  /** The atomic events that a two-phase event amounts to: none, or one. */
  function ToAtomic(t: Topology, s: State, e: Event): seq<Event>
    requires Shaped(t, s) && Enabled(t, s, e)
  {
    match e
    case Check(g, k) =>
      var d := DocOf(Current(s, g, k));
      if Blocks(Stored(s, d.paper.id), d) then [Write(g, k, true)] else []
    case Retry(_, _) => []
    case _ => [e]
  }

  /** The two-phase events that an atomic event amounts to. */
  function ToTwoPhase(t: Topology, s: State, e: Event): seq<Event>
    requires Shaped(t, s) && AtomicEnabled(t, s, e)
  {
    match e
    case Write(g, k, acked) =>
      var d := DocOf(Current(s, g, k));
      if !Blocks(Stored(s, d.paper.id), d) then [Check(g, k), e]
      else if acked then [Check(g, k)] else []
    case _ => [e]
  }

  lemma OneAtomicStep(t: Topology, s: State, e: Event)
    requires Shaped(t, s) && AtomicEnabled(t, s, e)
    ensures AtomicSteps(t, s, [e], AtomicNext(t, s, e))
  {
    hide AtomicNext;
    assert [e][1..] == [];
    assert AtomicSteps(t, AtomicNext(t, s, e), [], AtomicNext(t, s, e));
  }

  /** Forgetting checks commutes with moving a lane. */
  lemma AbsWithLane(s: State, g: Group, k: nat, lane: Lane)
    requires k < |Lanes(s, g)|
    ensures Abs(WithLane(s, g, k, lane)) ==
            WithLane(Abs(s), g, k, if lane.phase.Checked? then lane.(phase := Ready) else lane)
    ensures Lanes(Abs(s), g)[k] ==
            if Lanes(s, g)[k].phase.Checked? then Lanes(s, g)[k].(phase := Ready) else Lanes(s, g)[k]
  {
    var lanes := Lanes(s, g)[k := lane];
    var abstracted := if lane.phase.Checked? then lane.(phase := Ready) else lane;
    assert ForgetChecks(lanes) == ForgetChecks(Lanes(s, g))[k := abstracted];
    assert Lanes(Abs(s), g) == ForgetChecks(Lanes(s, g));
  }

  lemma AbsConsuming(t: Topology, s: State, g: Group, k: nat)
    requires Shaped(t, s) && Consuming(s, g, k)
    ensures Shaped(t, Abs(s)) && Consuming(Abs(s), g, k) && Current(Abs(s), g, k) == Current(s, g, k)
  {
    AbsWithLane(s, g, k, Lanes(s, g)[k]);
  }

  lemma PollerStepIsAtomic(t: Topology, s: State, e: Event)
    requires Shaped(t, s) && Enabled(t, s, e) && (e.PollSend? || e.PollMark? || e.PollCrash?)
    ensures Shaped(t, Abs(s)) && AtomicEnabled(t, Abs(s), e) && AtomicNext(t, Abs(s), e) == Abs(Next(t, s, e))
  {
  }

  lemma ProduceIsAtomic(t: Topology, s: State, e: Event)
    requires Shaped(t, s) && Enabled(t, s, e) && e.Produce?
    ensures Shaped(t, Abs(s)) && AtomicEnabled(t, Abs(s), e) && AtomicNext(t, Abs(s), e) == Abs(Next(t, s, e))
  {
    AbsConsuming(t, s, Fetcher, e.k);
    var d := Doc(Current(s, Fetcher, e.k).paper, e.source, e.chunks);
    var s1 := s.(chunkedLog := s.chunkedLog[e.k := s.chunkedLog[e.k] + [d]]);
    AbsWithLane(s1, Fetcher, e.k, s.fetcher[e.k].(phase := Settled));
  }

  lemma WriteIsAtomic(t: Topology, s: State, e: Event)
    requires Shaped(t, s) && Enabled(t, s, e) && e.Write?
    ensures Shaped(t, Abs(s)) && AtomicEnabled(t, Abs(s), e) && AtomicNext(t, Abs(s), e) == Abs(Next(t, s, e))
  {
    AbsConsuming(t, s, e.g, e.k);
    AbsWithLane(s, e.g, e.k, Lanes(s, e.g)[e.k]);
    var s1 := StoreDoc(s, DocOf(Current(s, e.g, e.k)));
    AbsWithLane(s1, e.g, e.k, Lanes(s, e.g)[e.k].(phase := if e.acked then Settled else Ready));
  }

  lemma DeadLetterIsAtomic(t: Topology, s: State, e: Event)
    requires Shaped(t, s) && Enabled(t, s, e) && e.DeadLetter?
    ensures Shaped(t, Abs(s)) && AtomicEnabled(t, Abs(s), e) && AtomicNext(t, Abs(s), e) == Abs(Next(t, s, e))
  {
    AbsConsuming(t, s, e.g, e.k);
    AbsWithLane(s, e.g, e.k, Lanes(s, e.g)[e.k]);
    var f := Failed(StageOf(e.g), Current(s, e.g, e.k));
    var s1 := if e.delivered then s.(letters := s.letters + {f}) else s.(dropped := s.dropped + {f});
    AbsWithLane(s1, e.g, e.k, Lanes(s, e.g)[e.k].(phase := Settled));
  }

  lemma MoveIsAtomic(t: Topology, s: State, e: Event)
    requires Shaped(t, s) && Enabled(t, s, e) && (e.Commit? || e.Crash?)
    ensures Shaped(t, Abs(s)) && AtomicEnabled(t, Abs(s), e) && AtomicNext(t, Abs(s), e) == Abs(Next(t, s, e))
  {
    var lane := Lanes(s, e.g)[e.k];
    if e.Commit? {
      AbsConsuming(t, s, e.g, e.k);
      AbsWithLane(s, e.g, e.k,
        Lane(lane.position + 1, if e.acked then lane.position + 1 else lane.committed, Ready));
    } else {
      AbsWithLane(s, e.g, e.k, Lane(lane.committed, lane.committed, Ready));
    }
  }

  /** Apart from checks and retries a step is atomic as it is. */
  lemma PlainStepIsAtomic(t: Topology, s: State, e: Event)
    requires Shaped(t, s) && Enabled(t, s, e) && !e.Check? && !e.Retry?
    ensures Shaped(t, Abs(s)) && AtomicEnabled(t, Abs(s), e) && AtomicNext(t, Abs(s), e) == Abs(Next(t, s, e))
  {
    hide *;
    match e
    case PollSend(_) => PollerStepIsAtomic(t, s, e);
    case PollMark => PollerStepIsAtomic(t, s, e);
    case PollCrash => PollerStepIsAtomic(t, s, e);
    case Produce(_, _, _, _) => ProduceIsAtomic(t, s, e);
    case Write(_, _, _) => WriteIsAtomic(t, s, e);
    case DeadLetter(_, _, _) => DeadLetterIsAtomic(t, s, e);
    case Commit(_, _, _) => MoveIsAtomic(t, s, e);
    case Crash(_, _) => MoveIsAtomic(t, s, e);
  }

  lemma CheckIsAtomic(t: Topology, s: State, g: Group, k: nat)
    requires Shaped(t, s) && Enabled(t, s, Check(g, k))
    ensures Shaped(t, Abs(s))
    ensures AtomicSteps(t, Abs(s), ToAtomic(t, s, Check(g, k)), Abs(Next(t, s, Check(g, k))))
  {
    var d := DocOf(Current(s, g, k));
    var phase := if Blocks(Stored(s, d.paper.id), d) then Settled else Checked;
    AbsWithLane(s, g, k, Lanes(s, g)[k].(phase := phase));
    if phase.Settled? {
      OneAtomicStep(t, Abs(s), Write(g, k, true));
    } else {
      assert Abs(Next(t, s, Check(g, k))) == Abs(s) by {
        assert Lanes(Abs(s), g)[k := Lanes(Abs(s), g)[k]] == Lanes(Abs(s), g);
      }
    }
  }

  lemma RetryIsAtomic(t: Topology, s: State, g: Group, k: nat)
    requires Shaped(t, s) && Enabled(t, s, Retry(g, k))
    ensures Abs(Next(t, s, Retry(g, k))) == Abs(s)
  {
    AbsWithLane(s, g, k, Lanes(s, g)[k].(phase := Ready));
    assert Lanes(Abs(s), g)[k := Lanes(Abs(s), g)[k]] == Lanes(Abs(s), g);
  }

  lemma StepIsAtomic(t: Topology, s: State, e: Event)
    requires Shaped(t, s) && Enabled(t, s, e)
    ensures Shaped(t, Abs(s)) && AtomicSteps(t, Abs(s), ToAtomic(t, s, e), Abs(Next(t, s, e)))
  {
    hide Next, AtomicNext;
    if e.Check? {
      CheckIsAtomic(t, s, e.g, e.k);
    } else if e.Retry? {
      RetryIsAtomic(t, s, e.g, e.k);
    } else {
      PlainStepIsAtomic(t, s, e);
      OneAtomicStep(t, Abs(s), e);
    }
  }

  lemma {:induction false} AtomicStepsConcat(t: Topology, s: State, a: seq<Event>, s1: State, b: seq<Event>, s2: State)
    requires Shaped(t, s) && AtomicSteps(t, s, a, s1) && Shaped(t, s1) && AtomicSteps(t, s1, b, s2)
    ensures AtomicSteps(t, s, a + b, s2)
    decreases |a|
  {
    hide AtomicNext;
    if a == [] {
      assert a + b == b;
    } else {
      assert (a + b)[1..] == a[1..] + b;
      AtomicStepsConcat(t, AtomicNext(t, s, a[0]), a[1..], s1, b, s2);
    }
  }

  function AllToAtomic(t: Topology, s: State, events: seq<Event>, s': State): seq<Event>
    requires Shaped(t, s) && Steps(t, s, events, s')
    decreases |events|
  {
    if events == [] then []
    else ToAtomic(t, s, events[0]) + AllToAtomic(t, Next(t, s, events[0]), events[1..], s')
  }

  /** Every two-phase run equals an atomic one: same logs, rows, dead letters, positions and commits. */
  lemma {:induction false} TwoPhaseRunsAreAtomic(t: Topology, s: State, events: seq<Event>, s': State)
    requires Shaped(t, s) && Steps(t, s, events, s')
    ensures Shaped(t, Abs(s)) && AtomicSteps(t, Abs(s), AllToAtomic(t, s, events, s'), Abs(s'))
    decreases |events|
  {
    hide Next, AtomicNext;
    if events != [] {
      var s1 := Next(t, s, events[0]);
      StepIsAtomic(t, s, events[0]);
      TwoPhaseRunsAreAtomic(t, s1, events[1..], s');
      AtomicStepsConcat(t, Abs(s), ToAtomic(t, s, events[0]), Abs(s1), AllToAtomic(t, s1, events[1..], s'), Abs(s'));
    }
  }

  lemma AtomicStepIsTwoPhase(t: Topology, s: State, e: Event)
    requires Shaped(t, s) && AtomicEnabled(t, s, e)
    ensures Steps(t, s, ToTwoPhase(t, s, e), AtomicNext(t, s, e))
  {
    if e.Write? {
      AtomicWriteIsTwoPhase(t, s, e);
    } else {
      hide AtomicNext, Next;
      NoSteps(t, Next(t, s, e));
      OneStep(t, s, e, [], Next(t, s, e));
    }
  }

  lemma AtomicWriteIsTwoPhase(t: Topology, s: State, e: Event)
    requires Shaped(t, s) && AtomicEnabled(t, s, e) && e.Write?
    ensures Steps(t, s, ToTwoPhase(t, s, e), AtomicNext(t, s, e))
  {
    var s' := AtomicNext(t, s, e);
    var d := DocOf(Current(s, e.g, e.k));
    NoSteps(t, s');
    if Blocks(Stored(s, d.paper.id), d) {
      RefusedWriteIsCheck(t, s, e);
      if e.acked {
        OneStep(t, s, Check(e.g, e.k), [], s');
      }
    } else {
      CheckThenWrite(t, s, e);
      hide Next, AtomicNext, Enabled, AtomicEnabled;
      var check := Check(e.g, e.k);
      OneStep(t, Next(t, s, check), e, [], s');
      OneStep(t, s, check, [e], s');
      assert ToTwoPhase(t, s, e) == [check] + [e];
    }
  }

  lemma RefusedWriteIsCheck(t: Topology, s: State, e: Event)
    requires Shaped(t, s) && AtomicEnabled(t, s, e) && e.Write?
    requires var d := DocOf(Current(s, e.g, e.k)); Blocks(Stored(s, d.paper.id), d)
    ensures Enabled(t, s, Check(e.g, e.k))
    ensures AtomicNext(t, s, e) == if e.acked then Next(t, s, Check(e.g, e.k)) else s
  {
    assert Lanes(s, e.g)[e.k := Lanes(s, e.g)[e.k]] == Lanes(s, e.g);
  }

  lemma CheckThenWrite(t: Topology, s: State, e: Event)
    requires Shaped(t, s) && AtomicEnabled(t, s, e) && e.Write?
    requires var d := DocOf(Current(s, e.g, e.k)); !Blocks(Stored(s, d.paper.id), d)
    ensures var check := Check(e.g, e.k);
            && Enabled(t, s, check) && Enabled(t, Next(t, s, check), e)
            && Next(t, Next(t, s, check), e) == AtomicNext(t, s, e)
  {
    hide Blocks;
    var s2 := Next(t, Next(t, s, Check(e.g, e.k)), e);
    assert Lanes(s2, e.g) == Lanes(AtomicNext(t, s, e), e.g);
  }
}
