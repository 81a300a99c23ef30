/** What every run of the ingestion protocol keeps, and what that means once the groups are drained. */
module PipelineSafety {
  import opened Prelude
  import opened Documents
  import opened Versions
  import opened Guard
  import opened Pipeline

  // ---- frames: logs, rows and dead letters only grow; a step moves at most one lane ----

  ghost predicate Grows(t: Topology, s: State, s': State)
    requires Shaped(t, s) && Shaped(t, s')
  {
    && (forall k :: 0 <= k < t.parts ==> s.newLog[k] <= s'.newLog[k])
    && (forall k :: 0 <= k < t.parts ==> s.chunkedLog[k] <= s'.chunkedLog[k])
    && s.letters <= s'.letters && s.dropped <= s'.dropped
    && s.rows.Keys <= s'.rows.Keys
  }

  predicate Touches(e: Event, g: Group, k: nat) {
    match e
    case PollSend(_) => false
    case PollMark => false
    case PollCrash => false
    case Produce(k', _, _, _) => g.Fetcher? && k == k'
    case Check(g', k') => g == g' && k == k'
    case Write(g', k', _) => g == g' && k == k'
    case Retry(g', k') => g == g' && k == k'
    case DeadLetter(g', k', _) => g == g' && k == k'
    case Commit(g', k', _) => g == g' && k == k'
    case Crash(g', k') => g == g' && k == k'
  }

  lemma StepGrows(t: Topology, s: State, e: Event)
    requires ValidTopology(t) && Shaped(t, s) && Enabled(t, s, e)
    ensures Grows(t, s, Next(t, s, e))
  {
  }

  lemma StepFrame(t: Topology, s: State, e: Event, g: Group, k: nat)
    requires Shaped(t, s) && Enabled(t, s, e) && k < t.parts && !Touches(e, g, k)
    ensures Lanes(Next(t, s, e), g)[k] == Lanes(s, g)[k]
  {
  }

  /** How a step may move a lane. */
  predicate LaneMoved(lane: Lane, lane': Lane, logLength: nat) {
    || lane' == lane
    || lane' == Lane(lane.committed, lane.committed, Ready)
    || (lane.position < logLength && lane'.phase.Ready? && lane.phase.Settled? &&
        lane'.position == lane.position + 1 &&
        (lane'.committed == lane.committed || lane'.committed == lane.position + 1))
    || (lane.position < logLength && lane' == lane.(phase := lane'.phase))
  }

  lemma StepLane(t: Topology, s: State, e: Event, g: Group, k: nat)
    requires Shaped(t, s) && Enabled(t, s, e) && k < t.parts
    ensures LaneMoved(Lanes(s, g)[k], Lanes(Next(t, s, e), g)[k], LogLength(s, g, k))
  {
    if !Touches(e, g, k) {
      StepFrame(t, s, e, g, k);
    }
  }

  lemma InitInv(t: Topology, s: State)
    requires ValidTopology(t) && Init(t, s)
    ensures Inv(t, s)
  {
    forall g, k | 0 <= k < t.parts
      ensures Lanes(s, g)[k] == Lane(0, 0, Ready)
    {
    }
  }

  lemma StepSeen(t: Topology, s: State, e: Event)
    requires ValidTopology(t) && Shaped(t, s) && Enabled(t, s, e)
    ensures var s' := Next(t, s, e);
            && s'.seen == (if e.PollMark? then s.seen + {SeenMember(s.poller.paper.id, s.poller.paper.version)}
                           else s.seen)
            && (s'.poller.Sent? ==>
                  || s'.poller == s.poller
                  || (e.PollSend? && s'.poller.paper == e.paper && e.paper in s'.newLog[t.part(e.paper.id)]))
  {
  }

  lemma KeepsSeenWasProduced(t: Topology, s: State, e: Event)
    requires ValidTopology(t) && Inv(t, s) && Enabled(t, s, e)
    ensures SeenWasProduced(t, Next(t, s, e))
  {
    var s' := Next(t, s, e);
    StepGrows(t, s, e);
    StepSeen(t, s, e);
    hide Next, SeenMember;
    forall m | m in s'.seen
      ensures exists k, o :: 0 <= k < t.parts && 0 <= o < |s'.newLog[k]| &&
                             SeenMember(s'.newLog[k][o].id, s'.newLog[k][o].version) == m
    {
      if m in s.seen {
        var k, o :| 0 <= k < t.parts && 0 <= o < |s.newLog[k]| &&
                    SeenMember(s.newLog[k][o].id, s.newLog[k][o].version) == m;
        assert s'.newLog[k][o] == s.newLog[k][o];
      } else {
        var p := s.poller.paper;
        var o :| 0 <= o < |s.newLog[t.part(p.id)]| && s.newLog[t.part(p.id)][o] == p;
        assert s'.newLog[t.part(p.id)][o] == p;
      }
    }
  }

  /** The only message a step can append. */
  lemma StepLogs(t: Topology, s: State, e: Event)
    requires Shaped(t, s) && Enabled(t, s, e)
    ensures Next(t, s, e).newLog ==
            if e.PollSend? then
              s.newLog[t.part(e.paper.id) := s.newLog[t.part(e.paper.id)] + [e.paper]]
            else s.newLog
    ensures Next(t, s, e).chunkedLog ==
            if e.Produce? then
              s.chunkedLog[e.k := s.chunkedLog[e.k] + [Doc(Current(s, Fetcher, e.k).paper, e.source, e.chunks)]]
            else s.chunkedLog
  {
  }

  lemma KeepsLogsWellFormed(t: Topology, s: State, e: Event)
    requires ValidTopology(t) && Inv(t, s) && Enabled(t, s, e)
    ensures LogsWellFormed(t, Next(t, s, e))
  {
    hide Next;
    StepLogs(t, s, e);
  }

  lemma LaneMoveOk(t: Topology, s: State, s': State, g: Group, k: nat)
    requires Shaped(t, s) && Shaped(t, s') && Grows(t, s, s') && k < t.parts && LaneOk(s, g, k)
    requires LaneMoved(Lanes(s, g)[k], Lanes(s', g)[k], LogLength(s, g, k))
    ensures LaneOk(s', g, k)
  {
    assert s.newLog[k] <= s'.newLog[k] && s.chunkedLog[k] <= s'.chunkedLog[k];
  }

  lemma DoneBefore(t: Topology, s: State, s': State, g: Group, k: nat, o: nat)
    requires Shaped(t, s) && Shaped(t, s') && k < t.parts && LaneOk(s, g, k)
    requires LaneMoved(Lanes(s, g)[k], Lanes(s', g)[k], LogLength(s, g, k)) && Done(s', g, k, o)
    ensures || (Done(s, g, k, o) && o < LogLength(s, g, k))
            || (o == Lanes(s, g)[k].position < LogLength(s, g, k) && Lanes(s', g)[k].phase.Settled? &&
                Lanes(s', g)[k] != Lanes(s, g)[k])
  {
  }

  lemma KeepsLanesOk(t: Topology, s: State, e: Event)
    requires ValidTopology(t) && Inv(t, s) && Enabled(t, s, e)
    ensures LanesOk(t, Next(t, s, e))
  {
    hide Next;
    StepGrows(t, s, e);
    forall g, k | 0 <= k < t.parts
      ensures LaneOk(Next(t, s, e), g, k)
    {
      assert LaneOk(s, g, k);
      StepLane(t, s, e, g, k);
      LaneMoveOk(t, s, Next(t, s, e), g, k);
    }
  }

  /** The only document a step can store is the one in the worker's hand. */
  lemma StepRows(t: Topology, s: State, e: Event)
    requires Shaped(t, s) && Enabled(t, s, e)
    ensures var s' := Next(t, s, e);
            if e.Write? then
              var d := DocOf(Current(s, e.g, e.k));
              s'.rows == (if Blocks(Stored(s, d.paper.id), d) then s.rows else s.rows[d.paper.id := d])
            else s'.rows == s.rows
  {
  }

  lemma CurrentIsMessage(t: Topology, s: State, g: Group, k: nat)
    requires ValidTopology(t) && Inv(t, s) && k < t.parts && Consuming(s, g, k)
    ensures var d := DocOf(Current(s, g, k));
            t.part(d.paper.id) == k && d.paper in s.newLog[k] &&
            (d in s.chunkedLog[k] || d == FromAbstract(d.paper))
  {
    var o := Lanes(s, g)[k].position;
    if g.Slow? {
      assert s.chunkedLog[k][o].paper in s.newLog[k];
    }
  }

  lemma KeepsRowsAreMessages(t: Topology, s: State, e: Event)
    requires ValidTopology(t) && Inv(t, s) && Enabled(t, s, e)
    ensures RowsAreMessages(t, Next(t, s, e))
  {
    var s' := Next(t, s, e);
    StepGrows(t, s, e);
    StepRows(t, s, e);
    if e.Write? {
      CurrentIsMessage(t, s, e.g, e.k);
    }
    forall id | id in s'.rows
      ensures s'.rows[id].paper.id == id && t.part(id) < t.parts
      ensures s'.rows[id].paper in s'.newLog[t.part(id)]
      ensures s'.rows[id] in s'.chunkedLog[t.part(id)] || s'.rows[id] == FromAbstract(s'.rows[id].paper)
    {
      var k := t.part(id);
      assert s.newLog[k] <= s'.newLog[k] && s.chunkedLog[k] <= s'.chunkedLog[k];
    }
  }

  lemma OutcomeStays(t: Topology, s: State, s': State, g: Group, k: nat, o: nat)
    requires Shaped(t, s) && Shaped(t, s') && Grows(t, s, s') && k < t.parts
    requires o < LogLength(s, g, k) && Outcome(s, g, k, o)
    ensures o < LogLength(s', g, k) && Outcome(s', g, k, o)
  {
    assert s.newLog[k] <= s'.newLog[k] && s.chunkedLog[k] <= s'.chunkedLog[k];
    assert PayloadAt(s', g, k, o) == PayloadAt(s, g, k, o);
    var p := PaperOf(PayloadAt(s, g, k, o));
    if g.Fetcher? && ChunkedSomewhere(s, k, p) {
      var i :| 0 <= i < |s.chunkedLog[k]| && s.chunkedLog[k][i].paper == p;
      assert s'.chunkedLog[k][i].paper == p;
    }
  }

  lemma OnlyTouchedLanesMove(t: Topology, s: State, e: Event, g: Group, k: nat)
    requires Shaped(t, s) && Enabled(t, s, e) && k < t.parts
    requires Lanes(Next(t, s, e), g)[k] != Lanes(s, g)[k]
    ensures Touches(e, g, k)
  {
    if !Touches(e, g, k) {
      StepFrame(t, s, e, g, k);
    }
  }

  lemma SettledBy(t: Topology, s: State, e: Event, g: Group, k: nat)
    requires Shaped(t, s) && Enabled(t, s, e) && k < t.parts && Touches(e, g, k)
    requires Lanes(Next(t, s, e), g)[k].phase.Settled?
    ensures Consuming(s, g, k) && (e.Produce? || e.DeadLetter? || e.Check? || e.Write?)
    ensures e.DeadLetter? ==> DeadLettered(Next(t, s, e), g, Current(s, g, k))
    ensures e.Check? || e.Write? ==> !g.Fetcher? && PaperOf(Current(s, g, k)).id in Next(t, s, e).rows
  {
  }

  /** The step that settles a lane leaves the outcome of its message behind. */
  lemma SettlingRecords(t: Topology, s: State, e: Event, g: Group, k: nat)
    requires ValidTopology(t) && Inv(t, s) && Enabled(t, s, e)
    requires k < t.parts && Lanes(Next(t, s, e), g)[k].phase.Settled?
    requires Lanes(Next(t, s, e), g)[k] != Lanes(s, g)[k]
    ensures var o := Lanes(s, g)[k].position;
            o < LogLength(Next(t, s, e), g, k) && Outcome(Next(t, s, e), g, k, o)
  {
    hide Next;
    OnlyTouchedLanesMove(t, s, e, g, k);
    SettledBy(t, s, e, g, k);
    StepLogs(t, s, e);
    var s' := Next(t, s, e);
    assert PayloadAt(s', g, k, Lanes(s, g)[k].position) == Current(s, g, k);
    if e.Produce? {
      assert s'.chunkedLog[k][|s.chunkedLog[k]|].paper == PaperOf(Current(s, g, k));
    }
  }

  lemma KeepsOutcome(t: Topology, s: State, e: Event, g: Group, k: nat, o: nat)
    requires ValidTopology(t) && Inv(t, s) && Enabled(t, s, e)
    requires k < t.parts && o < LogLength(Next(t, s, e), g, k) && Done(Next(t, s, e), g, k, o)
    ensures Outcome(Next(t, s, e), g, k, o)
  {
    hide Next;
    assert LaneOk(s, g, k);
    StepLane(t, s, e, g, k);
    DoneBefore(t, s, Next(t, s, e), g, k, o);
    if Done(s, g, k, o) && o < LogLength(s, g, k) {
      StepGrows(t, s, e);
      OutcomeStays(t, s, Next(t, s, e), g, k, o);
    } else {
      SettlingRecords(t, s, e, g, k);
    }
  }

  lemma KeepsOutcomes(t: Topology, s: State, e: Event)
    requires ValidTopology(t) && Inv(t, s) && Enabled(t, s, e)
    ensures OutcomesRecorded(t, Next(t, s, e))
  {
    forall g, k, o | 0 <= k < t.parts && 0 <= o < LogLength(Next(t, s, e), g, k) && Done(Next(t, s, e), g, k, o)
      ensures Outcome(Next(t, s, e), g, k, o)
    {
      KeepsOutcome(t, s, e, g, k, o);
    }
  }

  // ---- the last full text prevails ----

  lemma OvertakenStays(t: Topology, s: State, s': State, k: nat, d: Doc)
    requires Shaped(t, s) && Shaped(t, s') && Grows(t, s, s') && k < t.parts && Overtaken(s, k, d)
    ensures Overtaken(s', k, d)
  {
    var o :| 0 <= o < |s.newLog[k]| && s.newLog[k][o].id == d.paper.id && s.newLog[k][o].version > d.paper.version;
    assert s'.newLog[k][o] == s.newLog[k][o];
  }

  /** A stored full-text document is replaced only by newer or by full text. */
  lemma ReplacedBy(t: Topology, s: State, rows': map<string, Doc>, k: nat, d: Doc, d': Doc)
    requires Shaped(t, s) && k < t.parts && FullDoc(d) && Stored(s, d.paper.id) == Some(d)
    requires d'.paper in s.newLog[k]
    requires rows' == if Blocks(Stored(s, d'.paper.id), d') then s.rows else s.rows[d'.paper.id := d']
    requires !(d.paper.id in rows' && rows'[d.paper.id] == d)
    ensures d'.paper.id == d.paper.id && (FullDoc(d') || Overtaken(s, k, d))
  {
  }

  /** A full-text document stays anchored, unless newer full text of its own paper replaces it. */
  lemma AnchoredStays(t: Topology, s: State, e: Event, k: nat, d: Doc)
    requires ValidTopology(t) && Inv(t, s) && Enabled(t, s, e)
    requires k < t.parts && FullDoc(d) && t.part(d.paper.id) == k && Anchored(s, k, d)
    ensures || Anchored(Next(t, s, e), k, d)
            || (e.Write? && e.g.Slow? && e.k == k && Consuming(s, Slow, k) &&
                var d' := DocOf(Current(s, Slow, k)); d'.paper.id == d.paper.id && FullDoc(d'))
  {
    StepGrows(t, s, e);
    if Overtaken(s, k, d) {
      OvertakenStays(t, s, Next(t, s, e), k, d);
    } else if !DeadLettered(s, Slow, ChunkedDoc(d)) {
      StepRows(t, s, e);
      if e.Write? && Stored(Next(t, s, e), d.paper.id) != Some(d) {
        var d' := DocOf(Current(s, e.g, e.k));
        CurrentIsMessage(t, s, e.g, e.k);
        assert t.part(d'.paper.id) == e.k;
        StoredElsewhere(t, s, e, d, d');
        ReplacedBy(t, s, Next(t, s, e).rows, k, d, d');
      }
    }
  }

  lemma StoredElsewhere(t: Topology, s: State, e: Event, d: Doc, d': Doc)
    requires Shaped(t, s) && Enabled(t, s, e) && e.Write? && d' == DocOf(Current(s, e.g, e.k))
    requires Stored(s, d.paper.id) == Some(d) && Stored(Next(t, s, e), d.paper.id) != Some(d)
    ensures d.paper.id == d'.paper.id
  {
  }

  lemma AnchorMoves(t: Topology, s: State, e: Event, k: nat, j: nat)
    requires ValidTopology(t) && Inv(t, s) && Enabled(t, s, e)
    requires k < t.parts && j < |s.chunkedLog[k]| && HasAnchor(s, k, j)
    requires Done(s, Slow, k, j)
    ensures j < |Next(t, s, e).chunkedLog[k]| && HasAnchor(Next(t, s, e), k, j)
  {
    var s' := Next(t, s, e);
    StepGrows(t, s, e);
    assert s.chunkedLog[k] <= s'.chunkedLog[k];
    var i: nat :| Anchor(s, k, j, i);
    var d := s.chunkedLog[k][i];
    assert d.paper in s.newLog[k];
    AnchoredStays(t, s, e, k, d);
    if Anchored(s', k, d) {
      assert Anchor(s', k, j, i);
    } else {
      var o := s.slow[k].position;
      assert s'.chunkedLog[k][o] == DocOf(Current(s, Slow, k));
      assert Anchor(s', k, j, o);
    }
  }

  /** A worker settles a message by a refusing check, a write, or a dead letter. */
  lemma HowSettled(t: Topology, s: State, e: Event, g: Group, k: nat)
    requires Shaped(t, s) && Enabled(t, s, e) && k < t.parts && !g.Fetcher?
    requires var lane' := Lanes(Next(t, s, e), g)[k]; lane'.phase.Settled? && lane' != Lanes(s, g)[k]
    ensures e.Check? || e.Write? || e.DeadLetter?
    ensures e.g == g && e.k == k && Consuming(s, g, k)
    ensures e.Check? ==> var d := DocOf(Current(s, g, k)); Blocks(Stored(s, d.paper.id), d)
    ensures e.DeadLetter? ==> DeadLettered(Next(t, s, e), g, Current(s, g, k))
  {
    if !Touches(e, g, k) {
      StepFrame(t, s, e, g, k);
    }
  }

  lemma SettlingAnchors(t: Topology, s: State, e: Event, k: nat)
    requires ValidTopology(t) && Inv(t, s) && Enabled(t, s, e)
    requires k < t.parts && Next(t, s, e).slow[k].phase.Settled? && Next(t, s, e).slow[k] != s.slow[k]
    requires Consuming(s, Slow, k) && FullDoc(s.chunkedLog[k][s.slow[k].position])
    ensures var o := s.slow[k].position;
            o < |Next(t, s, e).chunkedLog[k]| && HasAnchor(Next(t, s, e), k, o)
  {
    hide Next;
    var s' := Next(t, s, e);
    var o := s.slow[k].position;
    StepGrows(t, s, e);
    StepRows(t, s, e);
    HowSettled(t, s, e, Slow, k);
    assert s.chunkedLog[k] <= s'.chunkedLog[k];
    assert Current(s, Slow, k) == ChunkedDoc(s.chunkedLog[k][o]);
    assert Anchor(s', k, o, o);
  }

  lemma KeepsAnchor(t: Topology, s: State, e: Event, k: nat, j: nat)
    requires ValidTopology(t) && Inv(t, s) && Enabled(t, s, e)
    requires k < t.parts && j < |Next(t, s, e).chunkedLog[k]| && Done(Next(t, s, e), Slow, k, j)
    requires FullDoc(Next(t, s, e).chunkedLog[k][j])
    ensures HasAnchor(Next(t, s, e), k, j)
  {
    hide Next;
    StepGrows(t, s, e);
    assert LaneOk(s, Slow, k);
    assert s.chunkedLog[k] <= Next(t, s, e).chunkedLog[k];
    StepLane(t, s, e, Slow, k);
    DoneBefore(t, s, Next(t, s, e), Slow, k, j);
    if Done(s, Slow, k, j) && j < LogLength(s, Slow, k) {
      AnchorMoves(t, s, e, k, j);
    } else {
      SettlingAnchors(t, s, e, k);
    }
  }

  lemma KeepsFullTextAnchored(t: Topology, s: State, e: Event)
    requires ValidTopology(t) && Inv(t, s) && Enabled(t, s, e)
    ensures FullTextAnchored(t, Next(t, s, e))
  {
    forall k, j | 0 <= k < t.parts && 0 <= j < |Next(t, s, e).chunkedLog[k]| &&
                  Done(Next(t, s, e), Slow, k, j) && FullDoc(Next(t, s, e).chunkedLog[k][j])
      ensures HasAnchor(Next(t, s, e), k, j)
    {
      KeepsAnchor(t, s, e, k, j);
    }
  }

  lemma NextKeepsInv(t: Topology, s: State, e: Event)
    requires ValidTopology(t) && Inv(t, s) && Enabled(t, s, e)
    ensures Inv(t, Next(t, s, e))
  {
    hide Next;
    KeepsSeenWasProduced(t, s, e);
    KeepsLogsWellFormed(t, s, e);
    KeepsLanesOk(t, s, e);
    KeepsOutcomes(t, s, e);
    KeepsRowsAreMessages(t, s, e);
    KeepsFullTextAnchored(t, s, e);
  }

  lemma {:induction false} StepsKeepInv(t: Topology, s: State, events: seq<Event>, s': State)
    requires ValidTopology(t) && Inv(t, s) && Steps(t, s, events, s')
    ensures Inv(t, s')
    decreases |events|
  {
    hide Next;
    if events != [] {
      NextKeepsInv(t, s, events[0]);
      StepsKeepInv(t, Next(t, s, events[0]), events[1..], s');
    }
  }

  lemma RunKeepsInv(t: Topology, events: seq<Event>, s: State)
    requires ValidTopology(t) && Reaches(t, events, s)
    ensures Inv(t, s)
  {
    var init :| Init(t, init) && Steps(t, init, events, s);
    InitInv(t, init);
    StepsKeepInv(t, init, events, s);
  }
}
