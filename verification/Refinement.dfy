/** The processes are runs of the protocol: handling one message, as the fetcher and the workers do it, is a
    sequence of steps of the state machine in module Pipeline.  Its theorems, in which steps of other
    processes may come between any two of these, therefore speak about the code of modules Fetcher and Worker. */
module Refinement {
  import opened Prelude
  import opened Documents
  import opened Pipeline
  import Guard
  import Store
  import F = Fetcher
  import W = Worker
  import P = Poller
  import Versions

  // ---- the fetcher ----

  /** The state after the fetcher finished the message at its position. */
  function Fetched(s: State, k: nat, h: F.Handled, delivered: bool): State
    requires |s.newLog| == |s.chunkedLog| == |s.fetcher| && Consuming(s, Fetcher, k)
  {
    var f := Failed(FetcherStage, Current(s, Fetcher, k));
    var lost := h.outcome.Failed?;
    s.(chunkedLog := s.chunkedLog[k := h.log],
       fetcher := s.fetcher[k := s.fetcher[k].(phase := Settled)],
       letters := if lost && delivered then s.letters + {f} else s.letters,
       dropped := if lost && !delivered then s.dropped + {f} else s.dropped)
  }

  lemma SameGoal(s: State, k: nat, log: seq<Doc>, h: F.Handled, delivered: bool)
    requires |s.newLog| == |s.chunkedLog| == |s.fetcher| && Consuming(s, Fetcher, k)
    ensures Fetched(s.(chunkedLog := s.chunkedLog[k := log]), k, h, delivered) == Fetched(s, k, h, delivered)
  {
    assert s.chunkedLog[k := log][k := h.log] == s.chunkedLog[k := h.log];
  }

  /** Handling a paper is a run of Produce steps, one per document that reaches the topic, and a DeadLetter
      step if all attempts fail. */
  lemma {:induction false} FetcherRunsTheProtocol(t: Topology, s: State, k: nat, c: F.Config, p: Paper, plan: F.Plan,
                                                  j: nat)
    returns (events: seq<Event>)
    requires Shaped(t, s) && Consuming(s, Fetcher, k) && s.fetcher[k].phase.Ready?
    requires Current(s, Fetcher, k) == NewPaper(p) && 1 <= j <= F.MAX_ATTEMPTS
    ensures Steps(t, s, events, Fetched(s, k, F.Attempts(s.chunkedLog[k], c, p, plan, j), plan.delivered))
    decreases F.MAX_ATTEMPTS - j
  {
    var a := plan.attempt(j);
    var made := F.Made(c, p, a);
    F.MadeIsOfPaper(c, p, a);
    hide F.Made;
    var h := F.Attempts(s.chunkedLog[k], c, p, plan, j);
    var goal := Fetched(s, k, h, plan.delivered);
    if made.Some? && !a.send.Refused? {
      var e := Produce(k, made.value.source, made.value.chunks, a.send.Acked?);
      var s1 := Next(t, s, e);
      assert s1.chunkedLog[k] == s.chunkedLog[k] + [made.value];
      SameGoal(s, k, s1.chunkedLog[k], h, plan.delivered);
      if a.send.Acked? {
        OneStep(t, s, e, [], goal);
        events := [e] + [];
      } else if j == F.MAX_ATTEMPTS {
        var rest := FetcherGivesUp(t, s1, k, plan.delivered, h);
        OneStep(t, s, e, rest, goal);
        events := [e] + rest;
      } else {
        var rest := FetcherRunsTheProtocol(t, s1, k, c, p, plan, j + 1);
        OneStep(t, s, e, rest, goal);
        events := [e] + rest;
      }
    } else if j == F.MAX_ATTEMPTS {
      events := FetcherGivesUp(t, s, k, plan.delivered, h);
    } else {
      events := FetcherRunsTheProtocol(t, s, k, c, p, plan, j + 1);
    }
  }

  lemma FetcherGivesUp(t: Topology, s: State, k: nat, delivered: bool, h: F.Handled) returns (events: seq<Event>)
    requires Shaped(t, s) && Consuming(s, Fetcher, k) && s.fetcher[k].phase.Ready?
    requires h.log == s.chunkedLog[k] && h.outcome.Failed?
    ensures Steps(t, s, events, Fetched(s, k, h, delivered))
  {
    var e := DeadLetter(Fetcher, k, delivered);
    assert s.chunkedLog[k := s.chunkedLog[k]] == s.chunkedLog;
    OneStep(t, s, e, [], Fetched(s, k, h, delivered));
    events := [e] + [];
  }

  // ---- the workers ----

  /** The state's rows are the documents behind the database's rows. */
  ghost predicate SameRows(s: State, docs: W.Docs) {
    forall id :: Stored(s, id) == W.Row(docs, id)
  }

  /** Only rows, this lane and dead letters differ; the position is the same and the phase as given. */
  ghost predicate Worked(s: State, s': State, g: Group, k: nat, phase: Phase)
    requires k < |Lanes(s, g)|
  {
    && s'.newLog == s.newLog && s'.chunkedLog == s.chunkedLog && s'.seen == s.seen && s'.poller == s.poller
    && s'.fetcher == s.fetcher
    && (g.Fast? ==> s'.slow == s.slow) && (g.Slow? ==> s'.fast == s.fast)
    && Lanes(s', g) == Lanes(s, g)[k := Lanes(s, g)[k].(phase := phase)]
  }

  predicate AtMessage(t: Topology, s: State, g: Group, k: nat, doc: Doc) {
    && Shaped(t, s) && !g.Fetcher? && Consuming(s, g, k) && Lanes(s, g)[k].phase.Ready?
    && DocOf(Current(s, g, k)) == doc
  }

  lemma CheckStep(t: Topology, s: State, g: Group, k: nat, doc: Doc)
    requires AtMessage(t, s, g, k, doc)
    ensures Enabled(t, s, Check(g, k))
    ensures var s' := Next(t, s, Check(g, k));
            Worked(s, s', g, k, if Guard.Blocks(Stored(s, doc.paper.id), doc) then Settled else Checked) &&
            s'.rows == s.rows && s'.letters == s.letters && s'.dropped == s.dropped
  {
  }

  lemma RetryStep(t: Topology, s: State, g: Group, k: nat)
    requires Shaped(t, s) && !g.Fetcher? && Consuming(s, g, k) && Lanes(s, g)[k].phase.Checked?
    ensures Enabled(t, s, Retry(g, k))
    ensures var s' := Next(t, s, Retry(g, k));
            Worked(s, s', g, k, Ready) && s'.rows == s.rows && s'.letters == s.letters && s'.dropped == s.dropped
  {
  }

  lemma WriteStep(t: Topology, s: State, g: Group, k: nat, doc: Doc, acked: bool)
    requires Shaped(t, s) && !g.Fetcher? && Consuming(s, g, k) && Lanes(s, g)[k].phase.Checked?
    requires DocOf(Current(s, g, k)) == doc
    ensures Enabled(t, s, Write(g, k, acked))
    ensures var s' := Next(t, s, Write(g, k, acked));
            Worked(s, s', g, k, if acked then Settled else Ready) &&
            s'.letters == s.letters && s'.dropped == s.dropped &&
            (forall id :: Stored(s', id) ==
               if id == doc.paper.id then Guard.Upsert(Stored(s, id), doc) else Stored(s, id))
  {
  }

  lemma DeadLetterStep(t: Topology, s: State, g: Group, k: nat, delivered: bool)
    requires Shaped(t, s) && !g.Fetcher? && Consuming(s, g, k) && Lanes(s, g)[k].phase.Ready?
    ensures Enabled(t, s, DeadLetter(g, k, delivered))
    ensures var s' := Next(t, s, DeadLetter(g, k, delivered));
            var f := Failed(StageOf(g), Current(s, g, k));
            Worked(s, s', g, k, Settled) && s'.rows == s.rows &&
            s'.letters == (if delivered then s.letters + {f} else s.letters) &&
            s'.dropped == (if delivered then s.dropped else s.dropped + {f})
  {
  }

  lemma WorkedTwice(t: Topology, a: State, b: State, c: State, g: Group, k: nat, doc: Doc, p: Phase, q: Phase)
    requires Shaped(t, a) && !g.Fetcher? && Consuming(a, g, k) && DocOf(Current(a, g, k)) == doc
    requires Worked(a, b, g, k, p) && Worked(b, c, g, k, q)
    ensures Shaped(t, b) && Consuming(b, g, k) && Current(b, g, k) == Current(a, g, k) && Lanes(b, g)[k].phase == p
    ensures Worked(a, c, g, k, q)
  {
    assert Lanes(a, g)[k := Lanes(a, g)[k].(phase := p)][k := Lanes(a, g)[k].(phase := q)]
        == Lanes(a, g)[k := Lanes(a, g)[k].(phase := q)];
  }

  lemma WorkedKeeps(t: Topology, a: State, b: State, g: Group, k: nat, phase: Phase)
    requires Shaped(t, a) && !g.Fetcher? && Consuming(a, g, k) && Worked(a, b, g, k, phase)
    ensures Shaped(t, b) && Consuming(b, g, k) && Current(b, g, k) == Current(a, g, k) && Lanes(b, g)[k].phase == phase
  {
  }

  /** Where an attempt leaves the lane. */
  function PhaseAfter(step: W.Step): Phase {
    if step.Done? then Settled else Ready
  }

  lemma SameRowsAfter(s: State, s1: State, s': State, docs: W.Docs, docs': W.Docs, doc: Doc, written: bool)
    requires SameRows(s, docs) && s1.rows == s.rows
    requires if written
             then && (forall id :: Stored(s', id) ==
                        if id == doc.paper.id then Guard.Upsert(Stored(s1, id), doc) else Stored(s1, id))
                  && (forall id :: W.Row(docs', id) ==
                        if id == doc.paper.id then Guard.Upsert(W.Row(docs, id), doc) else W.Row(docs, id))
             else s'.rows == s1.rows && docs' == docs
    ensures SameRows(s', docs')
  {
    forall id
      ensures Stored(s', id) == W.Row(docs', id)
    {
      assert Stored(s1, id) == Stored(s, id) == W.Row(docs, id);
    }
  }

  lemma RowsAfterAttempt(docs: W.Docs, doc: Doc, a: W.Attempt, summaries: bool)
    requires doc.source.Abstract? ==>
               a.precheck.Fine? && !Guard.HasFullText(W.Row(docs, doc.paper.id), doc.paper.version)
    ensures var r := W.TryOnce(docs, doc, a, summaries);
            if Writes(docs, doc, a, summaries)
            then (r.step.Done? <==> !a.upsert.LostAfterCommit?) &&
                 forall id :: W.Row(r.docs, id) ==
                   if id == doc.paper.id then Guard.Upsert(W.Row(docs, id), doc) else W.Row(docs, id)
            else r.docs == docs && !r.step.Done?
  {
  }

  /** One attempt: a check, and then a write, or a retry if something fails in between. */
  lemma AttemptIsSteps(t: Topology, s: State, g: Group, k: nat, docs: W.Docs, doc: Doc, a: W.Attempt, summaries: bool)
    returns (events: seq<Event>, s': State)
    requires AtMessage(t, s, g, k, doc) && SameRows(s, docs)
    ensures Shaped(t, s') && Steps(t, s, events, s')
    ensures var r := W.TryOnce(docs, doc, a, summaries);
            SameRows(s', r.docs) && Worked(s, s', g, k, PhaseAfter(r.step))
    ensures s'.letters == s.letters && s'.dropped == s.dropped
  {
    hide Next, Enabled;
    var r := W.TryOnce(docs, doc, a, summaries);
    assert Stored(s, doc.paper.id) == W.Row(docs, doc.paper.id);
    if doc.source.Abstract? && !a.precheck.Fine? {
      events, s' := [], s;
      assert Lanes(s, g)[k := Lanes(s, g)[k].(phase := Ready)] == Lanes(s, g);
    } else {
      CheckStep(t, s, g, k, doc);
      var s1 := Next(t, s, Check(g, k));
      if doc.source.Abstract? && Guard.HasFullText(W.Row(docs, doc.paper.id), doc.paper.version) {
        OneStep(t, s, Check(g, k), [], s1);
        events, s' := [Check(g, k)] + [], s1;
      } else {
        WorkedKeeps(t, s, s1, g, k, Checked);
        RowsAfterAttempt(docs, doc, a, summaries);
        var e := if Writes(docs, doc, a, summaries) then Write(g, k, !a.upsert.LostAfterCommit?) else Retry(g, k);
        if e.Write? {
          WriteStep(t, s1, g, k, doc, e.acked);
        } else {
          RetryStep(t, s1, g, k);
        }
        s' := Next(t, s1, e);
        SameRowsAfter(s, s1, s', docs, r.docs, doc, e.Write?);
        WorkedTwice(t, s, s1, s', g, k, doc, Checked, PhaseAfter(r.step));
        OneStep(t, s1, e, [], s');
        OneStep(t, s, Check(g, k), [e] + [], s');
        events := [Check(g, k)] + ([e] + []);
      }
    }
  }

  /** The attempt gets as far as committing an upsert. */
  predicate Writes(docs: W.Docs, doc: Doc, a: W.Attempt, summaries: bool) {
    && a.embedding.Some? && (summaries ==> a.summary.Some?) && !a.upsert.Broken? && !a.upsert.Lost?
    && !Store.Expected(W.Row(docs, doc.paper.id), Store.Written(doc, a.embedding.value)).Raised?
  }

  /** The dead letter, if one was written, arrived or was dropped. */
  ghost predicate Lettered(s: State, s': State, f: Failed, outcome: W.Outcome, delivered: bool) {
    && s'.letters == (if outcome.DeadLettered? && delivered then s.letters + {f} else s.letters)
    && s'.dropped == (if outcome.DeadLettered? && !delivered then s.dropped + {f} else s.dropped)
  }

  function PhaseWhen(outcome: W.Outcome): Phase {
    if outcome.Died? then Ready else Settled
  }

  lemma WorkerGivesUp(t: Topology, s: State, g: Group, k: nat, docs: W.Docs, doc: Doc, delivered: bool,
                      outcome: W.Outcome)
    returns (events: seq<Event>, s': State)
    requires AtMessage(t, s, g, k, doc) && SameRows(s, docs) && outcome.DeadLettered?
    ensures Shaped(t, s') && Steps(t, s, events, s') && SameRows(s', docs) && Worked(s, s', g, k, Settled)
    ensures Lettered(s, s', Failed(StageOf(g), Current(s, g, k)), outcome, delivered)
  {
    hide Next, Enabled;
    var e := DeadLetter(g, k, delivered);
    DeadLetterStep(t, s, g, k, delivered);
    s' := Next(t, s, e);
    OneStep(t, s, e, [], s');
    events := [e] + [];
    SameRowsAfter(s, s, s', docs, docs, doc, false);
  }

  lemma AtMessageMeans(t: Topology, s: State, g: Group, k: nat, doc: Doc)
    requires AtMessage(t, s, g, k, doc)
    ensures Shaped(t, s) && !g.Fetcher? && Consuming(s, g, k) && DocOf(Current(s, g, k)) == doc
  {
  }

  lemma StillAtMessage(t: Topology, s: State, s1: State, g: Group, k: nat, doc: Doc)
    requires AtMessage(t, s, g, k, doc) && Worked(s, s1, g, k, Ready)
    ensures AtMessage(t, s1, g, k, doc) && Current(s1, g, k) == Current(s, g, k)
  {
    WorkedKeeps(t, s, s1, g, k, Ready);
  }

  /** Handling a message is a run of Check, Write, Retry and DeadLetter steps of this lane alone, after which
      the rows are those of the database, the dead letter is written if there is one, and the message waits for
      its commit, unless the process died on it. */
  lemma {:induction false} WorkerRunsTheProtocol(t: Topology, s: State, g: Group, k: nat, docs: W.Docs, doc: Doc,
                                                 plan: W.Plan, summaries: bool, j: nat)
    returns (events: seq<Event>, s': State)
    requires AtMessage(t, s, g, k, doc) && SameRows(s, docs) && 1 <= j <= W.MAX_ATTEMPTS
    ensures Shaped(t, s') && Steps(t, s, events, s')
    ensures var h := W.Attempts(docs, doc, plan, summaries, j);
            && SameRows(s', h.docs) && Worked(s, s', g, k, PhaseWhen(h.outcome))
            && Lettered(s, s', Failed(StageOf(g), Current(s, g, k)), h.outcome, plan.delivered)
    decreases W.MAX_ATTEMPTS - j
  {
    hide Next, Enabled, W.TryOnce, SameRows, Steps, Worked, AtMessage, Current, Consuming, Shaped;
    AtMessageMeans(t, s, g, k, doc);
    var a := plan.attempt(j);
    var r := W.TryOnce(docs, doc, a, summaries);
    var first, s1 := AttemptIsSteps(t, s, g, k, docs, doc, a, summaries);
    if r.step.Done? || (r.step.ConnectionLost? && !a.reconnects) {
      events, s' := first, s1;
    } else {
      var rest;
      StillAtMessage(t, s, s1, g, k, doc);
      if j == W.MAX_ATTEMPTS {
        rest, s' := WorkerGivesUp(t, s1, g, k, r.docs, doc, plan.delivered,
                                  W.Attempts(docs, doc, plan, summaries, j).outcome);
      } else {
        rest, s' := WorkerRunsTheProtocol(t, s1, g, k, r.docs, doc, plan, summaries, j + 1);
      }
      MoreSteps(t, s, first, s1, rest, s');
      events := first + rest;
      WorkedTwice(t, s, s1, s', g, k, doc, Ready, PhaseWhen(W.Attempts(docs, doc, plan, summaries, j).outcome));
    }
  }

  // ---- the poller ----

  /** Papers sent one after the other, each to the partition of its id. */
  function Appended(t: Topology, logs: seq<seq<Paper>>, papers: seq<Paper>): (r: seq<seq<Paper>>)
    ensures |r| == |logs|
    decreases |papers|
  {
    if papers == [] then logs
    else
      var k := t.part(papers[0].id);
      Appended(t, if k < |logs| then logs[k := logs[k] + [papers[0]]] else logs, papers[1..])
  }

  lemma {:induction false} AppendedTwice(t: Topology, logs: seq<seq<Paper>>, a: seq<Paper>, b: seq<Paper>)
    ensures Appended(t, logs, a + b) == Appended(t, Appended(t, logs, a), b)
    decreases |a|
  {
    if a == [] {
      assert a + b == b;
    } else {
      var k := t.part(a[0].id);
      assert (a + b)[1..] == a[1..] + b;
      AppendedTwice(t, if k < |logs| then logs[k := logs[k] + [a[0]]] else logs, a[1..], b);
    }
  }

  /** The state after the poller's log and seen set changed as given. */
  function Polled(t: Topology, s: State, before: P.State, after: P.State): State
    requires |before.log| <= |after.log|
  {
    s.(seen := after.seen, newLog := Appended(t, s.newLog, after.log[|before.log|..]))
  }

  ghost predicate Polls(t: Topology, s: State, q: P.State) {
    Shaped(t, s) && ValidTopology(t) && s.poller.Idle? && s.seen == q.seen
  }

  /** Sending one paper, then marking it or breaking off. */
  lemma SendThen(t: Topology, s: State, p: Paper, marked: bool) returns (events: seq<Event>)
    requires Shaped(t, s) && ValidTopology(t) && s.poller.Idle? && Versions.SeenMember(p.id, p.version) !in s.seen
    ensures var k := t.part(p.id);
            k < |s.newLog| &&
            Steps(t, s, events,
              s.(seen := if marked then s.seen + {Versions.SeenMember(p.id, p.version)} else s.seen,
                 newLog := s.newLog[k := s.newLog[k] + [p]]))
  {
    var e := if marked then PollMark else PollCrash;
    var s1 := Next(t, s, PollSend(p));
    var s2 := Next(t, s1, e);
    OneStep(t, s1, e, [], s2);
    OneStep(t, s, PollSend(p), [e] + [], s2);
    events := [PollSend(p)] + ([e] + []);
  }

  lemma EntryRunsTheProtocol(t: Topology, s: State, world: P.World, args: P.Args, q: P.State, e: P.Entry)
    returns (events: seq<Event>)
    requires Polls(t, s, q) && !q.failed
    ensures |q.log| <= |P.DoEntry(world, args, q, e).log|
    ensures Steps(t, s, events, Polled(t, s, q, P.DoEntry(world, args, q, e)))
  {
    hide Next, Enabled, Steps, Versions.SeenMember;
    var q' := P.DoEntry(world, args, q, e);
    if |q'.log| == |q.log| {
      assert q'.log[|q.log|..] == [];
      events := [];
      NoSteps(t, s);
    } else {
      assert q'.log[|q.log|..] == [e.paper] && [e.paper][1..] == [];
      var k := t.part(e.paper.id);
      assert k < |s.newLog|;
      assert Appended(t, s.newLog, [e.paper]) == Appended(t, s.newLog[k := s.newLog[k] + [e.paper]], []);
      events := SendThen(t, s, e.paper, q'.seen != q.seen);
    }
  }

  lemma PolledTwice(t: Topology, s: State, a: P.State, b: P.State, c: P.State)
    requires a.log <= b.log <= c.log
    ensures Polled(t, Polled(t, s, a, b), b, c) == Polled(t, s, a, c)
  {
    AppendedTwice(t, s.newLog, b.log[|a.log|..], c.log[|b.log|..]);
    assert c.log[|a.log|..] == b.log[|a.log|..] + c.log[|b.log|..];
  }

  lemma {:induction false} EntriesRunTheProtocol(t: Topology, s: State, world: P.World, args: P.Args, q: P.State,
                                                 entries: seq<P.Entry>)
    returns (events: seq<Event>)
    requires Polls(t, s, q)
    ensures q.log <= P.DoEntries(world, args, q, entries).log
    ensures Steps(t, s, events, Polled(t, s, q, P.DoEntries(world, args, q, entries)))
    decreases |entries|
  {
    hide Next, Enabled, Steps, P.DoEntry, Polled;
    P.EntriesKeep(world, args, q, entries);
    if entries == [] || q.failed {
      events := [];
      NothingPolled(t, s, q);
    } else {
      var q1 := P.DoEntry(world, args, q, entries[0]);
      P.EntryKeeps(world, args, q, entries[0]);
      P.EntriesKeep(world, args, q1, entries[1..]);
      var first := EntryRunsTheProtocol(t, s, world, args, q, entries[0]);
      var s1 := Polled(t, s, q, q1);
      PolledIsIdle(t, s, q, q1);
      var rest := EntriesRunTheProtocol(t, s1, world, args, q1, entries[1..]);
      PolledTwice(t, s, q, q1, P.DoEntries(world, args, q1, entries[1..]));
      MoreSteps(t, s, first, s1, rest, Polled(t, s1, q1, P.DoEntries(world, args, q1, entries[1..])));
      events := first + rest;
    }
  }

  lemma NothingPolled(t: Topology, s: State, q: P.State)
    requires Polls(t, s, q)
    ensures Steps(t, s, [], Polled(t, s, q, q))
  {
    assert q.log[|q.log|..] == [];
  }

  lemma PolledIsIdle(t: Topology, s: State, a: P.State, b: P.State)
    requires Polls(t, s, a) && |a.log| <= |b.log|
    ensures Polls(t, Polled(t, s, a, b), b)
  {
  }

  /** A whole walk over a category, finished or broken off anywhere, is a run of PollSend, PollMark and
      PollCrash steps. */
  lemma {:induction false} WalkRunsTheProtocol(t: Topology, s: State, world: P.World, args: P.Args, q: P.State,
                                               start: nat, newInLast: nat)
    returns (events: seq<Event>)
    requires Polls(t, s, q) && !q.failed
    ensures q.log <= P.Walk(world, args, q, start, newInLast).state.log
    ensures Steps(t, s, events, Polled(t, s, q, P.Walk(world, args, q, start, newInLast).state))
    decreases args.maxPages - q.stats.pages
  {
    hide Next, Enabled, Steps, P.DoEntries, Polls;
    var out := P.Walk(world, args, q, start, newInLast);
    P.WalkKeeps(world, args, q, start, newInLast);
    events := [];
    if q.stats.pages < args.maxPages && P.Fetch(world.net, start).Some? {
      var page := P.Fetch(world.net, start).value;
      var q1 := q.(stats := q.stats.(pages := q.stats.pages + 1));
      assert Polls(t, s, q1) by { SamePolls(t, s, q, q1); }
      var q2 := P.DoEntries(world, args, q1, page.entries);
      P.EntriesKeep(world, args, q1, page.entries);
      var first := EntriesRunTheProtocol(t, s, world, args, q1, page.entries);
      var s1 := Polled(t, s, q1, q2);
      PolledIsIdle(t, s, q1, q2);
      var next := start + |page.entries|;
      if page.entries != [] && !q2.failed && q2.stats.produced > q1.stats.produced && next < page.total {
        var more := q2.stats.produced - q1.stats.produced;
        var rest := WalkRunsTheProtocol(t, s1, world, args, q2, start + |page.entries|, more);
        PolledTwice(t, s, q1, q2, out.state);
        PollsIsShaped(t, s, q);
        PollsIsShaped(t, s1, q2);
        MoreSteps(t, s, first, s1, rest, Polled(t, s1, q2, out.state));
        return first + rest;
      } else if page.entries != [] {
        return first;
      }
    }
    NothingPolled(t, s, q);
  }

  lemma SamePolls(t: Topology, s: State, q: P.State, q': P.State)
    requires Polls(t, s, q) && q'.seen == q.seen
    ensures Polls(t, s, q')
  {
  }

  lemma PollsIsShaped(t: Topology, s: State, q: P.State)
    requires Polls(t, s, q)
    ensures Shaped(t, s)
  {
  }
}
