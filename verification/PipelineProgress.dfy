/** What can always happen next, and what can go wrong: every reachable state of the ingestion protocol can be
    drained by ordinary steps, and a paper is lost exactly when a dead letter is. */
module PipelineProgress {
  import opened Documents
  import opened Versions
  import opened Pipeline
  import opened PipelineSafety
  import opened PipelineResults

  // ---- one message ----

  /** Group g worked on lane k only: nothing else moved, nothing was dead-lettered, papers.new is as it was. */
  ghost predicate OnlyLane(s: State, s': State, g: Group, k: nat) {
    && s'.newLog == s.newLog && s'.seen == s.seen && s'.poller == s.poller
    && s'.letters == s.letters && s'.dropped == s.dropped
    && (forall h :: h != g ==> Lanes(s', h) == Lanes(s, h))
    && |Lanes(s', g)| == |Lanes(s, g)|
    && (forall j :: 0 <= j < |Lanes(s, g)| && j != k ==> Lanes(s', g)[j] == Lanes(s, g)[j])
    && |s'.chunkedLog| == |s.chunkedLog|
    && (forall j :: 0 <= j < |s.chunkedLog| && j != k ==> s'.chunkedLog[j] == s.chunkedLog[j])
    && (!g.Fetcher? ==> s'.chunkedLog == s.chunkedLog)
  }

  lemma OnlyLaneTwice(a: State, b: State, c: State, g: Group, k: nat)
    requires OnlyLane(a, b, g, k) && OnlyLane(b, c, g, k)
    ensures OnlyLane(a, c, g, k)
  {
  }

  /** Steps that nothing goes wrong in, with documents the schema accepts; a restart of a consumer counts as one. */
  predicate Calm(e: Event) {
    match e
    case Produce(_, _, chunks, acked) => ChunksOk(chunks) && acked
    case Check(_, _) => true
    case Write(_, _, acked) => acked
    case Commit(_, _, acked) => acked
    case Crash(_, _) => true
    case _ => false
  }

  lemma CommitStep(t: Topology, s: State, g: Group, k: nat)
    requires Shaped(t, s) && Consuming(s, g, k) && Lanes(s, g)[k].phase.Settled?
    ensures Enabled(t, s, Commit(g, k, true))
    ensures var s' := Next(t, s, Commit(g, k, true));
            var next := Lanes(s, g)[k].position + 1;
            OnlyLane(s, s', g, k) && s'.rows == s.rows && Lanes(s', g)[k] == Lane(next, next, Ready)
  {
  }

  /** The step that settles the message in hand when nothing goes wrong; the fetcher finds no full text and
      sends title and abstract. */
  function SettlingStep(s: State, g: Group, k: nat): Event
    requires |s.newLog| == |s.chunkedLog| && Consuming(s, g, k)
  {
    if g.Fetcher? then Produce(k, Abstract, FromAbstract(PaperOf(Current(s, g, k))).chunks, true)
    else if Lanes(s, g)[k].phase.Ready? then Check(g, k)
    else Write(g, k, true)
  }

  /** What a settling step does to its lane. */
  ghost predicate Settling(s: State, s': State, g: Group, k: nat)
    requires |s.newLog| == |s.chunkedLog| && Consuming(s, g, k)
  {
    && OnlyLane(s, s', g, k) && |s'.newLog| == |s'.chunkedLog| && Consuming(s', g, k)
    && Lanes(s', g)[k].position == Lanes(s, g)[k].position && LogLength(s', g, k) == LogLength(s, g, k)
    && !Lanes(s', g)[k].phase.Ready?
    && (g.Fetcher? || Lanes(s, g)[k].phase.Checked? ==> Lanes(s', g)[k].phase.Settled?)
  }

  lemma ProduceSettles(t: Topology, s: State, k: nat, chunks: seq<Chunk>)
    requires Shaped(t, s) && Consuming(s, Fetcher, k) && s.fetcher[k].phase.Ready?
    ensures Enabled(t, s, Produce(k, Abstract, chunks, true))
    ensures Settling(s, Next(t, s, Produce(k, Abstract, chunks, true)), Fetcher, k)
  {
  }

  lemma CheckSettles(t: Topology, s: State, g: Group, k: nat)
    requires Shaped(t, s) && !g.Fetcher? && Consuming(s, g, k) && Lanes(s, g)[k].phase.Ready?
    ensures Enabled(t, s, Check(g, k)) && Settling(s, Next(t, s, Check(g, k)), g, k)
  {
  }

  lemma WriteSettles(t: Topology, s: State, g: Group, k: nat)
    requires Shaped(t, s) && !g.Fetcher? && Consuming(s, g, k) && Lanes(s, g)[k].phase.Checked?
    ensures Enabled(t, s, Write(g, k, true)) && Settling(s, Next(t, s, Write(g, k, true)), g, k)
  {
  }

  lemma SettleStep(t: Topology, s: State, g: Group, k: nat)
    requires Shaped(t, s) && Consuming(s, g, k) && !Lanes(s, g)[k].phase.Settled?
    requires g.Fetcher? ==> Lanes(s, g)[k].phase.Ready?
    ensures var e := SettlingStep(s, g, k);
            Enabled(t, s, e) && Calm(e) && Settling(s, Next(t, s, e), g, k)
  {
    hide Next, Enabled, Settling, FromAbstract, ChunksOk;
    if g.Fetcher? {
      ProduceSettles(t, s, k, FromAbstract(PaperOf(Current(s, g, k))).chunks);
    } else if Lanes(s, g)[k].phase.Ready? {
      CheckSettles(t, s, g, k);
    } else {
      WriteSettles(t, s, g, k);
    }
  }

  /** A message in hand is finished and committed by ordinary steps. */
  lemma MessageIsFinished(t: Topology, s: State, g: Group, k: nat) returns (events: seq<Event>, s': State)
    requires Shaped(t, s) && Consuming(s, g, k) && Lanes(s, g)[k].phase.Ready?
    ensures Shaped(t, s') && Steps(t, s, events, s') && (forall e :: e in events ==> Calm(e)) && OnlyLane(s, s', g, k)
    ensures LogLength(s', g, k) == LogLength(s, g, k)
    ensures var next := Lanes(s, g)[k].position + 1;
            Lanes(s', g)[k] == Lane(next, next, Ready)
  {
    hide Next, Enabled, Steps, OnlyLane, Consuming;
    ConsumingMeans(t, s, g, k);
    var e1 := SettlingStep(s, g, k);
    SettleStep(t, s, g, k);
    var s1 := Next(t, s, e1);
    ConsumingMeans(t, s1, g, k);
    var rest, last := [], s1;
    NoSteps(t, s1);
    OnlyLaneAtAll(s1, g, k);
    if !Lanes(s1, g)[k].phase.Settled? {
      var e2 := SettlingStep(s1, g, k);
      SettleStep(t, s1, g, k);
      last := Next(t, s1, e2);
      NoSteps(t, last);
      OneStep(t, s1, e2, [], last);
      rest := [e2] + [];
      ConsumingMeans(t, last, g, k);
    }
    OneStep(t, s, e1, rest, last);
    CommitStep(t, last, g, k);
    s' := Next(t, last, Commit(g, k, true));
    NoSteps(t, s');
    OneStep(t, last, Commit(g, k, true), [], s');
    MoreSteps(t, s, [e1] + rest, last, [Commit(g, k, true)] + [], s');
    events := ([e1] + rest) + ([Commit(g, k, true)] + []);
    OnlyLaneTwice(s, s1, last, g, k);
    OnlyLaneTwice(s, last, s', g, k);
  }

  lemma ConsumingMeans(t: Topology, s: State, g: Group, k: nat)
    requires Shaped(t, s) && Consuming(s, g, k)
    ensures k < |Lanes(s, g)| == t.parts && k < |s.newLog| == |s.chunkedLog|
  {
  }

  lemma OnlyLaneAtAll(s: State, g: Group, k: nat)
    ensures OnlyLane(s, s, g, k)
  {
  }

  // ---- draining ----

  /** Everything on the lane is read and committed. */
  predicate LaneDone(s: State, g: Group, k: nat)
    requires k < |s.newLog| == |s.chunkedLog| && k < |Lanes(s, g)|
  {
    Lanes(s, g)[k].position == Lanes(s, g)[k].committed == LogLength(s, g, k)
  }

  lemma {:induction false} ReadToEnd(t: Topology, s: State, g: Group, k: nat) returns (events: seq<Event>, s': State)
    requires Shaped(t, s) && k < t.parts && Lanes(s, g)[k].phase.Ready?
    requires Lanes(s, g)[k].position == Lanes(s, g)[k].committed <= LogLength(s, g, k)
    ensures Shaped(t, s') && Steps(t, s, events, s') && (forall e :: e in events ==> Calm(e)) && OnlyLane(s, s', g, k)
    ensures LaneDone(s', g, k)
    decreases LogLength(s, g, k) - Lanes(s, g)[k].position
  {
    hide Steps, OnlyLane;
    if Lanes(s, g)[k].position == LogLength(s, g, k) {
      NoSteps(t, s);
      OnlyLaneAtAll(s, g, k);
      events, s' := [], s;
    } else {
      var first, s1 := MessageIsFinished(t, s, g, k);
      OnlyLaneMeans(s, s1, g, k);
      var rest;
      rest, s' := ReadToEnd(t, s1, g, k);
      MoreSteps(t, s, first, s1, rest, s');
      OnlyLaneTwice(s, s1, s', g, k);
      events := first + rest;
    }
  }

  lemma OnlyLaneMeans(s: State, s': State, g: Group, k: nat)
    requires OnlyLane(s, s', g, k)
    ensures s'.newLog == s.newLog && |s'.chunkedLog| == |s.chunkedLog| && |Lanes(s', g)| == |Lanes(s, g)|
  {
  }

  lemma RestartStep(t: Topology, s: State, g: Group, k: nat)
    requires Shaped(t, s) && k < t.parts
    ensures Enabled(t, s, Crash(g, k))
    ensures var s' := Next(t, s, Crash(g, k));
            var c := Lanes(s, g)[k].committed;
            OnlyLane(s, s', g, k) && s'.chunkedLog == s.chunkedLog && Lanes(s', g)[k] == Lane(c, c, Ready)
  {
  }

  /** A lane is drained by restarting its consumer and reading to the end. */
  lemma DrainLane(t: Topology, s: State, g: Group, k: nat) returns (events: seq<Event>, s': State)
    requires ValidTopology(t) && Inv(t, s) && k < t.parts
    ensures Inv(t, s') && Steps(t, s, events, s') && (forall e :: e in events ==> Calm(e)) && OnlyLane(s, s', g, k)
    ensures LaneDone(s', g, k)
  {
    hide Next, Enabled, Steps, OnlyLane;
    assert LaneOk(s, g, k);
    RestartStep(t, s, g, k);
    var e := Crash(g, k);
    var s1 := Next(t, s, e);
    OnlyLaneMeans(s, s1, g, k);
    var rest;
    rest, s' := ReadToEnd(t, s1, g, k);
    OneStep(t, s, e, rest, s');
    OnlyLaneTwice(s, s1, s', g, k);
    events := [e] + rest;
    StepsKeepInv(t, s, events, s');
  }

  /** Group g worked on any of its lanes. */
  ghost predicate OnlyGroup(s: State, s': State, g: Group) {
    && s'.newLog == s.newLog && s'.seen == s.seen && s'.poller == s.poller
    && s'.letters == s.letters && s'.dropped == s.dropped
    && (forall h :: h != g ==> Lanes(s', h) == Lanes(s, h))
    && (!g.Fetcher? ==> s'.chunkedLog == s.chunkedLog)
  }

  /** From lane k on the group's lanes are drained one after the other. */
  lemma {:induction false} DrainLanes(t: Topology, s: State, g: Group, k: nat) returns (events: seq<Event>, s': State)
    requires ValidTopology(t) && Inv(t, s) && k <= t.parts
    requires forall j :: 0 <= j < k ==> LaneDone(s, g, j)
    ensures Inv(t, s') && Steps(t, s, events, s') && (forall e :: e in events ==> Calm(e)) && OnlyGroup(s, s', g)
    ensures forall j :: 0 <= j < t.parts ==> LaneDone(s', g, j)
    decreases t.parts - k
  {
    hide Steps;
    InvIsShaped(t, s);
    if k == t.parts {
      NoSteps(t, s);
      events, s' := [], s;
    } else {
      var first, s1 := DrainLane(t, s, g, k);
      hide Inv;
      InvIsShaped(t, s1);
      forall j | 0 <= j < k
        ensures LaneDone(s1, g, j)
      {
        OtherLaneStays(s, s1, g, k, j);
      }
      var rest;
      rest, s' := DrainLanes(t, s1, g, k + 1);
      MoreSteps(t, s, first, s1, rest, s');
      events := first + rest;
    }
  }

  lemma InvIsShaped(t: Topology, s: State)
    requires Inv(t, s)
    ensures Shaped(t, s)
  {
  }

  lemma OtherLaneStays(s: State, s': State, g: Group, k: nat, j: nat)
    requires OnlyLane(s, s', g, k) && j != k
    requires j < |s.newLog| == |s.chunkedLog| && j < |Lanes(s, g)| && LaneDone(s, g, j)
    ensures LaneDone(s', g, j)
  {
  }

  ghost predicate GroupDone(t: Topology, s: State, g: Group)
    requires Shaped(t, s)
  {
    forall k :: 0 <= k < t.parts ==> LaneDone(s, g, k)
  }

  lemma GroupStaysDone(t: Topology, s: State, s': State, g: Group, h: Group)
    requires Shaped(t, s) && Shaped(t, s') && OnlyGroup(s, s', g) && h != g && GroupDone(t, s, h)
    requires h.Slow? ==> !g.Fetcher?
    ensures GroupDone(t, s', h)
  {
    forall k | 0 <= k < t.parts
      ensures LaneDone(s', h, k)
    {
      assert LaneDone(s, h, k);
    }
  }

  /** Whatever has happened, all three groups can be drained and committed by ordinary steps, without any dead
      letter: a restart of each consumer, and then documents produced, checked, written and committed. */
  lemma EveryRunCanBeDrained(t: Topology, events: seq<Event>, s: State) returns (more: seq<Event>, s': State)
    requires ValidTopology(t) && Reaches(t, events, s)
    ensures Reaches(t, events + more, s') && forall e :: e in more ==> Calm(e)
    ensures Shaped(t, s') && GroupDone(t, s', Fetcher) && GroupDone(t, s', Fast) && GroupDone(t, s', Slow)
    ensures s'.seen == s.seen && s'.newLog == s.newLog && s'.letters == s.letters && s'.dropped == s.dropped
  {
    hide Inv, Steps, Shaped, GroupDone, LaneDone;
    RunKeepsInv(t, events, s);
    InvIsShaped(t, s);
    var e1, s1 := DrainGroup(t, s, Fetcher);
    InvIsShaped(t, s1);
    var e2, s2 := DrainGroup(t, s1, Fast);
    InvIsShaped(t, s2);
    var e3, s3 := DrainGroup(t, s2, Slow);
    InvIsShaped(t, s3);
    GroupStaysDone(t, s1, s2, Fast, Fetcher);
    GroupStaysDone(t, s2, s3, Slow, Fetcher);
    GroupStaysDone(t, s2, s3, Slow, Fast);
    MoreSteps(t, s1, e2, s2, e3, s3);
    MoreSteps(t, s, e1, s1, e2 + e3, s3);
    more, s' := e1 + (e2 + e3), s3;
    ReachesMore(t, events, s, more, s');
  }

  lemma DrainGroup(t: Topology, s: State, g: Group) returns (events: seq<Event>, s': State)
    requires ValidTopology(t) && Inv(t, s) && Shaped(t, s)
    ensures Inv(t, s') && Steps(t, s, events, s') && (forall e :: e in events ==> Calm(e)) && OnlyGroup(s, s', g)
    ensures Shaped(t, s') && GroupDone(t, s', g)
  {
    hide Inv, Steps, Shaped, LaneDone, OnlyGroup;
    events, s' := DrainLanes(t, s, g, 0);
    InvIsShaped(t, s');
  }

  lemma ReachesMore(t: Topology, events: seq<Event>, s: State, more: seq<Event>, s': State)
    requires Reaches(t, events, s) && Shaped(t, s) && Steps(t, s, more, s')
    ensures Reaches(t, events + more, s')
  {
    hide Steps;
    var init :| Init(t, init) && Steps(t, init, events, s);
    MoreSteps(t, init, events, s, more, s');
  }

  // ---- when a paper is lost ----

  /** The poller marked this version, and nothing is left of it: no row of its paper, no dead letter. */
  ghost predicate Lost(s: State, id: string, version: nat) {
    SeenMember(id, version) in s.seen && id !in s.rows && !LetterFor(s.letters, id, version)
  }

  ghost predicate AllDrained(t: Topology, s: State) {
    Shaped(t, s) && Drained(t, s, Fetcher) && Drained(t, s, Fast) && Drained(t, s, Slow)
  }

  predicate Delivered(e: Event) {
    e.DeadLetter? ==> e.delivered
  }

  lemma DroppedByUndelivered(t: Topology, s: State, e: Event)
    requires Shaped(t, s) && Enabled(t, s, e) && Delivered(e)
    ensures Next(t, s, e).dropped == s.dropped
  {
  }

  lemma {:induction false} NothingDropped(t: Topology, s: State, events: seq<Event>, s': State)
    requires Shaped(t, s) && Steps(t, s, events, s') && forall e :: e in events ==> Delivered(e)
    ensures s'.dropped == s.dropped
    decreases |events|
  {
    hide Next, Enabled;
    if events != [] {
      DroppedByUndelivered(t, s, events[0]);
      NothingDropped(t, Next(t, s, events[0]), events[1..], s');
    }
  }

  /** A run whose dead letters all arrive loses nothing. */
  lemma DeliveredLettersLoseNothing(t: Topology, events: seq<Event>, s: State, id: string, version: nat)
    requires ValidTopology(t) && Reaches(t, events, s) && AllDrained(t, s)
    requires forall e :: e in events ==> Delivered(e)
    ensures !Lost(s, id, version)
  {
    var init :| Init(t, init) && Steps(t, init, events, s);
    NothingDropped(t, init, events, s);
    if SeenMember(id, version) in s.seen {
      NoPaperLost(t, events, s, id, version);
    }
  }

  function Empty(t: Topology): State {
    var idle := seq(t.parts, _ => Lane(0, 0, Ready));
    State({}, Idle, seq(t.parts, _ => []), seq(t.parts, _ => []), idle, idle, idle, map[], {}, {})
  }

  /** A message whose dead letter does not arrive, and its commit. */
  lemma GivingUp(t: Topology, s: State, g: Group, k: nat)
    returns (events: seq<Event>, s': State)
    requires Shaped(t, s) && Consuming(s, g, k) && Lanes(s, g)[k].phase.Ready?
    ensures Shaped(t, s') && Steps(t, s, events, s') && (exists e :: e in events && !Delivered(e))
    ensures s'.newLog == s.newLog && s'.chunkedLog == s.chunkedLog && s'.seen == s.seen && s'.rows == s.rows
    ensures s'.letters == s.letters && forall h :: h != g ==> Lanes(s', h) == Lanes(s, h)
    ensures var next := Lanes(s, g)[k].position + 1;
            Lanes(s', g) == Lanes(s, g)[k := Lane(next, next, Ready)]
  {
    var e1, e2 := DeadLetter(g, k, false), Commit(g, k, true);
    var s1 := Next(t, s, e1);
    s' := Next(t, s1, e2);
    OneStep(t, s1, e2, [], s');
    OneStep(t, s, e1, [e2] + [], s');
    events := [e1] + ([e2] + []);
    assert e1 in events && !Delivered(e1);
  }

  /** The poller sends and marks a paper. */
  lemma Polling(t: Topology, s: State, p: Paper) returns (events: seq<Event>, s': State)
    requires Shaped(t, s) && ValidTopology(t) && s.poller.Idle? && SeenMember(p.id, p.version) !in s.seen
    ensures var k := t.part(p.id);
            k < |s.newLog| &&
            s' == s.(seen := s.seen + {SeenMember(p.id, p.version)}, newLog := s.newLog[k := s.newLog[k] + [p]])
    ensures Shaped(t, s') && Steps(t, s, events, s')
  {
    var s1 := Next(t, s, PollSend(p));
    s' := Next(t, s1, PollMark);
    OneStep(t, s1, PollMark, [], s');
    OneStep(t, s, PollSend(p), [PollMark] + [], s');
    events := [PollSend(p)] + ([PollMark] + []);
  }

  /** And every paper can be lost by letters that do not arrive: the poller sends and marks it, the fetcher and
      the fast worker give it up, and all groups are drained and committed, with nothing left of it. */
  lemma UndeliveredLettersLosePapers(t: Topology, p: Paper) returns (events: seq<Event>, s: State)
    requires ValidTopology(t)
    ensures Reaches(t, events, s) && AllDrained(t, s) && (exists e :: e in events && !Delivered(e))
    ensures Lost(s, p.id, p.version)
  {
    hide Steps, Next, Enabled, SeenMember, Delivered;
    var k := t.part(p.id);
    var init := Empty(t);
    var e0, s0 := Polling(t, init, p);
    assert s0.newLog[k] == [p];
    var e1, s1 := GivingUp(t, s0, Fetcher, k);
    var e2, s2 := GivingUp(t, s1, Fast, k);
    MoreSteps(t, s0, e1, s1, e2, s2);
    MoreSteps(t, init, e0, s0, e1 + e2, s2);
    events, s := e0 + (e1 + e2), s2;
    assert Init(t, init);
    var e :| e in e1 && !Delivered(e);
    assert e in events;
  }

  // ---- messages come at least once ----

  /** A poller that stops between sending a paper and marking it sends it again. */
  lemma PolledTwice(t: Topology, s: State, p: Paper) returns (events: seq<Event>, s': State)
    requires Shaped(t, s) && ValidTopology(t) && s.poller.Idle? && SeenMember(p.id, p.version) !in s.seen
    ensures Shaped(t, s') && Steps(t, s, events, s')
    ensures var k := t.part(p.id);
            k < |s.newLog| &&
            s' == s.(seen := s.seen + {SeenMember(p.id, p.version)}, newLog := s.newLog[k := s.newLog[k] + [p, p]])
  {
    hide SeenMember;
    var k := t.part(p.id);
    var s1 := Next(t, s, PollSend(p));
    var s2 := Next(t, s1, PollCrash);
    var rest;
    rest, s' := Polling(t, s2, p);
    assert s.newLog[k] + [p] + [p] == s.newLog[k] + [p, p];
    OneStep(t, s1, PollCrash, rest, s');
    OneStep(t, s, PollSend(p), [PollCrash] + rest, s');
    events := [PollSend(p)] + ([PollCrash] + rest);
  }

  /** A fetcher that stops between sending a document and committing sends it again. */
  lemma FetchedTwice(t: Topology, s: State, k: nat, source: Source, chunks: seq<Chunk>)
    returns (events: seq<Event>, s': State)
    requires Shaped(t, s) && Consuming(s, Fetcher, k) && s.fetcher[k] == Lane(0, 0, Ready)
    ensures Shaped(t, s') && Steps(t, s, events, s')
    ensures var d := Doc(s.newLog[k][0], source, chunks);
            s'.chunkedLog == s.chunkedLog[k := s.chunkedLog[k] + [d, d]] && s'.newLog == s.newLog && s'.seen == s.seen
  {
    var e, d := Produce(k, source, chunks, true), Doc(s.newLog[k][0], source, chunks);
    var s1 := Next(t, s, e);
    var s2 := Next(t, s1, Crash(Fetcher, k));
    s' := Next(t, s2, e);
    assert s.chunkedLog[k] + [d] + [d] == s.chunkedLog[k] + [d, d];
    OneStep(t, s2, e, [], s');
    OneStep(t, s1, Crash(Fetcher, k), [e] + [], s');
    OneStep(t, s, e, [Crash(Fetcher, k)] + ([e] + []), s');
    events := [e] + ([Crash(Fetcher, k)] + ([e] + []));
  }

  /** Duplicates do happen, for every paper and every document made of it: a crash of the poller and one of the
      fetcher are enough for both topics to hold theirs twice. */
  lemma CrashesRepeatMessages(t: Topology, p: Paper, source: Source, chunks: seq<Chunk>)
    returns (events: seq<Event>, s: State)
    requires ValidTopology(t)
    ensures Reaches(t, events, s) && t.part(p.id) < |s.newLog| == |s.chunkedLog|
    ensures s.newLog[t.part(p.id)] == [p, p] && s.seen == {SeenMember(p.id, p.version)}
    ensures s.chunkedLog[t.part(p.id)] == [Doc(p, source, chunks), Doc(p, source, chunks)]
  {
    hide Steps, Next, Enabled, SeenMember;
    var k, init := t.part(p.id), Empty(t);
    var e0, s0 := PolledTwice(t, init, p);
    assert s0.newLog[k] == [p, p];
    var e1, s1 := FetchedTwice(t, s0, k, source, chunks);
    MoreSteps(t, init, e0, s0, e1, s1);
    events, s := e0 + e1, s1;
    assert Init(t, init);
  }
}
