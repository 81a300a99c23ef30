/** The ingestion protocol as a state machine: the poller, the fetcher group and the two worker groups
    over partitioned, append-only topics with manual commits, and the papers table they fill.
    Every step is one externally visible operation, so a crash may fall between any two of them. */
module Pipeline {
  import opened Prelude
  import opened Documents
  import opened Versions
  import opened Guard

  /** Partitions per topic, and the partitioner on the message key (the arXiv id). */
  datatype Topology = Topology(parts: nat, part: string -> nat)

  ghost predicate ValidTopology(t: Topology) {
    forall id :: t.part(id) < t.parts
  }

  datatype Group = Fetcher | Fast | Slow

  datatype Stage = FetcherStage | WorkerStage

  /** Dead-letter records carry the original payload. */
  datatype Payload = NewPaper(paper: Paper) | ChunkedDoc(doc: Doc)
  datatype Failed = Failed(stage: Stage, payload: Payload)

  /** What a consumer has done with the message at its position: nothing yet, found no full text in the
      pre-check, or finished it (only the commit is missing). */
  datatype Phase = Ready | Checked | Settled

  /** One partition as one group sees it. */
  datatype Lane = Lane(position: nat, committed: nat, phase: Phase)

  datatype Poller = Idle | Sent(paper: Paper)

  datatype State = State(
    seen: set<string>, poller: Poller,
    newLog: seq<seq<Paper>>, chunkedLog: seq<seq<Doc>>,
    fetcher: seq<Lane>, fast: seq<Lane>, slow: seq<Lane>,
    rows: map<string, Doc>,
    letters: set<Failed>,   // topic papers.failed
    dropped: set<Failed>)   // dead letters whose send failed

  datatype Event =
    | PollSend(paper: Paper)
    | PollMark
    | PollCrash
    | Produce(k: nat, source: Source, chunks: seq<Chunk>, acked: bool)
    | Check(g: Group, k: nat)
    | Write(g: Group, k: nat, acked: bool)
    | Retry(g: Group, k: nat)
    | DeadLetter(g: Group, k: nat, delivered: bool)
    | Commit(g: Group, k: nat, acked: bool)
    | Crash(g: Group, k: nat)

  // ---- reading the state ----

  function Lanes(s: State, g: Group): seq<Lane> {
    match g
    case Fetcher => s.fetcher
    case Fast => s.fast
    case Slow => s.slow
  }

  function WithLane(s: State, g: Group, k: nat, lane: Lane): State
    requires k < |Lanes(s, g)|
  {
    match g
    case Fetcher => s.(fetcher := s.fetcher[k := lane])
    case Fast => s.(fast := s.fast[k := lane])
    case Slow => s.(slow := s.slow[k := lane])
  }

  predicate Shaped(t: Topology, s: State) {
    |s.newLog| == |s.chunkedLog| == |s.fetcher| == |s.fast| == |s.slow| == t.parts
  }

  function LogLength(s: State, g: Group, k: nat): nat
    requires k < |s.newLog| == |s.chunkedLog|
  {
    if g.Slow? then |s.chunkedLog[k]| else |s.newLog[k]|
  }

  function PayloadAt(s: State, g: Group, k: nat, o: nat): Payload
    requires k < |s.newLog| == |s.chunkedLog| && o < LogLength(s, g, k)
  {
    if g.Slow? then ChunkedDoc(s.chunkedLog[k][o]) else NewPaper(s.newLog[k][o])
  }

  /** Worker.parse: a chunked message is itself, a paper becomes an abstract document. */
  function DocOf(p: Payload): Doc {
    match p
    case NewPaper(paper) => FromAbstract(paper)
    case ChunkedDoc(doc) => doc
  }

  function PaperOf(p: Payload): Paper {
    match p
    case NewPaper(paper) => paper
    case ChunkedDoc(doc) => doc.paper
  }

  function Stored(s: State, id: string): Option<Doc> {
    if id in s.rows then Some(s.rows[id]) else None
  }

  function StageOf(g: Group): Stage {
    if g.Fetcher? then FetcherStage else WorkerStage
  }

  /** The consumer of lane (g, k) has a message in hand. */
  predicate Consuming(s: State, g: Group, k: nat)
    requires |s.newLog| == |s.chunkedLog|
  {
    k < |Lanes(s, g)| && k < |s.newLog| && Lanes(s, g)[k].position < LogLength(s, g, k)
  }

  function Current(s: State, g: Group, k: nat): Payload
    requires |s.newLog| == |s.chunkedLog| && Consuming(s, g, k)
  {
    PayloadAt(s, g, k, Lanes(s, g)[k].position)
  }

  // ---- steps ----

  predicate Enabled(t: Topology, s: State, e: Event)
    requires Shaped(t, s)
  {
    match e
    case PollSend(p) => s.poller.Idle? && SeenMember(p.id, p.version) !in s.seen && t.part(p.id) < t.parts
    case PollMark => s.poller.Sent?
    case PollCrash => true
    case Produce(k, _, _, _) => Consuming(s, Fetcher, k) && s.fetcher[k].phase.Ready?
    case Check(g, k) => !g.Fetcher? && Consuming(s, g, k) && Lanes(s, g)[k].phase.Ready?
    case Write(g, k, _) => !g.Fetcher? && Consuming(s, g, k) && Lanes(s, g)[k].phase.Checked?
    case Retry(g, k) => !g.Fetcher? && Consuming(s, g, k) && Lanes(s, g)[k].phase.Checked?
    case DeadLetter(g, k, _) => Consuming(s, g, k) && !Lanes(s, g)[k].phase.Settled?
    case Commit(g, k, _) => Consuming(s, g, k) && Lanes(s, g)[k].phase.Settled?
    case Crash(g, k) => k < t.parts
  }

  function SetPhase(s: State, g: Group, k: nat, phase: Phase): State
    requires k < |Lanes(s, g)|
  {
    WithLane(s, g, k, Lanes(s, g)[k].(phase := phase))
  }

  function StoreDoc(s: State, d: Doc): State {
    if Blocks(Stored(s, d.paper.id), d) then s else s.(rows := s.rows[d.paper.id := d])
  }

  function Next(t: Topology, s: State, e: Event): (s': State)
    requires Shaped(t, s) && Enabled(t, s, e)
    ensures Shaped(t, s')
  {
    match e
    case PollSend(p) =>
      var k := t.part(p.id);
      s.(poller := Sent(p), newLog := s.newLog[k := s.newLog[k] + [p]])
    case PollMark =>
      s.(poller := Idle, seen := s.seen + {SeenMember(s.poller.paper.id, s.poller.paper.version)})
    case PollCrash => s.(poller := Idle)
    case Produce(k, source, chunks, acked) =>
      var d := Doc(Current(s, Fetcher, k).paper, source, chunks);
      var s1 := s.(chunkedLog := s.chunkedLog[k := s.chunkedLog[k] + [d]]);
      if acked then SetPhase(s1, Fetcher, k, Settled) else s1
    case Check(g, k) =>
      var d := DocOf(Current(s, g, k));
      SetPhase(s, g, k, if Blocks(Stored(s, d.paper.id), d) then Settled else Checked)
    case Write(g, k, acked) =>
      SetPhase(StoreDoc(s, DocOf(Current(s, g, k))), g, k, if acked then Settled else Ready)
    case Retry(g, k) => SetPhase(s, g, k, Ready)
    case DeadLetter(g, k, delivered) =>
      var f := Failed(StageOf(g), Current(s, g, k));
      var s1 := if delivered then s.(letters := s.letters + {f}) else s.(dropped := s.dropped + {f});
      SetPhase(s1, g, k, Settled)
    case Commit(g, k, acked) =>
      var lane := Lanes(s, g)[k];
      WithLane(s, g, k,
        Lane(lane.position + 1, if acked then lane.position + 1 else lane.committed, Ready))
    case Crash(g, k) =>
      var lane := Lanes(s, g)[k];
      WithLane(s, g, k, Lane(lane.committed, lane.committed, Ready))
  }

  predicate Init(t: Topology, s: State) {
    && Shaped(t, s)
    && s.seen == {} && s.poller.Idle? && s.rows == map[] && s.letters == {} && s.dropped == {}
    && (forall k :: 0 <= k < t.parts ==>
          s.newLog[k] == [] && s.chunkedLog[k] == [] &&
          s.fetcher[k] == s.fast[k] == s.slow[k] == Lane(0, 0, Ready))
  }

  /** The events lead from s to s'.  Every prefix of a run is a run, so a statement about the last state
      of every run from Init speaks of every state of every run. */
  ghost predicate Steps(t: Topology, s: State, events: seq<Event>, s': State)
    requires Shaped(t, s)
    decreases |events|
  {
    if events == [] then s' == s
    else Enabled(t, s, events[0]) && Steps(t, Next(t, s, events[0]), events[1..], s')
  }

  ghost predicate Reaches(t: Topology, events: seq<Event>, s: State) {
    exists init :: Init(t, init) && Steps(t, init, events, s)
  }

  lemma NoSteps(t: Topology, s: State)
    requires Shaped(t, s)
    ensures Steps(t, s, [], s)
  {
  }

  lemma OneStep(t: Topology, s: State, e: Event, rest: seq<Event>, s': State)
    requires Shaped(t, s) && Enabled(t, s, e) && Steps(t, Next(t, s, e), rest, s')
    ensures Steps(t, s, [e] + rest, s')
  {
    hide Next, Enabled;
    assert ([e] + rest)[1..] == rest;
  }

  lemma {:induction false} MoreSteps(t: Topology, s: State, first: seq<Event>, mid: State, rest: seq<Event>, s': State)
    requires Shaped(t, s) && Steps(t, s, first, mid) && Shaped(t, mid) && Steps(t, mid, rest, s')
    ensures Steps(t, s, first + rest, s')
    decreases |first|
  {
    hide Next, Enabled;
    if first == [] {
      assert first + rest == rest;
    } else {
      MoreSteps(t, Next(t, s, first[0]), first[1..], mid, rest, s');
      assert (first + rest)[1..] == first[1..] + rest;
    }
  }

  // ---- invariant 1: nothing is lost ----

  ghost predicate SeenWasProduced(t: Topology, s: State)
    requires Shaped(t, s)
  {
    && (s.poller.Sent? ==> t.part(s.poller.paper.id) < t.parts &&
                           s.poller.paper in s.newLog[t.part(s.poller.paper.id)])
    && (forall m :: m in s.seen ==>
          exists k, o :: 0 <= k < t.parts && 0 <= o < |s.newLog[k]| &&
                         SeenMember(s.newLog[k][o].id, s.newLog[k][o].version) == m)
  }

  /** Messages sit on the partition of their key, and what the fetcher sends on came in. */
  ghost predicate LogsWellFormed(t: Topology, s: State)
    requires Shaped(t, s)
  {
    && (forall k, o :: 0 <= k < t.parts && 0 <= o < |s.newLog[k]| ==> t.part(s.newLog[k][o].id) == k)
    && (forall k, o :: 0 <= k < t.parts && 0 <= o < |s.chunkedLog[k]| ==>
          s.chunkedLog[k][o].paper in s.newLog[k])
  }

  predicate LaneOk(s: State, g: Group, k: nat)
    requires k < |s.newLog| == |s.chunkedLog| && k < |Lanes(s, g)|
  {
    var lane := Lanes(s, g)[k];
    lane.committed <= lane.position <= LogLength(s, g, k) &&
    (!lane.phase.Ready? ==> lane.position < LogLength(s, g, k))
  }

  ghost predicate LanesOk(t: Topology, s: State)
    requires Shaped(t, s)
  {
    forall g, k {:trigger LaneOk(s, g, k)} :: 0 <= k < t.parts ==> LaneOk(s, g, k)
  }

  /** The message at offset o was finished by the group at least once since its last rewind. */
  predicate Done(s: State, g: Group, k: nat, o: nat)
    requires k < |Lanes(s, g)|
  {
    var lane := Lanes(s, g)[k];
    o < lane.position || (o == lane.position && lane.phase.Settled?)
  }

  ghost predicate DeadLettered(s: State, g: Group, p: Payload) {
    Failed(StageOf(g), p) in s.letters || Failed(StageOf(g), p) in s.dropped
  }

  ghost predicate ChunkedSomewhere(s: State, k: nat, p: Paper)
    requires k < |s.chunkedLog|
  {
    exists o :: 0 <= o < |s.chunkedLog[k]| && s.chunkedLog[k][o].paper == p
  }

  /** What a finished message leaves behind. */
  ghost predicate Outcome(s: State, g: Group, k: nat, o: nat)
    requires k < |s.newLog| == |s.chunkedLog| && o < LogLength(s, g, k)
  {
    var p := PayloadAt(s, g, k, o);
    || DeadLettered(s, g, p)
    || (if g.Fetcher? then ChunkedSomewhere(s, k, PaperOf(p)) else PaperOf(p).id in s.rows)
  }

  ghost predicate OutcomesRecorded(t: Topology, s: State)
    requires Shaped(t, s)
  {
    forall g, k, o {:trigger Done(s, g, k, o)} ::
      0 <= k < t.parts && 0 <= o < LogLength(s, g, k) && Done(s, g, k, o) ==> Outcome(s, g, k, o)
  }

  // ---- invariant 2: the last full text prevails ----

  /** Some version of the document's paper on papers.new is newer than the document. */
  ghost predicate Overtaken(s: State, k: nat, d: Doc)
    requires k < |s.newLog|
  {
    exists o :: 0 <= o < |s.newLog[k]| && s.newLog[k][o].id == d.paper.id && s.newLog[k][o].version > d.paper.version
  }

  ghost predicate Anchored(s: State, k: nat, d: Doc)
    requires k < |s.newLog|
  {
    Stored(s, d.paper.id) == Some(d) || Overtaken(s, k, d) || DeadLettered(s, Slow, ChunkedDoc(d))
  }

  /** Offset i holds full text of the same paper as offset j, at or after it, and that text is stored,
      overtaken by a newer version, or dead-lettered. */
  ghost predicate Anchor(s: State, k: nat, j: nat, i: nat)
    requires k < |s.newLog| == |s.chunkedLog| && j < |s.chunkedLog[k]|
  {
    && j <= i < |s.chunkedLog[k]|
    && s.chunkedLog[k][i].paper.id == s.chunkedLog[k][j].paper.id
    && FullDoc(s.chunkedLog[k][i])
    && Anchored(s, k, s.chunkedLog[k][i])
  }

  ghost predicate HasAnchor(s: State, k: nat, j: nat)
    requires k < |s.newLog| == |s.chunkedLog| && j < |s.chunkedLog[k]|
  {
    exists i: nat :: Anchor(s, k, j, i)
  }

  ghost predicate FullTextAnchored(t: Topology, s: State)
    requires Shaped(t, s)
  {
    forall k, j {:trigger s.chunkedLog[k][j]} ::
      0 <= k < t.parts && 0 <= j < |s.chunkedLog[k]| && Done(s, Slow, k, j) && FullDoc(s.chunkedLog[k][j])
      ==> HasAnchor(s, k, j)
  }

  /** Every stored row is, whole, the document of one message of its paper. */
  ghost predicate RowsAreMessages(t: Topology, s: State)
    requires Shaped(t, s)
  {
    forall id :: id in s.rows ==>
      && s.rows[id].paper.id == id
      && t.part(id) < t.parts
      && s.rows[id].paper in s.newLog[t.part(id)]
      && (s.rows[id] in s.chunkedLog[t.part(id)] || s.rows[id] == FromAbstract(s.rows[id].paper))
  }

  ghost predicate Inv(t: Topology, s: State) {
    && Shaped(t, s)
    && SeenWasProduced(t, s)
    && LogsWellFormed(t, s)
    && LanesOk(t, s)
    && OutcomesRecorded(t, s)
    && RowsAreMessages(t, s)
    && FullTextAnchored(t, s)
  }
}
