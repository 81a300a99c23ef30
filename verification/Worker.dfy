/** One worker: parsing, processing with retries, dead letters and the consume loop
    (python/worker/src/arxiv_worker/main.py:65-205).  The database is the one of module Store; what other
    workers do between two statements is the subject of module Pipeline. */
module Worker {
  import opened Prelude
  import opened Documents
  import Guard
  import Store

  const MAX_ATTEMPTS: nat := 3

  type Docs = map<string, Store.Written>

  /** A call that can lose the connection, before or after its transaction committed, or break otherwise. */
  datatype Call = Fine | Broken | Lost | LostAfterCommit

  /** What goes wrong, or not, during one attempt; and whether a lost connection is opened again. */
  datatype Attempt = Attempt(
    precheck: Call, embedding: Option<seq<Store.Vector>>, summary: Option<string>, upsert: Call, reconnects: bool)

  /** The attempts at one message, and whether a dead letter written for it arrives. */
  datatype Plan = Plan(attempt: nat -> Attempt, delivered: bool)

  datatype Message = Garbage | NewPaper(paper: Paper) | Chunked(doc: Doc)

  datatype Reason = IsPoison | RetriesExhausted | DbUnavailable

  datatype Outcome = Stored | Skipped | DeadLettered(reason: Reason, attempts: nat) | Died

  datatype Letter = Letter(message: Message, reason: Reason, attempts: nat)

  function Parse(m: Message): Option<Doc> {
    match m
    case Garbage => None
    case NewPaper(p) => Some(FromAbstract(p))
    case Chunked(d) => Some(d)
  }

  /** How an attempt ends. */
  datatype Step = Done(stored: bool) | Error | ConnectionLost

  datatype Tried = Tried(docs: Docs, step: Step)

  function TryOnce(docs: Docs, doc: Doc, a: Attempt, summaries: bool): Tried {
    var row := Store.Lookup(docs, doc.paper.id);
    if doc.source.Abstract? && a.precheck.Broken? then Tried(docs, Error)
    else if doc.source.Abstract? && !a.precheck.Fine? then Tried(docs, ConnectionLost)
    else if doc.source.Abstract? && Guard.HasFullText(row, doc.paper.version) then Tried(docs, Done(false))
    else if a.embedding.None? || (summaries && a.summary.None?) || a.upsert.Broken? then Tried(docs, Error)
    else if a.upsert.Lost? then Tried(docs, ConnectionLost)
    else
      var w := Store.Written(doc, a.embedding.value);
      var outcome := Store.Expected(row, w);
      if outcome.Raised? then Tried(docs, Error)
      else
        var docs' := if outcome.Stored? then docs[doc.paper.id := w] else docs;
        Tried(docs', if a.upsert.LostAfterCommit? then ConnectionLost else Done(outcome.Stored?))
  }

  datatype Handled = Handled(docs: Docs, outcome: Outcome)

  /** The attempts from the k-th on. */
  function Attempts(docs: Docs, doc: Doc, plan: Plan, summaries: bool, k: nat): Handled
    requires 1 <= k <= MAX_ATTEMPTS
    decreases MAX_ATTEMPTS - k
  {
    var r := TryOnce(docs, doc, plan.attempt(k), summaries);
    match r.step
    case Done(stored) => Handled(r.docs, if stored then Stored else Skipped)
    case ConnectionLost =>
      if !plan.attempt(k).reconnects then Handled(r.docs, Died)
      else if k == MAX_ATTEMPTS then Handled(r.docs, DeadLettered(DbUnavailable, k))
      else Attempts(r.docs, doc, plan, summaries, k + 1)
    case Error =>
      if k == MAX_ATTEMPTS then Handled(r.docs, DeadLettered(RetriesExhausted, k))
      else Attempts(r.docs, doc, plan, summaries, k + 1)
  }

  function HandleMessage(docs: Docs, m: Message, plan: Plan, summaries: bool): Handled {
    match Parse(m)
    case None => Handled(docs, DeadLettered(IsPoison, 1))
    case Some(doc) => Attempts(docs, doc, plan, summaries, 1)
  }

  // ---- what handling a message does to the row ----

  function Row(docs: Docs, id: string): Option<Doc> {
    Store.Lookup(docs, id)
  }

  /** Upserting a document twice is upserting it once. */
  lemma UpsertIsIdempotent(row: Option<Doc>, d: Doc)
    ensures Guard.Upsert(Guard.Upsert(row, d), d) == Guard.Upsert(row, d)
    ensures !Guard.Blocks(row, d) ==> !Guard.Blocks(Guard.Upsert(row, d), d)
  {
  }

  lemma TryOnceIsUpsert(docs: Docs, doc: Doc, a: Attempt, summaries: bool)
    ensures var r := TryOnce(docs, doc, a, summaries);
            var id := doc.paper.id;
            && (forall other :: other != id ==> Row(r.docs, other) == Row(docs, other))
            && (Row(r.docs, id) == Row(docs, id) || Row(r.docs, id) == Guard.Upsert(Row(docs, id), doc))
            && (r.step.Done? ==> Row(r.docs, id) == Guard.Upsert(Row(docs, id), doc) &&
                                 (r.step.stored <==> !Guard.Blocks(Row(docs, id), doc)))
  {
  }

  /** However many attempts it takes, and wherever the connection is lost: a message acts on its paper's row as
      one guarded upsert or not at all, exactly one when it is stored or skipped; it is skipped when the guard
      blocks it and stored when it does not; other papers stay as they are. */
  lemma {:induction false} AttemptsAreOneUpsert(docs: Docs, doc: Doc, plan: Plan, summaries: bool, k: nat)
    requires 1 <= k <= MAX_ATTEMPTS
    ensures var h := Attempts(docs, doc, plan, summaries, k);
            var id := doc.paper.id;
            && (forall other :: other != id ==> Row(h.docs, other) == Row(docs, other))
            && (Row(h.docs, id) == Row(docs, id) || Row(h.docs, id) == Guard.Upsert(Row(docs, id), doc))
            && (h.outcome.Stored? ==> Row(h.docs, id) == Some(doc) && !Guard.Blocks(Row(docs, id), doc))
            && (h.outcome.Skipped? ==> Row(h.docs, id) == Row(docs, id) && Guard.Blocks(Row(docs, id), doc))
            && (h.outcome.DeadLettered? ==> h.outcome.attempts == MAX_ATTEMPTS && !h.outcome.reason.IsPoison?)
    decreases MAX_ATTEMPTS - k
  {
    hide TryOnce, Row;
    TryOnceIsUpsert(docs, doc, plan.attempt(k), summaries);
    var r := TryOnce(docs, doc, plan.attempt(k), summaries);
    UpsertIsIdempotent(Row(docs, doc.paper.id), doc);
    if !r.step.Done? && k < MAX_ATTEMPTS {
      AttemptsAreOneUpsert(r.docs, doc, plan, summaries, k + 1);
    }
  }

  // ---- how a message ends, told from the faults alone ----

  /** Every call of the attempt up to the upsert works. */
  ghost predicate Ready(doc: Doc, a: Attempt, summaries: bool) {
    && (doc.source.Abstract? ==> a.precheck.Fine?)
    && a.embedding.Some? && |a.embedding.value| == |doc.chunks| && (summaries ==> a.summary.Some?)
  }

  /** The attempt meets no fault.  `refused` says that the stored row is full text at least as new as an abstract;
      an abstract is then skipped in the pre-check. */
  ghost predicate Faultless(doc: Doc, a: Attempt, summaries: bool, refused: bool) {
    if refused then a.precheck.Fine?
    else && Ready(doc, a, summaries) && a.upsert.Fine?
         && forall i, j :: 0 <= i < j < |doc.chunks| ==> doc.chunks[i].idx != doc.chunks[j].idx
  }

  /** The attempt ends with the connection lost, in the pre-check, in the upsert, or after its commit. */
  ghost predicate LosesConnection(doc: Doc, a: Attempt, summaries: bool, refused: bool) {
    || (doc.source.Abstract? && (a.precheck.Lost? || a.precheck.LostAfterCommit?))
    || (!refused && a.upsert.Lost? && a.embedding.Some? && (summaries ==> a.summary.Some?)
        && (doc.source.Abstract? ==> a.precheck.Fine?))
    || (!refused && a.upsert.LostAfterCommit? && Ready(doc, a, summaries)
        && forall i, j :: 0 <= i < j < |doc.chunks| ==> doc.chunks[i].idx != doc.chunks[j].idx)
  }

  /** The stored row is full text of the same or a newer version, and the document is only an abstract. */
  ghost predicate Refused(docs: Docs, doc: Doc) {
    && doc.source.Abstract? && doc.paper.id in docs && !docs[doc.paper.id].doc.source.Abstract?
    && docs[doc.paper.id].doc.paper.version >= doc.paper.version
  }

  lemma HowAnAttemptEnds(docs: Docs, doc: Doc, a: Attempt, summaries: bool)
    ensures var r, refused := TryOnce(docs, doc, a, summaries), Refused(docs, doc);
            && (r.step.Done? <==> Faultless(doc, a, summaries, refused))
            && (r.step.ConnectionLost? <==> LosesConnection(doc, a, summaries, refused))
            && (r.step.Done? ==> r.step.stored == !refused)
            && (r.step == Done(true) ==> a.embedding.Some?)
            && (r.step == Done(true) ==> r.docs == docs[doc.paper.id := Store.Written(doc, a.embedding.value)])
            && Refused(r.docs, doc) == refused
  {
  }

  /** Attempt j is reached: no earlier one finished the message, and every connection that was lost is open again. */
  ghost predicate Reached(doc: Doc, plan: Plan, summaries: bool, refused: bool, k: nat, j: nat) {
    forall i: nat :: k <= i < j ==>
      !Faultless(doc, plan.attempt(i), summaries, refused) &&
      (LosesConnection(doc, plan.attempt(i), summaries, refused) ==> plan.attempt(i).reconnects)
  }

  /** A message is stored or skipped by its first faultless attempt, if the process lives to make it; it is
      dead-lettered when three attempts failed, for the reason the third one failed; and the process dies on the
      first lost connection that cannot be opened again. */
  lemma {:induction false} HowAMessageEnds(docs: Docs, doc: Doc, plan: Plan, summaries: bool, k: nat) returns (j: nat)
    requires 1 <= k <= 3
    ensures k <= j <= 3
    ensures var o, refused := Attempts(docs, doc, plan, summaries, k).outcome, Refused(docs, doc);
            var a := plan.attempt(j);
            && Reached(doc, plan, summaries, refused, k, j)
            && (o.Stored? || o.Skipped? <==> Faultless(doc, a, summaries, refused))
            && (o.Skipped? ==> refused) && (o.Stored? ==> !refused)
            && (o.Died? <==> LosesConnection(doc, a, summaries, refused) && !a.reconnects)
            && (o.DeadLettered? ==> j == o.attempts == 3)
            && (o.DeadLettered? ==>
                  o.reason == if LosesConnection(doc, a, summaries, refused) then DbUnavailable else RetriesExhausted)
    ensures var h, id := Attempts(docs, doc, plan, summaries, k), doc.paper.id;
            h.outcome.Stored? ==>
              plan.attempt(j).embedding.Some? && id in h.docs &&
              h.docs[id] == Store.Written(doc, plan.attempt(j).embedding.value)
    decreases 3 - k
  {
    hide TryOnce, Faultless, LosesConnection, Refused;
    var a := plan.attempt(k);
    HowAnAttemptEnds(docs, doc, a, summaries);
    var r := TryOnce(docs, doc, a, summaries);
    if r.step.Done? || (r.step.ConnectionLost? && !a.reconnects) || k == 3 {
      j := k;
    } else {
      j := HowAMessageEnds(r.docs, doc, plan, summaries, k + 1);
    }
  }

  /** What the worker reads a message as: a chunked document as it is, a new paper as its abstract. */
  ghost predicate ReadAs(m: Message, doc: Doc) {
    match m
    case Garbage => false
    case NewPaper(p) => doc == FromAbstract(p)
    case Chunked(d) => doc == d
  }

  /** So a readable message ends stored or skipped if and only if one of three attempts meets no fault and every
      connection lost before it was opened again; an unreadable one is dead-lettered at once. */
  lemma FinishedExactly(docs: Docs, m: Message, doc: Doc, plan: Plan, summaries: bool)
    ensures m.Garbage? ==> HandleMessage(docs, m, plan, summaries) == Handled(docs, DeadLettered(IsPoison, 1))
    ensures ReadAs(m, doc) ==>
              var o, refused := HandleMessage(docs, m, plan, summaries).outcome, Refused(docs, doc);
              (o.Stored? || o.Skipped?) <==>
              exists j: nat :: 1 <= j <= 3 && Faultless(doc, plan.attempt(j), summaries, refused) &&
                               forall i: nat :: 1 <= i < j && LosesConnection(doc, plan.attempt(i), summaries, refused)
                                                ==> plan.attempt(i).reconnects
    ensures ReadAs(m, doc) ==>
              var o, refused := HandleMessage(docs, m, plan, summaries).outcome, Refused(docs, doc);
              o.DeadLettered? <==>
              forall j: nat :: 1 <= j <= 3 ==>
                !Faultless(doc, plan.attempt(j), summaries, refused) &&
                (LosesConnection(doc, plan.attempt(j), summaries, refused) ==> plan.attempt(j).reconnects)
  {
    hide Attempts, Faultless, LosesConnection, Refused, FromAbstract;
    if ReadAs(m, doc) {
      var j := HowAMessageEnds(docs, doc, plan, summaries, 1);
      var o, refused := HandleMessage(docs, m, plan, summaries).outcome, Refused(docs, doc);
      assert Reached(doc, plan, summaries, refused, 1, j);
    }
  }

  // ---- runs of messages ----

  /** The documents after a run, and the outcomes; it ends with the first death. */
  datatype RunResult = RunResult(docs: Docs, outcomes: seq<Outcome>)

  function RunAll(docs: Docs, messages: seq<Message>, plans: seq<Plan>, summaries: bool): (r: RunResult)
    requires |messages| == |plans|
    ensures |r.outcomes| <= |messages|
    ensures forall i :: 0 <= i < |r.outcomes| - 1 ==> !r.outcomes[i].Died?
    ensures |r.outcomes| < |messages| ==> r.outcomes != [] && r.outcomes[|r.outcomes| - 1].Died?
    decreases |messages|
  {
    if messages == [] then RunResult(docs, [])
    else
      var h := HandleMessage(docs, messages[0], plans[0], summaries);
      if h.outcome.Died? then RunResult(h.docs, [h.outcome])
      else
        var rest := RunAll(h.docs, messages[1..], plans[1..], summaries);
        RunResult(rest.docs, [h.outcome] + rest.outcomes)
  }

  /** A history of the paper that holds its finished documents in order, and possibly some that were
      dead-lettered or cut off. */
  ghost predicate History(messages: seq<Message>, outcomes: seq<Outcome>, id: string, h: seq<Doc>)
    requires |outcomes| <= |messages|
    decreases |outcomes|
  {
    if outcomes == [] then h == []
    else
      var doc := Parse(messages[0]);
      var mine := doc.Some? && doc.value.paper.id == id;
      || (mine && h != [] && h[0] == doc.value && History(messages[1..], outcomes[1..], id, h[1..]))
      || ((!mine || !(outcomes[0].Stored? || outcomes[0].Skipped?)) && History(messages[1..], outcomes[1..], id, h))
  }

  /** A whole run acts on each paper's row as the replay of such a history: nothing finished is left out,
      nothing is applied out of order, and retries add nothing. */
  lemma {:induction false} RunIsReplay(docs: Docs, messages: seq<Message>, plans: seq<Plan>, summaries: bool,
                                       id: string)
    returns (h: seq<Doc>)
    requires |messages| == |plans|
    ensures var r := RunAll(docs, messages, plans, summaries);
            History(messages, r.outcomes, id, h) && Row(r.docs, id) == Guard.Replay(Row(docs, id), h)
    decreases |messages|
  {
    hide Attempts, HandleMessage, RunAll, Parse, Row, History, Guard.Replay;
    if messages == [] {
      h := [];
      NoHistory(docs, summaries, id);
    } else {
      var r := RunAll(docs, messages, plans, summaries);
      var first := HandleMessage(docs, messages[0], plans[0], summaries);
      RunUnfold(docs, messages, plans, summaries);
      var rest := RunResult(first.docs, []);
      var more: seq<Doc> := [];
      if first.outcome.Died? {
        NoHistory(first.docs, summaries, id);
      } else {
        more := RunIsReplay(first.docs, messages[1..], plans[1..], summaries, id);
        rest := RunAll(first.docs, messages[1..], plans[1..], summaries);
      }
      assert r == RunResult(rest.docs, [first.outcome] + rest.outcomes);
      assert r.outcomes[1..] == rest.outcomes;
      h := OneMoreInHistory(docs, messages, plans[0], summaries, id, rest.outcomes, more);
    }
  }

  lemma NoHistory(docs: Docs, summaries: bool, id: string)
    ensures RunAll(docs, [], [], summaries) == RunResult(docs, [])
    ensures forall messages :: History(messages, [], id, [])
    ensures Guard.Replay(Row(docs, id), []) == Row(docs, id)
  {
  }

  /** The first message adds its document to the history, if it is of this paper and was applied. */
  lemma OneMoreInHistory(docs: Docs, messages: seq<Message>, plan: Plan, summaries: bool, id: string,
                         outcomes: seq<Outcome>, more: seq<Doc>) returns (h: seq<Doc>)
    requires messages != [] && |outcomes| < |messages| && History(messages[1..], outcomes, id, more)
    ensures var first := HandleMessage(docs, messages[0], plan, summaries);
            && History(messages, [first.outcome] + outcomes, id, h)
            && Guard.Replay(Row(docs, id), h) == Guard.Replay(Row(first.docs, id), more)
  {
    hide Attempts, Row, Guard.Upsert, Guard.Blocks;
    var first := HandleMessage(docs, messages[0], plan, summaries);
    var all := [first.outcome] + outcomes;
    assert all[1..] == outcomes;
    var doc := Parse(messages[0]);
    h := more;
    if doc.Some? {
      AttemptsAreOneUpsert(docs, doc.value, plan, summaries, 1);
      FinishedMeansUpserted(docs, doc.value, first);
      if doc.value.paper.id == id && Row(first.docs, id) == Guard.Upsert(Row(docs, id), doc.value) {
        h := [doc.value] + more;
        assert h[1..] == more;
      }
    }
  }

  lemma FinishedMeansUpserted(docs: Docs, doc: Doc, h: Handled)
    requires h.outcome.Stored? ==> Row(h.docs, doc.paper.id) == Some(doc) && !Guard.Blocks(Row(docs, doc.paper.id), doc)
    requires h.outcome.Skipped? ==>
               Row(h.docs, doc.paper.id) == Row(docs, doc.paper.id) && Guard.Blocks(Row(docs, doc.paper.id), doc)
    ensures h.outcome.Stored? || h.outcome.Skipped? ==>
              Row(h.docs, doc.paper.id) == Guard.Upsert(Row(docs, doc.paper.id), doc)
  {
  }

  /** The documents of a paper among the messages. */
  function DocsOf(messages: seq<Message>, id: string): seq<Doc> {
    if messages == [] then []
    else
      var doc := Parse(messages[0]);
      (if doc.Some? && doc.value.paper.id == id then [doc.value] else []) + DocsOf(messages[1..], id)
  }

  /** Every readable message of the run was stored or skipped. */
  predicate AllFinished(messages: seq<Message>, outcomes: seq<Outcome>) {
    |outcomes| == |messages| &&
    forall i :: 0 <= i < |messages| ==> Parse(messages[i]).None? || outcomes[i].Stored? || outcomes[i].Skipped?
  }

  lemma {:induction false} FinishedHistory(messages: seq<Message>, outcomes: seq<Outcome>, id: string, h: seq<Doc>)
    requires AllFinished(messages, outcomes) && History(messages, outcomes, id, h)
    ensures h == DocsOf(messages, id)
    decreases |messages|
  {
    hide Parse;
    if messages != [] {
      var doc := Parse(messages[0]);
      assert AllFinished(messages[1..], outcomes[1..]);
      if doc.Some? && doc.value.paper.id == id {
        FinishedHistory(messages[1..], outcomes[1..], id, h[1..]);
      } else {
        FinishedHistory(messages[1..], outcomes[1..], id, h);
      }
    }
  }

  lemma {:induction false} DocsOfConcat(a: seq<Message>, b: seq<Message>, id: string)
    ensures DocsOf(a + b, id) == DocsOf(a, id) + DocsOf(b, id)
    decreases |a|
  {
    hide Parse;
    if a == [] {
      assert a + b == b;
    } else {
      assert (a + b)[1..] == a[1..] + b;
      DocsOfConcat(a[1..], b, id);
    }
  }

  /** Redelivery is harmless: a worker that dies or loses a commit after a run and consumes any part of the
      messages' tail again leaves every paper's document as the first run left it.  Retries and lost connections
      on the way do not matter, as long as every readable message ends stored or skipped, both times. */
  lemma RedeliveryIsHarmless(docs: Docs, messages: seq<Message>, plans: seq<Plan>, from: nat, again: seq<Plan>,
                             summaries: bool, id: string)
    requires from <= |messages| == |plans| && |again| == |messages| - from
    requires var first := RunAll(docs, messages, plans, summaries);
             AllFinished(messages, first.outcomes) &&
             AllFinished(messages[from..], RunAll(first.docs, messages[from..], again, summaries).outcomes)
    ensures var first := RunAll(docs, messages, plans, summaries);
            Row(RunAll(first.docs, messages[from..], again, summaries).docs, id) == Row(first.docs, id)
  {
    hide RunAll, History, DocsOf, AllFinished, Row;
    var first := RunAll(docs, messages, plans, summaries);
    var second := RunAll(first.docs, messages[from..], again, summaries);
    var h := RunIsReplay(docs, messages, plans, summaries, id);
    FinishedHistory(messages, first.outcomes, id, h);
    var h' := RunIsReplay(first.docs, messages[from..], again, summaries, id);
    FinishedHistory(messages[from..], second.outcomes, id, h');
    var n := |DocsOf(messages[..from], id)|;
    assert messages == messages[..from] + messages[from..];
    DocsOfConcat(messages[..from], messages[from..], id);
    assert h[n..] == h';
    Guard.ReplaySuffixHarmless(Row(docs, id), h, n);
  }

  /** And then the tables are the same too: links, chunk numbers and texts, and rows up to summaries. */
  lemma RedeliveryLeavesTheTables(norm: string -> string, t: Store.Tables, t': Store.Tables, docs: Docs,
                                  messages: seq<Message>, plans: seq<Plan>, from: nat, again: seq<Plan>,
                                  summaries: bool)
    requires from <= |messages| == |plans| && |again| == |messages| - from
    requires var first := RunAll(docs, messages, plans, summaries);
             var second := RunAll(first.docs, messages[from..], again, summaries);
             && AllFinished(messages, first.outcomes) && AllFinished(messages[from..], second.outcomes)
             && Store.Consistent(norm, t, first.docs) && Store.Consistent(norm, t', second.docs)
             && Store.AuthorsGrow(t.authors, t'.authors)
    ensures t.links == t'.links
    ensures t.chunks.Keys == t'.chunks.Keys
    ensures forall id :: id in t.chunks ==> Store.SameTexts(t.chunks[id], t'.chunks[id])
  {
    var first := RunAll(docs, messages, plans, summaries);
    var second := RunAll(first.docs, messages[from..], again, summaries);
    hide RunAll, AllFinished, Store.Consistent, Store.AuthorsGrow, Store.SameTexts;
    forall id
      ensures Row(second.docs, id) == Row(first.docs, id)
    {
      RedeliveryIsHarmless(docs, messages, plans, from, again, summaries, id);
    }
    SameRowsSameDocuments(first.docs, second.docs);
    Store.TablesFollowDocuments(norm, t, first.docs, t', second.docs);
  }

  lemma SameRowsSameDocuments(docs: Docs, docs': Docs)
    requires forall id :: Row(docs', id) == Row(docs, id)
    ensures Store.SameDocuments(docs, docs')
  {
    forall id
      ensures id in docs <==> id in docs'
      ensures id in docs ==> docs[id].doc == docs'[id].doc
    {
      assert Row(docs', id) == Row(docs, id);
    }
  }

  // ---- the worker ----

  class Worker {
    const db: Store.Database
    const summaries: bool
    const llmModel: string
    var processed: nat
    var failed: nat
    var letters: seq<Letter>   // what reached papers.failed

    constructor (db: Store.Database, summaries: bool, llmModel: string)
      ensures this.db == db && this.summaries == summaries && this.llmModel == llmModel
      ensures processed == failed == 0 && letters == []
    {
      this.db, this.summaries, this.llmModel := db, summaries, llmModel;
      processed, failed, letters := 0, 0, [];
    }

    /** process. */
    method Process(doc: Doc, a: Attempt) returns (step: Step)
      requires db.Valid()
      modifies db
      ensures db.Valid() && Tried(db.docs, step) == TryOnce(old(db.docs), doc, a, summaries)
      ensures Store.AuthorsGrow(old(db.authors), db.authors)
      ensures step == Done(true) ==> db.written != old(db.written)
      ensures db.written != old(db.written) ==>
                doc.paper.id in db.papers &&
                Store.SummaryAfter(Store.RowOf(old(db.papers), doc.paper.id), db.papers[doc.paper.id],
                                   if summaries then a.summary else None, if summaries then Some(llmModel) else None)
      ensures db.written == old(db.written) ==> db.State() == old(db.State())
    {
      hide Store.Consistent, Store.Spelled, Store.SummaryAfter;
      if doc.source.Abstract? {
        if !a.precheck.Fine? {
          return if a.precheck.Broken? then Error else ConnectionLost;
        }
        var full := db.HasFullText(doc.paper.id, doc.paper.version);
        if full {
          return Done(false);
        }
      }
      if a.embedding.None? || (summaries && a.summary.None?) {
        return Error;
      }
      if a.upsert.Broken? {
        return Error;
      }
      if a.upsert.Lost? {
        return ConnectionLost;
      }
      var outcome := db.UpsertPaper(doc, a.embedding.value, if summaries then a.summary else None,
                                     if summaries then Some(llmModel) else None);
      if outcome.Raised? {
        return Error;
      }
      return if a.upsert.LostAfterCommit? then ConnectionLost else Done(outcome.Stored?);
    }

    method DeadLetter(m: Message, reason: Reason, attempts: nat, delivered: bool)
      modifies this
      ensures failed == old(failed) + 1 && processed == old(processed)
      ensures letters == old(letters) + (if delivered then [Letter(m, reason, attempts)] else [])
    {
      failed := failed + 1;
      if delivered {
        letters := letters + [Letter(m, reason, attempts)];
      }
    }

    /** _handle: every message is counted once, as processed or as failed, unless the process dies on it. */
    method Handle(m: Message, plan: Plan) returns (outcome: Outcome)
      requires db.Valid()
      modifies this, db
      ensures db.Valid() && Handled(db.docs, outcome) == HandleMessage(old(db.docs), m, plan, summaries)
      ensures Store.AuthorsGrow(old(db.authors), db.authors)
      ensures processed == old(processed) + (if outcome.Stored? || outcome.Skipped? then 1 else 0)
      ensures failed == old(failed) + (if outcome.DeadLettered? then 1 else 0)
      ensures letters == old(letters) +
                (if outcome.DeadLettered? && plan.delivered then [Letter(m, outcome.reason, outcome.attempts)] else [])
    {
      hide TryOnce, Store.Consistent, Store.Spelled, Store.AuthorsGrow, Store.SummaryAfter;
      Store.StaysAsItIs(db.authors);
      var parsed := Parse(m);
      if parsed.None? {
        DeadLetter(m, IsPoison, 1, plan.delivered);
        return DeadLettered(IsPoison, 1);
      }
      var doc := parsed.value;
      for attempt := 1 to MAX_ATTEMPTS + 1
        invariant db.Valid() && processed == old(processed) && failed == old(failed) && letters == old(letters)
        invariant Store.AuthorsGrow(old(db.authors), db.authors)
        invariant if attempt <= MAX_ATTEMPTS
                  then Attempts(db.docs, doc, plan, summaries, attempt) ==
                       HandleMessage(old(db.docs), m, plan, summaries)
                  else HandleMessage(old(db.docs), m, plan, summaries) ==
                       Handled(db.docs, DeadLettered(DbUnavailable, MAX_ATTEMPTS))
      {
        ghost var before := db.authors;
        var step := Process(doc, plan.attempt(attempt));
        Store.GrowsOnce(old(db.authors), before, db.authors);
        match step
        case Done(stored) =>
          processed := processed + 1;
          return if stored then Stored else Skipped;
        case ConnectionLost =>
          if !plan.attempt(attempt).reconnects {
            return Died;
          }
        case Error =>
          if attempt == MAX_ATTEMPTS {
            DeadLetter(m, RetriesExhausted, attempt, plan.delivered);
            return DeadLettered(RetriesExhausted, attempt);
          }
      }
      DeadLetter(m, DbUnavailable, MAX_ATTEMPTS, plan.delivered);
      return DeadLettered(DbUnavailable, MAX_ATTEMPTS);
    }

    /** run: messages in order, each handled and then committed; a failed commit is only logged.  `quota` is
        the number of messages after which to stop, 0 for none.  Only handled messages are committed. */
    method Run(messages: seq<Message>, plans: seq<Plan>, acked: nat -> bool, quota: nat)
      returns (outcomes: seq<Outcome>, committed: nat)
      requires db.Valid() && |messages| == |plans|
      modifies this, db
      ensures db.Valid() && |outcomes| <= |messages| && Store.AuthorsGrow(old(db.authors), db.authors)
      ensures RunResult(db.docs, outcomes) ==
              RunAll(old(db.docs), messages[..|outcomes|], plans[..|outcomes|], summaries)
      ensures committed <= |outcomes| && (outcomes != [] && outcomes[|outcomes| - 1].Died? ==> committed < |outcomes|)
      ensures committed > 0 ==> acked(committed - 1)
      ensures forall i: nat :: i < |outcomes| && acked(i) && !outcomes[i].Died? ==> i < committed
      ensures |outcomes| < |messages| ==>
                outcomes != [] &&
                (outcomes[|outcomes| - 1].Died? || (quota > 0 && processed + failed >= quota))
      ensures quota > 0 && old(processed + failed) < quota ==> processed + failed <= quota
    {
      hide HandleMessage, RunAll, Store.Consistent, Store.Spelled, Store.AuthorsGrow;
      Store.StaysAsItIs(db.authors);
      outcomes, committed := [], 0;
      RunNothing(db.docs, summaries);
      assert messages[..0] == [] && plans[..0] == [];
      for i := 0 to |messages|
        invariant db.Valid() && |outcomes| == i && committed <= i && Store.AuthorsGrow(old(db.authors), db.authors)
        invariant RunResult(db.docs, outcomes) == RunAll(old(db.docs), messages[..i], plans[..i], summaries)
        invariant Alive(outcomes)
        invariant committed > 0 ==> acked(committed - 1)
        invariant forall j: nat :: j < i && acked(j) ==> j < committed
        invariant quota > 0 && old(processed + failed) < quota ==> processed + failed < quota
      {
        ghost var before := db.authors;
        var outcome := Handle(messages[i], plans[i]);
        Store.GrowsOnce(old(db.authors), before, db.authors);
        RunSnoc(old(db.docs), messages[..i], plans[..i], messages[i], plans[i], summaries);
        assert messages[..i + 1] == messages[..i] + [messages[i]] && plans[..i + 1] == plans[..i] + [plans[i]];
        outcomes := outcomes + [outcome];
        if outcome.Died? {
          return;
        }
        if acked(i) {
          committed := i + 1;
        }
        if quota > 0 && processed + failed >= quota {
          return;
        }
      }
    }
  }

  /** No outcome of the run is a death. */
  predicate Alive(outcomes: seq<Outcome>) {
    forall i :: 0 <= i < |outcomes| ==> !outcomes[i].Died?
  }

  lemma AliveFrom(o: Outcome, rest: seq<Outcome>)
    requires Alive([o] + rest)
    ensures !o.Died? && Alive(rest)
  {
    var all := [o] + rest;
    assert !all[0].Died?;
    forall i | 0 <= i < |rest|
      ensures !rest[i].Died?
    {
      assert all[i + 1] == rest[i];
    }
  }

  lemma OneMore<T>(first: T, middle: seq<T>, last: T)
    ensures [first] + (middle + [last]) == ([first] + middle) + [last]
    ensures ([first] + middle)[0] == first && ([first] + middle)[1..] == middle
    ensures (([first] + middle) + [last])[0] == first && (([first] + middle) + [last])[1..] == middle + [last]
  {
  }

  lemma {:induction false} RunSnoc(docs: Docs, messages: seq<Message>, plans: seq<Plan>, m: Message, plan: Plan,
                                   summaries: bool)
    requires |messages| == |plans| && Alive(RunAll(docs, messages, plans, summaries).outcomes)
    ensures var r := RunAll(docs, messages, plans, summaries);
            var h := HandleMessage(r.docs, m, plan, summaries);
            RunAll(docs, messages + [m], plans + [plan], summaries) == RunResult(h.docs, r.outcomes + [h.outcome])
    decreases |messages|
  {
    hide HandleMessage, RunAll, Alive;
    RunUnfold(docs, messages + [m], plans + [plan], summaries);
    if messages == [] {
      RunNothing(docs, summaries);
      RunNothing(HandleMessage(docs, m, plan, summaries).docs, summaries);
      assert [m][1..] == [] && [plan][1..] == [];
      assert [] + [m] == [m] && [] + [plan] == [plan];
    } else {
      var message, messages', first, plans' := messages[0], messages[1..], plans[0], plans[1..];
      assert messages == [message] + messages' && plans == [first] + plans';
      OneMore(message, messages', m);
      OneMore(first, plans', plan);
      RunUnfold(docs, messages, plans, summaries);
      var h := HandleMessage(docs, message, first, summaries);
      if !h.outcome.Died? {
        var rest := RunAll(h.docs, messages', plans', summaries);
        AliveFrom(h.outcome, rest.outcomes);
        RunSnoc(h.docs, messages', plans', m, plan, summaries);
        OneMore(h.outcome, rest.outcomes, HandleMessage(rest.docs, m, plan, summaries).outcome);
      } else {
        DeathIsNotAlive(h.outcome);
      }
    }
  }

  lemma DeathIsNotAlive(o: Outcome)
    requires o.Died?
    ensures !Alive([o])
  {
    assert [o][0].Died?;
  }

  lemma RunNothing(docs: Docs, summaries: bool)
    ensures RunAll(docs, [], [], summaries) == RunResult(docs, [])
  {
  }

  lemma RunUnfold(docs: Docs, messages: seq<Message>, plans: seq<Plan>, summaries: bool)
    requires |messages| == |plans| > 0
    ensures var h := HandleMessage(docs, messages[0], plans[0], summaries);
            var rest := RunAll(h.docs, messages[1..], plans[1..], summaries);
            RunAll(docs, messages, plans, summaries) ==
            if h.outcome.Died? then RunResult(h.docs, [h.outcome])
            else RunResult(rest.docs, [h.outcome] + rest.outcomes)
  {
  }
}
