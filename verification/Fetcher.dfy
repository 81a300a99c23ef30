/** The fetcher: HTML, else PDF, else abstract only; retries, dead letters and the consume loop
    (rust/fetcher/src/main.rs:86-306). */
module Fetcher {
  import opened Prelude
  import opened Documents
  import Chunker

  const MAX_ATTEMPTS: nat := 3

  type Sections = seq<Chunker.Section>

  /** A download: it fails, there is nothing to download, or it yields the sections that were extracted. */
  datatype Download = Broken | Missing | Text(sections: Sections)

  /** A send to Kafka: it is acknowledged, it fails, or it arrives without being acknowledged. */
  datatype Send = Acked | Refused | Unacked

  datatype Attempt = Attempt(html: Download, pdf: Download, send: Send)

  datatype Config = Config(
    noHtml: bool, noPdf: bool, chunk: (Paper, Sections) -> Option<seq<Chunk>>, valid: Doc -> bool)

  /** The attempts at one message, and whether a dead letter written for it arrives. */
  datatype Plan = Plan(attempt: nat -> Attempt, delivered: bool)

  datatype Message = Garbage | NewPaper(paper: Paper)

  datatype Letter = Letter(message: Message, attempts: nat)

  datatype Outcome = Sent(source: Source) | Failed(attempts: nat)

  // ---- full_text ----

  predicate HtmlTried(c: Config, p: Paper) {
    !c.noHtml && p.meta.htmlUrl.Some?
  }

  /** "No full text exists" is a normal outcome, a failed download is not. */
  function FullText(c: Config, p: Paper, a: Attempt): Option<(Source, Sections)> {
    if HtmlTried(c, p) && a.html.Broken? then None
    else if HtmlTried(c, p) && a.html.Text? && a.html.sections != [] then Some((Html, a.html.sections))
    else if !c.noPdf && a.pdf.Broken? then None
    else if !c.noPdf && a.pdf.Text? && a.pdf.sections != [] then Some((Pdf, a.pdf.sections))
    else Some((Abstract, []))
  }

  // ---- handling a message ----

  /** The document an attempt makes, if nothing fails on the way to the topic. */
  function Made(c: Config, p: Paper, a: Attempt): Option<Doc> {
    match FullText(c, p, a)
    case None => None
    case Some((source, sections)) =>
      match c.chunk(p, sections)
      case None => None
      case Some(chunks) => if c.valid(Doc(p, source, chunks)) then Some(Doc(p, source, chunks)) else None
  }

  datatype Handled = Handled(log: seq<Doc>, outcome: Outcome)

  /** The attempts from the k-th on. */
  function Attempts(log: seq<Doc>, c: Config, p: Paper, plan: Plan, k: nat): Handled
    requires 1 <= k <= MAX_ATTEMPTS
    decreases MAX_ATTEMPTS - k
  {
    var a := plan.attempt(k);
    var made := Made(c, p, a);
    var log' := if made.Some? && !a.send.Refused? then log + [made.value] else log;
    if made.Some? && a.send.Acked? then Handled(log', Sent(made.value.source))
    else if k == MAX_ATTEMPTS then Handled(log', Failed(k))
    else Attempts(log', c, p, plan, k + 1)
  }

  function HandleMessage(log: seq<Doc>, c: Config, m: Message, plan: Plan): Handled {
    match m
    case Garbage => Handled(log, Failed(1))
    case NewPaper(p) => Attempts(log, c, p, plan, 1)
  }

  lemma AttemptsUnfold(log: seq<Doc>, c: Config, p: Paper, plan: Plan, k: nat, log': seq<Doc>, source: Option<Source>)
    requires 1 <= k <= MAX_ATTEMPTS
    requires var a := plan.attempt(k);
             var made := Made(c, p, a);
             && log' == log + (if made.Some? && !a.send.Refused? then [made.value] else [])
             && source == if made.Some? && a.send.Acked? then Some(made.value.source) else None
    ensures Attempts(log, c, p, plan, k) ==
            if source.Some? then Handled(log', Sent(source.value))
            else if k == MAX_ATTEMPTS then Handled(log', Failed(k))
            else Attempts(log', c, p, plan, k + 1)
  {
    hide Made;
    assert log + [] == log;
  }

  /** There is no usable page: the paper has none, pages are switched off, or it has no text. */
  ghost predicate NoHtmlText(c: Config, p: Paper, a: Attempt) {
    c.noHtml || p.meta.htmlUrl.None? || a.html == Missing || a.html == Text([])
  }

  ghost predicate NoPdfText(c: Config, a: Attempt) {
    c.noPdf || a.pdf == Missing || a.pdf == Text([])
  }

  /** The document that an attempt at a paper has to send: the chunks of the text that its source names, from the
      best source that has any. */
  ghost predicate Sends(c: Config, p: Paper, a: Attempt, d: Doc) {
    && d.paper == p && c.valid(d)
    && match d.source
       case Html =>
         && !c.noHtml && p.meta.htmlUrl.Some?
         && a.html.Text? && a.html.sections != [] && c.chunk(p, a.html.sections) == Some(d.chunks)
       case Pdf =>
         && NoHtmlText(c, p, a) && !c.noPdf
         && a.pdf.Text? && a.pdf.sections != [] && c.chunk(p, a.pdf.sections) == Some(d.chunks)
       case Abstract => NoHtmlText(c, p, a) && NoPdfText(c, a) && c.chunk(p, []) == Some(d.chunks)
  }

  lemma MadeIsWhatIsSent(c: Config, p: Paper, a: Attempt, d: Doc)
    ensures Made(c, p, a) == Some(d) <==> Sends(c, p, a, d)
  {
  }

  /** The attempt ends with an acknowledged document. */
  ghost predicate Succeeds(c: Config, p: Paper, plan: Plan, k: nat) {
    plan.attempt(k).send.Acked? && exists d :: Sends(c, p, plan.attempt(k), d)
  }

  lemma SuccessIsMade(c: Config, p: Paper, plan: Plan, k: nat)
    ensures Succeeds(c, p, plan, k) <==> Made(c, p, plan.attempt(k)).Some? && plan.attempt(k).send.Acked?
  {
    var a := plan.attempt(k);
    if Made(c, p, a).Some? {
      MadeIsWhatIsSent(c, p, a, Made(c, p, a).value);
    }
    if d :| Sends(c, p, a, d) {
      MadeIsWhatIsSent(c, p, a, d);
    }
  }

  /** The document reaches the topic. */
  ghost predicate Arrives(c: Config, p: Paper, a: Attempt, d: Doc) {
    Sends(c, p, a, d) && !a.send.Refused?
  }

  /** The documents are, one after the other, those that reach the topic from the attempts k to last. */
  ghost predicate SentBy(docs: seq<Doc>, c: Config, p: Paper, plan: Plan, k: nat, last: nat)
    decreases last + 1 - k
  {
    if k > last then docs == []
    else if exists d :: Arrives(c, p, plan.attempt(k), d) then
      docs != [] && Arrives(c, p, plan.attempt(k), docs[0]) && SentBy(docs[1..], c, p, plan, k + 1, last)
    else SentBy(docs, c, p, plan, k + 1, last)
  }

  lemma SentBefore(docs: seq<Doc>, c: Config, p: Paper, plan: Plan, k: nat, last: nat)
    requires k <= last && SentBy(docs, c, p, plan, k + 1, last)
    ensures var made := Made(c, p, plan.attempt(k));
            SentBy((if made.Some? && !plan.attempt(k).send.Refused? then [made.value] else []) + docs,
                   c, p, plan, k, last)
  {
    hide Made, Sends;
    var a := plan.attempt(k);
    var made := Made(c, p, a);
    forall d
      ensures made == Some(d) <==> Sends(c, p, a, d)
    {
      MadeIsWhatIsSent(c, p, a, d);
    }
    if made.Some? && !a.send.Refused? {
      assert Arrives(c, p, a, made.value);
      assert ([made.value] + docs)[1..] == docs;
    } else {
      assert [] + docs == docs;
    }
  }

  /** Exactly the documents of the attempts k to last reach the topic, unless a send was refused; `last` is the
      first attempt that succeeds, or the third when none does; and the message counts as sent, under the source of
      the document that was acknowledged, exactly when it succeeds. */
  ghost predicate SentUpTo(log: seq<Doc>, h: Handled, c: Config, p: Paper, plan: Plan, k: nat, last: nat) {
    && k <= last <= 3 && log <= h.log && SentBy(h.log[|log|..], c, p, plan, k, last)
    && (forall j: nat :: k <= j < last ==> !Succeeds(c, p, plan, j))
    && (h.outcome.Sent? <==> Succeeds(c, p, plan, last))
    && (h.outcome.Sent? ==> |h.log| > |log| && h.log[|h.log| - 1].source == h.outcome.source &&
                            Arrives(c, p, plan.attempt(last), h.log[|h.log| - 1]))
    && (h.outcome.Failed? ==> last == h.outcome.attempts == 3)
  }

  lemma SentInLast(log: seq<Doc>, h: Handled, c: Config, p: Paper, plan: Plan, k: nat, here: seq<Doc>)
    requires 1 <= k <= 3
    requires var made, send := Made(c, p, plan.attempt(k)), plan.attempt(k).send;
             && here == (if made.Some? && !send.Refused? then [made.value] else [])
             && h.log == log + here
             && (if made.Some? && send.Acked? then h.outcome == Sent(made.value.source)
                 else k == 3 && h.outcome == Failed(3))
    ensures SentUpTo(log, h, c, p, plan, k, k)
  {
    hide Made, Sends, Succeeds;
    var made := Made(c, p, plan.attempt(k));
    SuccessIsMade(c, p, plan, k);
    SentBefore([], c, p, plan, k, k);
    assert h.log[|log|..] == here + [];
    if made.Some? {
      MadeIsWhatIsSent(c, p, plan.attempt(k), made.value);
    }
  }

  lemma SentLater(log: seq<Doc>, h: Handled, c: Config, p: Paper, plan: Plan, k: nat, last: nat, here: seq<Doc>)
    requires 1 <= k < 3 && SentUpTo(log + here, h, c, p, plan, k + 1, last)
    requires var made, send := Made(c, p, plan.attempt(k)), plan.attempt(k).send;
             && here == (if made.Some? && !send.Refused? then [made.value] else [])
             && !(made.Some? && send.Acked?)
    ensures SentUpTo(log, h, c, p, plan, k, last)
  {
    hide Made, SentBy, Succeeds, Arrives;
    SuccessIsMade(c, p, plan, k);
    var later := h.log[|log + here|..];
    SentBefore(later, c, p, plan, k, last);
    assert h.log[|log|..] == here + later;
  }

  lemma {:induction false} SentIsWhatWasDownloaded(log: seq<Doc>, c: Config, p: Paper, plan: Plan, k: nat)
    returns (last: nat)
    requires 1 <= k <= 3
    ensures SentUpTo(log, Attempts(log, c, p, plan, k), c, p, plan, k, last)
    decreases 3 - k
  {
    hide Made, SentUpTo;
    var a := plan.attempt(k);
    var made := Made(c, p, a);
    var here := if made.Some? && !a.send.Refused? then [made.value] else [];
    var h := Attempts(log, c, p, plan, k);
    assert log + [] == log;
    if (made.Some? && a.send.Acked?) || k == 3 {
      last := k;
      SentInLast(log, h, c, p, plan, k, here);
    } else {
      last := SentIsWhatWasDownloaded(log + here, c, p, plan, k + 1);
      SentLater(log, h, c, p, plan, k, last, here);
    }
  }

  /** Only whole documents of this very paper are sent, at most one per attempt; the message counts as sent
      exactly when some attempt succeeds, and then its last document is the one counted; otherwise all
      attempts were used up. */
  lemma AttemptsSendThePaper(log: seq<Doc>, c: Config, p: Paper, plan: Plan, k: nat)
    requires 1 <= k <= MAX_ATTEMPTS
    ensures var h := Attempts(log, c, p, plan, k);
            && log <= h.log && |h.log| <= |log| + MAX_ATTEMPTS + 1 - k
            && (forall i :: |log| <= i < |h.log| ==> h.log[i].paper == p && c.valid(h.log[i]))
            && (h.outcome.Sent? ==> |h.log| > |log| && h.log[|h.log| - 1].source == h.outcome.source)
            && (h.outcome.Sent? <==> exists j: nat :: k <= j <= MAX_ATTEMPTS && Succeeds(c, p, plan, j))
            && (h.outcome.Failed? ==> h.outcome.attempts == MAX_ATTEMPTS)
  {
    hide Attempts, Succeeds, SentBy;
    var h := Attempts(log, c, p, plan, k);
    var last := SentIsWhatWasDownloaded(log, c, p, plan, k);
    var sent := h.log[|log|..];
    SentAreOfPaper(sent, c, p, plan, k, last);
    assert forall i :: |log| <= i < |h.log| ==> h.log[i] == sent[i - |log|];
  }

  lemma {:induction false} SentAreOfPaper(docs: seq<Doc>, c: Config, p: Paper, plan: Plan, k: nat, last: nat)
    requires SentBy(docs, c, p, plan, k, last)
    ensures |docs| <= if k <= last then last + 1 - k else 0
    ensures forall i :: 0 <= i < |docs| ==> docs[i].paper == p && c.valid(docs[i])
    decreases last + 1 - k
  {
    hide Arrives;
    if k <= last {
      if exists d :: Arrives(c, p, plan.attempt(k), d) {
        SentAreOfPaper(docs[1..], c, p, plan, k + 1, last);
        ArrivesIsOfPaper(c, p, plan.attempt(k), docs[0]);
      } else {
        SentAreOfPaper(docs, c, p, plan, k + 1, last);
      }
    }
  }

  lemma ArrivesIsOfPaper(c: Config, p: Paper, a: Attempt, d: Doc)
    requires Arrives(c, p, a, d)
    ensures d.paper == p && c.valid(d)
  {
  }

  /** The download gave text, in an attempt that looks at it. */
  ghost predicate GaveText(tried: bool, d: Download) {
    tried && d.Text? && d.sections != []
  }

  /** A paper goes out as abstract-only, or as PDF text, only if an attempt found for certain that there is nothing
      better: every better source that is enabled answered, and had no text.  A download that fails costs an
      attempt and never quality. */
  lemma {:induction false} DowngradeMeansNothingBetter(log: seq<Doc>, c: Config, p: Paper, plan: Plan, k: nat)
    returns (j: nat)
    requires 1 <= k <= MAX_ATTEMPTS && Attempts(log, c, p, plan, k).outcome.Sent?
    ensures k <= j <= MAX_ATTEMPTS && Succeeds(c, p, plan, j)
    ensures forall i: nat :: k <= i < j ==> !Succeeds(c, p, plan, i)
    ensures var a, source := plan.attempt(j), Attempts(log, c, p, plan, k).outcome.source;
            && (source.Html? <==> GaveText(!c.noHtml && p.meta.htmlUrl.Some?, a.html))
            && (source.Pdf? ==> GaveText(!c.noPdf, a.pdf))
            && (source.Pdf? || source.Abstract? ==> NoHtmlText(c, p, a))
            && (source.Abstract? ==> NoPdfText(c, a))
    decreases MAX_ATTEMPTS - k
  {
    SuccessIsMade(c, p, plan, k);
    hide Succeeds;
    if Succeeds(c, p, plan, k) {
      j := k;
    } else {
      var a := plan.attempt(k);
      var made := Made(c, p, a);
      hide Made, FullText;
      var log' := if made.Some? && !a.send.Refused? then log + [made.value] else log;
      j := DowngradeMeansNothingBetter(log', c, p, plan, k + 1);
    }
  }

  lemma MadeIsOfPaper(c: Config, p: Paper, a: Attempt)
    ensures Made(c, p, a).Some? ==> Made(c, p, a).value.paper == p && c.valid(Made(c, p, a).value)
  {
  }

  // ---- the loop ----

  datatype Stats = Stats(html: nat, pdf: nat, abstractOnly: nat, failed: nat)

  function Total(s: Stats): nat {
    s.html + s.pdf + s.abstractOnly + s.failed
  }

  function Counted(s: Stats, o: Outcome): Stats {
    match o
    case Sent(Html) => s.(html := s.html + 1)
    case Sent(Pdf) => s.(pdf := s.pdf + 1)
    case Sent(Abstract) => s.(abstractOnly := s.abstractOnly + 1)
    case Failed(_) => s.(failed := s.failed + 1)
  }

  class Fetcher {
    const config: Config
    var log: seq<Doc>          // topic papers.chunked
    var letters: seq<Letter>   // what reached papers.failed
    var stats: Stats

    constructor (config: Config, log: seq<Doc>)
      ensures this.config == config && this.log == log && letters == [] && Total(stats) == 0
    {
      this.config, this.log, letters, stats := config, log, [], Stats(0, 0, 0, 0);
    }

    /** full_text and process. */
    method Process(p: Paper, a: Attempt) returns (source: Option<Source>)
      modifies this`log
      ensures var made := Made(config, p, a);
              && log == old(log) + (if made.Some? && !a.send.Refused? then [made.value] else [])
              && source == if made.Some? && a.send.Acked? then Some(made.value.source) else None
      ensures forall d :: Sends(config, p, a, d) ==>
                log == old(log) + (if a.send.Refused? then [] else [d]) &&
                source == (if a.send.Acked? then Some(d.source) else None)
      ensures (forall d :: !Sends(config, p, a, d)) ==> log == old(log) && source == None
    {
      forall d
        ensures Made(config, p, a) == Some(d) <==> Sends(config, p, a, d)
      {
        MadeIsWhatIsSent(config, p, a, d);
      }
      hide Sends;
      var kind, sections: Sections := Abstract, [];
      if HtmlTried(config, p) {
        match a.html
        case Broken => return None;
        case Missing =>
        case Text(s) => if s != [] { kind, sections := Html, s; }
      }
      if kind.Abstract? && !config.noPdf {
        match a.pdf
        case Broken => return None;
        case Missing =>
        case Text(s) => if s != [] { kind, sections := Pdf, s; }
      }
      var chunks := config.chunk(p, sections);
      if chunks.None? || !config.valid(Doc(p, kind, chunks.value)) {
        return None;
      }
      if !a.send.Refused? {
        log := log + [Doc(p, kind, chunks.value)];
      }
      return if a.send.Acked? then Some(kind) else None;
    }

    method Count(o: Outcome)
      modifies this`stats
      ensures stats == Counted(old(stats), o) && Total(stats) == old(Total(stats)) + 1
      ensures stats.html == old(stats.html) + (if o == Sent(Html) then 1 else 0)
      ensures stats.pdf == old(stats.pdf) + (if o == Sent(Pdf) then 1 else 0)
      ensures stats.abstractOnly == old(stats.abstractOnly) + (if o == Sent(Abstract) then 1 else 0)
    {
      match o
      case Sent(Html) => stats := stats.(html := stats.html + 1);
      case Sent(Pdf) => stats := stats.(pdf := stats.pdf + 1);
      case Sent(Abstract) => stats := stats.(abstractOnly := stats.abstractOnly + 1);
      case Failed(_) => stats := stats.(failed := stats.failed + 1);
    }

    method DeadLetter(m: Message, attempts: nat, delivered: bool)
      modifies this`letters
      ensures letters == old(letters) + (if delivered then [Letter(m, attempts)] else [])
    {
      if delivered {
        letters := letters + [Letter(m, attempts)];
      }
    }

    /** handle: whatever happens, exactly one counter goes up, by one. */
    method Handle(m: Message, plan: Plan) returns (outcome: Outcome)
      modifies this
      ensures Handled(log, outcome) == HandleMessage(old(log), config, m, plan)
      ensures m.Garbage? ==> outcome == Failed(1) && log == old(log)
      ensures stats == Counted(old(stats), outcome) && Total(stats) == old(Total(stats)) + 1
      ensures stats.html == old(stats.html) + (if outcome == Sent(Html) then 1 else 0)
      ensures stats.pdf == old(stats.pdf) + (if outcome == Sent(Pdf) then 1 else 0)
      ensures stats.abstractOnly == old(stats.abstractOnly) + (if outcome == Sent(Abstract) then 1 else 0)
      ensures letters == old(letters) +
              (if outcome.Failed? && plan.delivered then [Letter(m, outcome.attempts)] else [])
    {
      hide Made, Attempts, Counted, Total;
      if m.Garbage? {
        Count(Failed(1));
        DeadLetter(m, 1, plan.delivered);
        return Failed(1);
      }
      for attempt := 1 to MAX_ATTEMPTS + 1
        invariant stats == old(stats) && letters == old(letters)
        invariant if attempt <= MAX_ATTEMPTS
                  then Attempts(log, config, m.paper, plan, attempt) == HandleMessage(old(log), config, m, plan)
                  else Handled(log, Failed(MAX_ATTEMPTS)) == HandleMessage(old(log), config, m, plan)
      {
        ghost var before := log;
        var source := Process(m.paper, plan.attempt(attempt));
        AttemptsUnfold(before, config, m.paper, plan, attempt, log, source);
        if source.Some? {
          Count(Sent(source.value));
          return Sent(source.value);
        }
      }
      Count(Failed(MAX_ATTEMPTS));
      DeadLetter(m, MAX_ATTEMPTS, plan.delivered);
      return Failed(MAX_ATTEMPTS);
    }

    /** The consume loop: each message handled and then committed; a failed commit is only logged.  `quota` is
        the number of messages after which to stop, if there is one. */
    method Run(messages: seq<Message>, plans: seq<Plan>, acked: nat -> bool, quota: Option<nat>)
      returns (handled: nat, committed: nat)
      requires |messages| == |plans|
      modifies this
      ensures committed <= handled <= |messages| && (committed > 0 ==> acked(committed - 1))
      ensures Total(stats) == old(Total(stats)) + handled
      ensures log == LogAfter(old(log), config, messages[..handled], plans[..handled])
      ensures forall i: nat :: i < handled && acked(i) ==> i < committed
      ensures handled < |messages| ==> handled > 0 && quota.Some? && Total(stats) >= quota.value
      ensures quota.Some? && old(Total(stats)) < quota.value ==> Total(stats) <= quota.value
      ensures quota.Some? && quota.value <= old(Total(stats)) ==> handled <= 1
    {
      hide HandleMessage, Total, Counted, LogAfter;
      handled, committed := 0, 0;
      NothingLogged(log, config);
      assert messages[..0] == [] && plans[..0] == [];
      while handled < |messages|
        invariant committed <= handled <= |messages| && (committed > 0 ==> acked(committed - 1))
        invariant forall i: nat :: i < handled && acked(i) ==> i < committed
        invariant quota.Some? && handled > 0 ==> Total(stats) < quota.value
        invariant Total(stats) == old(Total(stats)) + handled
        invariant log == LogAfter(old(log), config, messages[..handled], plans[..handled])
      {
        ghost var outcome := Handle(messages[handled], plans[handled]);
        LogAfterNext(old(log), config, messages, plans, handled);
        if acked(handled) {
          committed := handled + 1;
        }
        handled := handled + 1;
        if quota.Some? && Total(stats) >= quota.value {
          break;
        }
      }
    }
  }

  function LogAfter(log: seq<Doc>, c: Config, messages: seq<Message>, plans: seq<Plan>): seq<Doc>
    requires |messages| == |plans|
  {
    if messages == [] then log
    else
      var n := |messages| - 1;
      HandleMessage(LogAfter(log, c, messages[..n], plans[..n]), c, messages[n], plans[n]).log
  }

  lemma NothingLogged(log: seq<Doc>, c: Config)
    ensures LogAfter(log, c, [], []) == log
  {
  }

  lemma LogAfterNext(log: seq<Doc>, c: Config, messages: seq<Message>, plans: seq<Plan>, i: nat)
    requires i < |messages| == |plans|
    ensures LogAfter(log, c, messages[..i + 1], plans[..i + 1]) ==
            HandleMessage(LogAfter(log, c, messages[..i], plans[..i]), c, messages[i], plans[i]).log
  {
    hide HandleMessage;
    assert messages[..i + 1][..i] == messages[..i] && plans[..i + 1][..i] == plans[..i];
  }
}
