/** The chunks of a paper in closed form: which windows of which sections they hold, and what they say
    (rust/fetcher/src/chunk.rs:40-81). */
module ChunkerForm {
  import opened Prelude
  import opened Utf8
  import opened Chunker

  /** The k-th window of a section exists if the one before it did not reach the end. */
  ghost predicate Exists(c: Config, n: nat, k: nat)
    requires c.maxTokens > c.overlap
  {
    n >= 8 && (k == 0 || k * (c.maxTokens - c.overlap) + c.overlap < n)
  }

  lemma StepBound(c: Config, n: nat, k: nat)
    requires c.maxTokens > c.overlap && Exists(c, n, k)
    ensures k <= k * (c.maxTokens - c.overlap) < n
  {
    MulMonotone(1, c.maxTokens - c.overlap, k);
  }

  /** The chunk of the k-th window: the section's title, and the text of its tokens cut at whole characters; none if
      only white space is left. */
  ghost function WindowBody(trim: Text -> Text, c: Config, sec: Section, spans: Spans, k: nat): seq<Body>
    requires c.maxTokens > c.overlap && Exists(c, |spans|, k)
  {
    StepBound(c, |spans|, k);
    var a := k * (c.maxTokens - c.overlap);
    var b := if a + c.maxTokens < |spans| then a + c.maxTokens else |spans|;
    var lo, hi := Floor(sec.text, spans[a].lo), Ceil(sec.text, spans[b - 1].hi);
    var slice := if lo <= hi then trim(sec.text[lo..hi]) else [];
    if slice == [] then [] else [Body(sec.title, sec.title + [10] + slice, b - a)]
  }

  /** The chunks of the windows from the k-th on. */
  ghost function WindowBodies(trim: Text -> Text, c: Config, sec: Section, spans: Spans, k: nat): seq<Body>
    requires c.maxTokens > c.overlap
    decreases |spans| - k
  {
    if !Exists(c, |spans|, k) then []
    else
      StepBound(c, |spans|, k);
      WindowBody(trim, c, sec, spans, k) + WindowBodies(trim, c, sec, spans, k + 1)
  }

  /** The chunks of all sections, in order. */
  ghost function PaperBodies(tok: Tokenizer, trim: Text -> Text, c: Config, sections: seq<Section>): seq<Body>
    requires c.maxTokens > c.overlap && forall s :: s in sections ==> tok(s.text).Some?
  {
    if sections == [] then []
    else
      var n := |sections| - 1;
      PaperBodies(tok, trim, c, sections[..n]) + WindowBodies(trim, c, sections[n], tok(sections[n].text).value, 0)
  }

  /** Chunk i is the i-th of title with abstract and the sections' chunks. */
  ghost predicate HoldsFirst(pieces: seq<Piece>, title: Text, abstractText: Text, leadTokens: nat, bodies: seq<Body>) {
    && 1 <= |pieces| <= 1 + |bodies|
    && pieces[0] == Piece(0, Body([97, 98, 115, 116, 114, 97, 99, 116], title + [10, 10] + abstractText,
                                  if leadTokens == 0 then 1 else leadTokens))
    && (forall i :: 1 <= i < |pieces| ==> pieces[i] == Piece(i, bodies[i - 1]))
  }

  lemma {:induction false} BodiesConcat(trim: Text -> Text, a: seq<Job>, b: seq<Job>)
    ensures Bodies(trim, a + b) == Bodies(trim, a) + Bodies(trim, b)
    decreases |b|
  {
    hide BodyOf;
    if b == [] {
      assert a + b == a;
    } else {
      var n := |b| - 1;
      assert (a + b)[..|a| + n] == a + b[..n];
      BodiesConcat(trim, a, b[..n]);
    }
  }

  lemma OneBody(trim: Text -> Text, j: Job)
    ensures Bodies(trim, [j]) == BodyOf(trim, j)
  {
    assert [j][..0] == [];
  }

  /** The windows from the k-th on give the chunks of the closed form. */
  lemma {:induction false} WindowsGiveBodies(trim: Text -> Text, c: Config, sec: Section, spans: Spans, k: nat,
                                             start: nat)
    requires Accepted(c) && Exists(c, |spans|, k) && start == k * (c.maxTokens - c.overlap) < |spans|
    ensures Bodies(trim, JobsOf(sec, spans, Windows(c, |spans|, start))) == WindowBodies(trim, c, sec, spans, k)
    decreases |spans| - start
  {
    hide Windows, JobsOf, Bodies, BodyOf, WindowBody;
    var end := Min(start + c.maxTokens, |spans|);
    var job: Job := Job(sec.title, sec.text, spans, Window(start, end));
    WindowJob(c, sec, spans, start);
    WindowIs(trim, c, sec, spans, k, job);
    OneBody(trim, job);
    assert (k + 1) * (c.maxTokens - c.overlap) == start + c.maxTokens - c.overlap;
    if end == |spans| {
      assert [job] + [] == [job];
      assert WindowBodies(trim, c, sec, spans, k + 1) == [];
    } else {
      WindowsGiveBodies(trim, c, sec, spans, k + 1, end - c.overlap);
      BodiesConcat(trim, [job], JobsOf(sec, spans, Windows(c, |spans|, end - c.overlap)));
    }
  }

  lemma WindowIs(trim: Text -> Text, c: Config, sec: Section, spans: Spans, k: nat, job: Job)
    requires Accepted(c) && Exists(c, |spans|, k)
    requires var start := k * (c.maxTokens - c.overlap);
             start < |spans| && job == Job(sec.title, sec.text, spans, Window(start, Min(start + c.maxTokens, |spans|)))
    ensures BodyOf(trim, job) == WindowBody(trim, c, sec, spans, k)
  {
    hide From, To, Floor, Ceil, BodyOf, Exists;
    StepBound(c, |spans|, k);
    RangeOfJob(trim, job);
  }

  lemma {:induction false} JobsGiveBodies(tok: Tokenizer, trim: Text -> Text, c: Config, sections: seq<Section>)
    requires Accepted(c) && forall s :: s in sections ==> tok(s.text).Some?
    ensures Bodies(trim, Jobs(tok, c, sections)) == PaperBodies(tok, trim, c, sections)
  {
    hide Bodies, WindowBodies, Exists;
    if sections == [] {
      NoBodies(trim);
    } else {
      var n := |sections| - 1;
      var spans := tok(sections[n].text).value;
      JobsGiveBodies(tok, trim, c, sections[..n]);
      BodiesConcat(trim, Jobs(tok, c, sections[..n]), SectionJobs(c, sections[n], spans));
      SectionGivesBodies(trim, c, sections[n], spans);
    }
  }

  lemma NoBodies(trim: Text -> Text)
    ensures Bodies(trim, []) == []
  {
  }

  lemma SectionGivesBodies(trim: Text -> Text, c: Config, sec: Section, spans: Spans)
    requires Accepted(c)
    ensures Bodies(trim, SectionJobs(c, sec, spans)) == WindowBodies(trim, c, sec, spans, 0)
  {
    hide Bodies;
    NoBodies(trim);
    if |spans| >= 8 {
      WindowsGiveBodies(trim, c, sec, spans, 0, 0);
    }
  }

  /** What chunking a paper gives.  When every text can be tokenized: title and abstract, and then the chunks of all
      windows of all sections of at least eight tokens, as many as fit the cap.  A section that cannot be tokenized
      ends that list; the result is an error if the cap was not met before it, and the list cut at the cap if it was
      exceeded. */
  lemma ChunksInClosedForm(tok: Tokenizer, trim: Text -> Text, c: Config, title: Text, abstractText: Text,
                           sections: seq<Section>, n: nat)
    requires Accepted(c) && n <= |sections| && (forall i :: 0 <= i < n ==> tok(sections[i].text).Some?)
    requires n < |sections| ==> tok(sections[n].text).None?
    ensures var r := Chunked(tok, trim, c, title, abstractText, sections);
            var lead := tok(title + [10, 10] + abstractText);
            var bodies := PaperBodies(tok, trim, c, sections[..n]);
            && (lead.None? ==> r.None?)
            && (lead.Some? && n == |sections| ==> r.Some?)
            && (lead.Some? && n < |sections| && 1 + |bodies| < c.maxChunks ==> r.None?)
            && (lead.Some? && 1 + |bodies| > c.maxChunks ==> r.Some?)
            && (r.Some? ==>
                  HoldsFirst(r.value, title, abstractText, |lead.value|, bodies) &&
                  |r.value| == if 1 + |bodies| < c.maxChunks then 1 + |bodies| else c.maxChunks)
  {
    hide Bodies, Jobs, PaperBodies;
    assert Encodable(tok, sections) == n;
    JobsGiveBodies(tok, trim, c, sections[..n]);
    var jobs := Jobs(tok, c, sections[..n]);
    if n < |sections| {
      if RoomThroughout(trim, c, jobs) {
        RoomMeansWithinCap(trim, c, jobs);
      } else {
        var k :| 0 <= k < |jobs| && 1 + |Bodies(trim, jobs[..k])| >= c.maxChunks;
        BodiesPrefix(trim, jobs[..k], jobs);
      }
    }
  }
}
