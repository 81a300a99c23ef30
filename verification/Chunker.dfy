/** Token-window chunking (rust/fetcher/src/chunk.rs:17-81). */
module Chunker {
  import opened Prelude
  import opened Utf8
  import Documents
  import Store

  const NEWLINE: Byte := 10
  const MIN_TOKENS: nat := 8
  const ABSTRACT: Text := [97, 98, 115, 116, 114, 97, 99, 116]   // "abstract"

  /** Byte range of a token. */
  datatype Span = Span(lo: nat, hi: nat)

  predicate Ordered(spans: seq<Span>) {
    && (forall i :: 0 <= i < |spans| ==> spans[i].lo <= spans[i].hi)
    && (forall i, j :: 0 <= i <= j < |spans| ==> spans[i].lo <= spans[j].lo)
  }

  /** What a tokenizer returns: token positions in text order. */
  type Spans = s: seq<Span> | Ordered(s)

  datatype Section = Section(title: Text, text: Text)

  datatype Config = Config(maxTokens: nat, overlap: nat, maxChunks: nat)

  /** Chunker::new refuses any other. */
  predicate Accepted(c: Config) {
    c.maxTokens > c.overlap && c.maxChunks >= 1
  }

  // ---- windows ----

  datatype Window = Window(start: nat, end: nat)

  /** Windows of a section of n tokens, from a start position on. */
  function Windows(c: Config, n: nat, start: nat): (ws: seq<Window>)
    requires c.maxTokens > c.overlap && start < n
    ensures ws != [] && forall w :: w in ws ==> w.start < w.end <= n
    decreases n - start
  {
    var end := Min(start + c.maxTokens, n);
    [Window(start, end)] + (if end == n then [] else Windows(c, n, end - c.overlap))
  }

  lemma WindowsUnfold(c: Config, n: nat, start: nat)
    requires c.maxTokens > c.overlap && start < n
    ensures start + c.maxTokens >= n ==> Windows(c, n, start) == [Window(start, n)]
    ensures start + c.maxTokens < n ==>
              var rest := Windows(c, n, start + c.maxTokens - c.overlap);
              Windows(c, n, start) == [Window(start, start + c.maxTokens)] + rest && Windows(c, n, start)[1..] == rest
  {
  }

  function WindowCount(c: Config, n: nat): nat
    requires c.maxTokens > c.overlap
  {
    if n <= c.maxTokens then 1 else 1 + CeilDiv(n - c.maxTokens, c.maxTokens - c.overlap)
  }

  lemma AtLeastOnce(k: int, b: nat)
    requires k >= 1
    ensures k * b >= b
  {
    assert k * b == (k - 1) * b + b;
  }

  lemma QuotientIsUnique(a: nat, b: nat, q: nat, r: nat)
    requires a == q * b + r && r < b
    ensures a / b == q
  {
    var q', r' := a / b, a % b;
    assert a == q' * b + r';
    assert (q - q') * b == r' - r;
    if q > q' {
      AtLeastOnce(q - q', b);
    } else if q < q' {
      assert (q' - q) * b == r - r';
      AtLeastOnce(q' - q, b);
    }
  }

  lemma CeilDivStep(a: nat, b: nat)
    requires b > 0
    ensures 0 < a <= b ==> CeilDiv(a, b) == 1
    ensures a > b ==> CeilDiv(a, b) == 1 + CeilDiv(a - b, b)
  {
    if a > b {
      var x := a - 1;
      assert x == (x / b) * b + x % b;
      assert x + b == (x / b + 1) * b + x % b;
      QuotientIsUnique(x + b, b, x / b + 1, x % b);
    } else if a > 0 {
      QuotientIsUnique(a + b - 1, b, 1, a - 1);
    }
  }

  /** Where the k-th window from a start position lies. */
  predicate Lies(c: Config, n: nat, start: nat, k: nat, w: Window)
    requires c.maxTokens > c.overlap
  {
    w.start == start + k * (c.maxTokens - c.overlap) && w.end == Min(w.start + c.maxTokens, n)
  }

  lemma LiesLater(c: Config, n: nat, start: nat, k: nat, w: Window)
    requires c.maxTokens > c.overlap && k > 0 && Lies(c, n, start + (c.maxTokens - c.overlap), k - 1, w)
    ensures Lies(c, n, start, k, w)
  {
    var step := c.maxTokens - c.overlap;
    assert (k - 1) * step + step == k * step;
  }

  /** Closed form: how many windows there are, and where each lies. */
  lemma {:induction false} WindowsClosedForm(c: Config, n: nat, start: nat)
    requires c.maxTokens > c.overlap && start < n
    ensures |Windows(c, n, start)| == WindowCount(c, n - start)
    ensures forall k: nat :: k < |Windows(c, n, start)| ==> Lies(c, n, start, k, Windows(c, n, start)[k])
    ensures forall k: nat :: k < |Windows(c, n, start)| ==>
              (Windows(c, n, start)[k].end == n <==> k == |Windows(c, n, start)| - 1)
    decreases n - start
  {
    hide Windows, CeilDiv, Lies;
    var step := c.maxTokens - c.overlap;
    var ws := Windows(c, n, start);
    WindowsUnfold(c, n, start);
    LiesFirst(c, n, start);
    if start + c.maxTokens < n {
      var rest := Windows(c, n, start + step);
      WindowsClosedForm(c, n, start + step);
      CeilDivStep(n - start - c.maxTokens, step);
      forall k: nat | 1 <= k < |ws|
        ensures Lies(c, n, start, k, ws[k]) && (ws[k].end == n <==> k == |ws| - 1)
      {
        assert ws[k] == rest[k - 1];
        LiesLater(c, n, start, k, ws[k]);
      }
    }
  }

  lemma LiesFirst(c: Config, n: nat, start: nat)
    requires c.maxTokens > c.overlap && start < n
    ensures Lies(c, n, start, 0, Window(start, Min(start + c.maxTokens, n)))
  {
  }

  /** Consecutive windows share exactly the overlap, and each one brings new tokens. */
  lemma WindowsOverlapExactly(c: Config, n: nat, k: nat)
    requires c.maxTokens > c.overlap && 0 < n && k + 1 < |Windows(c, n, 0)|
    ensures var ws := Windows(c, n, 0);
            ws[k].end - ws[k + 1].start == c.overlap && ws[k + 1].end > ws[k].end
  {
    WindowsClosedForm(c, n, 0);
    var step := c.maxTokens - c.overlap;
    assert (k + 1) * step == k * step + step;
    var ws := Windows(c, n, 0);
    assert ws[k].end != n;
  }

  predicate LongerThan(ws: seq<Window>, overlap: nat, n: nat) {
    forall k :: 0 <= k < |ws| ==> ws[k].start + overlap <= ws[k].end <= n
  }

  /** The tokens of the windows, each without its first `overlap` ones. */
  function DropOverlaps<T>(tokens: seq<T>, ws: seq<Window>, overlap: nat): seq<T>
    requires LongerThan(ws, overlap, |tokens|)
  {
    if ws == [] then [] else tokens[ws[0].start + overlap..ws[0].end] + DropOverlaps(tokens, ws[1..], overlap)
  }

  /** The windows after a first one that ends at `from` give the tokens from there on. */
  lemma {:induction false} RestReconstructs<T>(c: Config, tokens: seq<T>, start: nat, from: nat)
    requires c.maxTokens > c.overlap && from == start + c.overlap < |tokens|
    ensures LongerThan(Windows(c, |tokens|, start), c.overlap, |tokens|)
    ensures DropOverlaps(tokens, Windows(c, |tokens|, start), c.overlap) == tokens[from..]
    decreases |tokens| - start
  {
    hide Windows, LongerThan, DropOverlaps;
    WindowsUnfold(c, |tokens|, start);
    if start + c.maxTokens < |tokens| {
      var next := start + c.maxTokens - c.overlap;
      RestReconstructs(c, tokens, next, start + c.maxTokens);
      DropUnfold(tokens, Window(start, start + c.maxTokens), Windows(c, |tokens|, next), c.overlap);
      SplitFrom(tokens, from, start + c.maxTokens);
    } else {
      DropNone(tokens, c.overlap);
      assert [Window(start, |tokens|)] + [] == [Window(start, |tokens|)];
      DropUnfold(tokens, Window(start, |tokens|), [], c.overlap);
      SplitFrom(tokens, from, |tokens|);
      assert tokens[|tokens|..] == [];
    }
  }

  lemma DropUnfold<T>(tokens: seq<T>, w: Window, rest: seq<Window>, overlap: nat)
    requires LongerThan(rest, overlap, |tokens|) && w.start + overlap <= w.end <= |tokens|
    ensures LongerThan([w] + rest, overlap, |tokens|)
    ensures DropOverlaps(tokens, [w] + rest, overlap) ==
            tokens[w.start + overlap..w.end] + DropOverlaps(tokens, rest, overlap)
  {
    assert ([w] + rest)[1..] == rest;
  }

  lemma DropNone<T>(tokens: seq<T>, overlap: nat)
    ensures LongerThan([], overlap, |tokens|) && DropOverlaps(tokens, [], overlap) == []
  {
  }

  lemma SplitFrom<T>(tokens: seq<T>, from: nat, k: nat)
    requires from <= k <= |tokens|
    ensures tokens[from..k] + tokens[k..] == tokens[from..]
  {
  }

  /** Dropping the overlaps gives back the token sequence of the section. */
  lemma WindowsReconstruct<T>(c: Config, tokens: seq<T>)
    requires c.maxTokens > c.overlap && tokens != []
    ensures var ws := Windows(c, |tokens|, 0);
            LongerThan(ws[1..], c.overlap, |tokens|) &&
            tokens[..ws[0].end] + DropOverlaps(tokens, ws[1..], c.overlap) == tokens
  {
    var ws := Windows(c, |tokens|, 0);
    ReconstructFrom(c, tokens, 0, ws);
    assert tokens[0..ws[0].end] == tokens[..ws[0].end] && tokens[0..] == tokens;
  }

  lemma ReconstructFrom<T>(c: Config, tokens: seq<T>, start: nat, ws: seq<Window>)
    requires c.maxTokens > c.overlap && start < |tokens| && ws == Windows(c, |tokens|, start)
    ensures LongerThan(ws[1..], c.overlap, |tokens|)
    ensures tokens[start..ws[0].end] + DropOverlaps(tokens, ws[1..], c.overlap) == tokens[start..]
  {
    hide Windows, LongerThan, DropOverlaps;
    WindowsUnfold(c, |tokens|, start);
    if start + c.maxTokens < |tokens| {
      RestReconstructs(c, tokens, start + c.maxTokens - c.overlap, start + c.maxTokens);
      SplitFrom(tokens, start, start + c.maxTokens);
    } else {
      assert ws[1..] == [];
      DropNone(tokens, c.overlap);
      SplitFrom(tokens, start, |tokens|);
      assert tokens[|tokens|..] == [];
    }
  }

  // ---- byte ranges ----

  /** A window of a tokenized section. */
  datatype RawJob = Job(title: Text, text: Text, spans: Spans, w: Window)

  type Job = j: RawJob | j.w.start < j.w.end <= |j.spans| witness Job([], [], [Span(0, 0)], Window(0, 1))

  function From(j: Job): (b: nat)
    ensures b <= |j.text| && IsBoundary(j.text, b)
  {
    Floor(j.text, j.spans[j.w.start].lo)
  }

  function To(j: Job): (b: nat)
    ensures From(j) <= b <= |j.text| && IsBoundary(j.text, b)
  {
    Ceil(j.text, j.spans[j.w.end - 1].hi)
  }

  function JobsOf(sec: Section, spans: Spans, ws: seq<Window>): (r: seq<Job>)
    requires forall w :: w in ws ==> w.start < w.end <= |spans|
    ensures |r| == |ws|
    ensures forall i :: 0 <= i < |ws| ==> r[i] == Job(sec.title, sec.text, spans, ws[i])
  {
    if ws == [] then []
    else
      var first: Job := Job(sec.title, sec.text, spans, ws[0]);
      [first] + JobsOf(sec, spans, ws[1..])
  }

  function SectionJobs(c: Config, sec: Section, spans: Spans): seq<Job>
    requires Accepted(c)
  {
    if |spans| < MIN_TOKENS then [] else JobsOf(sec, spans, Windows(c, |spans|, 0))
  }

  /** With any overlap at all, the byte ranges of a section's windows leave no byte uncovered between the
      first token and the last. */
  lemma {:induction false} NoGap(c: Config, sec: Section, spans: Spans, k: nat, p: nat)
    requires Accepted(c) && c.overlap >= 1 && k < |SectionJobs(c, sec, spans)|
    requires From(SectionJobs(c, sec, spans)[0]) <= p < To(SectionJobs(c, sec, spans)[k])
    ensures exists i :: 0 <= i <= k && From(SectionJobs(c, sec, spans)[i]) <= p < To(SectionJobs(c, sec, spans)[i])
  {
    hide Windows, ValidUtf8, From, To;
    var jobs := SectionJobs(c, sec, spans);
    if k > 0 && p < From(jobs[k]) {
      WindowsOverlapExactly(c, |spans|, k - 1);
      var a, b := jobs[k - 1], jobs[k];
      assert b.w.start <= a.w.end - 1;
      assert spans[b.w.start].lo <= spans[a.w.end - 1].lo <= spans[a.w.end - 1].hi;
      NoGapBetween(a, b);
      NoGap(c, sec, spans, k - 1, p);
    }
  }

  lemma NoGapBetween(a: Job, b: Job)
    requires a.text == b.text && b.spans[b.w.start].lo <= a.spans[a.w.end - 1].hi
    ensures From(b) <= To(a)
  {
  }

  /** A slice never splits a character of valid text. */
  lemma SlicesAreValid(j: Job)
    requires ValidUtf8(j.text)
    ensures ValidUtf8(j.text[From(j)..To(j)])
  {
    hide ValidUtf8, Floor, Ceil, IsBoundary;
    SliceIsValid(j.text, j.spans[j.w.start].lo, j.spans[j.w.end - 1].hi);
  }

  // ---- the chunks of a paper ----

  datatype Body = Body(section: Text, text: Text, tokenCount: nat)

  datatype Piece = Piece(idx: nat, body: Body)

  /** The chunk of a window, unless only white space is left of it. */
  function BodyOf(trim: Text -> Text, j: Job): seq<Body> {
    var slice := trim(j.text[From(j)..To(j)]);
    if slice == [] then [] else [Body(j.title, j.title + [NEWLINE] + slice, j.w.end - j.w.start)]
  }

  function Bodies(trim: Text -> Text, jobs: seq<Job>): seq<Body> {
    if jobs == [] then [] else Bodies(trim, jobs[..|jobs| - 1]) + BodyOf(trim, jobs[|jobs| - 1])
  }

  type Tokenizer = Text -> Option<Spans>

  /** Number of leading sections that the tokenizer accepts. */
  function Encodable(tok: Tokenizer, sections: seq<Section>): (n: nat)
    ensures n <= |sections|
    ensures forall i :: 0 <= i < n ==> tok(sections[i].text).Some?
    ensures n < |sections| ==> tok(sections[n].text).None?
  {
    if sections == [] || tok(sections[0].text).None? then 0
    else
      var n := Encodable(tok, sections[1..]);
      assert forall i :: 1 <= i <= n ==> sections[i] == sections[1..][i - 1];
      1 + n
  }

  /** Every window of every section of at least eight tokens, in order. */
  function Jobs(tok: Tokenizer, c: Config, sections: seq<Section>): seq<Job>
    requires Accepted(c) && forall s :: s in sections ==> tok(s.text).Some?
  {
    if sections == [] then []
    else
      var last := sections[|sections| - 1];
      Jobs(tok, c, sections[..|sections| - 1]) + SectionJobs(c, last, tok(last.text).value)
  }

  function Lead(tok: Tokenizer, title: Text, abstractText: Text): Option<Body> {
    var text := title + [NEWLINE, NEWLINE] + abstractText;
    match tok(text)
    case None => None
    case Some(spans) => Some(Body(ABSTRACT, text, if |spans| > 1 then |spans| else 1))
  }

  function Numbered(bodies: seq<Body>): (r: seq<Piece>)
    ensures |r| == |bodies|
  {
    seq(|bodies|, i requires 0 <= i < |bodies| => Piece(i, bodies[i]))
  }

  /** Before every one of the windows there was still room for a chunk. */
  ghost predicate RoomThroughout(trim: Text -> Text, c: Config, jobs: seq<Job>) {
    forall k :: 0 <= k < |jobs| ==> 1 + |Bodies(trim, jobs[..k])| < c.maxChunks
  }

  /** Chunker::chunk, described without its loops: the lead chunk and the chunks of all windows, cut at the
      cap.  A section that cannot be tokenized is an error only if the cap was not met before it. */
  ghost function Chunked(tok: Tokenizer, trim: Text -> Text, c: Config, title: Text, abstractText: Text,
                         sections: seq<Section>): Option<seq<Piece>>
    requires Accepted(c)
  {
    var lead := Lead(tok, title, abstractText);
    var n := Encodable(tok, sections);
    var jobs := Jobs(tok, c, sections[..n]);
    if lead.None? || (n < |sections| && RoomThroughout(trim, c, jobs)) then None
    else Some(Take(Numbered([lead.value] + Bodies(trim, jobs)), c.maxChunks))
  }

  lemma BodiesAppend(trim: Text -> Text, jobs: seq<Job>, j: Job)
    ensures Bodies(trim, jobs + [j]) == Bodies(trim, jobs) + BodyOf(trim, j)
  {
    assert (jobs + [j])[..|jobs|] == jobs;
  }

  lemma {:induction false} BodiesPrefix(trim: Text -> Text, jobs: seq<Job>, all: seq<Job>)
    requires jobs <= all
    ensures Bodies(trim, jobs) <= Bodies(trim, all)
  {
    if |jobs| < |all| {
      BodiesPrefix(trim, jobs, all[..|all| - 1]);
    } else {
      assert jobs == all;
    }
  }

  /** While there was room throughout, the cap is not exceeded. */
  lemma RoomMeansWithinCap(trim: Text -> Text, c: Config, jobs: seq<Job>)
    requires c.maxChunks >= 1 && RoomThroughout(trim, c, jobs)
    ensures 1 + |Bodies(trim, jobs)| <= c.maxChunks
  {
    if jobs != [] {
      assert 1 + |Bodies(trim, jobs[..|jobs| - 1])| < c.maxChunks;
    }
  }

  lemma JobsAppend(tok: Tokenizer, c: Config, sections: seq<Section>, i: nat, i': nat)
    requires Accepted(c) && i < i' == i + 1 <= |sections| && forall k :: 0 <= k < i' ==> tok(sections[k].text).Some?
    ensures Jobs(tok, c, sections[..i']) ==
            Jobs(tok, c, sections[..i]) + SectionJobs(c, sections[i], tok(sections[i].text).value)
  {
    assert sections[..i'][..i] == sections[..i];
  }

  lemma {:induction false} JobsPrefix(tok: Tokenizer, c: Config, sections: seq<Section>, m: nat, n: nat)
    requires Accepted(c) && m <= n <= |sections| && forall i :: 0 <= i < n ==> tok(sections[i].text).Some?
    ensures Jobs(tok, c, sections[..m]) <= Jobs(tok, c, sections[..n])
  {
    hide Jobs, SectionJobs;
    if m < n {
      JobsPrefix(tok, c, sections, m, n - 1);
      JobsAppend(tok, c, sections, n - 1, n);
    }
  }

  /** The cap was met: what is left cannot add anything to the result. */
  lemma CapMet(tok: Tokenizer, trim: Text -> Text, c: Config, title: Text, abstractText: Text,
               sections: seq<Section>, i: nat, spans: Spans, start: nat,
               done: seq<Job>, chunks: seq<Piece>)
    requires Accepted(c) && i < |sections| && forall k :: 0 <= k <= i ==> tok(sections[k].text).Some?
    requires Lead(tok, title, abstractText).Some? && start < |spans|
    requires Left(c, sections[i], spans, start, done, Jobs(tok, c, sections[..i + 1]))
    requires Progress(trim, c, Lead(tok, title, abstractText).value, done, chunks) && |chunks| >= c.maxChunks
    ensures Chunked(tok, trim, c, title, abstractText, sections) == Some(chunks)
  {
    hide Lead, Numbered, Bodies, Jobs;
    var lead := Lead(tok, title, abstractText).value;
    var n := Encodable(tok, sections);
    assert n >= i + 1;
    var all := Jobs(tok, c, sections[..n]);
    JobsPrefix(tok, c, sections, i + 1, n);
    assert all[..|done|] == done;
    assert |done| < |all|;
    RoomMeansWithinCap(trim, c, done);
    BodiesPrefix(trim, done, all);
    NumberedPrefix([lead] + Bodies(trim, done), [lead] + Bodies(trim, all));
    assert |chunks| == c.maxChunks;
    assert Take(Numbered([lead] + Bodies(trim, all)), c.maxChunks) == chunks;
  }

  lemma NumberedPrefix(xs: seq<Body>, ys: seq<Body>)
    requires xs <= ys
    ensures Numbered(xs) == Numbered(ys)[..|xs|]
  {
  }

  lemma NumberedAppend(xs: seq<Body>, b: Body)
    ensures Numbered(xs + [b]) == Numbered(xs) + [Piece(|xs|, b)]
  {
  }

  lemma RoomGrows(trim: Text -> Text, c: Config, done: seq<Job>, j: Job)
    requires RoomThroughout(trim, c, done) && 1 + |Bodies(trim, done)| < c.maxChunks
    ensures RoomThroughout(trim, c, done + [j])
  {
    forall k | 0 <= k < |done + [j]|
      ensures 1 + |Bodies(trim, (done + [j])[..k])| < c.maxChunks
    {
      assert (done + [j])[..k] == if k == |done| then done else done[..k];
    }
  }

  lemma PushJob(trim: Text -> Text, c: Config, lead: Body, done: seq<Job>, j: Job, chunks: seq<Piece>)
    requires chunks == Numbered([lead] + Bodies(trim, done))
    ensures Numbered([lead] + Bodies(trim, done + [j])) ==
            if BodyOf(trim, j) == [] then chunks else chunks + [Piece(|chunks|, BodyOf(trim, j)[0])]
  {
    hide Bodies, Numbered;
    BodiesAppend(trim, done, j);
    if BodyOf(trim, j) != [] {
      var b := BodyOf(trim, j)[0];
      NumberedAppend([lead] + Bodies(trim, done), b);
      assert [lead] + (Bodies(trim, done) + [b]) == ([lead] + Bodies(trim, done)) + [b];
    } else {
      assert Bodies(trim, done) + [] == Bodies(trim, done);
    }
  }

  lemma WindowJob(c: Config, sec: Section, spans: Spans, start: nat)
    requires Accepted(c) && start < |spans|
    ensures var n := |spans|;
            var end := Min(start + c.maxTokens, n);
            JobsOf(sec, spans, Windows(c, n, start)) ==
            [Job(sec.title, sec.text, spans, Window(start, end))] +
            (if end == n then [] else JobsOf(sec, spans, Windows(c, n, end - c.overlap)))
  {
    hide Windows, JobsOf;
    WindowsUnfold(c, |spans|, start);
    var ws := Windows(c, |spans|, start);
    JobsOfHead(sec, spans, ws);
    if start + c.maxTokens >= |spans| {
      assert ws[1..] == [];
    }
  }

  lemma JobsOfHead(sec: Section, spans: Spans, ws: seq<Window>)
    requires ws != [] && forall w :: w in ws ==> w.start < w.end <= |spans|
    ensures JobsOf(sec, spans, ws) == [Job(sec.title, sec.text, spans, ws[0])] + JobsOf(sec, spans, ws[1..])
    ensures JobsOf(sec, spans, []) == []
  {
  }

  /** The windows from a start position on are what is left of all jobs. */
  ghost predicate Left(c: Config, sec: Section, spans: Spans, start: nat, done: seq<Job>, all: seq<Job>)
    requires Accepted(c) && start < |spans|
  {
    done + JobsOf(sec, spans, Windows(c, |spans|, start)) == all
  }

  lemma OneLess(c: Config, sec: Section, spans: Spans, start: nat, end: nat, done: seq<Job>, all: seq<Job>)
    requires Accepted(c) && start < |spans| && end == Min(start + c.maxTokens, |spans|)
    requires Left(c, sec, spans, start, done, all)
    ensures var done' := done + [Job(sec.title, sec.text, spans, Window(start, end))];
            if end == |spans| then done' == all else Left(c, sec, spans, end - c.overlap, done', all)
  {
    hide JobsOf, Windows;
    WindowJob(c, sec, spans, start);
  }

  /** The loops' state after some of the windows. */
  ghost predicate Progress(trim: Text -> Text, c: Config, lead: Body, done: seq<Job>, chunks: seq<Piece>) {
    RoomThroughout(trim, c, done) && chunks == Numbered([lead] + Bodies(trim, done))
  }

  /** One turn of the inner loop. */
  lemma Turn(trim: Text -> Text, c: Config, lead: Body, sec: Section, spans: Spans, start: nat, end: nat,
             done: seq<Job>, chunks: seq<Piece>, chunks': seq<Piece>)
    requires Accepted(c) && start < |spans| && end == Min(start + c.maxTokens, |spans|)
    requires Progress(trim, c, lead, done, chunks) && |chunks| < c.maxChunks
    requires var job: Job := Job(sec.title, sec.text, spans, Window(start, end));
             chunks' == chunks + (if BodyOf(trim, job) == [] then [] else [Piece(|chunks|, BodyOf(trim, job)[0])])
    ensures Progress(trim, c, lead, done + [Job(sec.title, sec.text, spans, Window(start, end))], chunks')
  {
    hide BodyOf, Bodies, Numbered, RoomThroughout;
    var job: Job := Job(sec.title, sec.text, spans, Window(start, end));
    PushJob(trim, c, lead, done, job, chunks);
    RoomGrows(trim, c, done, job);
  }

  lemma ChunkedAll(tok: Tokenizer, trim: Text -> Text, c: Config, title: Text, abstractText: Text,
                   sections: seq<Section>, i: nat, done: seq<Job>, chunks: seq<Piece>)
    requires Accepted(c) && i <= |sections| && forall k :: 0 <= k < i ==> tok(sections[k].text).Some?
    requires Lead(tok, title, abstractText).Some?
    requires done == Jobs(tok, c, sections[..i]) &&
             Progress(trim, c, Lead(tok, title, abstractText).value, done, chunks)
    ensures i < |sections| && tok(sections[i].text).None? ==>
              Chunked(tok, trim, c, title, abstractText, sections) == None
    ensures i == |sections| ==> Chunked(tok, trim, c, title, abstractText, sections) == Some(chunks)
  {
    hide Lead, Numbered, Bodies, Jobs;
    assert i == |sections| || tok(sections[i].text).None? ==> Encodable(tok, sections) == i;
    RoomMeansWithinCap(trim, c, done);
    assert Take(chunks, c.maxChunks) == chunks;
  }

  lemma StartOfChunks(tok: Tokenizer, trim: Text -> Text, c: Config, title: Text, abstractText: Text,
                      sections: seq<Section>)
    requires Accepted(c)
    ensures Lead(tok, title, abstractText).None? ==> Chunked(tok, trim, c, title, abstractText, sections) == None
    ensures Jobs(tok, c, sections[..0]) == []
    ensures forall lead :: Progress(trim, c, lead, [], [Piece(0, lead)])
  {
  }

  lemma NextSection(tok: Tokenizer, c: Config, sections: seq<Section>, i: nat, spans: Spans)
    requires Accepted(c) && i < |sections| && forall k :: 0 <= k <= i ==> tok(sections[k].text).Some?
    requires spans == tok(sections[i].text).value
    ensures var all, done := Jobs(tok, c, sections[..i + 1]), Jobs(tok, c, sections[..i]);
            if |spans| < MIN_TOKENS then all == done else Left(c, sections[i], spans, 0, done, all)
  {
    JobsAppend(tok, c, sections, i, i + 1);
  }

  lemma RangeOfJob(trim: Text -> Text, j: Job)
    ensures Floor(j.text, j.spans[j.w.start].lo) == From(j) <= To(j) ==
            Ceil(j.text, j.spans[j.w.end - 1].hi) <= |j.text|
    ensures var slice := trim(j.text[From(j)..To(j)]);
            BodyOf(trim, j) ==
            if slice == [] then [] else [Body(j.title, j.title + [NEWLINE] + slice, j.w.end - j.w.start)]
  {
  }

  /** Chunker::chunk. */
  method Chunk(tok: Tokenizer, trim: Text -> Text, c: Config, title: Text, abstractText: Text,
               sections: seq<Section>) returns (r: Option<seq<Piece>>)
    requires Accepted(c)
    ensures r == Chunked(tok, trim, c, title, abstractText, sections)
  {
    hide Lead, Chunked, BodyOf, Progress, Left, Jobs, SectionJobs, From, To, Floor, Ceil;
    var lead := Lead(tok, title, abstractText);
    StartOfChunks(tok, trim, c, title, abstractText, sections);
    if lead.None? {
      return None;
    }
    var chunks := [Piece(0, lead.value)];
    ghost var done: seq<Job> := [];
    for i := 0 to |sections|
      invariant forall k :: 0 <= k < i ==> tok(sections[k].text).Some?
      invariant done == Jobs(tok, c, sections[..i]) && Progress(trim, c, lead.value, done, chunks)
    {
      var sec := sections[i];
      var enc := tok(sec.text);
      if enc.None? {
        ChunkedAll(tok, trim, c, title, abstractText, sections, i, done, chunks);
        return None;
      }
      var spans := enc.value;
      var n := |spans|;
      NextSection(tok, c, sections, i, spans);
      if n < MIN_TOKENS {
        continue;
      }
      var start := 0;
      while start < n
        invariant start < n
        invariant Progress(trim, c, lead.value, done, chunks)
        invariant Left(c, sec, spans, start, done, Jobs(tok, c, sections[..i + 1]))
        decreases n - start
      {
        if |chunks| >= c.maxChunks {
          CapMet(tok, trim, c, title, abstractText, sections, i, spans, start, done, chunks);
          return Some(chunks);
        }
        var end := Min(start + c.maxTokens, n);
        ghost var job: Job := Job(sec.title, sec.text, spans, Window(start, end));
        var b0 := FloorCharBoundary(sec.text, spans[start].lo);
        var b1 := CeilCharBoundary(sec.text, spans[end - 1].hi);
        RangeOfJob(trim, job);
        var slice := trim(sec.text[b0..b1]);
        ghost var before := chunks;
        if slice != [] {
          chunks := chunks + [Piece(|chunks|, Body(sec.title, sec.title + [NEWLINE] + slice, end - start))];
        }
        OneLess(c, sec, spans, start, end, done, Jobs(tok, c, sections[..i + 1]));
        Turn(trim, c, lead.value, sec, spans, start, end, done, before, chunks);
        done := done + [job];
        if end == n {
          break;
        }
        start := end - c.overlap;
      }
    }
    ChunkedAll(tok, trim, c, title, abstractText, sections, |sections|, done, chunks);
    return Some(chunks);
  }

  // ---- what the chunks are like ----

  lemma {:induction false} BodiesWithin(trim: Text -> Text, c: Config, jobs: seq<Job>)
    requires forall j :: j in jobs ==> j.w.end - j.w.start <= c.maxTokens
    ensures forall b :: b in Bodies(trim, jobs) ==> 1 <= b.tokenCount <= c.maxTokens
  {
    if jobs != [] {
      BodiesWithin(trim, c, jobs[..|jobs| - 1]);
    }
  }

  lemma {:induction false} JobsWithin(tok: Tokenizer, c: Config, sections: seq<Section>)
    requires Accepted(c) && forall s :: s in sections ==> tok(s.text).Some?
    ensures forall j :: j in Jobs(tok, c, sections) ==> j.w.end - j.w.start <= c.maxTokens
  {
    if sections != [] {
      JobsWithin(tok, c, sections[..|sections| - 1]);
      var last := sections[|sections| - 1];
      var spans := tok(last.text).value;
      if |spans| >= MIN_TOKENS {
        WindowsClosedForm(c, |spans|, 0);
      }
    }
  }

  /** Chunks are numbered by position, at most the cap, led by title and abstract; every other one holds
      between one token and a full window. */
  lemma ChunksAreNumbered(tok: Tokenizer, trim: Text -> Text, c: Config, title: Text, abstractText: Text,
                          sections: seq<Section>, pieces: seq<Piece>)
    requires Accepted(c) && Chunked(tok, trim, c, title, abstractText, sections) == Some(pieces)
    ensures 1 <= |pieces| <= c.maxChunks && Some(pieces[0].body) == Lead(tok, title, abstractText)
    ensures forall i :: 0 <= i < |pieces| ==> pieces[i].idx == i
    ensures forall i :: 1 <= i < |pieces| ==> 1 <= pieces[i].body.tokenCount <= c.maxTokens
  {
    hide Lead, Jobs, Bodies;
    var jobs := Jobs(tok, c, sections[..Encodable(tok, sections)]);
    JobsWithin(tok, c, sections[..Encodable(tok, sections)]);
    BodiesWithin(trim, c, jobs);
  }

  lemma {:induction false} WindowsIgnoreCap(c: Config, c': Config, n: nat, start: nat)
    requires c.maxTokens == c'.maxTokens > c.overlap == c'.overlap && start < n
    ensures Windows(c, n, start) == Windows(c', n, start)
    decreases n - start
  {
    hide Windows;
    WindowsUnfold(c, n, start);
    WindowsUnfold(c', n, start);
    if start + c.maxTokens < n {
      WindowsIgnoreCap(c, c', n, start + c.maxTokens - c.overlap);
    }
  }

  lemma {:induction false} JobsIgnoreCap(tok: Tokenizer, c: Config, c': Config, sections: seq<Section>)
    requires Accepted(c) && Accepted(c') && c.maxTokens == c'.maxTokens && c.overlap == c'.overlap
    requires forall s :: s in sections ==> tok(s.text).Some?
    ensures Jobs(tok, c, sections) == Jobs(tok, c', sections)
  {
    if sections != [] {
      JobsIgnoreCap(tok, c, c', sections[..|sections| - 1]);
      var spans := tok(sections[|sections| - 1].text).value;
      if |spans| >= MIN_TOKENS {
        WindowsIgnoreCap(c, c', |spans|, 0);
      }
    }
  }

  /** A lower cap gives the first chunks of what a higher one gives. */
  lemma CapIsPrefix(tok: Tokenizer, trim: Text -> Text, c: Config, higher: nat, title: Text, abstractText: Text,
                    sections: seq<Section>)
    requires Accepted(c) && c.maxChunks <= higher
    requires Chunked(tok, trim, c.(maxChunks := higher), title, abstractText, sections).Some?
    ensures Chunked(tok, trim, c, title, abstractText, sections) ==
            Some(Take(Chunked(tok, trim, c.(maxChunks := higher), title, abstractText, sections).value, c.maxChunks))
  {
    hide Lead, Jobs, Bodies, Numbered;
    var jobs := Jobs(tok, c, sections[..Encodable(tok, sections)]);
    JobsIgnoreCap(tok, c, c.(maxChunks := higher), sections[..Encodable(tok, sections)]);
    assert RoomThroughout(trim, c, jobs) ==> RoomThroughout(trim, c.(maxChunks := higher), jobs);
    var all := Numbered([Lead(tok, title, abstractText).value] + Bodies(trim, jobs));
    assert Take(Take(all, higher), c.maxChunks) == Take(all, c.maxChunks);
  }

  // ---- in the database ----

  function DocChunks(decode: Text -> string, pieces: seq<Piece>): (r: seq<Documents.Chunk>)
    ensures |r| == |pieces|
    ensures forall i :: 0 <= i < |r| ==>
              && r[i].idx == pieces[i].idx && r[i].tokenCount == pieces[i].body.tokenCount
              && r[i].section == Some(decode(pieces[i].body.section)) && r[i].text == decode(pieces[i].body.text)
  {
    seq(|pieces|, i requires 0 <= i < |pieces| =>
      var body := pieces[i].body;
      Documents.Chunk(pieces[i].idx, Some(decode(body.section)), decode(body.text), body.tokenCount))
  }

  /** The chunk rows of a paper stored from the chunker's output are exactly 0..n-1. */
  lemma ChunkerFillsTheTable(norm: string -> string, t: Store.Tables, docs: map<string, Store.Written>, id: string,
                             tok: Tokenizer, trim: Text -> Text, c: Config, title: Text, abstractText: Text,
                             sections: seq<Section>, decode: Text -> string, pieces: seq<Piece>, x: nat)
    requires Store.Consistent(norm, t, docs) && id in docs
    requires Accepted(c) && Chunked(tok, trim, c, title, abstractText, sections) == Some(pieces)
    requires docs[id].doc.chunks == DocChunks(decode, pieces)
    ensures x in t.chunks[id] <==> x < |pieces|
  {
    hide Chunked, Store.Consistent, Accepted;
    ChunksAreNumbered(tok, trim, c, title, abstractText, sections, pieces);
    Store.ChunkNumbersAreContiguous(norm, t, docs, id, x);
  }
}
