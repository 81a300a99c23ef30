/** The papers, authors, paper_authors and chunks tables and the one transaction that writes them
    (python/arxiv_common/src/arxiv_common/db.py:36-142, sql/001_init.sql).  Rows of paper_authors and
    chunks are grouped under their arxiv_id: author id -> position, and idx -> chunk. */
module Store {
  import opened Prelude
  import opened Documents
  import opened AuthorList
  import Guard

  type Vector = seq<real>

  datatype PaperRow = PaperRow(
    version: nat, title: string, abstractText: string, meta: Metadata, source: Source,
    summary: Option<string>, summaryModel: Option<string>)

  /** Rows of `authors`, found under their unique normalised name. */
  datatype AuthorRow = AuthorRow(id: nat, name: string)

  datatype ChunkRow = ChunkRow(section: Option<string>, text: string, tokenCount: nat, embedding: Vector)

  type Authors = map<string, AuthorRow>
  type Links = map<nat, nat>
  type Chunks = map<nat, ChunkRow>

  datatype Tables = Tables(
    papers: map<string, PaperRow>, authors: Authors, nextAuthorId: nat,
    links: map<string, Links>, chunks: map<string, Chunks>)

  /** A document as it was handed to the upsert. */
  datatype Written = Written(doc: Doc, embeddings: seq<Vector>)

  datatype Outcome = Stored | Guarded | Raised

  /** strip_nul. */
  function StripNul(s: string): (r: string)
    ensures '\0' !in r
    ensures '\0' !in s ==> r == s
  {
    if s == "" then ""
    else
      var init, last := s[..|s| - 1], s[|s| - 1];
      assert s == init + [last];
      StripNul(init) + (if last == '\0' then "" else [last])
  }

  /** r is what remains of s without its NUL characters: `at` are the places of all others, in order. */
  ghost predicate KeptAt(s: string, r: string, at: seq<nat>) {
    && |at| == |r| && (forall i, j :: 0 <= i < j < |at| ==> at[i] < at[j])
    && (forall i :: 0 <= i < |at| ==> at[i] < |s| && s[at[i]] == r[i] && r[i] != '\0')
    && (forall p: nat :: p < |s| && s[p] != '\0' ==> p in at)
  }

  ghost predicate Stripped(s: string, r: string) {
    exists at :: KeptAt(s, r, at)
  }

  ghost predicate StrippedOpt(s: Option<string>, r: Option<string>) {
    if s.Some? then r.Some? && Stripped(s.value, r.value) else r.None?
  }

  lemma KeptAtGrows(init: string, last: char, r: string, at: seq<nat>)
    requires KeptAt(init, r, at)
    ensures last == '\0' ==> KeptAt(init + [last], r, at)
    ensures last != '\0' ==> KeptAt(init + [last], r + [last], at + [|init|])
  {
    assert forall x :: x in at + [|init|] <==> x in at || x == |init|;
  }

  lemma {:induction false} StripNulStrips(s: string)
    ensures Stripped(s, StripNul(s))
  {
    hide KeptAt;
    if s == "" {
      NothingKept();
    } else {
      var init, last := s[..|s| - 1], s[|s| - 1];
      StripNulStrips(init);
      var at :| KeptAt(init, StripNul(init), at);
      KeptAtGrows(init, last, StripNul(init), at);
      assert init + [last] == s;
      assert last == '\0' ==> StripNul(s) == StripNul(init);
    }
  }

  lemma NothingKept()
    ensures KeptAt("", "", [])
  {
  }

  /** There is only one such string. */
  lemma {:induction false} StrippedIsUnique(s: string, r: string)
    requires Stripped(s, r)
    ensures r == StripNul(s)
  {
    hide KeptAt;
    var at :| KeptAt(s, r, at);
    if s == "" {
      KeptOfNothing(r, at);
    } else {
      var init, last := s[..|s| - 1], s[|s| - 1];
      KeptAtShrinks(init, last, s, r, at);
      StrippedIsUnique(init, if last == '\0' then r else r[..|r| - 1]);
    }
  }

  lemma KeptOfNothing(r: string, at: seq<nat>)
    ensures KeptAt("", r, at) ==> r == ""
  {
    if |at| == |r| > 0 {
      assert at[0] >= |""|;
    }
  }

  lemma KeptAtShrinks(init: string, last: char, s: string, r: string, at: seq<nat>)
    requires s == init + [last] && KeptAt(s, r, at)
    ensures last == '\0' ==> Stripped(init, r)
    ensures last != '\0' ==> r != "" && r[|r| - 1] == last && Stripped(init, r[..|r| - 1])
  {
    assert s[|init|] == last && forall p :: 0 <= p < |init| ==> s[p] == init[p];
    if last == '\0' {
      assert KeptAt(init, r, at);
    } else {
      LastIsKeptLast(s, r, at);
      hide KeptAt;
      ButLastIsKept(init, last, s, r, at);
    }
  }

  lemma LastIsKeptLast(s: string, r: string, at: seq<nat>)
    requires s != "" && KeptAt(s, r, at) && s[|s| - 1] != '\0'
    ensures at != [] && at[|at| - 1] == |s| - 1 && r != "" && r[|r| - 1] == s[|s| - 1]
  {
    var n := |at| - 1;
    var i :| 0 <= i < |at| && at[i] == |s| - 1;
    assert at[n] < |s| && forall x :: 0 <= x < n ==> at[x] < at[n];
  }

  lemma ButLastIsKept(init: string, last: char, s: string, r: string, at: seq<nat>)
    requires s == init + [last] && KeptAt(s, r, at) && at != [] && at[|at| - 1] == |init|
    ensures Stripped(init, r[..|r| - 1])
  {
    var n := |at| - 1;
    assert forall x :: 0 <= x < n ==> at[x] < at[n] && s[at[x]] == init[at[x]];
    forall p: nat | p < |init| && init[p] != '\0'
      ensures p in at[..n]
    {
      assert s[p] == init[p];
      var k :| 0 <= k < |at| && at[k] == p;
      assert at[..n][k] == p;
    }
    assert KeptAt(init, r[..n], at[..n]);
  }

  function StripOpt(s: Option<string>): (r: Option<string>)
    ensures StrippedOpt(s, r)
  {
    match s
    case None => None
    case Some(v) =>
      StripNulStrips(v);
      Some(StripNul(v))
  }

  function Norms(norm: string -> string, names: seq<string>): (r: seq<string>)
    ensures |r| == |names| && forall i :: 0 <= i < |names| ==> r[i] == norm(names[i])
  {
    seq(|names|, i requires 0 <= i < |names| => norm(names[i]))
  }

  predicate DistinctIdx(chunks: seq<Chunk>) {
    forall i, j :: 0 <= i < j < |chunks| ==> chunks[i].idx != chunks[j].idx
  }

  // ---- what it means for the tables to hold exactly a set of documents ----

  ghost predicate RowMatches(row: PaperRow, doc: Doc) {
    && row.version == doc.paper.version && row.source == doc.source && row.meta == doc.paper.meta
    && Stripped(doc.paper.title, row.title) && Stripped(doc.paper.abstractText, row.abstractText)
  }

  /** A paper's links are its distinct authors, each at the position of its first occurrence. */
  ghost predicate LinksMatch(norms: seq<string>, authors: Authors, links: Links) {
    && (forall n :: n in norms ==>
          n in authors && authors[n].id in links && links[authors[n].id] == FirstIndex(norms, n))
    && (forall a :: a in links ==> exists n :: n in norms && n in authors && authors[n].id == a)
  }

  ghost predicate ChunkMatches(row: ChunkRow, c: Chunk, e: Vector) {
    && StrippedOpt(c.section, row.section) && Stripped(c.text, row.text)
    && row.tokenCount == c.tokenCount && row.embedding == e
  }

  /** A paper's chunk rows are the first n chunks of the document and nothing else. */
  ghost predicate ChunksMatch(w: Written, n: nat, rows: Chunks)
    requires n <= |w.doc.chunks| == |w.embeddings|
  {
    && (forall i :: 0 <= i < n ==>
          var c := w.doc.chunks[i];
          c.idx in rows && ChunkMatches(rows[c.idx], c, w.embeddings[i]))
    && (forall x :: x in rows ==> exists i :: 0 <= i < n && w.doc.chunks[i].idx == x)
  }

  ghost predicate AuthorsOk(authors: Authors, next: nat) {
    && (forall n :: n in authors ==> authors[n].id < next)
    && (forall n, m :: n in authors && m in authors && authors[n].id == authors[m].id ==> n == m)
  }

  /** Every author is found under the normal form of the name that is shown. */
  ghost predicate NamesOk(norm: string -> string, authors: Authors) {
    forall n :: n in authors ==> norm(authors[n].name) == n
  }

  ghost predicate PaperWhole(norm: string -> string, row: PaperRow, authors: Authors, links: Links, rows: Chunks,
                             w: Written) {
    && |w.doc.chunks| == |w.embeddings| && DistinctIdx(w.doc.chunks)
    && RowMatches(row, w.doc)
    && LinksMatch(Norms(norm, w.doc.paper.authors), authors, links)
    && ChunksMatch(w, |w.doc.chunks|, rows)
  }

  ghost predicate WholeAt(norm: string -> string, t: Tables, id: string, w: Written) {
    && w.doc.paper.id == id && id in t.papers && id in t.links && id in t.chunks
    && PaperWhole(norm, t.papers[id], t.authors, t.links[id], t.chunks[id], w)
  }

  /** The tables hold exactly these documents: each paper whole, no orphaned links or chunks. */
  ghost predicate Consistent(norm: string -> string, t: Tables, docs: map<string, Written>) {
    && AuthorsOk(t.authors, t.nextAuthorId) && NamesOk(norm, t.authors)
    && docs.Keys == t.papers.Keys == t.links.Keys == t.chunks.Keys
    && (forall id :: id in docs ==> WholeAt(norm, t, id, docs[id]))
  }

  // ---- the parts of the transaction ----

  /** Authors table grown from `a` to `b`: existing rows keep their id and name. */
  ghost predicate AuthorsGrow(a: Authors, b: Authors) {
    forall n :: n in a ==> n in b && b[n] == a[n]
  }

  lemma GrowsOnce(a: Authors, b: Authors, c: Authors)
    requires AuthorsGrow(a, b) && AuthorsGrow(b, c)
    ensures AuthorsGrow(a, c)
  {
  }

  lemma StaysAsItIs(a: Authors)
    ensures AuthorsGrow(a, a)
  {
  }

  /** Table `b` is `a` with the missing authors of a list added, each spelled as where the list names it first. */
  ghost predicate AuthorsAdded(norm: string -> string, names: seq<string>, a: Authors, b: Authors) {
    var norms := Norms(norm, names);
    && AuthorsGrow(a, b)
    && (forall n :: n in b <==> n in a || n in norms)
    && (forall n :: n in b && n !in a ==> b[n].name == names[FirstIndex(norms, n)])
  }

  /** The link to author a was made by entry j, the first among the first k with its name. */
  ghost predicate FirstLinked(order: seq<Entry>, k: nat, authors: Authors, links: Links, a: nat, j: nat)
    requires k <= |order|
  {
    && j < k && order[j].norm in authors && authors[order[j].norm].id == a
    && a in links && links[a] == order[j].position
    && (forall i :: 0 <= i < j ==> order[i].norm != order[j].norm)
  }

  /** Links of the first k inserted entries: each name once, at the first position inserted for it. */
  ghost predicate LinkedUpTo(order: seq<Entry>, k: nat, authors: Authors, links: Links)
    requires k <= |order|
  {
    && (forall j :: 0 <= j < k ==> order[j].norm in authors && authors[order[j].norm].id in links)
    && (forall a :: a in links ==> exists j: nat :: FirstLinked(order, k, authors, links, a, j))
  }

  lemma LinkedAllMatches(norms: seq<string>, authors: Authors, next: nat, links: Links)
    requires AuthorsOk(authors, next)
    requires LinkedUpTo(InsertionOrder(norms), |norms|, authors, links)
    ensures LinksMatch(norms, authors, links)
  {
    hide InsertionOrder;
    var order := InsertionOrder(norms);
    InsertionOrderMembers(norms);
    forall n | n in norms
      ensures n in authors && authors[n].id in links && links[authors[n].id] == FirstIndex(norms, n)
    {
      var e := Entry(n, FirstIndex(norms, n));
      assert e in order;
      var i :| 0 <= i < |order| && order[i] == e;
      var j: nat :| FirstLinked(order, |norms|, authors, links, authors[n].id, j);
      FirstInsertedIsFirstListed(norms, j);
    }
    forall a | a in links
      ensures exists n :: n in norms && n in authors && authors[n].id == a
    {
      var j: nat :| FirstLinked(order, |norms|, authors, links, a, j);
      assert order[j] in order;
      assert norms[order[j].position] in norms;
    }
  }

  lemma LinkStep(order: seq<Entry>, k: nat, k': nat, before: Authors, linksBefore: Links, authors: Authors, next: nat,
                 links: Links)
    requires k < |order| && k' == k + 1 && LinkedUpTo(order, k, before, linksBefore)
    requires AuthorsOk(authors, next) && AuthorsGrow(before, authors)
    requires order[k].norm in authors
    requires var a := authors[order[k].norm].id;
             links == if a in linksBefore then linksBefore else linksBefore[a := order[k].position]
    ensures LinkedUpTo(order, k', authors, links)
  {
    forall a | a in links
      ensures exists j: nat :: FirstLinked(order, k', authors, links, a, j)
    {
      if a in linksBefore {
        var j: nat :| FirstLinked(order, k, before, linksBefore, a, j);
        assert FirstLinked(order, k', authors, links, a, j);
      } else {
        assert forall i :: 0 <= i < k ==> before[order[i].norm].id in linksBefore;
        assert FirstLinked(order, k', authors, links, a, k);
      }
    }
  }

  lemma NothingLinked(order: seq<Entry>, authors: Authors)
    ensures LinkedUpTo(order, 0, authors, map[]) && AuthorsGrow(authors, authors)
  {
  }

  /** Inserting an author, unless the name is there already. */
  lemma AuthorStep(first: Authors, before: Authors, next: nat, norm: string, name: string)
    requires AuthorsOk(before, next) && AuthorsGrow(first, before)
    ensures var authors := if norm in before then before else before[norm := AuthorRow(next, name)];
            && AuthorsOk(authors, if norm in before then next else next + 1)
            && AuthorsGrow(first, authors) && AuthorsGrow(before, authors)
  {
  }

  /** The rows added for the first k entries: each is named by the first of them with its normal form. */
  ghost predicate NamedUpTo(names: seq<string>, order: seq<Entry>, k: nat, first: Authors, authors: Authors)
    requires k <= |order| && forall e :: e in order ==> e.position < |names|
  {
    && (forall n :: n in first ==> n in authors)
    && (forall j :: 0 <= j < k ==> order[j].norm in authors)
    && (forall n :: n in authors && n !in first ==> exists j: nat :: Namer(names, order, k, authors, n, j))
  }

  ghost predicate Namer(names: seq<string>, order: seq<Entry>, k: nat, authors: Authors, n: string, j: nat)
    requires k <= |order| && forall e :: e in order ==> e.position < |names|
  {
    && j < k && order[j].norm == n && n in authors && authors[n].name == names[order[j].position]
    && (forall i :: 0 <= i < j ==> order[i].norm != n)
  }

  lemma NameStep(names: seq<string>, order: seq<Entry>, k: nat, k': nat, first: Authors, before: Authors, next: nat)
    requires k < k' == k + 1 <= |order| && forall e :: e in order ==> e.position < |names|
    requires NamedUpTo(names, order, k, first, before)
    ensures var n, name := order[k].norm, names[order[k].position];
            NamedUpTo(names, order, k', first, if n in before then before else before[n := AuthorRow(next, name)])
  {
    assert order[k] in order;
    var here, name := order[k].norm, names[order[k].position];
    var authors := if here in before then before else before[here := AuthorRow(next, name)];
    forall n | n in authors && n !in first
      ensures exists j: nat :: Namer(names, order, k', authors, n, j)
    {
      if n in before {
        var j: nat :| Namer(names, order, k, before, n, j);
        assert Namer(names, order, k', authors, n, j);
      } else {
        assert Namer(names, order, k', authors, n, k);
      }
    }
  }

  /** The first entry inserted under a name is the first in the list, so that is where a new row's name is from. */
  lemma NamedAllAdded(norm: string -> string, names: seq<string>, first: Authors, authors: Authors)
    requires AuthorsGrow(first, authors)
    requires |InsertionOrder(Norms(norm, names))| == |names|
    requires forall e :: e in InsertionOrder(Norms(norm, names)) ==> e.position < |names|
    requires NamedUpTo(names, InsertionOrder(Norms(norm, names)), |names|, first, authors)
    ensures AuthorsAdded(norm, names, first, authors)
  {
    hide InsertionOrder, FirstIndex;
    var norms := Norms(norm, names);
    var order := InsertionOrder(norms);
    InsertionOrderMembers(norms);
    forall n | n in authors && n !in first
      ensures n in norms && authors[n].name == names[FirstIndex(norms, n)]
    {
      var j: nat :| Namer(names, order, |names|, authors, n, j);
      FirstInsertedIsFirstListed(norms, j);
    }
    forall n | n in norms
      ensures n in authors
    {
      var p :| 0 <= p < |norms| && norms[p] == n;
      assert Entry(n, p) in order;
    }
  }

  lemma AddedMeansGrown(norm: string -> string, names: seq<string>, a: Authors, b: Authors)
    requires AuthorsAdded(norm, names, a, b)
    ensures AuthorsGrow(a, b)
  {
  }

  lemma AddedKeepsNames(norm: string -> string, names: seq<string>, a: Authors, b: Authors)
    requires NamesOk(norm, a) && AuthorsAdded(norm, names, a, b)
    ensures NamesOk(norm, b)
  {
    hide FirstIndex;
    forall n | n in b && n !in a
      ensures norm(b[n].name) == n
    {
      var norms := Norms(norm, names);
      assert norms[FirstIndex(norms, n)] == n;
    }
  }

  /** INSERT INTO authors ... ON CONFLICT DO UPDATE SET name = authors.name, which keeps an existing name; then
      paper_authors ... ON CONFLICT DO NOTHING; in lock order. */
  method InsertAuthors(norm: string -> string, names: seq<string>, authors: Authors, next: nat)
    returns (authors': Authors, next': nat, links: Links)
    requires AuthorsOk(authors, next)
    ensures AuthorsOk(authors', next') && AuthorsAdded(norm, names, authors, authors')
    ensures LinksMatch(Norms(norm, names), authors', links)
  {
    hide InsertionOrder, AuthorsOk, AuthorsGrow, LinkedUpTo, NamedUpTo, AuthorsAdded, LinksMatch;
    var norms := Norms(norm, names);
    var order := InsertionOrder(norms);
    authors', next', links := authors, next, map[];
    InsertionOrderMembers(norms);
    NothingLinked(order, authors);
    NothingNamed(names, order, authors);
    for k := 0 to |order|
      invariant AuthorsOk(authors', next') && AuthorsGrow(authors, authors')
      invariant LinkedUpTo(order, k, authors', links)
      invariant NamedUpTo(names, order, k, authors, authors')
    {
      var e := order[k];
      assert e in order;
      ghost var before, beforeNext, linksBefore := authors', next', links;
      if e.norm !in authors' {
        authors', next' := authors'[e.norm := AuthorRow(next', names[e.position])], next' + 1;
      }
      if authors'[e.norm].id !in links {
        links := links[authors'[e.norm].id := e.position];
      }
      AuthorStep(authors, before, beforeNext, e.norm, names[e.position]);
      NameStep(names, order, k, k + 1, authors, before, beforeNext);
      LinkStep(order, k, k + 1, before, linksBefore, authors', next', links);
    }
    LinkedAllMatches(norms, authors', next', links);
    NamedAllAdded(norm, names, authors, authors');
  }

  lemma NothingNamed(names: seq<string>, order: seq<Entry>, authors: Authors)
    requires forall e :: e in order ==> e.position < |names|
    ensures NamedUpTo(names, order, 0, authors, authors)
  {
  }

  lemma ChunkStep(w: Written, i: nat, i': nat, before: Chunks, rows: Chunks)
    requires i < i' == i + 1 <= |w.doc.chunks| == |w.embeddings| && ChunksMatch(w, i, before)
    requires w.doc.chunks[i].idx !in before && DistinctIdx(w.doc.chunks[..i])
    requires rows.Keys == before.Keys + {w.doc.chunks[i].idx} && forall x :: x in before ==> rows[x] == before[x]
    requires ChunkMatches(rows[w.doc.chunks[i].idx], w.doc.chunks[i], w.embeddings[i])
    ensures ChunksMatch(w, i', rows) && DistinctIdx(w.doc.chunks[..i'])
  {
    DistinctStep(w, i, i', before);
    RowsStep(w, i, i', before, rows);
    hide ChunkMatches, DistinctIdx;
    var cs := w.doc.chunks;
    forall x | x in rows
      ensures exists j :: 0 <= j < i' && cs[j].idx == x
    {
      if x in before {
        var j :| 0 <= j < i && cs[j].idx == x;
      } else {
        assert cs[i].idx == x;
      }
    }
  }

  lemma RowsStep(w: Written, i: nat, i': nat, before: Chunks, rows: Chunks)
    requires i < i' == i + 1 <= |w.doc.chunks| == |w.embeddings|
    requires forall j :: 0 <= j < i ==>
               var c := w.doc.chunks[j]; c.idx in before && ChunkMatches(before[c.idx], c, w.embeddings[j])
    requires rows.Keys == before.Keys + {w.doc.chunks[i].idx} && forall x :: x in before ==> rows[x] == before[x]
    requires ChunkMatches(rows[w.doc.chunks[i].idx], w.doc.chunks[i], w.embeddings[i])
    ensures forall j :: 0 <= j < i' ==>
              var c := w.doc.chunks[j]; c.idx in rows && ChunkMatches(rows[c.idx], c, w.embeddings[j])
  {
    hide ChunkMatches;
  }

  lemma DistinctStep(w: Written, i: nat, i': nat, before: Chunks)
    requires i < i' == i + 1 <= |w.doc.chunks| == |w.embeddings| && ChunksMatch(w, i, before)
    requires w.doc.chunks[i].idx !in before && DistinctIdx(w.doc.chunks[..i])
    ensures DistinctIdx(w.doc.chunks[..i'])
  {
    hide ChunkMatches;
    var cs := w.doc.chunks;
    assert forall j :: 0 <= j < i ==> cs[..i'][j] == cs[..i][j] && cs[j].idx in before;
  }

  /** One INSERT per chunk; a repeated (arxiv_id, idx) violates the unique constraint. */
  method InsertChunks(w: Written) returns (ok: bool, rows: Chunks)
    requires |w.embeddings| == |w.doc.chunks|
    ensures ok <==> DistinctIdx(w.doc.chunks)
    ensures ok ==> ChunksMatch(w, |w.doc.chunks|, rows)
  {
    hide Stripped, StrippedOpt, StripNul, StripOpt;
    var cs := w.doc.chunks;
    rows := map[];
    for i := 0 to |cs|
      invariant DistinctIdx(cs[..i]) && ChunksMatch(w, i, rows)
    {
      if cs[i].idx in rows {
        return false, rows;
      }
      ghost var before := rows;
      rows := rows[cs[i].idx := ChunkRow(StripOpt(cs[i].section), StripNul(cs[i].text), cs[i].tokenCount,
                                         w.embeddings[i])];
      StripNulStrips(cs[i].text);
      ChunkStep(w, i, i + 1, before, rows);
    }
    assert cs[..|cs|] == cs;
    return true, rows;
  }

  /** A new summary replaces the old one, no summary leaves it; the same for the model that wrote it. */
  ghost predicate SummaryAfter(stored: Option<PaperRow>, row: PaperRow, summary: Option<string>,
                               summaryModel: Option<string>) {
    && (summary.Some? ==> StrippedOpt(summary, row.summary))
    && (summaryModel.Some? ==> row.summaryModel == summaryModel)
    && (summary.None? ==> row.summary == if stored.Some? then stored.value.summary else None)
    && (summaryModel.None? ==> row.summaryModel == if stored.Some? then stored.value.summaryModel else None)
  }

  function RowOf(papers: map<string, PaperRow>, id: string): Option<PaperRow> {
    if id in papers then Some(papers[id]) else None
  }

  /** The row to insert, or to update the stored one with: COALESCE keeps an old summary when there is no new one. */
  function RowFor(doc: Doc, stored: Option<PaperRow>, summary: Option<string>,
                  summaryModel: Option<string>): (row: PaperRow)
    ensures RowMatches(row, doc)
  {
    StripNulStrips(doc.paper.title);
    StripNulStrips(doc.paper.abstractText);
    PaperRow(
      doc.paper.version, StripNul(doc.paper.title), StripNul(doc.paper.abstractText), doc.paper.meta, doc.source,
      if summary.Some? then StripOpt(summary) else if stored.Some? then stored.value.summary else None,
      if summaryModel.Some? then summaryModel else if stored.Some? then stored.value.summaryModel else None)
  }

  /** The result of the upsert on the stored document of the paper. */
  function Expected(stored: Option<Doc>, w: Written): Outcome {
    if |w.embeddings| != |w.doc.chunks| then Raised
    else if Guard.Blocks(stored, w.doc) then Guarded
    else if DistinctIdx(w.doc.chunks) then Stored
    else Raised
  }

  function Lookup(docs: map<string, Written>, id: string): Option<Doc> {
    if id in docs then Some(docs[id].doc) else None
  }

  lemma LinksStay(norms: seq<string>, authors: Authors, authors': Authors, next: nat, links: Links)
    requires LinksMatch(norms, authors, links) && AuthorsGrow(authors, authors')
    ensures LinksMatch(norms, authors', links)
  {
    forall a | a in links
      ensures exists n :: n in norms && n in authors' && authors'[n].id == a
    {
      var n :| n in norms && n in authors && authors[n].id == a;
      assert n in authors' && authors'[n].id == a;
    }
  }

  lemma PaperStaysWhole(norm: string -> string, row: PaperRow, authors: Authors, authors': Authors, next: nat,
                        links: Links, rows: Chunks, w: Written)
    requires PaperWhole(norm, row, authors, links, rows, w) && AuthorsGrow(authors, authors')
    ensures PaperWhole(norm, row, authors', links, rows, w)
  {
    LinksStay(Norms(norm, w.doc.paper.authors), authors, authors', next, links);
  }

  /** Replacing one paper's rows keeps every other paper whole. */
  lemma OthersStayWhole(norm: string -> string, t: Tables, docs: map<string, Written>, id: string, w: Written,
                        row: PaperRow, authors: Authors, next: nat, links: Links, rows: Chunks)
    requires Consistent(norm, t, docs) && w.doc.paper.id == id
    requires AuthorsOk(authors, next) && NamesOk(norm, authors) && AuthorsGrow(t.authors, authors)
    requires PaperWhole(norm, row, authors, links, rows, w)
    ensures Consistent(norm, Tables(t.papers[id := row], authors, next, t.links[id := links], t.chunks[id := rows]),
                       docs[id := w])
  {
    hide PaperWhole, AuthorsOk, AuthorsGrow, NamesOk;
    var t' := Tables(t.papers[id := row], authors, next, t.links[id := links], t.chunks[id := rows]);
    forall other | other in docs && other != id
      ensures WholeAt(norm, t', other, docs[other])
    {
      assert WholeAt(norm, t, other, docs[other]);
      PaperStaysWhole(norm, t.papers[other], t.authors, authors, next, t.links[other], t.chunks[other], docs[other]);
    }
    assert WholeAt(norm, t', id, w);
  }

  lemma NewRowWhole(norm: string -> string, row: PaperRow, authors: Authors, links: Links, rows: Chunks, w: Written)
    requires |w.doc.chunks| == |w.embeddings| && DistinctIdx(w.doc.chunks) && RowMatches(row, w.doc)
    requires LinksMatch(Norms(norm, w.doc.paper.authors), authors, links)
    requires ChunksMatch(w, |w.doc.chunks|, rows)
    ensures PaperWhole(norm, row, authors, links, rows, w)
  {
  }

  /** The paper row shows the version and source of the document behind it. */
  lemma RowShowsDoc(norm: string -> string, t: Tables, docs: map<string, Written>, id: string)
    requires Consistent(norm, t, docs)
    ensures AuthorsOk(t.authors, t.nextAuthorId) && NamesOk(norm, t.authors)
    ensures id in docs <==> id in t.papers
    ensures id in docs ==>
              var doc := docs[id].doc;
              t.papers[id].source == doc.source && t.papers[id].version == doc.paper.version
  {
    if id in docs {
      assert WholeAt(norm, t, id, docs[id]);
    }
  }

  // ---- whose spelling an author's row carries ----

  /** The name under which an author was first listed, given the author lists of all stored documents in order. */
  function Spelling(norm: string -> string, written: seq<seq<string>>, n: string): Option<string> {
    if written == [] then None
    else
      var earlier, last := written[..|written| - 1], written[|written| - 1];
      match Spelling(norm, earlier, n)
      case Some(name) => Some(name)
      case None => if n in Norms(norm, last) then Some(last[FirstIndex(Norms(norm, last), n)]) else None
  }

  /** The authors are those ever listed, each as spelled the first time. */
  ghost predicate Spelled(norm: string -> string, written: seq<seq<string>>, authors: Authors) {
    forall n :: Spelling(norm, written, n) == if n in authors then Some(authors[n].name) else None
  }

  lemma SpelledGrows(norm: string -> string, written: seq<seq<string>>, names: seq<string>, a: Authors, b: Authors)
    requires Spelled(norm, written, a) && AuthorsAdded(norm, names, a, b)
    ensures Spelled(norm, written + [names], b)
  {
    hide FirstIndex, Norms;
    var more := written + [names];
    assert more[..|written|] == written;
    forall n
      ensures Spelling(norm, more, n) == if n in b then Some(b[n].name) else None
    {
      assert Spelling(norm, written, n) == if n in a then Some(a[n].name) else None;
    }
  }

  /** The tables after the transaction. */
  lemma AllConsistent(norm: string -> string, t: Tables, docs: map<string, Written>, written: seq<seq<string>>,
                      w: Written, row: PaperRow, authors: Authors, next: nat, links: Links, rows: Chunks)
    requires Consistent(norm, t, docs) && Spelled(norm, written, t.authors)
    requires |w.doc.chunks| == |w.embeddings| && DistinctIdx(w.doc.chunks) && RowMatches(row, w.doc)
    requires AuthorsOk(authors, next) && AuthorsAdded(norm, w.doc.paper.authors, t.authors, authors)
    requires LinksMatch(Norms(norm, w.doc.paper.authors), authors, links)
    requires ChunksMatch(w, |w.doc.chunks|, rows)
    ensures var id := w.doc.paper.id;
            Consistent(norm, Tables(t.papers[id := row], authors, next, t.links[id := links], t.chunks[id := rows]),
                       docs[id := w])
    ensures Spelled(norm, written + [w.doc.paper.authors], authors)
  {
    var names := w.doc.paper.authors;
    RowShowsDoc(norm, t, docs, w.doc.paper.id);
    AddedMeansGrown(norm, names, t.authors, authors);
    AddedKeepsNames(norm, names, t.authors, authors);
    SpelledGrows(norm, written, names, t.authors, authors);
    NewRowWhole(norm, row, authors, links, rows, w);
    hide *;
    OthersStayWhole(norm, t, docs, w.doc.paper.id, w, row, authors, next, links, rows);
  }

  lemma MissingEmbeddingRaises(stored: Option<Doc>, w: Written)
    requires |w.embeddings| != |w.doc.chunks|
    ensures Expected(stored, w) == Raised
  {
  }

  /** The row shows all the guard needs to know about the document behind it. */
  lemma RowDecides(norm: string -> string, t: Tables, docs: map<string, Written>, w: Written)
    requires Consistent(norm, t, docs) && |w.embeddings| == |w.doc.chunks|
    ensures AuthorsOk(t.authors, t.nextAuthorId)
    ensures var id := w.doc.paper.id;
            Expected(Lookup(docs, id), w) ==
              if id in t.papers && !IsFullText(w.doc.source) && IsFullText(t.papers[id].source)
                 && t.papers[id].version >= w.doc.paper.version then Guarded
              else if DistinctIdx(w.doc.chunks) then Stored else Raised
  {
    hide Consistent;
    RowShowsDoc(norm, t, docs, w.doc.paper.id);
  }

  lemma SummaryIsKept(doc: Doc, stored: Option<PaperRow>, summary: Option<string>, summaryModel: Option<string>)
    ensures SummaryAfter(stored, RowFor(doc, stored, summary, summaryModel), summary, summaryModel)
  {
  }

  class Database {
    const norm: string -> string   // text.author_norm
    var papers: map<string, PaperRow>
    var authors: Authors
    var nextAuthorId: nat
    var links: map<string, Links>
    var chunks: map<string, Chunks>
    ghost var docs: map<string, Written>      // the document behind each row
    ghost var written: seq<seq<string>>       // the author lists stored so far

    function State(): Tables
      reads this
    {
      Tables(papers, authors, nextAuthorId, links, chunks)
    }

    ghost predicate Valid()
      reads this
    {
      Consistent(norm, State(), docs) && Spelled(norm, written, authors)
    }

    constructor (norm: string -> string)
      ensures Valid() && docs == map[] && written == [] && this.norm == norm
    {
      this.norm := norm;
      papers, authors, nextAuthorId, links, chunks, docs, written := map[], map[], 0, map[], map[], map[], [];
    }

    /** has_full_text: one SELECT on the stored row. */
    method HasFullText(id: string, version: nat) returns (found: bool)
      requires Valid()
      ensures found <==> Guard.HasFullText(Lookup(docs, id), version)
    {
      hide Consistent, PaperWhole;
      RowShowsDoc(norm, State(), docs, id);
      found := id in papers && IsFullText(papers[id].source) && papers[id].version >= version;
    }

    /** upsert_paper: all of it or none of it happens. */
    method UpsertPaper(doc: Doc, embeddings: seq<Vector>, summary: Option<string>, summaryModel: Option<string>)
      returns (outcome: Outcome)
      requires Valid()
      modifies this
      ensures Valid()
      ensures outcome == Expected(old(Lookup(docs, doc.paper.id)), Written(doc, embeddings))
      ensures outcome.Stored? ==> docs == old(docs)[doc.paper.id := Written(doc, embeddings)]
      ensures outcome.Stored? ==>
                doc.paper.id in papers &&
                SummaryAfter(RowOf(old(papers), doc.paper.id), papers[doc.paper.id], summary, summaryModel)
      ensures outcome.Stored? ==>
                AuthorsAdded(norm, doc.paper.authors, old(authors), authors) &&
                written == old(written) + [doc.paper.authors]
      ensures !outcome.Stored? ==> docs == old(docs) && State() == old(State()) && written == old(written)
    {
      hide Consistent, Spelled, AuthorsOk, AuthorsAdded, LinksMatch, ChunksMatch, Norms, RowMatches;
      hide Expected, Lookup, RowFor, DistinctIdx, StripOpt, SummaryAfter;
      var id := doc.paper.id;
      var w := Written(doc, embeddings);
      if |embeddings| != |doc.chunks| {
        MissingEmbeddingRaises(Lookup(docs, id), w);
        return Raised;
      }
      RowDecides(norm, State(), docs, w);
      if id in papers && !IsFullText(doc.source) && IsFullText(papers[id].source)
         && papers[id].version >= doc.paper.version {
        return Guarded;
      }
      var stored := RowOf(papers, id);
      var row := RowFor(doc, stored, summary, summaryModel);
      SummaryIsKept(doc, stored, summary, summaryModel);
      var authors', next', links' := InsertAuthors(norm, doc.paper.authors, authors, nextAuthorId);
      var ok, rows := InsertChunks(w);
      if !ok {
        return Raised;
      }
      AllConsistent(norm, State(), docs, written, w, row, authors', next', links', rows);
      papers, authors, nextAuthorId := papers[id := row], authors', next';
      links, chunks := links[id := links'], chunks[id := rows];
      docs, written := docs[id := w], written + [doc.paper.authors];
      return Stored;
    }
  }

  /** What is stored of a paper: its fields, its authors each at the first place they are listed, and its chunks,
      each with the embedding computed for it; of the free texts only the NUL characters are missing. */
  lemma StoredPaperIsItsDocument(norm: string -> string, t: Tables, docs: map<string, Written>, id: string)
    requires Consistent(norm, t, docs) && id in docs
    ensures id in t.papers && id in t.links && id in t.chunks
    ensures var row, doc := t.papers[id], docs[id].doc;
            && doc.paper.id == id && row.version == doc.paper.version && row.source == doc.source
            && row.meta == doc.paper.meta
            && Stripped(doc.paper.title, row.title) && Stripped(doc.paper.abstractText, row.abstractText)
    ensures |docs[id].embeddings| == |docs[id].doc.chunks|
    ensures forall i :: 0 <= i < |docs[id].doc.chunks| ==>
              var c := docs[id].doc.chunks[i];
              c.idx in t.chunks[id] &&
              var row := t.chunks[id][c.idx];
              && row.tokenCount == c.tokenCount && row.embedding == docs[id].embeddings[i]
              && Stripped(c.text, row.text) && StrippedOpt(c.section, row.section)
    ensures forall x :: x in t.chunks[id] ==> exists c :: c in docs[id].doc.chunks && c.idx == x
    ensures forall p :: 0 <= p < |docs[id].doc.paper.authors| ==>
              var n := norm(docs[id].doc.paper.authors[p]);
              && n in t.authors && t.authors[n].id in t.links[id]
              && t.links[id][t.authors[n].id] <= p < |docs[id].doc.paper.authors|
              && norm(docs[id].doc.paper.authors[t.links[id][t.authors[n].id]]) == n
  {
    hide Stripped, AuthorsOk, NamesOk, FirstIndex;
    var w := docs[id];
    assert WholeAt(norm, t, id, w);
    forall x | x in t.chunks[id]
      ensures exists c :: c in w.doc.chunks && c.idx == x
    {
      var i :| 0 <= i < |w.doc.chunks| && w.doc.chunks[i].idx == x;
      assert w.doc.chunks[i] in w.doc.chunks;
    }
    var names := w.doc.paper.authors;
    var norms := Norms(norm, names);
    forall p | 0 <= p < |names|
      ensures var n := norm(names[p]);
              && n in t.authors && t.authors[n].id in t.links[id]
              && t.links[id][t.authors[n].id] <= p && norm(names[t.links[id][t.authors[n].id]]) == n
    {
      assert norms[p] in norms;
      FirstIndexIsLeast(norms, p);
    }
  }

  // ---- what readers of the tables see ----

  /** The paper's linked authors, by normalised name, in an order that ORDER BY position allows. */
  ghost predicate ByPosition(authors: Authors, links: Links, keys: seq<string>) {
    && (forall n :: n in keys <==> n in authors && authors[n].id in links)
    && (forall i, j :: 0 <= i < j < |keys| ==>
          keys[i] != keys[j] && keys[i] in authors && authors[keys[i]].id in links &&
          keys[j] in authors && authors[keys[j]].id in links &&
          links[authors[keys[i]].id] <= links[authors[keys[j]].id])
  }

  function Shown(authors: Authors, keys: seq<string>): (r: seq<string>)
    requires forall n :: n in keys ==> n in authors
    ensures |r| == |keys|
  {
    seq(|keys|, i requires 0 <= i < |keys| => authors[keys[i]].name)
  }

  /** An answer of array_agg(a.name ORDER BY pa.position). */
  ghost predicate ReadsAuthors(authors: Authors, links: Links, out: seq<string>) {
    exists keys :: ByPosition(authors, links, keys) && out == Shown(authors, keys)
  }

  /** There is exactly one answer: the names shown for the document's authors, later duplicates removed, in the
      order of the document, although the rows were inserted in name order. */
  lemma OneAnswer(norm: string -> string, t: Tables, docs: map<string, Written>, id: string, out: seq<string>)
    requires Consistent(norm, t, docs) && id in docs
    ensures var keys := Dedup(Norms(norm, docs[id].doc.paper.authors));
            (forall n :: n in keys ==> n in t.authors) &&
            (ReadsAuthors(t.authors, t.links[id], out) <==> out == Shown(t.authors, keys))
  {
    hide Consistent, Norms, Dedup, ByPosition, LinksMatch, AuthorsOk;
    var norms := Norms(norm, docs[id].doc.paper.authors);
    LinksOf(norm, t, docs, id);
    forall keys
      ensures ByPosition(t.authors, t.links[id], keys) <==> keys == Dedup(norms)
    {
      OnlyDedupIsByPosition(norms, t.authors, t.nextAuthorId, t.links[id], keys);
    }
  }

  lemma LinksOf(norm: string -> string, t: Tables, docs: map<string, Written>, id: string)
    requires Consistent(norm, t, docs) && id in docs
    ensures id in t.links && AuthorsOk(t.authors, t.nextAuthorId) && NamesOk(norm, t.authors)
    ensures LinksMatch(Norms(norm, docs[id].doc.paper.authors), t.authors, t.links[id])
    ensures forall n :: n in Dedup(Norms(norm, docs[id].doc.paper.authors)) ==> n in t.authors
  {
    hide Norms, Dedup;
    assert WholeAt(norm, t, id, docs[id]);
  }

  /** The authors with a link are those that the document lists. */
  lemma LinkedAreListed(norms: seq<string>, authors: Authors, next: nat, links: Links)
    requires AuthorsOk(authors, next) && LinksMatch(norms, authors, links)
    ensures forall n :: n in norms <==> n in authors && authors[n].id in links
  {
    hide FirstIndex;
    forall n | n in authors && authors[n].id in links
      ensures n in norms
    {
      var m :| m in norms && m in authors && authors[m].id == authors[n].id;
    }
  }

  /** Two linked authors stand in the order in which the document lists them first. */
  lemma PositionIsFirstIndex(norms: seq<string>, authors: Authors, next: nat, links: Links, m: string, n: string)
    requires AuthorsOk(authors, next) && LinksMatch(norms, authors, links) && m in norms && n in norms
    ensures && m in authors && authors[m].id in links && n in authors && authors[n].id in links
            && (links[authors[m].id] <= links[authors[n].id] && m != n <==> FirstIndex(norms, m) < FirstIndex(norms, n))
  {
    hide FirstIndex;
    assert norms[FirstIndex(norms, m)] == m && norms[FirstIndex(norms, n)] == n;
  }

  lemma ByPositionIsIncreasing(norms: seq<string>, authors: Authors, next: nat, links: Links, keys: seq<string>)
    requires AuthorsOk(authors, next) && LinksMatch(norms, authors, links)
    ensures ByPosition(authors, links, keys) <==> (forall n :: n in keys <==> n in norms) && Increasing(norms, keys)
  {
    LinkedAreListed(norms, authors, next, links);
    hide AuthorsOk, LinksMatch, FirstIndex;
    assert forall i :: 0 <= i < |keys| ==> keys[i] in keys;
    forall i, j | 0 <= i < j < |keys| && keys[i] in norms && keys[j] in norms
      ensures var a, b := authors[keys[i]].id, authors[keys[j]].id;
              links[a] <= links[b] && keys[i] != keys[j] <==>
              FirstIndex(norms, keys[i]) < FirstIndex(norms, keys[j])
    {
      PositionIsFirstIndex(norms, authors, next, links, keys[i], keys[j]);
    }
  }

  lemma OnlyDedupIsByPosition(norms: seq<string>, authors: Authors, next: nat, links: Links, keys: seq<string>)
    requires AuthorsOk(authors, next) && LinksMatch(norms, authors, links)
    ensures ByPosition(authors, links, keys) <==> keys == Dedup(norms)
  {
    hide AuthorsOk, LinksMatch, ByPosition, Increasing, Dedup;
    ByPositionIsIncreasing(norms, authors, next, links, keys);
    DedupInOrder(norms);
    if ByPosition(authors, links, keys) {
      OrderedNamesAreDedup(norms, keys);
    }
  }

  /** Up to spelling, reading by position gives the document's author list with later duplicates removed. */
  lemma AuthorsReadBack(norm: string -> string, t: Tables, docs: map<string, Written>, id: string, out: seq<string>)
    requires Consistent(norm, t, docs) && id in docs && ReadsAuthors(t.authors, t.links[id], out)
    ensures Norms(norm, out) == Dedup(Norms(norm, docs[id].doc.paper.authors))
  {
    hide Dedup, Consistent;
    OneAnswer(norm, t, docs, id, out);
    LinksOf(norm, t, docs, id);
  }

  /** The document's own spelling of its distinct authors. */
  function OwnSpelling(norm: string -> string, names: seq<string>): (r: seq<string>)
    ensures |r| == |Dedup(Norms(norm, names))|
  {
    var norms := Norms(norm, names);
    var keys := Dedup(norms);
    seq(|keys|, i requires 0 <= i < |keys| => assert keys[i] in keys; names[FirstIndex(norms, keys[i])])
  }

  /** The list that is read is in the document's own spelling exactly when every author was spelled that way by
      the first document ever stored that lists the author. */
  lemma OwnSpellingExactly(norm: string -> string, t: Tables, docs: map<string, Written>, written: seq<seq<string>>,
                           id: string, out: seq<string>)
    requires Consistent(norm, t, docs) && Spelled(norm, written, t.authors)
    requires id in docs && ReadsAuthors(t.authors, t.links[id], out)
    ensures var names := docs[id].doc.paper.authors;
            var norms := Norms(norm, names);
            out == OwnSpelling(norm, names) <==>
            forall n :: n in norms ==> Spelling(norm, written, n) == Some(names[FirstIndex(norms, n)])
  {
    hide Consistent, Norms, Dedup, FirstIndex, Spelling, ReadsAuthors;
    OneAnswer(norm, t, docs, id, out);
    var names := docs[id].doc.paper.authors;
    var norms := Norms(norm, names);
    var keys := Dedup(norms);
    var own := OwnSpelling(norm, names);
    assert forall i :: 0 <= i < |keys| ==> keys[i] in keys;
    if out == own {
      forall n | n in norms
        ensures Spelling(norm, written, n) == Some(names[FirstIndex(norms, n)])
      {
        assert n in keys;
        var i :| 0 <= i < |keys| && keys[i] == n;
        assert out[i] == own[i];
      }
    }
    if forall n :: n in norms ==> Spelling(norm, written, n) == Some(names[FirstIndex(norms, n)]) {
      forall i | 0 <= i < |keys|
        ensures out[i] == own[i]
      {
        assert Spelling(norm, written, keys[i]) == Some(names[FirstIndex(norms, keys[i])]);
      }
    }
  }

  /** Two papers that spell one author differently: the second one stored shows the first one's spelling. */
  lemma SecondSpellingIsNotShown(norm: string -> string, t: Tables, docs: map<string, Written>, id: string,
                                 x: string, y: string, out: seq<string>)
    requires Consistent(norm, t, docs) && Spelled(norm, [[x], [y]], t.authors) && norm(x) == norm(y) && x != y
    requires id in docs && docs[id].doc.paper.authors == [y] && ReadsAuthors(t.authors, t.links[id], out)
    ensures out == [x] && OwnSpelling(norm, [y]) == [y]
  {
    hide Consistent, ReadsAuthors;
    OneAnswer(norm, t, docs, id, out);
    var n := norm(y);
    assert Norms(norm, [x]) == [n] && Norms(norm, [y]) == [n];
    DedupOne(n);
    assert [[x], [y]][..1] == [[x]] && [[x]][..0] == [];
    assert Spelling(norm, [[x]], n) == Some(x);
    assert Spelling(norm, [[x], [y]], n) == Some(x);
  }

  lemma DedupOne(n: string)
    ensures Dedup([n]) == [n] && FirstIndex([n], n) == 0
  {
    assert [n][..0] == [];
  }

  lemma FirstIsStored(w: Written)
    requires |w.embeddings| == |w.doc.chunks| && DistinctIdx(w.doc.chunks)
    ensures Expected(None, w) == Stored
  {
  }

  /** And such a database arises by storing any two such documents. */
  method StoreTwoSpellings(norm: string -> string, a: Doc, ea: seq<Vector>, b: Doc, eb: seq<Vector>,
                           x: string, y: string) returns (db: Database)
    requires a.paper.authors == [x] && b.paper.authors == [y] && norm(x) == norm(y) && x != y
    requires a.paper.id != b.paper.id
    requires DistinctIdx(a.chunks) && |ea| == |a.chunks| && DistinctIdx(b.chunks) && |eb| == |b.chunks|
    ensures db.Valid() && db.docs == map[a.paper.id := Written(a, ea), b.paper.id := Written(b, eb)]
    ensures b.paper.id in db.links
    ensures forall out :: ReadsAuthors(db.authors, db.links[b.paper.id], out) ==> out == [x] != OwnSpelling(norm, [y])
  {
    hide Consistent, Spelled, Expected, ReadsAuthors, OwnSpelling, AuthorsAdded, DistinctIdx;
    FirstIsStored(Written(a, ea));
    FirstIsStored(Written(b, eb));
    db := new Database(norm);
    var first := db.UpsertPaper(a, ea, None, None);
    var second := db.UpsertPaper(b, eb, None, None);
    assert db.written == [[x], [y]];
    KeysAgree(norm, db.State(), db.docs);
    forall out | ReadsAuthors(db.authors, db.links[b.paper.id], out)
      ensures out == [x] != OwnSpelling(norm, [y])
    {
      SecondSpellingIsNotShown(norm, db.State(), db.docs, b.paper.id, x, y, out);
    }
  }

  lemma KeysAgree(norm: string -> string, t: Tables, docs: map<string, Written>)
    requires Consistent(norm, t, docs)
    ensures docs.Keys == t.papers.Keys == t.links.Keys == t.chunks.Keys
  {
  }

  /** Chunk numbers of a stored paper are 0..n-1 when the document's are, which is how both producers
      number them. */
  lemma ChunkNumbersAreContiguous(norm: string -> string, t: Tables, docs: map<string, Written>, id: string, x: nat)
    requires Consistent(norm, t, docs) && id in docs
    requires forall i :: 0 <= i < |docs[id].doc.chunks| ==> docs[id].doc.chunks[i].idx == i
    ensures x in t.chunks[id] <==> x < |docs[id].doc.chunks|
  {
    assert WholeAt(norm, t, id, docs[id]);
    if x < |docs[id].doc.chunks| {
      assert docs[id].doc.chunks[x].idx == x;
    }
  }

  // ---- the tables follow the documents ----

  ghost predicate SameDocuments(docs: map<string, Written>, docs': map<string, Written>) {
    docs.Keys == docs'.Keys && forall id :: id in docs ==> docs[id].doc == docs'[id].doc
  }

  lemma LinksAreDetermined(norms: seq<string>, authors: Authors, authors': Authors, next: nat, links: Links,
                           links': Links)
    requires AuthorsOk(authors', next) && AuthorsGrow(authors, authors')
    requires LinksMatch(norms, authors, links) && LinksMatch(norms, authors', links')
    ensures links == links'
  {
    hide FirstIndex;
    forall a
      ensures a in links <==> a in links'
      ensures a in links ==> links[a] == links'[a]
    {
      if a in links {
        var n :| n in norms && n in authors && authors[n].id == a;
        assert authors'[n] == authors[n];
      }
      if a in links' {
        var n :| n in norms && n in authors' && authors'[n].id == a;
        assert n in authors && authors'[n] == authors[n];
      }
    }
  }

  /** Two sets of chunk rows hold the same numbers and texts. */
  predicate SameTexts(rows: Chunks, rows': Chunks) {
    rows.Keys == rows'.Keys &&
    forall x :: x in rows ==> rows'[x] == rows[x].(embedding := rows'[x].embedding)
  }

  lemma ChunkIsDetermined(row: ChunkRow, row': ChunkRow, c: Chunk, e: Vector, e': Vector)
    requires ChunkMatches(row, c, e) && ChunkMatches(row', c, e')
    ensures row' == row.(embedding := e') && row.embedding == e
  {
    hide Stripped;
    StrippedIsUnique(c.text, row.text);
    StrippedIsUnique(c.text, row'.text);
    if c.section.Some? {
      StrippedIsUnique(c.section.value, row.section.value);
      StrippedIsUnique(c.section.value, row'.section.value);
    }
  }

  lemma RowIsDetermined(row: PaperRow, row': PaperRow, doc: Doc)
    requires RowMatches(row, doc) && RowMatches(row', doc)
    ensures row' == row.(summary := row'.summary, summaryModel := row'.summaryModel)
  {
    hide Stripped;
    StrippedIsUnique(doc.paper.title, row.title);
    StrippedIsUnique(doc.paper.title, row'.title);
    StrippedIsUnique(doc.paper.abstractText, row.abstractText);
    StrippedIsUnique(doc.paper.abstractText, row'.abstractText);
  }

  lemma ChunksAreDetermined(w: Written, w': Written, rows: Chunks, rows': Chunks)
    requires w.doc == w'.doc && |w.doc.chunks| == |w.embeddings| == |w'.embeddings|
    requires ChunksMatch(w, |w.doc.chunks|, rows) && ChunksMatch(w', |w.doc.chunks|, rows')
    ensures SameTexts(rows, rows')
    ensures w == w' ==> rows == rows'
  {
    hide ChunkMatches;
    var cs := w.doc.chunks;
    forall x
      ensures x in rows <==> x in rows'
      ensures x in rows ==> rows'[x] == rows[x].(embedding := rows'[x].embedding)
      ensures x in rows && w == w' ==> rows'[x] == rows[x]
    {
      if x in rows {
        var i :| 0 <= i < |cs| && cs[i].idx == x;
        ChunkIsDetermined(rows[x], rows'[x], cs[i], w.embeddings[i], w'.embeddings[i]);
      }
      if x in rows' {
        var i :| 0 <= i < |cs| && cs[i].idx == x;
        assert cs[i].idx in rows;
      }
    }
  }

  /** Whatever was written in between: two states of the database with the same documents behind their rows have
      the same links, the same chunks (with the embeddings last computed), and the same rows apart from the
      summary columns. */
  lemma TablesFollowDocuments(norm: string -> string, t: Tables, docs: map<string, Written>,
                              t': Tables, docs': map<string, Written>)
    requires Consistent(norm, t, docs) && Consistent(norm, t', docs') && SameDocuments(docs, docs')
    requires AuthorsGrow(t.authors, t'.authors)
    ensures t.links == t'.links
    ensures t.chunks.Keys == t'.chunks.Keys && forall id :: id in t.chunks ==> SameTexts(t.chunks[id], t'.chunks[id])
    ensures docs == docs' ==> t.chunks == t'.chunks
    ensures t.papers.Keys == t'.papers.Keys
    ensures forall id :: id in t.papers ==>
              var summary, model := t'.papers[id].summary, t'.papers[id].summaryModel;
              t'.papers[id] == t.papers[id].(summary := summary, summaryModel := model)
  {
    hide *;
    KeysAgree(norm, t, docs);
    KeysAgree(norm, t', docs');
    DocumentKeys(docs, docs');
    forall id | id in docs
      ensures t.links[id] == t'.links[id] && SameTexts(t.chunks[id], t'.chunks[id])
      ensures docs == docs' ==> t.chunks[id] == t'.chunks[id]
      ensures var summary, model := t'.papers[id].summary, t'.papers[id].summaryModel;
              t'.papers[id] == t.papers[id].(summary := summary, summaryModel := model)
    {
      PaperFollowsDocument(norm, t, docs, t', docs', id);
    }
  }

  lemma DocumentKeys(docs: map<string, Written>, docs': map<string, Written>)
    requires SameDocuments(docs, docs')
    ensures docs.Keys == docs'.Keys
  {
  }

  lemma PaperFollowsDocument(norm: string -> string, t: Tables, docs: map<string, Written>,
                             t': Tables, docs': map<string, Written>, id: string)
    requires Consistent(norm, t, docs) && Consistent(norm, t', docs') && SameDocuments(docs, docs')
    requires AuthorsGrow(t.authors, t'.authors) && id in docs
    requires id in t.links && id in t'.links && id in t.chunks && id in t'.chunks && id in t.papers && id in t'.papers
    ensures t.links[id] == t'.links[id] && SameTexts(t.chunks[id], t'.chunks[id])
    ensures docs == docs' ==> t.chunks[id] == t'.chunks[id]
    ensures var summary, model := t'.papers[id].summary, t'.papers[id].summaryModel;
            t'.papers[id] == t.papers[id].(summary := summary, summaryModel := model)
  {
    hide LinksMatch, ChunksMatch, DistinctIdx, SameTexts, RowMatches, Norms, AuthorsGrow;
    assert WholeAt(norm, t, id, docs[id]) && WholeAt(norm, t', id, docs'[id]);
    RowIsDetermined(t.papers[id], t'.papers[id], docs[id].doc);
    LinksAreDetermined(Norms(norm, docs[id].doc.paper.authors), t.authors, t'.authors, t'.nextAuthorId,
                       t.links[id], t'.links[id]);
    ChunksAreDetermined(docs[id], docs'[id], t.chunks[id], t'.chunks[id]);
  }
}
