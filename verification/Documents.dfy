/** The messages: rust/common/src/models.rs and python/arxiv_common/src/arxiv_common/models.py. */
module Documents {
  import opened Prelude

  /** The fields of a paper that the pipeline carries along without looking at them. */
  datatype Metadata = Metadata(
    primaryCategory: string, categories: seq<string>, publishedAt: int, updatedAt: int,
    pdfUrl: string, htmlUrl: Option<string>, doi: Option<string>, journalRef: Option<string>,
    comment: Option<string>)

  /** Topic papers.new: one version of one paper. */
  datatype Paper = Paper(
    id: string, version: nat, title: string, abstractText: string, authors: seq<string>, meta: Metadata)

  datatype Source = Html | Pdf | Abstract

  datatype Chunk = Chunk(idx: nat, section: Option<string>, text: string, tokenCount: nat)

  /** Topic papers.chunked: the paper with its extracted, chunked text. */
  datatype Doc = Doc(paper: Paper, source: Source, chunks: seq<Chunk>)

  predicate IsFullText(source: Source): (r: bool)
    ensures r <==> !source.Abstract?
  {
    source.Html? || source.Pdf?
  }

  predicate FullDoc(d: Doc) {
    IsFullText(d.source)
  }

  predicate StartsWord(s: string, i: nat)
    requires i < |s|
  {
    !IsBlank(s[i]) && (i == 0 || IsBlank(s[i - 1]))
  }

  /** Number of words `str.split()` finds; blanks are the ASCII ones. */
  function WordCount(s: string): nat {
    if s == "" then 0 else WordCount(s[..|s| - 1]) + (if StartsWord(s, |s| - 1) then 1 else 0)
  }

  /** Where the words start: at a character that is no blank, first or after a blank. */
  ghost function WordStarts(s: string): set<nat> {
    set i: nat | i < |s| && StartsWord(s, i)
  }

  lemma {:induction false} WordsAreCounted(s: string)
    ensures WordCount(s) == |WordStarts(s)|
  {
    if s == "" {
      assert WordStarts(s) == {};
    } else {
      var n := |s| - 1;
      WordsAreCounted(s[..n]);
      assert forall i: nat :: i < n ==> s[..n][i] == s[i];
      GrowsByOne(WordStarts(s[..n]), WordStarts(s), n, StartsWord(s, n));
    }
  }

  predicate IsBlank(c: char) {
    c == ' ' || '\t' <= c <= '\r'
  }

  /** What the message schema asks of the chunks (schemas/messages.v1.json:43-56): at least one, none without
      text or tokens. */
  predicate ChunksOk(chunks: seq<Chunk>) {
    chunks != [] && forall c :: c in chunks ==> c.text != "" && c.tokenCount >= 1
  }

  /** ChunkedPaper.from_abstract: the abstract is the single chunk. */
  function FromAbstract(p: Paper): (d: Doc)
    ensures d.paper == p && !FullDoc(d) && |d.chunks| == 1 && d.chunks[0].idx == 0
    ensures d.chunks[0].text == p.title + "\n\n" + p.abstractText && ChunksOk(d.chunks)
    ensures d.chunks[0].section == Some("abstract")
    ensures var words := |WordStarts(d.chunks[0].text)|; d.chunks[0].tokenCount == if words == 0 then 1 else words
  {
    WordsAreCounted(p.title + "\n\n" + p.abstractText);
    var text := p.title + "\n\n" + p.abstractText;
    var words := WordCount(text);
    Doc(p, Abstract, [Chunk(0, Some("abstract"), text, if words > 1 then words else 1)])
  }
}
