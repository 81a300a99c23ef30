/** The rule by which a document replaces the stored row of its paper, as a function on the stored
    document: the ON CONFLICT ... WHERE clause of `upsert_paper` and the pre-check `has_full_text`
    (python/arxiv_common/src/arxiv_common/db.py), and what follows for whole histories of writes. */
module Guard {
  import opened Prelude
  import opened Documents

  /** db.has_full_text on the stored document. */
  predicate HasFullText(stored: Option<Doc>, version: nat) {
    stored.Some? && FullDoc(stored.value) && stored.value.paper.version >= version
  }

  /** The negated WHERE clause of the upsert. */
  predicate Blocks(stored: Option<Doc>, d: Doc) {
    !FullDoc(d) && HasFullText(stored, d.paper.version)
  }

  function Upsert(stored: Option<Doc>, d: Doc): Option<Doc> {
    if Blocks(stored, d) then stored else Some(d)
  }

  /** The stored document after a history of writes for one paper, oldest first. */
  function Replay(stored: Option<Doc>, history: seq<Doc>): Option<Doc>
    decreases |history|
  {
    if history == [] then stored else Replay(Upsert(stored, history[0]), history[1..])
  }

  // ---- reference definition: which write of a history survives ----

  predicate NoFullText(history: seq<Doc>) {
    forall i :: 0 <= i < |history| ==> !FullDoc(history[i])
  }

  predicate SomeNewer(history: seq<Doc>, version: nat) {
    exists i :: 0 <= i < |history| && history[i].paper.version > version
  }

  /** Index just past the last full-text document. */
  function AfterLastFullText(history: seq<Doc>): (n: nat)
    ensures n <= |history| && NoFullText(history[n..])
    ensures n > 0 ==> FullDoc(history[n - 1])
  {
    if history == [] then 0
    else if FullDoc(history[|history| - 1]) then |history|
    else
      var init := history[..|history| - 1];
      var n := AfterLastFullText(init);
      assert forall i :: n <= i < |init| ==> history[i] == init[n..][i - n];
      n
  }

  /** The surviving document, without folding: the last full-text document, unless an abstract newer
      than it came later, in which case the last abstract. */
  function Survivor(stored: Option<Doc>, history: seq<Doc>): Option<Doc> {
    var n := AfterLastFullText(history);
    var base := if n == 0 then stored else Some(history[n - 1]);
    var abstracts := history[n..];
    if abstracts == [] then base
    else if base.Some? && FullDoc(base.value) && !SomeNewer(abstracts, base.value.paper.version) then base
    else Some(abstracts[|abstracts| - 1])
  }

  lemma {:induction false} ReplayConcat(stored: Option<Doc>, a: seq<Doc>, b: seq<Doc>)
    ensures Replay(stored, a + b) == Replay(Replay(stored, a), b)
    decreases |a|
  {
    if a == [] {
      assert a + b == b;
    } else {
      assert (a + b)[1..] == a[1..] + b;
      ReplayConcat(Upsert(stored, a[0]), a[1..], b);
    }
  }

  lemma {:induction false} ReplayAbstracts(stored: Option<Doc>, h: seq<Doc>)
    requires NoFullText(h)
    ensures Replay(stored, h) ==
            if h == [] then stored
            else if stored.Some? && FullDoc(stored.value) && !SomeNewer(h, stored.value.paper.version) then stored
            else Some(h[|h| - 1])
    decreases |h|
  {
    if h != [] {
      ReplayAbstracts(Upsert(stored, h[0]), h[1..]);
      if stored.Some? && FullDoc(stored.value) {
        var v := stored.value.paper.version;
        assert SomeNewer(h, v) <==> h[0].paper.version > v || SomeNewer(h[1..], v) by {
          if SomeNewer(h, v) {
            var i :| 0 <= i < |h| && h[i].paper.version > v;
            assert i > 0 ==> h[1..][i - 1] == h[i];
          }
        }
      }
    }
  }

  lemma LastFullTextWins(stored: Option<Doc>, h: seq<Doc>)
    requires h != [] && FullDoc(h[|h| - 1])
    ensures Replay(stored, h) == Some(h[|h| - 1])
  {
    var front, last := h[..|h| - 1], h[|h| - 1];
    assert h == front + [last];
    ReplayConcat(stored, front, [last]);
    assert Replay(Replay(stored, front), [last]) == Replay(Upsert(Replay(stored, front), last), []);
  }

  /** Only the part after the last full-text document matters, read from that document. */
  lemma ReplayFromLastFullText(stored: Option<Doc>, history: seq<Doc>, n: nat)
    requires n <= |history| && (n > 0 ==> FullDoc(history[n - 1]))
    ensures Replay(stored, history) ==
            Replay(if n == 0 then stored else Some(history[n - 1]), history[n..])
  {
    assert history == history[..n] + history[n..];
    ReplayConcat(stored, history[..n], history[n..]);
    if n > 0 {
      LastFullTextWins(stored, history[..n]);
    }
  }

  /** Replaying a history leaves exactly the document the reference definition names. */
  lemma ReplayIsSurvivor(stored: Option<Doc>, history: seq<Doc>)
    ensures Replay(stored, history) == Survivor(stored, history)
  {
    var n := AfterLastFullText(history);
    ReplayFromLastFullText(stored, history, n);
    ReplayAbstracts(if n == 0 then stored else Some(history[n - 1]), history[n..]);
  }

  /** Redelivery is harmless: re-applying any suffix of a history, from any earlier row, changes nothing. */
  lemma ReplaySuffixHarmless(stored: Option<Doc>, history: seq<Doc>, i: nat)
    requires i <= |history|
    ensures Replay(Replay(stored, history), history[i..]) == Replay(stored, history)
  {
    var row := Replay(stored, history);
    var n := AfterLastFullText(history);
    ReplayFromLastFullText(stored, history, n);
    if n > i {
      assert history[i..][n - i - 1] == history[n - 1];
      ReplayFromLastFullText(row, history[i..], n - i);
      assert history[i..][n - i..] == history[n..];
    } else if i < |history| {
      assert history[n..][i - n..] == history[i..];
      AbstractSuffixHarmless(if n == 0 then stored else Some(history[n - 1]), history[n..], i - n);
    }
  }

  lemma AbstractSuffixHarmless(base: Option<Doc>, abstracts: seq<Doc>, i: nat)
    requires NoFullText(abstracts) && i < |abstracts|
    ensures Replay(Replay(base, abstracts), abstracts[i..]) == Replay(base, abstracts)
  {
    assert NoFullText(abstracts[i..]);
    ReplayAbstracts(base, abstracts);
    ReplayAbstracts(Replay(base, abstracts), abstracts[i..]);
    SuffixNewer(abstracts, i);
  }

  lemma SuffixNewer(h: seq<Doc>, i: nat)
    requires i <= |h|
    ensures forall v: nat :: SomeNewer(h[i..], v) ==> SomeNewer(h, v)
  {
    forall v: nat | SomeNewer(h[i..], v)
      ensures SomeNewer(h, v)
    {
      var k :| 0 <= k < |h[i..]| && h[i..][k].paper.version > v;
      assert h[i + k] == h[i..][k];
    }
  }

  /** Replaying abstracts only, as a restarted fast-path consumer does, keeps a full-text row exactly
      when none of them is newer than it. */
  lemma AbstractReplayKeepsFullText(row: Doc, abstracts: seq<Doc>)
    requires FullDoc(row) && NoFullText(abstracts)
    ensures Replay(Some(row), abstracts) == Some(row) <==>
            forall i :: 0 <= i < |abstracts| ==> abstracts[i].paper.version <= row.paper.version
  {
    ReplayAbstracts(Some(row), abstracts);
    if abstracts != [] && SomeNewer(abstracts, row.paper.version) {
      assert !FullDoc(abstracts[|abstracts| - 1]);
    }
  }

  /** Two writes of different kinds commute exactly when the abstract is not newer than the full text;
      then the full text is what stays, whatever was stored before. */
  lemma FastAndSlowCommute(stored: Option<Doc>, quick: Doc, full: Doc)
    requires FullDoc(full) && !FullDoc(quick)
    ensures Replay(stored, [quick, full]) == Replay(stored, [full, quick]) <==>
            quick.paper.version <= full.paper.version
    ensures quick.paper.version <= full.paper.version ==> Replay(stored, [full, quick]) == Some(full)
  {
    ReplayTwo(stored, quick, full);
    ReplayTwo(stored, full, quick);
  }

  lemma ReplayTwo(stored: Option<Doc>, a: Doc, b: Doc)
    ensures Replay(stored, [a, b]) == Upsert(Upsert(stored, a), b)
  {
    assert [a, b][1..] == [b];
    assert Replay(Upsert(stored, a), [b]) == Replay(Upsert(Upsert(stored, a), b), []);
  }
}
