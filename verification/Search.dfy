/** Dense search (python/arxiv_common/src/arxiv_common/db.py:209-241): the nearest chunks, the best chunk
    per paper, the top k, against the same thing over every filtered chunk.  Distances are exact; ties are
    broken by one fixed order on chunk numbers. */
module Search {
  import opened Prelude
  import opened Ordering

  /** A chunk that passes the query's filters: its paper, its distance to the query, and a unique number. */
  datatype Hit = Hit(paper: string, dist: real, serial: nat)

  /** ORDER BY distance (equivalently, by score descending). */
  predicate Closer(a: Hit, b: Hit) {
    if a.dist != b.dist then a.dist < b.dist
    else if a.serial != b.serial then a.serial < b.serial
    else StrLe(a.paper, b.paper)
  }

  lemma CloserIsTotalOrder()
    ensures TotalOrder(Closer)
  {
    forall x, y ensures Closer(x, y) || Closer(y, x) { StrLeTotal(x.paper, y.paper); }
    forall x, y | Closer(x, y) && Closer(y, x)
      ensures x == y
    {
      if x.dist == y.dist && x.serial == y.serial {
        StrLeAntisymmetric(x.paper, y.paper);
      }
    }
    forall x, y, z | Closer(x, y) && Closer(y, z)
      ensures Closer(x, z)
    {
      if x.dist == z.dist && x.serial == z.serial && x.dist == y.dist && x.serial == y.serial {
        StrLeTransitive(x.paper, y.paper, z.paper);
      }
    }
  }

  /** The nearest `cand` chunks. */
  function Nearest(hits: seq<Hit>, cand: nat): seq<Hit> {
    Take(Sort(hits, Closer), cand)
  }

  /** The closer of two hits. */
  function CloserOf(a: Hit, b: Hit): Hit {
    if Closer(a, b) then a else b
  }

  /** DISTINCT ON (arxiv_id) ... ORDER BY arxiv_id, score DESC: for each paper its closest chunk. */
  function BestPerPaper(hits: seq<Hit>): (m: map<string, Hit>)
    ensures forall p :: p in m ==> m[p] in hits && m[p].paper == p
    ensures forall h :: h in hits ==> h.paper in m
  {
    if hits == [] then map[]
    else
      var init, h := hits[..|hits| - 1], hits[|hits| - 1];
      assert hits == init + [h];
      var m := BestPerPaper(init);
      m[h.paper := if h.paper in m then CloserOf(m[h.paper], h) else h]
  }

  /** The papers of `hits` in order of their closest chunk: first come, first kept, on sorted input. */
  function FirstPerPaper(hits: seq<Hit>, seen: set<string> := {}): (r: seq<Hit>)
    ensures forall h :: h in r ==> h in hits && h.paper !in seen
  {
    if hits == [] then []
    else if hits[0].paper in seen then FirstPerPaper(hits[1..], seen)
    else [hits[0]] + FirstPerPaper(hits[1..], seen + {hits[0].paper})
  }

  /** `rows` is the outer query's answer before its LIMIT: the best chunks in order of score. */
  ghost predicate RankedBest(hits: seq<Hit>, rows: seq<Hit>) {
    && Sorted(rows, Closer)
    && NoRepeats(rows)
    && (forall h :: h in rows <==> h.paper in BestPerPaper(hits) && BestPerPaper(hits)[h.paper] == h)
  }

  /** The query, with a window of `cand` chunks. */
  ghost predicate WindowAnswer(hits: seq<Hit>, cand: nat, k: nat, answer: seq<Hit>) {
    exists rows :: RankedBest(Nearest(hits, cand), rows) && answer == Take(rows, k)
  }

  /** The exhaustive query: best chunk of every paper over all filtered chunks, then the top k. */
  ghost predicate ExhaustiveAnswer(hits: seq<Hit>, k: nat, answer: seq<Hit>) {
    exists rows :: RankedBest(hits, rows) && answer == Take(rows, k)
  }

  function Papers(hits: seq<Hit>): set<string> {
    set h | h in hits :: h.paper
  }

  // ---- the best chunk per paper of a sorted list is the first one met ----

  lemma {:induction false} BestIsClosest(hits: seq<Hit>, h: Hit)
    requires h in hits
    ensures h.paper in BestPerPaper(hits) && Closer(BestPerPaper(hits)[h.paper], h)
  {
    CloserIsTotalOrder();
    var init, last := hits[..|hits| - 1], hits[|hits| - 1];
    assert hits == init + [last];
    if h in init {
      BestIsClosest(init, h);
    }
  }

  lemma {:induction false} FirstPerPaperSorted(hits: seq<Hit>, seen: set<string>)
    requires Sorted(hits, Closer)
    ensures Sorted(FirstPerPaper(hits, seen), Closer)
  {
    hide Closer;
    if hits != [] && hits[0].paper in seen {
      FirstPerPaperSorted(hits[1..], seen);
    } else if hits != [] {
      var tail := FirstPerPaper(hits[1..], seen + {hits[0].paper});
      FirstPerPaperSorted(hits[1..], seen + {hits[0].paper});
      forall i | 0 <= i < |tail|
        ensures Closer(hits[0], tail[i])
      {
        assert tail[i] in hits[1..];
        var k :| 0 <= k < |hits[1..]| && hits[1..][k] == tail[i];
        assert Closer(hits[0], hits[k + 1]);
      }
    }
  }

  lemma {:induction false} FirstPerPaperDistinct(hits: seq<Hit>, seen: set<string>)
    ensures forall i, j :: 0 <= i < j < |FirstPerPaper(hits, seen)| ==>
              FirstPerPaper(hits, seen)[i].paper != FirstPerPaper(hits, seen)[j].paper
  {
    if hits != [] && hits[0].paper in seen {
      FirstPerPaperDistinct(hits[1..], seen);
    } else if hits != [] {
      var tail := FirstPerPaper(hits[1..], seen + {hits[0].paper});
      FirstPerPaperDistinct(hits[1..], seen + {hits[0].paper});
      assert forall k :: 0 <= k < |tail| ==> tail[k] in tail;
    }
  }

  /** Every hit has a closer or equal one of its paper among the first ones. */
  lemma {:induction false} FirstPerPaperCovers(hits: seq<Hit>, seen: set<string>, h: Hit) returns (b: Hit)
    requires Sorted(hits, Closer) && h in hits && h.paper !in seen
    ensures b in FirstPerPaper(hits, seen) && b.paper == h.paper && Closer(b, h)
  {
    CloserIsTotalOrder();
    hide Closer;
    var first := hits[0];
    if h.paper == first.paper {
      b := first;
      HeadIsLeast(hits, h, Closer);
    } else {
      assert h in hits[1..];
      b := FirstPerPaperCovers(hits[1..], if first.paper in seen then seen else seen + {first.paper}, h);
    }
  }

  lemma FirstIsBest(hits: seq<Hit>, h: Hit)
    requires Sorted(hits, Closer) && h in FirstPerPaper(hits)
    ensures h.paper in BestPerPaper(hits) && BestPerPaper(hits)[h.paper] == h
  {
    hide Closer, BestPerPaper, FirstPerPaper;
    CloserIsTotalOrder();
    FirstPerPaperDistinct(hits, {});
    BestIsClosest(hits, h);
    var best := BestPerPaper(hits)[h.paper];
    var b := FirstPerPaperCovers(hits, {}, best);
    var firsts := FirstPerPaper(hits, {});
    var i :| 0 <= i < |firsts| && firsts[i] == b;
    var j :| 0 <= j < |firsts| && firsts[j] == h;
    assert i == j;
  }

  /** On a sorted list, "first per paper" lists exactly the ranked best chunks, and nothing else does. */
  lemma RankedBestIsFirstPerPaper(hits: seq<Hit>, rows: seq<Hit>)
    requires Sorted(hits, Closer)
    ensures RankedBest(hits, rows) <==> rows == FirstPerPaper(hits)
  {
    hide Closer, BestPerPaper, FirstPerPaper;
    CloserIsTotalOrder();
    FirstPerPaperSorted(hits, {});
    FirstPerPaperDistinct(hits, {});
    var firsts := FirstPerPaper(hits, {});
    forall h
      ensures h in firsts <==> h.paper in BestPerPaper(hits) && BestPerPaper(hits)[h.paper] == h
    {
      if h in firsts {
        FirstIsBest(hits, h);
      }
      if h.paper in BestPerPaper(hits) && BestPerPaper(hits)[h.paper] == h {
        var b := FirstPerPaperCovers(hits, {}, h);
        FirstIsBest(hits, b);
      }
    }
    if RankedBest(hits, rows) {
      SortedSetIsUnique(rows, firsts, Closer);
    }
  }

  // ---- a shorter window gives a prefix of the papers ----

  lemma {:induction false} FirstPerPaperConcat(a: seq<Hit>, b: seq<Hit>, seen: set<string>)
    ensures FirstPerPaper(a + b, seen) == FirstPerPaper(a, seen) + FirstPerPaper(b, seen + Papers(a))
    decreases |a|
  {
    if a == [] {
      assert a + b == b && seen + Papers(a) == seen;
    } else {
      assert (a + b)[1..] == a[1..] + b;
      PapersOfCons(a);
      if a[0].paper in seen {
        FirstPerPaperConcat(a[1..], b, seen);
        assert seen + Papers(a) == seen + Papers(a[1..]);
      } else {
        FirstPerPaperConcat(a[1..], b, seen + {a[0].paper});
        assert seen + Papers(a) == seen + {a[0].paper} + Papers(a[1..]);
      }
    }
  }

  lemma PapersOfCons(hits: seq<Hit>)
    requires hits != []
    ensures Papers(hits) == {hits[0].paper} + Papers(hits[1..])
  {
    forall q | q in Papers(hits)
      ensures q in {hits[0].paper} + Papers(hits[1..])
    {
      var h :| h in hits && h.paper == q;
      assert h == hits[0] || h in hits[1..];
    }
  }

  lemma {:induction false} FirstPerPaperCount(hits: seq<Hit>, seen: set<string>)
    ensures |FirstPerPaper(hits, seen)| == |Papers(hits) - seen|
  {
    if hits == [] {
      assert Papers(hits) - seen == {};
    } else {
      var p, rest := hits[0].paper, hits[1..];
      PapersOfCons(hits);
      hide Papers;
      if p in seen {
        FirstPerPaperCount(rest, seen);
        assert Papers(hits) - seen == Papers(rest) - seen;
      } else {
        FirstPerPaperCount(rest, seen + {p});
        assert Papers(hits) - seen == {p} + (Papers(rest) - (seen + {p}));
      }
    }
  }

  /** The windowed query equals the exhaustive one exactly when the window holds k papers or all of them. */
  lemma WindowRefinesExhaustive(hits: seq<Hit>, cand: nat, k: nat, windowed: seq<Hit>, exhaustive: seq<Hit>)
    requires WindowAnswer(hits, cand, k, windowed) && ExhaustiveAnswer(hits, k, exhaustive)
    ensures windowed == exhaustive <==>
            |Papers(Nearest(hits, cand))| >= k || Papers(Nearest(hits, cand)) == Papers(hits)
  {
    hide Closer, BestPerPaper, FirstPerPaper, RankedBest, Papers, Sort;
    var sorted := Sort(hits, Closer);
    var window := Nearest(hits, cand);
    var rest := if cand < |sorted| then sorted[cand..] else [];
    assert sorted == window + rest;
    CloserIsTotalOrder();
    SortIsSorted(hits, Closer);
    var wrows :| RankedBest(window, wrows) && windowed == Take(wrows, k);
    var rows :| RankedBest(hits, rows) && exhaustive == Take(rows, k);
    RankedBestIsFirstPerPaper(window, wrows);
    RankedBestSorted(hits, rows);
    RankedBestIsFirstPerPaper(sorted, rows);
    FirstPerPaperConcat(window, rest, {});
    FirstPerPaperCount(window, {});
    FirstPerPaperCount(sorted, {});
    assert Papers(window) - {} == Papers(window) && Papers(sorted) - {} == Papers(sorted);
    PapersOfWindow(hits, cand);
    if |wrows| == |rows| {
      assert rows == wrows;
      SubsetOfSameSize(Papers(window), Papers(sorted));
    }
  }

  lemma PapersOfWindow(hits: seq<Hit>, cand: nat)
    ensures Papers(Sort(hits, Closer)) == Papers(hits)
    ensures Papers(Nearest(hits, cand)) <= Papers(hits)
  {
    hide Closer;
    SortHasSameMembers(hits, Closer);
    var sorted := Sort(hits, Closer);
    forall p | p in Papers(Nearest(hits, cand))
      ensures p in Papers(hits)
    {
      var h :| h in Nearest(hits, cand) && h.paper == p;
      assert h in sorted;
    }
  }

  lemma {:induction false} SubsetOfSameSize<T>(a: set<T>, b: set<T>)
    requires a <= b && |a| == |b|
    ensures a == b
  {
    assert b == a + (b - a) && |b| == |a| + |b - a|;
  }

  lemma BestSameMembers(a: seq<Hit>, b: seq<Hit>, p: string)
    requires forall h :: h in a <==> h in b
    ensures p in BestPerPaper(a) <==> p in BestPerPaper(b)
    ensures p in BestPerPaper(a) ==> BestPerPaper(a)[p] == BestPerPaper(b)[p]
  {
    CloserIsTotalOrder();
    if p in BestPerPaper(a) {
      var x := BestPerPaper(a)[p];
      BestIsClosest(b, x);
      BestIsClosest(a, BestPerPaper(b)[p]);
    }
    if p in BestPerPaper(b) {
      BestIsClosest(a, BestPerPaper(b)[p]);
    }
  }

  /** The relations describe actual answers: on every input both queries have exactly one. */
  lemma AnswersAreUnique(hits: seq<Hit>, cand: nat, k: nat, answer: seq<Hit>)
    ensures WindowAnswer(hits, cand, k, answer) <==> answer == Take(FirstPerPaper(Nearest(hits, cand)), k)
    ensures ExhaustiveAnswer(hits, k, answer) <==> answer == Take(FirstPerPaper(Sort(hits, Closer)), k)
  {
    hide Closer, FirstPerPaper, RankedBest, Sort;
    CloserIsTotalOrder();
    SortIsSorted(hits, Closer);
    var window, sorted := Nearest(hits, cand), Sort(hits, Closer);
    forall rows
      ensures RankedBest(window, rows) <==> rows == FirstPerPaper(window)
      ensures RankedBest(hits, rows) <==> rows == FirstPerPaper(sorted)
    {
      RankedBestIsFirstPerPaper(window, rows);
      RankedBestIsFirstPerPaper(sorted, rows);
      RankedBestSorted(hits, rows);
    }
  }

  /** The best chunk per paper does not depend on the order of the hits. */
  lemma RankedBestSorted(hits: seq<Hit>, rows: seq<Hit>)
    ensures RankedBest(hits, rows) <==> RankedBest(Sort(hits, Closer), rows)
  {
    var sorted := Sort(hits, Closer);
    SortHasSameMembers(hits, Closer);
    hide BestPerPaper, Closer, Sort;
    forall p
      ensures p in BestPerPaper(hits) <==> p in BestPerPaper(sorted)
      ensures p in BestPerPaper(hits) ==> BestPerPaper(hits)[p] == BestPerPaper(sorted)[p]
    {
      BestSameMembers(hits, sorted, p);
    }
  }

  // ---- what an answer is, told from the distances alone ----

  /** At most k chunks, of different papers, nearest first; each is as near as any chunk of its paper, and all are as
      near as any chunk of a paper that is left out, which only happens to a full list. */
  ghost predicate IsNearest(hits: seq<Hit>, k: nat, answer: seq<Hit>) {
    && |answer| <= k && (forall h :: h in answer ==> h in hits)
    && (forall i, j :: 0 <= i < j < |answer| ==>
          answer[i].paper != answer[j].paper && answer[i].dist <= answer[j].dist)
    && (forall h :: h in hits ==> Covered(k, answer, h))
  }

  /** A chunk of a listed paper is no nearer than the one listed; a chunk of any other is no nearer than any listed,
      and the list is full. */
  ghost predicate Covered(k: nat, answer: seq<Hit>, h: Hit) {
    && (forall a :: a in answer && a.paper == h.paper ==> a.dist <= h.dist)
    && ((forall a :: a in answer ==> a.paper != h.paper) ==>
          |answer| == k && forall a :: a in answer ==> a.dist <= h.dist)
  }

  /** `cand` of the hits, or all of them, and none that is left out is nearer than one that is kept. */
  ghost predicate IsWindow(hits: seq<Hit>, cand: nat, window: seq<Hit>) {
    && |window| == (if cand < |hits| then cand else |hits|)
    && exists rest :: multiset(window + rest) == multiset(hits) && NoneNearer(window, rest)
  }

  ghost predicate NoneNearer(window: seq<Hit>, rest: seq<Hit>) {
    forall i, j :: 0 <= i < |window| && 0 <= j < |rest| ==> window[i].dist <= rest[j].dist
  }

  /** Rows of different papers in order of distance, each as near as any chunk of its paper, none missing. */
  ghost predicate CoversAll(hits: seq<Hit>, rows: seq<Hit>) {
    && (forall h :: h in rows ==> h in hits)
    && (forall i, j :: 0 <= i < j < |rows| ==> rows[i].paper != rows[j].paper && rows[i].dist <= rows[j].dist)
    && (forall h :: h in hits ==> HasRow(rows, h))
  }

  ghost predicate HasRow(rows: seq<Hit>, h: Hit) {
    exists i :: 0 <= i < |rows| && rows[i].paper == h.paper && rows[i].dist <= h.dist
  }

  lemma RankedCoversAll(hits: seq<Hit>, rows: seq<Hit>)
    requires RankedBest(hits, rows)
    ensures CoversAll(hits, rows)
  {
    hide BestPerPaper, StrLe;
    forall h | h in hits
      ensures HasRow(rows, h)
    {
      BestIsClosest(hits, h);
      var best := BestPerPaper(hits)[h.paper];
      assert best in rows;
      var i :| 0 <= i < |rows| && rows[i] == best;
    }
    forall i, j | 0 <= i < j < |rows|
      ensures rows[i].paper != rows[j].paper && rows[i].dist <= rows[j].dist
    {
      assert Closer(rows[i], rows[j]) && rows[i] in rows && rows[j] in rows;
    }
  }

  lemma RankedIsNearest(hits: seq<Hit>, k: nat, rows: seq<Hit>, answer: seq<Hit>)
    requires RankedBest(hits, rows) && answer == Take(rows, k)
    ensures IsNearest(hits, k, answer)
  {
    RankedCoversAll(hits, rows);
    AnswerIsPart(hits, k, rows, answer);
    hide RankedBest, CoversAll, Covered;
    forall h | h in hits
      ensures Covered(k, answer, h)
    {
      AnswerCovers(hits, k, rows, answer, h);
    }
  }

  lemma AnswerIsPart(hits: seq<Hit>, k: nat, rows: seq<Hit>, answer: seq<Hit>)
    requires CoversAll(hits, rows) && answer == Take(rows, k)
    ensures |answer| <= k && forall h :: h in answer ==> h in hits
    ensures forall i, j :: 0 <= i < j < |answer| ==>
              answer[i].paper != answer[j].paper && answer[i].dist <= answer[j].dist
  {
    hide HasRow;
    assert forall i :: 0 <= i < |answer| ==> answer[i] == rows[i];
    assert forall h :: h in answer ==> h in rows;
  }

  lemma AnswerCovers(hits: seq<Hit>, k: nat, rows: seq<Hit>, answer: seq<Hit>, h: Hit)
    requires CoversAll(hits, rows) && answer == Take(rows, k) && h in hits
    ensures Covered(k, answer, h)
  {
    assert HasRow(rows, h);
    var i :| 0 <= i < |rows| && rows[i].paper == h.paper && rows[i].dist <= h.dist;
    assert forall j :: 0 <= j < |answer| ==> answer[j] == rows[j];
    if i < |answer| {
      assert answer[i] in answer;
    }
  }

  lemma NearestIsWindow(hits: seq<Hit>, cand: nat)
    ensures IsWindow(hits, cand, Nearest(hits, cand))
  {
    CloserIsTotalOrder();
    SortIsSorted(hits, Closer);
    hide Closer, Sort, Sorted, IsWindow;
    var sorted, window := Sort(hits, Closer), Nearest(hits, cand);
    var rest := sorted[|window|..];
    assert window + rest == sorted;
    SortedHalves(window, rest);
    WindowWhen(hits, cand, window, rest);
  }

  lemma WindowWhen(hits: seq<Hit>, cand: nat, window: seq<Hit>, rest: seq<Hit>)
    requires |window| == (if cand < |hits| then cand else |hits|)
    requires multiset(window + rest) == multiset(hits) && NoneNearer(window, rest)
    ensures IsWindow(hits, cand, window)
  {
  }

  lemma SortedHalves(window: seq<Hit>, rest: seq<Hit>)
    requires Sorted(window + rest, Closer)
    ensures NoneNearer(window, rest)
  {
    hide Closer;
    var sorted := window + rest;
    forall i, j | 0 <= i < |window| && 0 <= j < |rest|
      ensures window[i].dist <= rest[j].dist
    {
      assert sorted[i] == window[i] && sorted[|window| + j] == rest[j];
      CloserIsNearer(sorted[i], sorted[|window| + j]);
    }
  }

  lemma CloserIsNearer(a: Hit, b: Hit)
    requires Closer(a, b)
    ensures a.dist <= b.dist
  {
  }

  /** The exhaustive query answers with the nearest papers, the windowed one with the nearest in the window. */
  lemma AnswersAreNearest(hits: seq<Hit>, cand: nat, k: nat, answer: seq<Hit>)
    ensures ExhaustiveAnswer(hits, k, answer) ==> IsNearest(hits, k, answer)
    ensures WindowAnswer(hits, cand, k, answer) ==>
              exists window :: IsWindow(hits, cand, window) && IsNearest(window, k, answer)
  {
    hide RankedBest, IsNearest, IsWindow, Nearest;
    if ExhaustiveAnswer(hits, k, answer) {
      var rows :| RankedBest(hits, rows) && answer == Take(rows, k);
      RankedIsNearest(hits, k, rows, answer);
    }
    if WindowAnswer(hits, cand, k, answer) {
      var window := Nearest(hits, cand);
      var rows :| RankedBest(window, rows) && answer == Take(rows, k);
      RankedIsNearest(window, k, rows, answer);
      NearestIsWindow(hits, cand);
    }
  }
}
