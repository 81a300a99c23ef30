/** Reciprocal-rank fusion of the dense and the keyword ranking
    (python/arxiv_common/src/arxiv_common/db.py:244-293). */
module Fusion {
  import opened Prelude
  import opened Ordering
  import opened Search

  const RRF_K: nat := 60

  /** row_number() of a paper in a ranking, counted from 1. */
  function Rank(ranking: seq<string>, p: string): (r: Option<nat>)
    ensures r.Some? ==> 1 <= r.value <= |ranking| && ranking[r.value - 1] == p
    ensures r.None? <==> p !in ranking
  {
    if ranking == [] then None
    else if ranking[0] == p then Some(1)
    else
      assert ranking == [ranking[0]] + ranking[1..];
      match Rank(ranking[1..], p)
      case None => None
      case Some(r) => Some(r + 1)
  }

  /** COALESCE(1.0 / (k + r), 0). */
  function Share(r: Option<nat>): real {
    match r
    case None => 0.0
    case Some(n) => 1.0 / (RRF_K + n) as real
  }

  function Rrf(dense: seq<string>, keyword: seq<string>, p: string): real {
    Share(Rank(dense, p)) + Share(Rank(keyword, p))
  }

  /** ORDER BY rrf DESC, arxiv_id. */
  predicate Before(dense: seq<string>, keyword: seq<string>, a: string, b: string) {
    var x, y := Rrf(dense, keyword, a), Rrf(dense, keyword, b);
    if x != y then x > y else StrLe(a, b)
  }

  function Order(dense: seq<string>, keyword: seq<string>): (string, string) -> bool {
    (a, b) => Before(dense, keyword, a, b)
  }

  /** FULL JOIN: papers of either ranking. */
  function Joined(dense: seq<string>, keyword: seq<string>): (r: seq<string>)
    ensures forall p :: p in r <==> p in dense || p in keyword
  {
    if keyword == [] then dense
    else
      var init, last := keyword[..|keyword| - 1], keyword[|keyword| - 1];
      assert keyword == init + [last];
      var r := Joined(dense, init);
      if last in r then r else r + [last]
  }

  function Fused(dense: seq<string>, keyword: seq<string>, k: nat): seq<string> {
    Take(Sort(Joined(dense, keyword), Order(dense, keyword)), k)
  }

  lemma OrderIsTotal(dense: seq<string>, keyword: seq<string>)
    ensures TotalOrder(Order(dense, keyword))
  {
    hide Rrf;
    var le := Order(dense, keyword);
    forall x, y ensures le(x, y) || le(y, x) { StrLeTotal(x, y); }
    forall x, y | le(x, y) && le(y, x)
      ensures x == y
    {
      if Rrf(dense, keyword, x) == Rrf(dense, keyword, y) {
        StrLeAntisymmetric(x, y);
      }
    }
    forall x, y, z | le(x, y) && le(y, z)
      ensures le(x, z)
    {
      if Rrf(dense, keyword, x) == Rrf(dense, keyword, y) == Rrf(dense, keyword, z) {
        StrLeTransitive(x, y, z);
      }
    }
  }

  lemma ReciprocalFalls(x: real, y: real)
    requires 0.0 < x < y
    ensures 1.0 / x > 1.0 / y > 0.0
  {
    var u, v := 1.0 / x, 1.0 / y;
    assert u * x == 1.0 && v * y == 1.0;
    assert v * x < v * y;
  }

  /** A better place in a ranking, where being absent is worst. */
  predicate AtLeastAsGood(a: Option<nat>, b: Option<nat>) {
    b.None? || (a.Some? && a.value <= b.value)
  }

  lemma BetterRankBiggerShare(a: Option<nat>, b: Option<nat>)
    requires AtLeastAsGood(a, b)
    ensures Share(a) >= Share(b)
    ensures a != b ==> Share(a) > Share(b)
  {
    if a != b {
      if b.Some? {
        ReciprocalFalls((RRF_K + a.value) as real, (RRF_K + b.value) as real);
      } else {
        ReciprocalFalls((RRF_K + a.value) as real, (RRF_K + a.value + 1) as real);
      }
    }
  }

  /** In the fused list, p comes before q: whenever q makes the cut, p does too, and earlier. */
  ghost predicate Outranks(list: seq<string>, p: string, q: string) {
    forall j :: 0 <= j < |list| && list[j] == q ==> exists i :: 0 <= i < j && list[i] == p
  }

  lemma BiggerScoreOutranks(dense: seq<string>, keyword: seq<string>, k: nat, p: string, q: string)
    requires p in dense || p in keyword
    requires Rrf(dense, keyword, p) > Rrf(dense, keyword, q)
    ensures Outranks(Fused(dense, keyword, k), p, q)
  {
    hide Rrf;
    var le := Order(dense, keyword);
    var joined := Joined(dense, keyword);
    var sorted := Sort(joined, le);
    OrderIsTotal(dense, keyword);
    SortIsSorted(joined, le);
    SortHasSameMembers(joined, le);
    assert p in sorted;
    var i :| 0 <= i < |sorted| && sorted[i] == p;
    forall j | 0 <= j < |Fused(dense, keyword, k)| && Fused(dense, keyword, k)[j] == q
      ensures exists m :: 0 <= m < j && Fused(dense, keyword, k)[m] == p
    {
      assert sorted[j] == q;
      assert i != j && !le(q, p);
      assert Fused(dense, keyword, k)[i] == p;
    }
  }

  /** A paper ranked at least as well as another in both lists, and better in one, comes before it. */
  lemma DominanceIsKept(dense: seq<string>, keyword: seq<string>, k: nat, p: string, q: string)
    requires AtLeastAsGood(Rank(dense, p), Rank(dense, q)) && AtLeastAsGood(Rank(keyword, p), Rank(keyword, q))
    requires Rank(dense, p) != Rank(dense, q) || Rank(keyword, p) != Rank(keyword, q)
    ensures Outranks(Fused(dense, keyword, k), p, q)
  {
    BetterRankBiggerShare(Rank(dense, p), Rank(dense, q));
    BetterRankBiggerShare(Rank(keyword, p), Rank(keyword, q));
    BiggerScoreOutranks(dense, keyword, k, p, q);
  }

  lemma {:induction false} RankOfElement(ranking: seq<string>, i: nat)
    requires NoRepeats(ranking) && i < |ranking|
    ensures Rank(ranking, ranking[i]) == Some(i + 1)
  {
    if i > 0 {
      assert ranking[0] != ranking[i];
      RankOfElement(ranking[1..], i - 1);
      assert ranking[1..][i - 1] == ranking[i];
    }
  }

  /** With no keyword rows the fused list is the dense list. */
  lemma NoKeywordKeepsDense(dense: seq<string>, k: nat)
    requires NoRepeats(dense)
    ensures Fused(dense, [], k) == Take(dense, k)
  {
    var le := Order(dense, []);
    OrderIsTotal(dense, []);
    forall i, j | 0 <= i < j < |dense|
      ensures le(dense[i], dense[j])
    {
      RankOfElement(dense, i);
      RankOfElement(dense, j);
      BetterRankBiggerShare(Some(i + 1), Some(j + 1));
    }
    SortIsSorted(dense, le);
    SortedIsUnique(Sort(dense, le), dense, le);
  }

  /** Two places no worse than r beat any one place exactly when r is at most 61. */
  lemma BothListsBeatOne(r: nat)
    requires r >= 1
    ensures (forall d: nat, w: nat, s: nat :: 1 <= d <= r && 1 <= w <= r && 1 <= s ==>
               Share(Some(d)) + Share(Some(w)) > Share(Some(s)))
            <==> r <= 61
  {
    if r <= 61 {
      forall d: nat, w: nat, s: nat | 1 <= d <= r && 1 <= w <= r && 1 <= s
        ensures Share(Some(d)) + Share(Some(w)) > Share(Some(s))
      {
        BetterRankBiggerShare(Some(d), Some(61));
        BetterRankBiggerShare(Some(w), Some(61));
        BetterRankBiggerShare(Some(1), Some(s));
        assert Share(Some(61)) == 1.0 / 121.0 && Share(Some(1)) == 1.0 / 61.0;
      }
    } else {
      BetterRankBiggerShare(Some(62), Some(r));
      assert Share(Some(62)) == 1.0 / 122.0 && Share(Some(1)) == 1.0 / 61.0;
      assert Share(Some(r)) + Share(Some(r)) <= Share(Some(1));
    }
  }

  /** So a paper in both lists at ranks up to 61 comes before every paper found in only one list. */
  lemma FoundTwiceComesFirst(dense: seq<string>, keyword: seq<string>, k: nat, p: string, q: string)
    requires Rank(dense, p).Some? && Rank(dense, p).value <= 61
    requires Rank(keyword, p).Some? && Rank(keyword, p).value <= 61
    requires q !in dense || q !in keyword
    ensures Outranks(Fused(dense, keyword, k), p, q)
  {
    BothListsBeatOne(61);
    var d, w := Rank(dense, p).value, Rank(keyword, p).value;
    if q in dense {
      assert Share(Some(d)) + Share(Some(w)) > Share(Some(Rank(dense, q).value));
    } else if q in keyword {
      assert Share(Some(d)) + Share(Some(w)) > Share(Some(Rank(keyword, q).value));
    } else {
      assert Share(Some(d)) + Share(Some(w)) > Share(Some(1));
      BetterRankBiggerShare(Some(1), None);
    }
    BiggerScoreOutranks(dense, keyword, k, p, q);
  }

  // ---- the fused list, told from the places alone ----

  /** What a place in a ranking is worth; the places are counted from 0. */
  ghost function PlaceShare(ranking: seq<string>, p: string): real {
    if p in ranking then
      var i :| 0 <= i < |ranking| && ranking[i] == p;
      1.0 / (61 + i) as real
    else 0.0
  }

  ghost function Score(dense: seq<string>, keyword: seq<string>, p: string): real {
    PlaceShare(dense, p) + PlaceShare(keyword, p)
  }

  ghost predicate Outscores(dense: seq<string>, keyword: seq<string>, p: string, q: string) {
    || Score(dense, keyword, p) > Score(dense, keyword, q)
    || (Score(dense, keyword, p) == Score(dense, keyword, q) && StrLe(p, q) && p != q)
  }

  /** The k papers of either ranking with the highest scores, in order of score and then of name, each once. */
  ghost predicate IsFused(dense: seq<string>, keyword: seq<string>, k: nat, list: seq<string>) {
    && |list| <= k && (forall p :: p in list ==> p in dense || p in keyword)
    && (forall i, j :: 0 <= i < j < |list| ==> Outscores(dense, keyword, list[i], list[j]))
    && (forall q :: (q in dense || q in keyword) && q !in list ==>
          |list| == k && forall p :: p in list ==> Outscores(dense, keyword, p, q))
  }

  lemma PlaceShareIsShare(ranking: seq<string>, p: string)
    requires NoRepeats(ranking)
    ensures PlaceShare(ranking, p) == Share(Rank(ranking, p))
  {
    if p in ranking {
      var r := Rank(ranking, p).value;
      assert forall i :: 0 <= i < |ranking| && ranking[i] == p ==> i == r - 1;
    }
  }

  lemma BeforeIsOutscores(dense: seq<string>, keyword: seq<string>, p: string, q: string)
    requires NoRepeats(dense) && NoRepeats(keyword) && p != q && Before(dense, keyword, p, q)
    ensures Outscores(dense, keyword, p, q)
  {
    hide Share, Rank, PlaceShare;
    PlaceShareIsShare(dense, p);
    PlaceShareIsShare(dense, q);
    PlaceShareIsShare(keyword, p);
    PlaceShareIsShare(keyword, q);
  }

  lemma {:induction false} JoinedHasNoRepeats(dense: seq<string>, keyword: seq<string>)
    requires NoRepeats(dense)
    ensures NoRepeats(Joined(dense, keyword))
  {
    if keyword != [] {
      JoinedHasNoRepeats(dense, keyword[..|keyword| - 1]);
    }
  }

  lemma FusedIsTheRanking(dense: seq<string>, keyword: seq<string>, k: nat)
    requires NoRepeats(dense) && NoRepeats(keyword)
    ensures IsFused(dense, keyword, k, Fused(dense, keyword, k))
  {
    hide Before, Outscores, Joined;
    var joined, le := Joined(dense, keyword), Order(dense, keyword);
    var sorted := Sort(joined, le);
    OrderIsTotal(dense, keyword);
    SortIsSorted(joined, le);
    SortHasSameMembers(joined, le);
    JoinedHasNoRepeats(dense, keyword);
    NoRepeatsAfterSort(joined, le);
    forall i, j | 0 <= i < j < |sorted|
      ensures Outscores(dense, keyword, sorted[i], sorted[j])
    {
      assert le(sorted[i], sorted[j]);
      BeforeIsOutscores(dense, keyword, sorted[i], sorted[j]);
    }
    var list := Fused(dense, keyword, k);
    forall q | (q in dense || q in keyword) && q !in list
      ensures |list| == k && forall p :: p in list ==> Outscores(dense, keyword, p, q)
    {
      assert q in sorted;
      var j :| 0 <= j < |sorted| && sorted[j] == q;
      assert j >= |list| by {
        assert forall m :: 0 <= m < |list| ==> sorted[m] == list[m] && list[m] in list;
      }
    }
    forall p | p in list
      ensures p in joined
    {
      assert p in sorted;
    }
  }
}
