/** Choosing suggestions under caps (python/query_api/src/arxiv_query_api/recommend.py:74-95).  Scores and
    weights are reals. */
module Pick {
  import opened Prelude
  import opened Ordering

  const PER_SOURCE: nat := 4

  datatype Reason = Reason(kind: string, from: string, weight: real)

  datatype Candidate = Candidate(key: string, arxivId: Option<string>, score: real, reasons: seq<Reason>)

  /** max(c.reasons, key=weight)["from"]: the first of the heaviest reasons. */
  function SourceOf(reasons: seq<Reason>): (source: string)
    requires reasons != []
    ensures exists i :: 0 <= i < |reasons| && reasons[i].from == source &&
                        (forall j :: 0 <= j < |reasons| ==> reasons[j].weight <= reasons[i].weight) &&
                        (forall j :: 0 <= j < i ==> reasons[j].weight < reasons[i].weight)
  {
    Heaviest(reasons, 0, 1)
  }

  function Heaviest(reasons: seq<Reason>, best: nat, i: nat): (source: string)
    requires best < i <= |reasons|
    requires forall j :: 0 <= j < i ==> reasons[j].weight <= reasons[best].weight
    requires forall j :: 0 <= j < best ==> reasons[j].weight < reasons[best].weight
    ensures exists b :: 0 <= b < |reasons| && reasons[b].from == source &&
                        (forall j :: 0 <= j < |reasons| ==> reasons[j].weight <= reasons[b].weight) &&
                        (forall j :: 0 <= j < b ==> reasons[j].weight < reasons[b].weight)
    decreases |reasons| - i
  {
    if i == |reasons| then reasons[best].from
    else Heaviest(reasons, if reasons[i].weight > reasons[best].weight then i else best, i + 1)
  }

  /** Sort key (-score, key). */
  predicate RankLe(a: Candidate, b: Candidate) {
    if a.score != b.score then a.score > b.score else StrLe(a.key, b.key)
  }

  /** What the caps look at. */
  datatype Item = Item(source: string, external: bool)

  function ItemOf(c: Candidate): Item
    requires c.reasons != []
  {
    Item(SourceOf(c.reasons), c.arxivId.None?)
  }

  function Items(ranked: seq<Candidate>): (r: seq<Item>)
    requires forall c :: c in ranked ==> c.reasons != []
    ensures |r| == |ranked|
  {
    seq(|ranked|, i requires 0 <= i < |ranked| => ItemOf(ranked[i]))
  }

  function Sources(items: seq<Item>): set<string> {
    set it | it in items :: it.source
  }

  function MaxNat(a: nat, b: nat): nat {
    if a >= b then a else b
  }

  /** Python's round() of limit * 0.34: to nearest, ties to even. */
  function ExternalShare(limit: nat): nat {
    var q, r := 34 * limit / 100, 34 * limit % 100;
    if r < 50 || (r == 50 && q % 2 == 0) then q else q + 1
  }

  datatype Caps = Caps(perSource: nat, external: nat, limit: nat)

  function CapsFor(items: seq<Item>, limit: nat): Caps {
    Caps(MaxNat(PER_SOURCE, CeilDiv(limit, MaxNat(1, |Sources(items)|))), MaxNat(1, ExternalShare(limit)), limit)
  }

  // ---- counting ----

  function Count(n: nat, p: nat -> bool): (c: nat)
    ensures c <= n
  {
    if n == 0 then 0 else Count(n - 1, p) + (if p(n - 1) then 1 else 0)
  }

  function Chosen(sel: seq<bool>): nat -> bool {
    (i: nat) => i < |sel| && sel[i]
  }

  function ChosenFrom(items: seq<Item>, sel: seq<bool>, source: string): nat -> bool {
    (i: nat) => i < |sel| && i < |items| && sel[i] && items[i].source == source
  }

  function ChosenExternal(items: seq<Item>, sel: seq<bool>): nat -> bool {
    (i: nat) => i < |sel| && i < |items| && sel[i] && items[i].external
  }

  function Total(sel: seq<bool>): nat {
    Count(|sel|, Chosen(sel))
  }

  function FromSource(items: seq<Item>, sel: seq<bool>, source: string): nat {
    Count(|sel|, ChosenFrom(items, sel, source))
  }

  function Externals(items: seq<Item>, sel: seq<bool>): nat {
    Count(|sel|, ChosenExternal(items, sel))
  }

  /** A selection within all three caps. */
  ghost predicate Admissible(items: seq<Item>, caps: Caps, sel: seq<bool>) {
    && |sel| == |items|
    && (forall s :: FromSource(items, sel, s) <= caps.perSource)
    && Externals(items, sel) <= caps.external
    && Total(sel) <= caps.limit
  }

  /** The loop's test for one candidate after the selection so far. */
  predicate Fits(items: seq<Item>, caps: Caps, sel: seq<bool>, it: Item) {
    FromSource(items, sel, it.source) < caps.perSource && !(it.external && Externals(items, sel) >= caps.external)
  }

  /** The greedy choice among the first n.  The loop only stops when the count equals the limit after an
      append, so a limit of zero never stops it. */
  function Greedy(items: seq<Item>, caps: Caps, n: nat): (sel: seq<bool>)
    requires n <= |items|
    ensures |sel| == n
  {
    if n == 0 then []
    else
      var sel := Greedy(items, caps, n - 1);
      sel + [(caps.limit == 0 || Total(sel) < caps.limit) && Fits(items, caps, sel, items[n - 1])]
  }

  lemma {:induction false} CountSame(n: nat, p: nat -> bool, q: nat -> bool)
    requires forall i: nat :: i < n ==> p(i) == q(i)
    ensures Count(n, p) == Count(n, q)
  {
    if n > 0 {
      CountSame(n - 1, p, q);
    }
  }

  lemma {:induction false} CountAtMost(n: nat, p: nat -> bool, q: nat -> bool)
    requires forall i: nat :: i < n && p(i) ==> q(i)
    ensures Count(n, p) <= Count(n, q)
  {
    if n > 0 {
      CountAtMost(n - 1, p, q);
    }
  }

  lemma {:induction false} CountPrefix(m: nat, n: nat, p: nat -> bool)
    requires m <= n
    ensures Count(m, p) <= Count(n, p)
  {
    if m < n {
      CountPrefix(m, n - 1, p);
    }
  }

  lemma {:induction false} CountSplit(n: nat, p: nat -> bool, q: nat -> bool, r: nat -> bool)
    requires forall i: nat :: i < n ==> p(i) == (q(i) || r(i)) && !(q(i) && r(i))
    ensures Count(n, p) == Count(n, q) + Count(n, r)
  {
    if n > 0 {
      CountSplit(n - 1, p, q, r);
    }
  }

  /** Adding one decision adds at most one to each count. */
  lemma AppendCounts(items: seq<Item>, sel: seq<bool>, take: bool)
    requires |sel| < |items|
    ensures Total(sel + [take]) == Total(sel) + (if take then 1 else 0)
    ensures Externals(items, sel + [take]) == Externals(items, sel) + (if take && items[|sel|].external then 1 else 0)
    ensures forall s :: FromSource(items, sel + [take], s) ==
                        FromSource(items, sel, s) + (if take && items[|sel|].source == s then 1 else 0)
  {
    var more := sel + [take];
    CountSame(|sel|, Chosen(sel), Chosen(more));
    CountSame(|sel|, ChosenExternal(items, sel), ChosenExternal(items, more));
    forall s
      ensures FromSource(items, more, s) == FromSource(items, sel, s) +
              (if take && items[|sel|].source == s then 1 else 0)
    {
      CountSame(|sel|, ChosenFrom(items, sel, s), ChosenFrom(items, more, s));
    }
  }

  /** The first n decisions of a selection count no more than all of them. */
  lemma PrefixCounts(items: seq<Item>, sel: seq<bool>, n: nat)
    requires n <= |sel| == |items|
    ensures Total(sel[..n]) <= Total(sel)
    ensures Externals(items, sel[..n]) <= Externals(items, sel)
    ensures forall s :: FromSource(items, sel[..n], s) <= FromSource(items, sel, s)
  {
    CountSame(n, Chosen(sel[..n]), Chosen(sel));
    CountPrefix(n, |sel|, Chosen(sel));
    CountSame(n, ChosenExternal(items, sel[..n]), ChosenExternal(items, sel));
    CountPrefix(n, |sel|, ChosenExternal(items, sel));
    forall s
      ensures FromSource(items, sel[..n], s) <= FromSource(items, sel, s)
    {
      CountSame(n, ChosenFrom(items, sel[..n], s), ChosenFrom(items, sel, s));
      CountPrefix(n, |sel|, ChosenFrom(items, sel, s));
    }
  }

  lemma {:induction false} GreedyPrefix(items: seq<Item>, caps: Caps, m: nat, n: nat)
    requires m <= n <= |items|
    ensures Greedy(items, caps, n)[..m] == Greedy(items, caps, m)
  {
    if m < n {
      GreedyPrefix(items, caps, m, n - 1);
    }
  }

  // ---- what the greedy choice is ----

  lemma {:induction false} GreedyWithinCaps(items: seq<Item>, caps: Caps, n: nat)
    requires n <= |items|
    ensures forall s :: FromSource(items, Greedy(items, caps, n), s) <= caps.perSource
    ensures Externals(items, Greedy(items, caps, n)) <= caps.external
    ensures caps.limit > 0 ==> Total(Greedy(items, caps, n)) <= caps.limit
  {
    if n == 0 {
      assert forall s :: FromSource(items, [], s) == 0;
    } else {
      GreedyWithinCaps(items, caps, n - 1);
      var sel := Greedy(items, caps, n - 1);
      AppendCounts(items, sel, Greedy(items, caps, n)[n - 1]);
    }
  }

  /** The result meets every cap, for every positive limit. */
  lemma GreedyIsAdmissible(items: seq<Item>, caps: Caps)
    requires caps.limit > 0
    ensures Admissible(items, caps, Greedy(items, caps, |items|))
  {
    GreedyWithinCaps(items, caps, |items|);
  }

  /** It is lexicographically first: no admissible selection takes a candidate that the greedy one refused
      after agreeing on all better-ranked ones. */
  lemma GreedyIsLexFirst(items: seq<Item>, caps: Caps, other: seq<bool>, i: nat)
    requires Admissible(items, caps, other) && i < |items|
    requires forall j :: 0 <= j < i ==> other[j] == Greedy(items, caps, |items|)[j]
    requires other[i]
    ensures Greedy(items, caps, |items|)[i]
  {
    hide Greedy;
    var g := Greedy(items, caps, |items|);
    var sel := Greedy(items, caps, i);
    GreedyPrefix(items, caps, i, |items|);
    GreedyPrefix(items, caps, i + 1, |items|);
    assert other[..i] == sel && other[..i + 1] == sel + [true];
    PrefixCounts(items, other, i + 1);
    AppendCounts(items, sel, true);
    GreedyTakes(items, caps, i);
    assert g[i] == g[..i + 1][i];
  }

  lemma GreedyTakes(items: seq<Item>, caps: Caps, i: nat)
    requires i < |items|
    ensures Greedy(items, caps, i + 1)[i] ==
            ((caps.limit == 0 || Total(Greedy(items, caps, i)) < caps.limit) &&
             Fits(items, caps, Greedy(items, caps, i), items[i]))
  {
  }

  /** Nothing can be added to it. */
  lemma GreedyIsMaximal(items: seq<Item>, caps: Caps, other: seq<bool>)
    requires Admissible(items, caps, other)
    requires forall i :: 0 <= i < |items| && Greedy(items, caps, |items|)[i] ==> other[i]
    ensures other == Greedy(items, caps, |items|)
  {
    AgreesUpTo(items, caps, other, |items|);
  }

  lemma {:induction false} AgreesUpTo(items: seq<Item>, caps: Caps, other: seq<bool>, n: nat)
    requires Admissible(items, caps, other) && n <= |items|
    requires forall i :: 0 <= i < |items| && Greedy(items, caps, |items|)[i] ==> other[i]
    ensures forall i :: 0 <= i < n ==> other[i] == Greedy(items, caps, |items|)[i]
  {
    if n > 0 {
      AgreesUpTo(items, caps, other, n - 1);
      if other[n - 1] {
        GreedyIsLexFirst(items, caps, other, n - 1);
      }
    }
  }

  // ---- at least half of the best possible ----

  /** A refused candidate met a cap that is still full at the end. */
  lemma RefusedMeansFull(items: seq<Item>, caps: Caps, i: nat)
    requires i < |items| && !Greedy(items, caps, |items|)[i]
    ensures var g := Greedy(items, caps, |items|);
            || Total(g) >= caps.limit
            || FromSource(items, g, items[i].source) >= caps.perSource
            || (items[i].external && Externals(items, g) >= caps.external)
  {
    hide Greedy;
    var g := Greedy(items, caps, |items|);
    GreedyPrefix(items, caps, i, |items|);
    GreedyPrefix(items, caps, i + 1, |items|);
    assert g[i] == g[..i + 1][i];
    GreedyTakes(items, caps, i);
    PrefixCounts(items, g, i);
  }

  function ChosenIn(items: seq<Item>, sel: seq<bool>, sources: set<string>): nat -> bool {
    (i: nat) => i < |sel| && i < |items| && sel[i] && items[i].source in sources
  }

  /** Where no single source has more, no set of sources has more. */
  lemma {:induction false} SourcesAddUp(items: seq<Item>, a: seq<bool>, b: seq<bool>, sources: set<string>)
    requires |a| == |b| == |items|
    requires forall s :: s in sources ==> FromSource(items, a, s) <= FromSource(items, b, s)
    ensures Count(|items|, ChosenIn(items, a, sources)) <= Count(|items|, ChosenIn(items, b, sources))
  {
    var n := |items|;
    if sources == {} {
      CountAtMost(n, ChosenIn(items, a, sources), ChosenIn(items, b, sources));
    } else {
      var s :| s in sources;
      SourcesAddUp(items, a, b, sources - {s});
      CountSplit(n, ChosenIn(items, a, sources), ChosenIn(items, a, sources - {s}), ChosenFrom(items, a, s));
      CountSplit(n, ChosenIn(items, b, sources), ChosenIn(items, b, sources - {s}), ChosenFrom(items, b, s));
    }
  }

  /** The greedy selection has at least half as many items as any admissible one. */
  lemma GreedyIsHalfOptimal(items: seq<Item>, caps: Caps, other: seq<bool>)
    requires caps.limit > 0 && Admissible(items, caps, other)
    ensures Total(other) <= 2 * Total(Greedy(items, caps, |items|))
  {
    hide Greedy;
    var n := |items|;
    var g := Greedy(items, caps, n);
    if Total(g) < caps.limit {
      var full := set it | it in items && FromSource(items, g, it.source) >= caps.perSource :: it.source;
      var outside: nat -> bool := (i: nat) => i < |other| && i < |items| && other[i] && items[i].source !in full;
      CountSplit(n, Chosen(other), ChosenIn(items, other, full), outside);
      SourcesAddUp(items, other, g, full);
      var gOutside: nat -> bool := (i: nat) => i < |g| && i < |items| && g[i] && items[i].source !in full;
      CountSplit(n, Chosen(g), ChosenIn(items, g, full), gOutside);
      OutsideIsSmall(items, caps, other, full, outside, gOutside);
    }
  }

  /** Outside the full sources the other selection takes greedy's own items and at most the full external quota. */
  lemma OutsideIsSmall(items: seq<Item>, caps: Caps, other: seq<bool>, full: set<string>,
                       outside: nat -> bool, gOutside: nat -> bool)
    requires Admissible(items, caps, other) && Total(Greedy(items, caps, |items|)) < caps.limit
    requires var g := Greedy(items, caps, |items|);
             && (forall s :: s in full <==>
                   exists it :: it in items && it.source == s && FromSource(items, g, s) >= caps.perSource)
             && (forall i: nat :: i < |items| ==> outside(i) == (other[i] && items[i].source !in full))
             && (forall i: nat :: i < |items| ==> gOutside(i) == (g[i] && items[i].source !in full))
    ensures Count(|items|, outside) <= Count(|items|, gOutside) + Total(Greedy(items, caps, |items|))
  {
    hide Greedy;
    var n := |items|;
    var g := Greedy(items, caps, n);
    forall i: nat | i < n && outside(i)
      ensures g[i] || (items[i].external && Externals(items, g) >= caps.external)
    {
      if !g[i] {
        RefusedMeansFull(items, caps, i);
        assert items[i] in items;
      }
    }
    if Externals(items, g) >= caps.external {
      var ext: nat -> bool := (i: nat) => outside(i) && i < |items| && items[i].external;
      var own: nat -> bool := (i: nat) => outside(i) && i < |items| && !items[i].external;
      CountSplit(n, outside, ext, own);
      CountAtMost(n, ext, ChosenExternal(items, other));
      CountAtMost(n, own, gOutside);
      CountAtMost(n, ChosenExternal(items, g), Chosen(g));
    } else {
      CountAtMost(n, outside, gOutside);
    }
  }

  /** The sources together always have room for a full list. */
  lemma SourceCapsCoverLimit(items: seq<Item>, limit: nat)
    requires items != []
    ensures CapsFor(items, limit).perSource * |Sources(items)| >= limit
  {
    assert items[0].source in Sources(items);
    var n := |Sources(items)|;
    var q := CeilDiv(limit, n);
    assert q * n >= limit by {
      assert limit + n - 1 == q * n + (limit + n - 1) % n;
    }
    assert CapsFor(items, limit).perSource >= q;
    MulMonotone(q, CapsFor(items, limit).perSource, n);
  }

  lemma ZeroLimitTakesOne(items: seq<Item>)
    requires items != []
    ensures Total(Greedy(items, CapsFor(items, 0), |items|)) > 0
  {
    var caps := CapsFor(items, 0);
    var g := Greedy(items, caps, |items|);
    GreedyPrefix(items, caps, 1, |items|);
    assert Greedy(items, caps, 0) == [];
    GreedyTakes(items, caps, 0);
    assert g[0] == g[..1][0];
    CountPrefix(1, |items|, Chosen(g));
    assert Count(1, Chosen(g)) == Count(0, Chosen(g)) + 1;
  }

  /** The loop compares with the limit only after taking a candidate, so it keeps every positive limit; no
      caller passes zero (python/query_api/src/arxiv_query_api/trail_pages.py:107 and 140 ask for 4 to 40). */
  lemma LimitIsKeptExactly(items: seq<Item>, limit: nat)
    ensures Total(Greedy(items, CapsFor(items, limit), |items|)) <= limit <==> limit > 0 || items == []
  {
    hide Greedy, Total, CapsFor;
    CapsForKeepsLimit(items, limit);
    if limit > 0 {
      GreedyWithinCaps(items, CapsFor(items, limit), |items|);
    } else if items != [] {
      ZeroLimitTakesOne(items);
    } else {
      GreedyStart<bool>(items, CapsFor(items, limit), [], map[]);
    }
  }

  // ---- the function itself ----

  function Selected<T>(xs: seq<T>, sel: seq<bool>): (r: seq<T>)
    requires |sel| <= |xs|
    ensures |r| == Total(sel)
  {
    if sel == [] then []
    else
      var n := |sel| - 1;
      CountSame(n, Chosen(sel[..n]), Chosen(sel));
      Selected(xs, sel[..n]) + (if sel[n] then [xs[n]] else [])
  }

  predicate Eligible(c: Candidate, exclude: set<string>) {
    c.key !in exclude && (if c.arxivId.Some? then c.arxivId.value else "") !in exclude
  }

  function Ranked(found: seq<Candidate>, exclude: set<string>): (r: seq<Candidate>)
    ensures forall c :: c in r <==> c in found && Eligible(c, exclude)
  {
    var kept := Keep(found, exclude);
    SortHasSameMembers(kept, RankLe);
    Sort(kept, RankLe)
  }

  lemma RankLeIsPreorder()
    ensures TotalPreorder(RankLe)
  {
    forall x, y
      ensures RankLe(x, y) || RankLe(y, x)
    {
      StrLeTotal(x.key, y.key);
    }
    forall x, y, z | RankLe(x, y) && RankLe(y, z)
      ensures RankLe(x, z)
    {
      if x.score == y.score == z.score {
        StrLeTransitive(x.key, y.key, z.key);
      }
    }
  }

  ghost predicate DistinctKeys(cs: seq<Candidate>) {
    forall a, b :: a in cs && b in cs && a.key == b.key ==> a == b
  }

  /** The candidates are ranked by falling score and then key, each eligible one as often as it was found; and
      that leaves no choice, as no two candidates share a key. */
  lemma RankedIsTheRanking(found: seq<Candidate>, exclude: set<string>, other: seq<Candidate>)
    requires DistinctKeys(found)
    ensures Sorted(Ranked(found, exclude), RankLe) && multiset(Ranked(found, exclude)) == multiset(Keep(found, exclude))
    ensures Sorted(other, RankLe) && multiset(other) == multiset(Keep(found, exclude)) ==>
              other == Ranked(found, exclude)
  {
    var kept := Keep(found, exclude);
    RankLeIsPreorder();
    SortIsSorted(kept, RankLe);
    if Sorted(other, RankLe) && multiset(other) == multiset(kept) {
      forall x, y | x in other && y in other && RankLe(x, y) && RankLe(y, x)
        ensures x == y
      {
        assert multiset(other)[x] > 0 && multiset(other)[y] > 0;
        StrLeAntisymmetric(x.key, y.key);
      }
      SortedIsUnique(other, Ranked(found, exclude), RankLe);
    }
  }

  function Keep(found: seq<Candidate>, exclude: set<string>): (r: seq<Candidate>)
    ensures forall c :: c in r <==> c in found && Eligible(c, exclude)
  {
    if found == [] then []
    else
      assert found == [found[0]] + found[1..];
      (if Eligible(found[0], exclude) then [found[0]] else []) + Keep(found[1..], exclude)
  }

  // ---- what is promised of the choice, told from the candidates alone ----

  /** Neither the candidate's key nor its arXiv id, empty when it has none, is excluded. */
  ghost predicate Allowed(c: Candidate, exclude: set<string>) {
    && c.key !in exclude
    && (c.arxivId.Some? ==> c.arxivId.value !in exclude)
    && (c.arxivId.None? ==> "" !in exclude)
  }

  ghost predicate NotWorse(a: Candidate, b: Candidate) {
    a.score > b.score || (a.score == b.score && StrLe(a.key, b.key))
  }

  ghost function AllowedSources(found: seq<Candidate>, exclude: set<string>): set<string> {
    set c | c in found && c.reasons != [] && Allowed(c, exclude) :: SourceOf(c.reasons)
  }

  /** The least cap of at least four with which the sources together can fill the list. */
  ghost predicate IsSourceCap(cap: nat, limit: nat, sources: nat) {
    var n := if sources == 0 then 1 else sources;
    cap >= 4 && cap * n >= limit && (cap == 4 || (cap - 1) * n < limit)
  }

  /** The whole number nearest to 0.34 * limit, the even one of two, but at least one. */
  ghost predicate IsExternalCap(cap: nat, limit: nat) {
    var off := 34 * limit - 100 * cap;
    || (cap == 1 && 34 * limit <= 50)
    || (cap >= 1 && -50 <= off <= 50 && ((off == 50 || off == -50) ==> cap % 2 == 0))
  }

  ghost function SourcePlaces(chosen: seq<Candidate>, source: string): set<nat> {
    set i: nat | i < |chosen| && chosen[i].reasons != [] && SourceOf(chosen[i].reasons) == source
  }

  ghost function ExternalPlaces(chosen: seq<Candidate>): set<nat> {
    set i: nat | i < |chosen| && chosen[i].arxivId.None?
  }

  /** The better ones that were chosen leave no room for the candidate. */
  ghost predicate NoRoom(chosen: seq<Candidate>, c: Candidate, perSource: nat, external: nat, limit: nat) {
    exists m :: 0 <= m <= |chosen| && Crowded(chosen, m, c, perSource, external, limit)
  }

  ghost predicate Crowded(chosen: seq<Candidate>, m: nat, c: Candidate, perSource: nat, external: nat, limit: nat)
    requires m <= |chosen|
  {
    && (forall k :: 0 <= k < m ==> NotWorse(chosen[k], c))
    && (|| m >= limit > 0
        || (c.reasons != [] && |SourcePlaces(chosen[..m], SourceOf(c.reasons))| >= perSource)
        || (c.arxivId.None? && |ExternalPlaces(chosen[..m])| >= external))
  }

  /** What the caller of pick relies on. */
  ghost predicate Promised(found: seq<Candidate>, exclude: set<string>, limit: nat, chosen: seq<Candidate>,
                           perSource: nat, external: nat) {
    && IsSourceCap(perSource, limit, |AllowedSources(found, exclude)|) && IsExternalCap(external, limit)
    && (forall c :: c in chosen ==> c in found && Allowed(c, exclude))
    && multiset(chosen) <= multiset(found)
    && InOrder(chosen)
    && (forall source :: |SourcePlaces(chosen, source)| <= perSource)
    && |ExternalPlaces(chosen)| <= external
    && (forall c :: c in found && Allowed(c, exclude) && c !in chosen ==> NoRoom(chosen, c, perSource, external, limit))
  }

  lemma CapsAreAsPromised(found: seq<Candidate>, exclude: set<string>, limit: nat)
    requires forall c :: c in found ==> c.reasons != []
    ensures var caps := CapsFor(Items(Ranked(found, exclude)), limit);
            IsSourceCap(caps.perSource, limit, |AllowedSources(found, exclude)|) && IsExternalCap(caps.external, limit)
  {
    hide IsSourceCap, IsExternalCap, Items, Ranked, Sources, AllowedSources, ExternalShare;
    SourcesAreAllowed(found, exclude);
    SourceCapIs(limit, |AllowedSources(found, exclude)|);
    ShareIsNearest(limit);
  }

  lemma SourceCapIs(limit: nat, sources: nat)
    ensures IsSourceCap(MaxNat(PER_SOURCE, CeilDiv(limit, MaxNat(1, sources))), limit, sources)
  {
    hide CeilDiv;
    var n := MaxNat(1, sources);
    CeilDivIsLeast(limit, n);
    if CeilDiv(limit, n) <= 4 {
      MulMonotone(CeilDiv(limit, n), 4, n);
    }
  }

  lemma ShareIsNearest(limit: nat)
    ensures IsExternalCap(MaxNat(1, ExternalShare(limit)), limit)
  {
    NearestOf(34 * limit);
  }

  lemma NearestOf(n: nat)
    ensures var q, r := n / 100, n % 100;
            var share := if r < 50 || (r == 50 && q % 2 == 0) then q else q + 1;
            var off := n - 100 * share;
            && (share == 0 ==> n <= 50) && -50 <= off <= 50
            && (off == 50 || off == -50 ==> share % 2 == 0)
  {
  }

  lemma CeilDivIsLeast(a: nat, b: nat)
    requires b > 0
    ensures CeilDiv(a, b) * b >= a && (CeilDiv(a, b) > 0 ==> (CeilDiv(a, b) - 1) * b < a)
    ensures 4 * b >= a ==> CeilDiv(a, b) <= 4
  {
    var q := CeilDiv(a, b);
    assert a + b - 1 == q * b + (a + b - 1) % b;
    assert (q - 1) * b == q * b - b;
    if q > 4 && 4 * b >= a {
      MulMonotone(4, q - 1, b);
    }
  }

  lemma SourcesAreAllowed(found: seq<Candidate>, exclude: set<string>)
    requires forall c :: c in found ==> c.reasons != []
    ensures Sources(Items(Ranked(found, exclude))) == AllowedSources(found, exclude)
  {
    hide SourceOf, Ranked;
    var ranked := Ranked(found, exclude);
    SourcesOfItems(ranked);
    forall s
      ensures s in Sources(Items(ranked)) <==> s in AllowedSources(found, exclude)
    {
      if s in Sources(Items(ranked)) {
        var c :| c in ranked && SourceOf(c.reasons) == s;
        assert c in found && Allowed(c, exclude);
      }
      if s in AllowedSources(found, exclude) {
        var c :| c in found && c.reasons != [] && Allowed(c, exclude) && SourceOf(c.reasons) == s;
        assert c in ranked;
      }
    }
  }

  lemma SourcesOfItems(ranked: seq<Candidate>)
    requires forall c :: c in ranked ==> c.reasons != []
    ensures forall s :: s in Sources(Items(ranked)) <==> exists c :: c in ranked && SourceOf(c.reasons) == s
  {
    hide SourceOf;
    var items := Items(ranked);
    forall s
      ensures s in Sources(items) <==> exists c :: c in ranked && SourceOf(c.reasons) == s
    {
      if s in Sources(items) {
        var i :| 0 <= i < |items| && items[i].source == s;
        assert ranked[i] in ranked && SourceOf(ranked[i].reasons) == s;
      }
      if c :| c in ranked && SourceOf(c.reasons) == s {
        var i :| 0 <= i < |ranked| && ranked[i] == c;
        assert items[i] in items && items[i].source == s;
      }
    }
  }

  lemma PlacesAppend(chosen: seq<Candidate>, c: Candidate, source: string)
    ensures |SourcePlaces(chosen + [c], source)| ==
            |SourcePlaces(chosen, source)| + (if c.reasons != [] && SourceOf(c.reasons) == source then 1 else 0)
    ensures |ExternalPlaces(chosen + [c])| == |ExternalPlaces(chosen)| + (if c.arxivId.None? then 1 else 0)
  {
    hide SourceOf;
    var all, n := chosen + [c], |chosen|;
    assert all[n] == c && forall i :: 0 <= i < n ==> all[i] == chosen[i];
    GrowsByOne(SourcePlaces(chosen, source), SourcePlaces(all, source), n,
               c.reasons != [] && SourceOf(c.reasons) == source);
    GrowsByOne(ExternalPlaces(chosen), ExternalPlaces(all), n, c.arxivId.None?);
  }

  /** The counts of a selection are those of the candidates selected. */
  lemma {:induction false} PlacesAreCounts(ranked: seq<Candidate>, sel: seq<bool>, source: string)
    requires (forall c :: c in ranked ==> c.reasons != []) && |sel| <= |ranked|
    ensures |SourcePlaces(Selected(ranked, sel), source)| == FromSource(Items(ranked), sel, source)
    ensures |ExternalPlaces(Selected(ranked, sel))| == Externals(Items(ranked), sel)
  {
    hide SourcePlaces, ExternalPlaces, FromSource, Externals, Selected, SourceOf;
    if sel == [] {
      NothingPicked(ranked, source);
    } else {
      var n := |sel| - 1;
      var before := Selected(ranked, sel[..n]);
      assert sel[..n] + [sel[n]] == sel;
      PlacesAreCounts(ranked, sel[..n], source);
      AppendCounts(Items(ranked), sel[..n], sel[n]);
      SelectedAppend(ranked, sel[..n], sel[n]);
      PlacesAppend(before, ranked[n], source);
      assert before + [] == before;
    }
  }

  lemma NothingPicked(ranked: seq<Candidate>, source: string)
    requires forall c :: c in ranked ==> c.reasons != []
    ensures Selected(ranked, []) == [] && SourcePlaces([], source) == {} && ExternalPlaces([]) == {}
    ensures FromSource(Items(ranked), [], source) == 0 && Externals(Items(ranked), []) == 0
  {
  }

  lemma {:induction false} SelectedIsPart<T>(xs: seq<T>, sel: seq<bool>)
    requires |sel| <= |xs|
    ensures multiset(Selected(xs, sel)) <= multiset(xs[..|sel|])
    ensures forall i :: 0 <= i < |sel| && sel[i] ==> xs[i] in Selected(xs, sel)
  {
    hide Selected;
    if sel == [] {
      SelectedNone(xs);
    } else {
      var n := |sel| - 1;
      assert sel[..n] + [sel[n]] == sel;
      SelectedIsPart(xs, sel[..n]);
      SelectedAppend(xs, sel[..n], sel[n]);
      assert xs[..n + 1] == xs[..n] + [xs[n]];
    }
  }

  ghost predicate InOrder(chosen: seq<Candidate>) {
    forall i, j :: 0 <= i < j < |chosen| ==> NotWorse(chosen[i], chosen[j])
  }

  /** Selected candidates keep their order. */
  lemma {:induction false} SelectedInOrder(ranked: seq<Candidate>, sel: seq<bool>)
    requires |sel| <= |ranked| && Sorted(ranked, RankLe)
    ensures InOrder(Selected(ranked, sel))
  {
    hide Selected, NotWorse, RankLe;
    if sel == [] {
      SelectedNone(ranked);
    } else {
      var n := |sel| - 1;
      var before := Selected(ranked, sel[..n]);
      assert sel[..n] + [sel[n]] == sel;
      SelectedInOrder(ranked, sel[..n]);
      SelectedAppend(ranked, sel[..n], sel[n]);
      SelectedIsPart(ranked, sel[..n]);
      NoneIsWorse(ranked, before, n);
      assert before + [] == before;
    }
  }

  lemma SelectedNone<T>(xs: seq<T>)
    ensures Selected(xs, []) == []
  {
  }

  lemma NoneIsWorse(ranked: seq<Candidate>, before: seq<Candidate>, n: nat)
    requires n < |ranked| && Sorted(ranked, RankLe) && multiset(before) <= multiset(ranked[..n])
    ensures forall i :: 0 <= i < |before| ==> NotWorse(before[i], ranked[n])
  {
    forall i | 0 <= i < |before|
      ensures NotWorse(before[i], ranked[n])
    {
      assert before[i] in multiset(before);
      assert before[i] in ranked[..n];
      var k :| 0 <= k < n && ranked[k] == before[i];
      assert RankLe(ranked[k], ranked[n]);
    }
  }

  lemma {:induction false} SelectedPrefix<T>(xs: seq<T>, sel: seq<bool>, i: nat)
    requires i <= |sel| <= |xs|
    ensures Selected(xs, sel[..i]) <= Selected(xs, sel)
  {
    hide Selected;
    if i < |sel| {
      var n := |sel| - 1;
      assert sel[..n] + [sel[n]] == sel && sel[..n][..i] == sel[..i];
      SelectedPrefix(xs, sel[..n], i);
      SelectedAppend(xs, sel[..n], sel[n]);
    } else {
      assert sel[..i] == sel;
    }
  }

  /** A refused candidate had no room when its turn came. */
  lemma RefusedHadNoRoom(ranked: seq<Candidate>, caps: Caps, i: nat)
    requires (forall c :: c in ranked ==> c.reasons != []) && Sorted(ranked, RankLe) && i < |ranked|
    requires !Greedy(Items(ranked), caps, |ranked|)[i]
    ensures var chosen := Selected(ranked, Greedy(Items(ranked), caps, |ranked|));
            NoRoom(chosen, ranked[i], caps.perSource, caps.external, caps.limit)
  {
    hide Greedy, Selected, FromSource, Externals, SourcePlaces, ExternalPlaces, SourceOf;
    var items := Items(ranked);
    var g, sel := Greedy(items, caps, |ranked|), Greedy(items, caps, i);
    GreedyPrefix(items, caps, i, |ranked|);
    GreedyPrefix(items, caps, i + 1, |ranked|);
    GreedyTakes(items, caps, i);
    assert g[i] == g[..i + 1][i];
    var chosen, before := Selected(ranked, g), Selected(ranked, sel);
    SelectedPrefix(ranked, g, i);
    SelectedIsPart(ranked, sel);
    NoneIsWorse(ranked, before, i);
    PlacesAreCounts(ranked, sel, SourceOf(ranked[i].reasons));
    assert chosen[..|before|] == before;
    assert Crowded(chosen, |before|, ranked[i], caps.perSource, caps.external, caps.limit);
  }

  lemma GreedyIsPromised(found: seq<Candidate>, exclude: set<string>, limit: nat)
    requires forall c :: c in found ==> c.reasons != []
    ensures var ranked := Ranked(found, exclude);
            var items := Items(ranked);
            var caps := CapsFor(items, limit);
            Promised(found, exclude, limit, Selected(ranked, Greedy(items, caps, |items|)),
                     caps.perSource, caps.external)
  {
    hide *;
    var ranked := Ranked(found, exclude);
    var items := Items(ranked);
    var caps := CapsFor(items, limit);
    var g := Greedy(items, caps, |items|);
    RankedMeans(found, exclude);
    CapsAreAsPromised(found, exclude, limit);
    CapsForKeepsLimit(items, limit);
    SelectedInOrder(ranked, g);
    GreedyWithinCaps(items, caps, |items|);
    forall source
      ensures |SourcePlaces(Selected(ranked, g), source)| <= caps.perSource
      ensures |ExternalPlaces(Selected(ranked, g))| <= caps.external
    {
      PlacesAreCounts(ranked, g, source);
    }
    SelectedIsPart(ranked, g);
    assert ranked[..|g|] == ranked;
    ChosenAreAllowed(found, exclude, ranked, g);
    forall c | c in found && Allowed(c, exclude) && c !in Selected(ranked, g)
      ensures NoRoom(Selected(ranked, g), c, caps.perSource, caps.external, limit)
    {
      var i :| 0 <= i < |ranked| && ranked[i] == c;
      RefusedHadNoRoom(ranked, caps, i);
    }
    PromisedWhen(found, exclude, limit, Selected(ranked, g), caps.perSource, caps.external);
  }

  lemma PromisedWhen(found: seq<Candidate>, exclude: set<string>, limit: nat, chosen: seq<Candidate>,
                     perSource: nat, external: nat)
    requires IsSourceCap(perSource, limit, |AllowedSources(found, exclude)|) && IsExternalCap(external, limit)
    requires (forall c :: c in chosen ==> c in found && Allowed(c, exclude)) && multiset(chosen) <= multiset(found)
    requires InOrder(chosen) && (forall source :: |SourcePlaces(chosen, source)| <= perSource)
    requires |SourcePlaces(chosen, "")| <= perSource && |ExternalPlaces(chosen)| <= external
    requires forall c :: c in found && Allowed(c, exclude) && c !in chosen ==>
               NoRoom(chosen, c, perSource, external, limit)
    ensures Promised(found, exclude, limit, chosen, perSource, external)
  {
  }

  lemma RankedMeans(found: seq<Candidate>, exclude: set<string>)
    ensures var ranked := Ranked(found, exclude);
            && Sorted(ranked, RankLe) && multiset(ranked) <= multiset(found)
            && forall c :: c in ranked <==> c in found && Allowed(c, exclude)
  {
    RankLeIsPreorder();
    SortIsSorted(Keep(found, exclude), RankLe);
    KeepIsPart(found, exclude);
    hide RankLe, Keep;
  }

  lemma ChosenAreAllowed(found: seq<Candidate>, exclude: set<string>, ranked: seq<Candidate>, sel: seq<bool>)
    requires |sel| == |ranked| && multiset(ranked) <= multiset(found)
    requires forall c :: c in ranked <==> c in found && Allowed(c, exclude)
    ensures multiset(Selected(ranked, sel)) <= multiset(found)
    ensures forall c :: c in Selected(ranked, sel) ==> c in found && Allowed(c, exclude)
    ensures forall i :: 0 <= i < |ranked| && ranked[i] !in Selected(ranked, sel) ==> !sel[i]
  {
    hide Selected, Allowed;
    SelectedIsPart(ranked, sel);
    assert ranked[..|sel|] == ranked;
    forall c | c in Selected(ranked, sel)
      ensures c in ranked
    {
      assert c in multiset(Selected(ranked, sel));
    }
  }

  lemma {:induction false} KeepIsPart(found: seq<Candidate>, exclude: set<string>)
    ensures multiset(Keep(found, exclude)) <= multiset(found)
  {
    if found != [] {
      KeepIsPart(found[1..], exclude);
      assert found == [found[0]] + found[1..];
    }
  }

  // ---- the loop ----

  function Tally(m: map<string, nat>, s: string): nat {
    if s in m then m[s] else 0
  }

  /** Once the list is full the rest of the loop would add nothing. */
  lemma {:induction false} FullStaysFull(items: seq<Item>, caps: Caps, m: nat, n: nat, xs: seq<Candidate>)
    requires m <= n <= |items| == |xs| && caps.limit > 0 && Total(Greedy(items, caps, m)) == caps.limit
    ensures Total(Greedy(items, caps, n)) == caps.limit
    ensures Selected(xs, Greedy(items, caps, n)) == Selected(xs, Greedy(items, caps, m))
  {
    hide Greedy, Total, Selected;
    if m < n {
      FullStaysFull(items, caps, m, n - 1, xs);
      var sel := Greedy(items, caps, n - 1);
      GreedyNext(items, caps, n - 1);
      AppendCounts(items, sel, false);
      SelectedAppend(xs, sel, false);
    }
  }

  /** pick: the loop with its per-source counters returns the greedy selection. */
  method PickCandidates(found: seq<Candidate>, exclude: set<string>, limit: nat) returns (chosen: seq<Candidate>)
    requires forall c :: c in found ==> c.reasons != []
    ensures var ranked := Ranked(found, exclude);
            var items := Items(ranked);
            chosen == Selected(ranked, Greedy(items, CapsFor(items, limit), |items|))
    ensures |chosen| <= limit <==> limit > 0 || Ranked(found, exclude) == []
    ensures exists perSource: nat, external: nat :: Promised(found, exclude, limit, chosen, perSource, external)
  {
    hide *;
    GreedyIsPromised(found, exclude, limit);
    var ranked := Ranked(found, exclude);
    var items := Items(ranked);
    var caps := CapsFor(items, limit);
    CapsForKeepsLimit(items, limit);
    LimitIsKeptExactly(items, limit);
    var perSource: map<string, nat> := map[];
    var externals := 0;
    chosen := [];
    GreedyStart(items, caps, ranked, perSource);
    for i := 0 to |ranked|
      invariant chosen == Selected(ranked, Greedy(items, caps, i))
      invariant Counted(items, Greedy(items, caps, i), perSource, externals)
      invariant limit == 0 || |chosen| < limit
    {
      var it := items[i];
      if Tally(perSource, it.source) >= caps.perSource || (it.external && externals >= caps.external) {
        Skipped(items, caps, i, ranked, perSource, externals);
        continue;
      }
      Taken(items, caps, i, ranked, perSource, externals);
      chosen := chosen + [ranked[i]];
      perSource := perSource[it.source := Tally(perSource, it.source) + 1];
      externals := externals + (if it.external then 1 else 0);
      if |chosen| == limit {
        FullStaysFull(items, caps, i + 1, |items|, ranked);
        return;
      }
    }
  }

  /** The loop's counters are those of the selection so far. */
  ghost predicate Counted(items: seq<Item>, sel: seq<bool>, perSource: map<string, nat>, externals: nat) {
    (forall s :: Tally(perSource, s) == FromSource(items, sel, s)) && externals == Externals(items, sel)
  }

  lemma CapsForKeepsLimit(items: seq<Item>, limit: nat)
    ensures CapsFor(items, limit).limit == limit
  {
  }

  lemma Skipped(items: seq<Item>, caps: Caps, i: nat, xs: seq<Candidate>, perSource: map<string, nat>, externals: nat)
    requires i < |items| == |xs| && Counted(items, Greedy(items, caps, i), perSource, externals)
    requires Tally(perSource, items[i].source) >= caps.perSource || (items[i].external && externals >= caps.external)
    ensures Selected(xs, Greedy(items, caps, i + 1)) == Selected(xs, Greedy(items, caps, i))
    ensures Counted(items, Greedy(items, caps, i + 1), perSource, externals)
  {
    hide Greedy, Total, FromSource, Externals, Selected, Tally;
    GreedyNext(items, caps, i);
    AppendCounts(items, Greedy(items, caps, i), false);
    SelectedAppend(xs, Greedy(items, caps, i), false);
  }

  lemma Taken(items: seq<Item>, caps: Caps, i: nat, xs: seq<Candidate>, perSource: map<string, nat>, externals: nat)
    requires i < |items| == |xs| && Counted(items, Greedy(items, caps, i), perSource, externals)
    requires Tally(perSource, items[i].source) < caps.perSource && !(items[i].external && externals >= caps.external)
    requires caps.limit == 0 || |Selected(xs, Greedy(items, caps, i))| < caps.limit
    ensures Selected(xs, Greedy(items, caps, i + 1)) == Selected(xs, Greedy(items, caps, i)) + [xs[i]]
    ensures Total(Greedy(items, caps, i + 1)) == |Selected(xs, Greedy(items, caps, i))| + 1
    ensures Counted(items, Greedy(items, caps, i + 1),
                    perSource[items[i].source := Tally(perSource, items[i].source) + 1],
                    externals + (if items[i].external then 1 else 0))
  {
    hide Greedy, Total, FromSource, Externals, Selected;
    GreedyNext(items, caps, i);
    AppendCounts(items, Greedy(items, caps, i), true);
    SelectedAppend(xs, Greedy(items, caps, i), true);
  }

  lemma GreedyStart<T>(items: seq<Item>, caps: Caps, xs: seq<T>, perSource: map<string, nat>)
    requires perSource == map[]
    ensures Selected(xs, Greedy(items, caps, 0)) == [] && Counted(items, Greedy(items, caps, 0), perSource, 0)
    ensures Total(Greedy(items, caps, 0)) == 0
  {
  }

  lemma GreedyNext(items: seq<Item>, caps: Caps, i: nat)
    requires i < |items|
    ensures Greedy(items, caps, i + 1) ==
            Greedy(items, caps, i) +
            [(caps.limit == 0 || Total(Greedy(items, caps, i)) < caps.limit) &&
             Fits(items, caps, Greedy(items, caps, i), items[i])]
  {
  }

  lemma SelectedAppend<T>(xs: seq<T>, sel: seq<bool>, take: bool)
    requires |sel| < |xs|
    ensures Selected(xs, sel + [take]) == Selected(xs, sel) + (if take then [xs[|sel|]] else [])
  {
    assert (sel + [take])[..|sel|] == sel;
  }
}
