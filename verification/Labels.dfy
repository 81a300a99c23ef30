/** Greedy placement of the labels on the explore page
    (python/query_api/src/arxiv_query_api/static/explore.js:276 and 301-357). */
module Labels {
  import opened Prelude
  import opened Ordering
  import opened Geometry

  const MARGIN: real := 6.0
  const OFF_SCREEN: real := 40.0
  const LABEL_GAP: real := 4.0
  const STAR_GAP: real := 3.0
  const TRAIL_PAD: real := 5.0
  const LINK_PAD: real := 2.5

  datatype TextBox = TextBox(w: real, h: real)

  datatype Star = Star(id: nat, at: Point, r: real, onPath: bool, texts: seq<TextBox>)

  /** A candidate place of a label: one of eight sides, near or far, for one wrapping of the title. */
  datatype Spot = Spot(rect: Rect, ux: int, uy: int, far: bool, text: TextBox)

  const SLOTS: seq<(int, int)> := [(1, 0), (-1, 0), (0, 1), (0, -1), (1, 1), (1, -1), (-1, 1), (-1, -1)]

  function Offset(u: int, at: real, d: real, size: real): real {
    if u > 0 then at + d else if u < 0 then at - d - size else at - size / 2.0
  }

  function RectFor(n: Star, text: TextBox, slot: (int, int), far: bool): Spot {
    var g := n.r + (if n.onPath then 9.0 else 6.0) + (if far then 14.0 else 0.0);
    var d := if slot.0 != 0 && slot.1 != 0 then g * 0.74 else g;
    var x0, y0 := Offset(slot.0, n.at.x, d, text.w), Offset(slot.1, n.at.y, d, text.h);
    Spot(Rect(x0, y0, x0 + text.w, y0 + text.h), slot.0, slot.1, far, text)
  }

  /** One straight piece of a shown edge, and how far labels keep from it. */
  datatype Segment = Segment(a: Point, b: Point, pad: real)

  datatype Edge = Edge(trail: bool, shown: bool, points: seq<Point>)

  /** What the labels are placed around.  `blocked` are the boxes of the legend and the tools, already
      widened; `score` prefers some of a star's spots. */
  datatype Scene = Scene(
    width: real, height: real, blocked: seq<Rect>, stars: seq<Star>, segments: seq<Segment>,
    score: (Star, Spot) -> real)

  // ---- the candidate spots of a star ----

  function AllSlots(n: Star, text: TextBox, far: bool): (r: seq<Spot>)
    ensures |r| == |SLOTS| && forall i :: 0 <= i < |SLOTS| ==> r[i] == RectFor(n, text, SLOTS[i], far)
  {
    seq(|SLOTS|, i requires 0 <= i < |SLOTS| => RectFor(n, text, SLOTS[i], far))
  }

  function SpotsFor(sc: Scene, n: Star, text: TextBox): seq<Spot> {
    Sort(AllSlots(n, text, false) + AllSlots(n, text, true), (a: Spot, b: Spot) => sc.score(n, a) >= sc.score(n, b))
  }

  function Options(sc: Scene, n: Star, texts: seq<TextBox>): seq<Spot> {
    if texts == [] then [] else SpotsFor(sc, n, texts[0]) + Options(sc, n, texts[1..])
  }

  // ---- which spots are free ----

  predicate InView(sc: Scene, o: Rect) {
    MARGIN <= o.x0 && MARGIN <= o.y0 && o.x1 <= sc.width - MARGIN && o.y1 <= sc.height - MARGIN
  }

  predicate OnScreen(sc: Scene, p: Point) {
    -OFF_SCREEN <= p.x <= sc.width + OFF_SCREEN && -OFF_SCREEN <= p.y <= sc.height + OFF_SCREEN
  }

  predicate ClearOfBoxes(sc: Scene, o: Rect) {
    forall b :: b in sc.blocked ==> !Overlaps(o, b)
  }

  predicate ClearOfLabels(placed: seq<Spot>, o: Rect) {
    forall q :: q in placed ==> !Overlaps(Grow(o, LABEL_GAP), q.rect)
  }

  predicate ClearOfStars(sc: Scene, o: Rect) {
    forall m :: m in sc.stars ==> !HitsCircle(o, m.at, m.r + STAR_GAP)
  }

  ghost predicate ClearOfEdges(sc: Scene, o: Rect) {
    forall s :: s in sc.segments ==> !SegmentMeets(s.a, s.b, Grow(o, s.pad))
  }

  ghost predicate Free(sc: Scene, placed: seq<Spot>, o: Rect) {
    InView(sc, o) && ClearOfBoxes(sc, o) && ClearOfLabels(placed, o) && ClearOfStars(sc, o) && ClearOfEdges(sc, o)
  }

  ghost function FirstFree(sc: Scene, placed: seq<Spot>, options: seq<Spot>): Option<Spot> {
    if options == [] then None
    else if Free(sc, placed, options[0].rect) then Some(options[0])
    else FirstFree(sc, placed, options[1..])
  }

  /** The place of one star's label after others were placed. */
  ghost function PlaceOf(sc: Scene, placed: seq<Spot>, n: Star): Option<Spot> {
    if OnScreen(sc, n.at) then FirstFree(sc, placed, Options(sc, n, n.texts)) else None
  }

  /** The places of the first stars in placement order. */
  ghost function Places(sc: Scene, order: seq<Star>): (r: seq<Option<Spot>>)
    ensures |r| == |order|
  {
    if order == [] then []
    else
      var before := Places(sc, order[..|order| - 1]);
      before + [PlaceOf(sc, Taken(before), order[|order| - 1])]
  }

  function Taken(places: seq<Option<Spot>>): seq<Spot> {
    if places == [] then []
    else
      var last := places[|places| - 1];
      Taken(places[..|places| - 1]) + (if last.Some? then [last.value] else [])
  }

  // ---- the loops ----

  /** The straight pieces of an edge from its i-th point on. */
  function PiecesOf(e: Edge, i: nat): seq<Segment>
    requires 1 <= i
    decreases |e.points| - i
  {
    if i >= |e.points| then []
    else [Segment(e.points[i - 1], e.points[i], if e.trail then TRAIL_PAD else LINK_PAD)] + PiecesOf(e, i + 1)
  }

  function PiecesOfShown(edges: seq<Edge>): seq<Segment> {
    if edges == [] then []
    else (if edges[0].shown then PiecesOf(edges[0], 1) else []) + PiecesOfShown(edges[1..])
  }

  lemma Push<T>(done: seq<T>, x: T, more: seq<T>, rest: seq<T>)
    ensures done + (([x] + more) + rest) == (done + [x]) + (more + rest)
  {
  }

  lemma Skip<T>(done: seq<T>, rest: seq<T>)
    ensures done + ([] + rest) == done + rest && done + [] == done
  {
  }

  method SegmentsOf(edges: seq<Edge>) returns (segs: seq<Segment>)
    ensures segs == PiecesOfShown(edges)
  {
    segs := [];
    for k := 0 to |edges|
      invariant segs + PiecesOfShown(edges[k..]) == PiecesOfShown(edges)
    {
      var e := edges[k];
      assert edges[k..][1..] == edges[k + 1..];
      ghost var rest := PiecesOfShown(edges[k + 1..]);
      Skip(segs, rest);
      if e.shown {
        var pad := if e.trail then TRAIL_PAD else LINK_PAD;
        var i := 1;
        while i < |e.points|
          invariant 1 <= i
          invariant segs + (PiecesOf(e, i) + rest) == PiecesOfShown(edges)
        {
          Push(segs, Segment(e.points[i - 1], e.points[i], pad), PiecesOf(e, i + 1), rest);
          segs := segs + [Segment(e.points[i - 1], e.points[i], pad)];
          i := i + 1;
        }
        Skip(segs, rest);
      }
    }
    Skip(segs, []);
  }

  method IsFree(sc: Scene, placed: seq<Spot>, o: Rect) returns (free: bool)
    ensures free <==> Free(sc, placed, o)
  {
    if !(InView(sc, o) && ClearOfBoxes(sc, o) && ClearOfLabels(placed, o) && ClearOfStars(sc, o)) {
      return false;
    }
    for i := 0 to |sc.segments|
      invariant forall k :: 0 <= k < i ==>
                  !SegmentMeets(sc.segments[k].a, sc.segments[k].b, Grow(o, sc.segments[k].pad))
    {
      var s := sc.segments[i];
      var hit := SegHits(s.a, s.b, Grow(o, s.pad));
      if hit {
        return false;
      }
    }
    return true;
  }

  /** A star of the page; `place` is the slot its label got. */
  class Node {
    const star: Star
    var place: Option<Spot>

    constructor (star: Star)
      ensures this.star == star && place == None
    {
      this.star, place := star, None;
    }
  }

  ghost predicate Distinct(nodes: seq<Node>) {
    forall i, j :: 0 <= i < j < |nodes| ==> nodes[i] != nodes[j]
  }

  function StarsOf(nodes: seq<Node>): (r: seq<Star>)
    ensures |r| == |nodes| && forall i :: 0 <= i < |nodes| ==> r[i] == nodes[i].star
  {
    seq(|nodes|, i requires 0 <= i < |nodes| => nodes[i].star)
  }

  lemma PlacesPrefix(sc: Scene, order: seq<Star>, i: nat, i': nat)
    requires i < i' == i + 1 <= |order|
    ensures Places(sc, order[..i']) ==
            Places(sc, order[..i]) + [PlaceOf(sc, Taken(Places(sc, order[..i])), order[i])]
    ensures var p := PlaceOf(sc, Taken(Places(sc, order[..i])), order[i]);
            Taken(Places(sc, order[..i'])) == Taken(Places(sc, order[..i])) + (if p.Some? then [p.value] else [])
  {
    assert order[..i'][..i] == order[..i];
    var before := Places(sc, order[..i]);
    assert Places(sc, order[..i'])[..i] == before;
  }

  /** placeLabels, the stars given in the order of their rank. */
  method PlaceLabels(sc: Scene, nodes: seq<Node>)
    requires Distinct(nodes)
    modifies nodes
    ensures forall i :: 0 <= i < |nodes| ==> nodes[i].place == Places(sc, StarsOf(nodes))[i]
  {
    hide Places, Taken, PlaceOf, Options, Free;
    var order := StarsOf(nodes);
    var placed: seq<Spot> := [];
    NothingPlaced(sc, order);
    for i := 0 to |nodes|
      invariant placed == Taken(Places(sc, order[..i]))
      invariant forall k :: 0 <= k < i ==> nodes[k].place == Places(sc, order[..i])[k]
    {
      var n := nodes[i];
      n.place := None;
      PlacesPrefix(sc, order, i, i + 1);
      PlaceOfIs(sc, placed, n.star);
      if !OnScreen(sc, n.star.at) {
        continue;
      }
      var options := Options(sc, n.star, n.star.texts);
      var k := 0;
      while k < |options|
        invariant k <= |options| && n.place == None
        invariant FirstFree(sc, placed, options[k..]) == FirstFree(sc, placed, options)
        invariant forall j :: 0 <= j < i ==> nodes[j].place == Places(sc, order[..i])[j]
      {
        assert options[k..][1..] == options[k + 1..];
        var free := IsFree(sc, placed, options[k].rect);
        if free {
          n.place := Some(options[k]);
          placed := placed + [options[k]];
          break;
        }
        k := k + 1;
      }
    }
    assert order[..|nodes|] == order;
  }

  lemma NothingPlaced(sc: Scene, order: seq<Star>)
    ensures Taken(Places(sc, order[..0])) == []
  {
  }

  lemma PlaceOfIs(sc: Scene, placed: seq<Spot>, n: Star)
    ensures PlaceOf(sc, placed, n) ==
            if OnScreen(sc, n.at) then FirstFree(sc, placed, Options(sc, n, n.texts)) else None
  {
  }

  // ---- what the placement guarantees ----

  lemma {:induction false} FirstFreeIs(sc: Scene, placed: seq<Spot>, options: seq<Spot>)
    ensures var o := FirstFree(sc, placed, options);
            && (o.Some? ==> o.value in options && Free(sc, placed, o.value.rect))
            && (o.None? ==> forall x :: x in options ==> !Free(sc, placed, x.rect))
  {
    hide Free;
    if options != [] {
      FirstFreeIs(sc, placed, options[1..]);
      assert forall x :: x in options <==> x == options[0] || x in options[1..];
    }
  }

  lemma SpotsForAre(sc: Scene, n: Star, text: TextBox, o: Spot)
    ensures o in SpotsFor(sc, n, text) <==>
            exists k: nat, far :: k < |SLOTS| && o == RectFor(n, text, SLOTS[k], far)
  {
    var all := AllSlots(n, text, false) + AllSlots(n, text, true);
    SortHasSameMembers(all, (a: Spot, b: Spot) => sc.score(n, a) >= sc.score(n, b));
    hide RectFor;
    assert o in all <==> o in AllSlots(n, text, false) || o in AllSlots(n, text, true);
    forall k: nat, far | k < |SLOTS| && o == RectFor(n, text, SLOTS[k], far)
      ensures o in AllSlots(n, text, far)
    {
      assert AllSlots(n, text, far)[k] == o;
    }
  }

  lemma {:induction false} OptionsAre(sc: Scene, n: Star, texts: seq<TextBox>, o: Spot)
    ensures o in Options(sc, n, texts) <==> exists text :: text in texts && o in SpotsFor(sc, n, text)
  {
    hide SpotsFor;
    if texts != [] {
      OptionsAre(sc, n, texts[1..], o);
      assert forall text :: text in texts <==> text == texts[0] || text in texts[1..];
    }
  }

  lemma {:induction false} TakenAre(places: seq<Option<Spot>>, o: Spot)
    ensures o in Taken(places) <==> Some(o) in places
  {
    if places != [] {
      var front := places[..|places| - 1];
      TakenAre(front, o);
      assert places == front + [places[|places| - 1]];
    }
  }

  lemma {:induction false} PlacesAt(sc: Scene, order: seq<Star>, i: nat)
    requires i < |order|
    ensures Places(sc, order)[i] == PlaceOf(sc, Taken(Places(sc, order)[..i]), order[i])
    ensures Places(sc, order)[..i] == Places(sc, order[..i])
  {
    var n := |order| - 1;
    var before := Places(sc, order[..n]);
    assert Places(sc, order)[..n] == before;
    if i < n {
      PlacesAt(sc, order[..n], i);
      assert order[..n][..i] == order[..i];
      assert Places(sc, order)[..i] == before[..i];
    }
  }

  /** How far a star's spots keep from its centre. */
  ghost function Ring(n: Star, far: bool): real {
    n.r + (if n.onPath then 9.0 else 6.0) + (if far then 14.0 else 0.0)
  }

  lemma BesideIsOut(e: real, other: real, g: real)
    requires g >= 0.0 && (e >= g || -e >= g)
    ensures e * e + other * other >= g * g
  {
    SquareGrows(g, e);
    SquareGrows(0.0, other);
  }

  /** 0.74 is more than half the square root of two. */
  lemma DiagonalIsOut(ex: real, ey: real, g: real)
    requires g >= 0.0 && (ex >= g * 0.74 || -ex >= g * 0.74) && (ey >= g * 0.74 || -ey >= g * 0.74)
    ensures ex * ex + ey * ey >= g * g
  {
    var d := g * 0.74;
    SquareGrows(d, ex);
    SquareGrows(d, ey);
    assert d * d == (g * g) * 0.5476;
    SquareGrows(0.0, g);
  }

  /** Every spot, straight or diagonal, clears its own star by the ring, so a label is never in the way of its
      own star. */
  lemma SpotClearsItsStar(n: Star, text: TextBox, k: nat, far: bool, p: Point)
    requires text.w >= 0.0 && text.h >= 0.0 && n.r >= 0.0 && k < |SLOTS|
    requires Contains(RectFor(n, text, SLOTS[k], far).rect, p)
    ensures SquaredDistance(p, n.at) >= Ring(n, far) * Ring(n, far)
  {
    var g := Ring(n, far);
    var ex, ey := p.x - n.at.x, p.y - n.at.y;
    var slot := SLOTS[k];
    assert slot.0 != 0 || slot.1 != 0;
    if slot.0 != 0 && slot.1 != 0 {
      DiagonalIsOut(ex, ey, g);
    } else if slot.0 != 0 {
      BesideIsOut(ex, ey, g);
    } else {
      BesideIsOut(ey, ex, g);
    }
  }

  /** A placed label is one of its star's spots and was free among the labels placed before it. */
  lemma PlacedIsFree(sc: Scene, order: seq<Star>, i: nat)
    requires i < |order| && Places(sc, order)[i].Some?
    ensures var o := Places(sc, order)[i].value;
            o in Options(sc, order[i], order[i].texts) && Free(sc, Taken(Places(sc, order)[..i]), o.rect)
  {
    hide Places, Free, Options;
    PlacesAt(sc, order, i);
    FirstFreeIs(sc, Taken(Places(sc, order)[..i]), Options(sc, order[i], order[i].texts));
  }

  ghost predicate RealTexts(n: Star) {
    forall t :: t in n.texts ==> t.w >= 0.0 && t.h >= 0.0
  }

  lemma PlacedIsProper(sc: Scene, order: seq<Star>, i: nat)
    requires i < |order| && Places(sc, order)[i].Some? && RealTexts(order[i])
    ensures Proper(Places(sc, order)[i].value.rect)
  {
    hide Places, Free, Options, SpotsFor;
    var n, o := order[i], Places(sc, order)[i].value;
    PlacedIsFree(sc, order, i);
    OptionsAre(sc, n, n.texts, o);
    var text :| text in n.texts && o in SpotsFor(sc, n, text);
    SpotsForAre(sc, n, text, o);
  }

  /** No two labels come within the gap of each other. */
  lemma LabelsKeepApart(sc: Scene, order: seq<Star>, i: nat, j: nat)
    requires i < j < |order| && Places(sc, order)[i].Some? && Places(sc, order)[j].Some?
    requires RealTexts(order[i]) && RealTexts(order[j])
    ensures Apart(Places(sc, order)[j].value.rect, Places(sc, order)[i].value.rect, 4.0)
  {
    hide Places, Options, Proper;
    var placed := Taken(Places(sc, order)[..j]);
    PlacedIsFree(sc, order, j);
    TakenAre(Places(sc, order)[..j], Places(sc, order)[i].value);
    assert Places(sc, order)[..j][i] == Places(sc, order)[i];
    PlacedIsProper(sc, order, i);
    PlacedIsProper(sc, order, j);
    OverlapsGrownIsNotApart(Places(sc, order)[j].value.rect, Places(sc, order)[i].value.rect, LABEL_GAP);
  }

  /** A label stays clear of every star, its own included, of every box and of the border, and no point of a
      shown edge's pieces comes within the padding. */
  lemma LabelIsClear(sc: Scene, order: seq<Star>, i: nat)
    requires i < |order| && Places(sc, order)[i].Some? && RealTexts(order[i])
    ensures var o := Places(sc, order)[i].value.rect;
            && 6.0 <= o.x0 && 6.0 <= o.y0 && o.x1 <= sc.width - 6.0 && o.y1 <= sc.height - 6.0
            && (forall b :: b in sc.blocked ==> !Overlaps(o, b))
            && (forall m, p :: m in sc.stars && Contains(o, p) ==>
                  SquaredDistance(p, m.at) >= (m.r + 3.0) * (m.r + 3.0))
            && (forall s, t: real :: s in sc.segments && 0.0 <= t <= 1.0 ==>
                  !Contains(Grow(o, s.pad), Along(s.a, s.b, t)))
  {
    hide Places, Options, HitsCircle, SquaredDistance, Contains, Along;
    PlacedIsFree(sc, order, i);
    PlacedIsProper(sc, order, i);
    var o := Places(sc, order)[i].value.rect;
    forall m, p | m in sc.stars && Contains(o, p)
      ensures SquaredDistance(p, m.at) >= (m.r + STAR_GAP) * (m.r + STAR_GAP)
    {
      HitsCircleIsCloser(o, m.at, m.r + STAR_GAP);
    }
  }

  /** The piece of a bent curve that is drawn for an edge between two stars, and its straight pieces. */
  ghost predicate Drawn(sc: Scene, q: Curve, pad: real) {
    forall i: nat :: i < CHORDS ==> Segment(Knot(q, i), Knot(q, i + 1), pad) in sc.segments
  }

  lemma {:induction false} PieceListed(e: Edge, from: nat, k: nat)
    requires 1 <= from <= k < |e.points|
    ensures Segment(e.points[k - 1], e.points[k], if e.trail then TRAIL_PAD else LINK_PAD) in PiecesOf(e, from)
    decreases k - from
  {
    if from < k {
      PieceListed(e, from + 1, k);
    }
  }

  lemma {:induction false} ShownListed(edges: seq<Edge>, e: Edge)
    requires e in edges && e.shown
    ensures forall s :: s in PiecesOf(e, 1) ==> s in PiecesOfShown(edges)
  {
    if edges[0] != e {
      ShownListed(edges[1..], e);
    }
  }

  /** The sixteen pieces of every shown edge are among what the labels avoid. */
  lemma ShownEdgeIsDrawn(sc: Scene, edges: seq<Edge>, e: Edge, q: Curve)
    requires sc.segments == PiecesOfShown(edges) && e in edges && e.shown
    requires |e.points| == CHORDS + 1 && forall i: nat :: i <= CHORDS ==> e.points[i] == Knot(q, i)
    ensures Drawn(sc, q, if e.trail then TRAIL_PAD else LINK_PAD)
  {
    hide Knot, PiecesOf, PiecesOfShown;
    ShownListed(edges, e);
    forall i: nat | i < CHORDS
      ensures Segment(Knot(q, i), Knot(q, i + 1), if e.trail then TRAIL_PAD else LINK_PAD) in sc.segments
    {
      PieceListed(e, 1, i + 1);
    }
  }

  /** The curve of an edge between two stars, and the sixteen chords' ends kept for the labels; nothing is kept
      when the piece between the rims is too short to draw. */
  ghost predicate DrawnAs(e: Edge, a: Point, b: Point, bend: real, u0: real, u1: real) {
    && 0.0 <= u0 <= u1 <= 1.0 && Within(bend, if e.trail then 0.07 else 0.13)
    && |e.points| == CHORDS + 1
    && forall i: nat :: i <= CHORDS ==> e.points[i] == Knot(Piece(Bent(a, b, bend), u0, u1), i)
  }

  /** No label crosses a shown edge as it is drawn, although only its straight pieces were looked at: links for
      stars up to 9846 pixels apart along each axis, the reading trail up to 36571. */
  lemma LabelsNeverCrossEdges(sc: Scene, order: seq<Star>, i: nat, edges: seq<Edge>, e: Edge, a: Point, b: Point,
                              bend: real, u0: real, u1: real, u: real)
    requires i < |order| && Places(sc, order)[i].Some? && RealTexts(order[i])
    requires sc.segments == PiecesOfShown(edges) && e in edges && e.shown && DrawnAs(e, a, b, bend, u0, u1)
    requires Within(b.x - a.x, if e.trail then 36571.0 else 9846.0)
    requires Within(b.y - a.y, if e.trail then 36571.0 else 9846.0)
    requires u0 <= u <= u1
    ensures !Contains(Places(sc, order)[i].value.rect, Quad(Bent(a, b, bend), u))
  {
    hide *;
    DrawnMeans(e, a, b, bend, u0, u1);
    ShownEdgeIsDrawn(sc, edges, e, Piece(Bent(a, b, bend), u0, u1));
    CurveIsMissed(sc, order, i, a, b, bend, e.trail, u0, u1, u);
  }

  lemma CurveIsMissed(sc: Scene, order: seq<Star>, i: nat, a: Point, b: Point, bend: real, trail: bool,
                      u0: real, u1: real, u: real)
    requires i < |order| && Places(sc, order)[i].Some? && 0.0 <= u0 <= u1 <= 1.0 && u0 <= u <= u1
    requires Within(bend, if trail then 0.07 else 0.13)
    requires Within(b.x - a.x, if trail then 36571.0 else 9846.0)
    requires Within(b.y - a.y, if trail then 36571.0 else 9846.0)
    requires Drawn(sc, Piece(Bent(a, b, bend), u0, u1), if trail then TRAIL_PAD else LINK_PAD)
    ensures !Contains(Places(sc, order)[i].value.rect, Quad(Bent(a, b, bend), u))
  {
    hide *;
    var pad := if trail then TRAIL_PAD else LINK_PAD;
    var o := Places(sc, order)[i].value.rect;
    var q := Piece(Bent(a, b, bend), u0, u1);
    PlacedMissesChords(sc, order, i, q, pad);
    TrailAndLinkAreFlat(a, b, bend, trail, u0, u1);
    var s := if u0 == u1 then 0.0 else (u - u0) / (u1 - u0);
    assert 0.0 <= s <= 1.0 && u0 + s * (u1 - u0) == u by {
      ShareOf(u0, u1, u);
    }
    MissesCurve(q, o, pad, s);
    PieceIsTheCurve(Bent(a, b, bend), u0, u1, s);
  }

  lemma DrawnMeans(e: Edge, a: Point, b: Point, bend: real, u0: real, u1: real)
    requires DrawnAs(e, a, b, bend, u0, u1)
    ensures 0.0 <= u0 <= u1 <= 1.0 && Within(bend, if e.trail then 0.07 else 0.13) && |e.points| == CHORDS + 1
    ensures forall i: nat :: i <= CHORDS ==> e.points[i] == Knot(Piece(Bent(a, b, bend), u0, u1), i)
  {
  }

  lemma ShareOf(u0: real, u1: real, u: real)
    requires u0 <= u <= u1
    ensures var s := if u0 == u1 then 0.0 else (u - u0) / (u1 - u0);
            0.0 <= s <= 1.0 && u0 + s * (u1 - u0) == u
  {
    if u0 < u1 {
      var d := u1 - u0;
      var s := (u - u0) / d;
      assert s * d == u - u0;
      if s < 0.0 {
        Positive(-s, d);
      } else if s > 1.0 {
        Positive(s - 1.0, d);
      }
    }
  }

  lemma TrailAndLinkAreFlat(a: Point, b: Point, bend: real, trail: bool, u0: real, u1: real)
    requires 0.0 <= u0 <= u1 <= 1.0
    requires Within(bend, if trail then 0.07 else 0.13)
    requires Within(b.x - a.x, if trail then 36571.0 else 9846.0)
    requires Within(b.y - a.y, if trail then 36571.0 else 9846.0)
    ensures Flat(Piece(Bent(a, b, bend), u0, u1), if trail then TRAIL_PAD else LINK_PAD)
  {
    hide Flat, Piece, Bent;
    if trail {
      DrawnPieceIsFlat(a, b, bend, 0.07, 36571.0, TRAIL_PAD, u0, u1);
    } else {
      DrawnPieceIsFlat(a, b, bend, 0.13, 9846.0, LINK_PAD, u0, u1);
    }
  }

  lemma PlacedMissesChords(sc: Scene, order: seq<Star>, i: nat, q: Curve, pad: real)
    requires i < |order| && Places(sc, order)[i].Some? && Drawn(sc, q, pad)
    ensures forall k: nat :: k < CHORDS ==>
              !SegmentMeets(Knot(q, k), Knot(q, k + 1), Grow(Places(sc, order)[i].value.rect, pad))
  {
    hide Places, Options, SegmentMeets, Knot, Grow;
    PlacedIsFree(sc, order, i);
  }

  // ---- why a label is where it is, or nowhere ----

  ghost predicate InTheWay(o: Rect, b: Rect, gap: real) {
    o.x0 - gap < b.x1 && b.x0 < o.x1 + gap && o.y0 - gap < b.y1 && b.y0 < o.y1 + gap
  }

  /** Something keeps a label from a place: the border, a box, a label that is there already, a star, or an edge. */
  ghost predicate Obstructed(sc: Scene, places: seq<Option<Spot>>, o: Rect) {
    || o.x0 < 6.0 || o.y0 < 6.0 || o.x1 > sc.width - 6.0 || o.y1 > sc.height - 6.0
    || (exists b :: b in sc.blocked && InTheWay(o, b, 0.0))
    || (exists q: Spot :: Some(q) in places && InTheWay(o, q.rect, 4.0))
    || (exists m :: m in sc.stars && HitsCircle(o, m.at, m.r + 3.0))
    || (exists s, t: real :: s in sc.segments && 0.0 <= t <= 1.0 && Contains(Grow(o, s.pad), Along(s.a, s.b, t)))
  }

  lemma FreeIsNotObstructed(sc: Scene, places: seq<Option<Spot>>, o: Rect)
    ensures Free(sc, Taken(places), o) <==> !Obstructed(sc, places, o)
  {
    hide Taken, Contains, Along, HitsCircle;
    forall q: Spot
      ensures q in Taken(places) <==> Some(q) in places
      ensures Overlaps(Grow(o, LABEL_GAP), q.rect) <==> InTheWay(o, q.rect, 4.0)
    {
      TakenAre(places, q);
    }
    forall b: Rect
      ensures Overlaps(o, b) <==> InTheWay(o, b, 0.0)
    {
    }
    hide Overlaps, Grow, InTheWay;
  }

  /** A label of a star on the screen is hidden only if each of its spots, on every side, near and far, for every
      wrapping of its title, was obstructed when its turn came; a star off the screen has no label. */
  lemma HiddenMeansNoRoom(sc: Scene, order: seq<Star>, i: nat)
    requires i < |order|
    ensures var at, onScreen := order[i].at, OnTheScreen(sc, order[i].at);
            Places(sc, order)[i].None? <==>
            onScreen ==> forall text, k: nat, far :: text in order[i].texts && k < |SLOTS| ==>
                           Obstructed(sc, Places(sc, order)[..i], RectFor(order[i], text, SLOTS[k], far).rect)
  {
    hide Places, RectFor, SpotsFor, Options, Free, Obstructed;
    var n, places := order[i], Places(sc, order)[..i];
    PlacesAt(sc, order, i);
    FirstFreeIs(sc, Taken(places), Options(sc, n, n.texts));
    var place := Places(sc, order)[i];
    if place.None? && OnScreen(sc, n.at) {
      forall text, k: nat, far | text in n.texts && k < |SLOTS|
        ensures Obstructed(sc, places, RectFor(n, text, SLOTS[k], far).rect)
      {
        var o := RectFor(n, text, SLOTS[k], far);
        SpotsForAre(sc, n, text, o);
        OptionsAre(sc, n, n.texts, o);
        FreeIsNotObstructed(sc, places, o.rect);
      }
    }
    if place.Some? {
      var o := place.value;
      OptionsAre(sc, n, n.texts, o);
      var text :| text in n.texts && o in SpotsFor(sc, n, text);
      SpotsForAre(sc, n, text, o);
      var k: nat, far :| k < |SLOTS| && o == RectFor(n, text, SLOTS[k], far);
      FreeIsNotObstructed(sc, places, o.rect);
      assert !Obstructed(sc, places, RectFor(n, text, SLOTS[k], far).rect);
    }
  }

  ghost predicate OnTheScreen(sc: Scene, p: Point) {
    -40.0 <= p.x <= sc.width + 40.0 && -40.0 <= p.y <= sc.height + 40.0
  }

  /** A spot for a text: a box of its size beside the star, on the side of the slot. */
  ghost predicate IsBeside(n: Star, text: TextBox, ux: int, uy: int, far: bool, o: Rect) {
    var g := n.r + (if n.onPath then 9.0 else 6.0) + (if far then 14.0 else 0.0);
    var d := if ux != 0 && uy != 0 then g * 0.74 else g;
    && o.x1 - o.x0 == text.w && o.y1 - o.y0 == text.h
    && (ux == 1 ==> o.x0 == n.at.x + d) && (ux == -1 ==> o.x1 == n.at.x - d)
    && (uy == 1 ==> o.y0 == n.at.y + d) && (uy == -1 ==> o.y1 == n.at.y - d)
    && (ux == 0 ==> o.x0 + o.x1 == 2.0 * n.at.x) && (uy == 0 ==> o.y0 + o.y1 == 2.0 * n.at.y)
  }

  /** The spots lie on all eight sides of the star. */
  lemma SpotsAreBeside(n: Star, text: TextBox, far: bool)
    ensures forall k: nat :: k < |SLOTS| ==>
              IsBeside(n, text, SLOTS[k].0, SLOTS[k].1, far, RectFor(n, text, SLOTS[k], far).rect)
    ensures forall ux, uy :: -1 <= ux <= 1 && -1 <= uy <= 1 && (ux != 0 || uy != 0) ==> (ux, uy) in SLOTS
  {
    assert forall k: nat :: k < |SLOTS| ==> -1 <= SLOTS[k].0 <= 1 && -1 <= SLOTS[k].1 <= 1;
    assert SLOTS[0] == (1, 0) && SLOTS[1] == (-1, 0) && SLOTS[2] == (0, 1) && SLOTS[3] == (0, -1);
    assert SLOTS[4] == (1, 1) && SLOTS[5] == (1, -1) && SLOTS[6] == (-1, 1) && SLOTS[7] == (-1, -1);
  }

  /** No spot that a star would rather have is free when its label is placed: not one of a wider wrapping, nor one
      of the same wrapping with a higher score. */
  ghost predicate BestOf(sc: Scene, places: seq<Option<Spot>>, n: Star, texts: seq<TextBox>, w: nat, o: Spot)
    requires w < |texts|
  {
    && o in SpotsFor(sc, n, texts[w]) && !Obstructed(sc, places, o.rect)
    && (forall v, p :: 0 <= v < w && p in SpotsFor(sc, n, texts[v]) ==> Obstructed(sc, places, p.rect))
    && (forall p :: p in SpotsFor(sc, n, texts[w]) && sc.score(n, p) > sc.score(n, o) ==>
          Obstructed(sc, places, p.rect))
  }

  lemma {:induction false} FirstFreeConcat(sc: Scene, placed: seq<Spot>, a: seq<Spot>, b: seq<Spot>)
    ensures FirstFree(sc, placed, a + b) ==
            if FirstFree(sc, placed, a).Some? then FirstFree(sc, placed, a) else FirstFree(sc, placed, b)
    decreases |a|
  {
    hide Free;
    if a == [] {
      assert a + b == b;
    } else {
      assert (a + b)[1..] == a[1..] + b;
      FirstFreeConcat(sc, placed, a[1..], b);
    }
  }

  lemma {:induction false} FirstFreeIsPreferred(sc: Scene, placed: seq<Spot>, options: seq<Spot>,
                                                better: (Spot, Spot) -> bool, p: Spot)
    requires Sorted(options, better) && FirstFree(sc, placed, options).Some? && p in options
    requires better(p, p)
    ensures better(FirstFree(sc, placed, options).value, p) || !Free(sc, placed, p.rect)
    decreases |options|
  {
    hide Free;
    if Free(sc, placed, options[0].rect) {
      var i :| 0 <= i < |options| && options[i] == p;
      if i > 0 {
        assert better(options[0], options[i]);
      }
    } else if p != options[0] {
      FirstFreeIsPreferred(sc, placed, options[1..], better, p);
    }
  }

  lemma {:induction false} BestOfTexts(sc: Scene, places: seq<Option<Spot>>, n: Star, texts: seq<TextBox>)
    returns (w: nat)
    requires FirstFree(sc, Taken(places), Options(sc, n, texts)).Some?
    ensures w < |texts| && BestOf(sc, places, n, texts, w, FirstFree(sc, Taken(places), Options(sc, n, texts)).value)
    decreases |texts|
  {
    hide Free, SpotsFor, Obstructed;
    var placed := Taken(places);
    var first, rest := SpotsFor(sc, n, texts[0]), Options(sc, n, texts[1..]);
    var o := FirstFree(sc, placed, Options(sc, n, texts)).value;
    FirstFreeConcat(sc, placed, first, rest);
    FirstFreeIs(sc, placed, first);
    FirstFreeIs(sc, placed, rest);
    FreeIsNotObstructed(sc, places, o.rect);
    forall p | p in first
      ensures Free(sc, placed, p.rect) <==> !Obstructed(sc, places, p.rect)
    {
      FreeIsNotObstructed(sc, places, p.rect);
    }
    if FirstFree(sc, placed, first).Some? {
      w := 0;
      forall p | p in first && sc.score(n, p) > sc.score(n, o)
        ensures Obstructed(sc, places, p.rect)
      {
        SpotsByScore(sc, n, texts[0]);
        FirstFreeIsPreferred(sc, placed, first, (a: Spot, b: Spot) => sc.score(n, a) >= sc.score(n, b), p);
      }
    } else {
      w := BestOfTexts(sc, places, n, texts[1..]);
      w := w + 1;
      assert texts[w] == texts[1..][w - 1];
      forall v, p | 0 <= v < w && p in SpotsFor(sc, n, texts[v])
        ensures Obstructed(sc, places, p.rect)
      {
        assert v > 0 ==> texts[v] == texts[1..][v - 1];
      }
    }
  }

  lemma SpotsByScore(sc: Scene, n: Star, text: TextBox)
    ensures Sorted(SpotsFor(sc, n, text), (a: Spot, b: Spot) => sc.score(n, a) >= sc.score(n, b))
  {
    SortIsSorted(AllSlots(n, text, false) + AllSlots(n, text, true),
                 (a: Spot, b: Spot) => sc.score(n, a) >= sc.score(n, b));
  }

  /** A label gets the best spot that is not obstructed when its turn comes. */
  lemma BestSpotIsTaken(sc: Scene, order: seq<Star>, i: nat) returns (w: nat)
    requires i < |order| && Places(sc, order)[i].Some?
    ensures var n := order[i];
            w < |n.texts| && BestOf(sc, Places(sc, order)[..i], n, n.texts, w, Places(sc, order)[i].value)
  {
    hide Places, Options, BestOf;
    PlacesAt(sc, order, i);
    w := BestOfTexts(sc, Places(sc, order)[..i], order[i], order[i].texts);
  }

  /** The pieces that labels avoid are those of the shown edges, each with its padding. */
  lemma {:induction false} PiecesAreOfShown(edges: seq<Edge>, s: Segment)
    ensures s in PiecesOfShown(edges) <==> exists e, k: nat :: e in edges && e.shown && IsPiece(e, k, s)
  {
    hide PiecesOf, IsPiece;
    if edges != [] {
      PiecesAreOfShown(edges[1..], s);
      PiecesAre(edges[0], 1, s);
      assert forall e :: e in edges <==> e == edges[0] || e in edges[1..];
      if s in PiecesOfShown(edges) {
        var e, k: nat :| (e == edges[0] || e in edges[1..]) && e.shown && IsPiece(e, k, s);
      }
      if e, k: nat :| e in edges && e.shown && IsPiece(e, k, s) {
        assert 1 <= k by {
          PieceIsFromOne(e, k, s);
        }
      }
    }
  }

  ghost predicate IsPiece(e: Edge, k: nat, s: Segment) {
    1 <= k < |e.points| && s == Segment(e.points[k - 1], e.points[k], if e.trail then 5.0 else 2.5)
  }

  lemma PieceIsFromOne(e: Edge, k: nat, s: Segment)
    requires IsPiece(e, k, s)
    ensures 1 <= k
  {
  }

  lemma {:induction false} PiecesAre(e: Edge, from: nat, s: Segment)
    requires 1 <= from
    ensures s in PiecesOf(e, from) <==> exists k: nat :: from <= k && IsPiece(e, k, s)
    decreases |e.points| - from
  {
    if from < |e.points| {
      PiecesAre(e, from + 1, s);
      assert IsPiece(e, from, s) <==> s == PiecesOf(e, from)[0];
    }
  }
}
