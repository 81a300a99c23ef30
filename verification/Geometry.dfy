/** Plane geometry of the explore page: when a segment, a circle or another rectangle meets a label's
    rectangle, and how far a drawn curve strays from the segments that stand for it
    (python/query_api/src/arxiv_query_api/static/explore.js:133-172 and 277-299).  Coordinates are reals. */
module Geometry {

  datatype Point = Point(x: real, y: real)

  datatype Rect = Rect(x0: real, y0: real, x1: real, y1: real)

  predicate Proper(r: Rect) {
    r.x0 <= r.x1 && r.y0 <= r.y1
  }

  predicate Contains(r: Rect, p: Point) {
    r.x0 <= p.x <= r.x1 && r.y0 <= p.y <= r.y1
  }

  function Grow(r: Rect, pad: real): Rect {
    Rect(r.x0 - pad, r.y0 - pad, r.x1 + pad, r.y1 + pad)
  }

  /** The point a share t of the way from a to b. */
  function Along(a: Point, b: Point, t: real): Point {
    Point(a.x + t * (b.x - a.x), a.y + t * (b.y - a.y))
  }

  ghost predicate SegmentMeets(a: Point, b: Point, r: Rect) {
    exists t: real :: 0.0 <= t <= 1.0 && Contains(r, Along(a, b, t))
  }

  // ---- segHits ----

  /** The half-plane p * t <= q of the segment's parameter. */
  predicate Below(p: real, q: real, t: real) {
    p * t <= q
  }

  lemma DivideNegative(p: real, q: real, t: real)
    requires p < 0.0
    ensures Below(p, q, t) <==> t >= q / p
  {
    var s := q / p;
    assert s * p == q;
    if t >= s {
      assert (t - s) * p <= 0.0;
    } else {
      assert (s - t) * p < 0.0;
    }
  }

  lemma DividePositive(p: real, q: real, t: real)
    requires p > 0.0
    ensures Below(p, q, t) <==> t <= q / p
  {
    var s := q / p;
    assert s * p == q;
    if t <= s {
      assert (s - t) * p >= 0.0;
    } else {
      assert (t - s) * p > 0.0;
    }
  }

  /** clip: cuts the parameter range down to the half-plane, or reports that nothing is left. */
  method Clip(p: real, q: real, t0: real, t1: real) returns (ok: bool, t0': real, t1': real)
    requires t0 <= t1
    ensures forall t: real :: (t0 <= t <= t1 && Below(p, q, t)) <==> (ok && t0' <= t <= t1')
    ensures ok ==> t0 <= t0' <= t1' <= t1
  {
    t0', t1' := t0, t1;
    if p == 0.0 {
      ok := q >= 0.0;
      return;
    }
    var t := q / p;
    if p < 0.0 {
      forall u: real ensures Below(p, q, u) <==> u >= t { DivideNegative(p, q, u); }
      if t > t1 {
        return false, t0', t1';
      }
      if t > t0 {
        t0' := t;
      }
    } else {
      forall u: real ensures Below(p, q, u) <==> u <= t { DividePositive(p, q, u); }
      if t < t0 {
        return false, t0', t1';
      }
      if t < t1 {
        t1' := t;
      }
    }
    ok := true;
  }

  /** The point a share t along the segment meets the four half-planes. */
  predicate InAllFour(a: Point, b: Point, r: Rect, t: real) {
    var dx, dy := b.x - a.x, b.y - a.y;
    Below(-dx, a.x - r.x0, t) && Below(dx, r.x1 - a.x, t) && Below(-dy, a.y - r.y0, t) && Below(dy, r.y1 - a.y, t)
  }

  lemma NegativeTimes(d: real, t: real)
    ensures (-d) * t == -(t * d)
  {
  }

  lemma AlongInRect(a: Point, b: Point, r: Rect, t: real)
    ensures Contains(r, Along(a, b, t)) <==> InAllFour(a, b, r, t)
  {
    NegativeTimes(b.x - a.x, t);
    NegativeTimes(b.y - a.y, t);
  }

  lemma MeetsInAllFour(a: Point, b: Point, r: Rect)
    ensures SegmentMeets(a, b, r) <==> exists t: real :: 0.0 <= t <= 1.0 && InAllFour(a, b, r, t)
  {
    hide Contains, Along, InAllFour;
    forall t: real ensures Contains(r, Along(a, b, t)) <==> InAllFour(a, b, r, t) { AlongInRect(a, b, r, t); }
  }

  /** segHits is true exactly when the segment has a point in the rectangle. */
  method SegHits(a: Point, b: Point, r: Rect) returns (hit: bool)
    ensures hit <==> SegmentMeets(a, b, r)
  {
    hide Below, SegmentMeets;
    MeetsInAllFour(a, b, r);
    var dx, dy := b.x - a.x, b.y - a.y;
    assert forall t: real :: InAllFour(a, b, r, t) <==>
      Below(-dx, a.x - r.x0, t) && Below(dx, r.x1 - a.x, t) && Below(-dy, a.y - r.y0, t) && Below(dy, r.y1 - a.y, t);
    var ok, t0, t1 := Clip(-dx, a.x - r.x0, 0.0, 1.0);
    if !ok { return false; }
    ok, t0, t1 := Clip(dx, r.x1 - a.x, t0, t1);
    if !ok { return false; }
    ok, t0, t1 := Clip(-dy, a.y - r.y0, t0, t1);
    if !ok { return false; }
    ok, t0, t1 := Clip(dy, r.y1 - a.y, t0, t1);
    if !ok { return false; }
    assert Below(-dx, a.x - r.x0, t0) && Below(dx, r.x1 - a.x, t0) && Below(-dy, a.y - r.y0, t0) &&
           Below(dy, r.y1 - a.y, t0);
    assert InAllFour(a, b, r, t0);
    return true;
  }

  // ---- hitsCircle ----

  function Max(a: real, b: real): real {
    if a >= b then a else b
  }

  function SquaredDistance(p: Point, q: Point): real {
    (p.x - q.x) * (p.x - q.x) + (p.y - q.y) * (p.y - q.y)
  }

  /** Some point of the rectangle is closer to the centre than the radius. */
  ghost predicate ComesCloser(r: Rect, c: Point, radius: real) {
    exists p :: Contains(r, p) && SquaredDistance(p, c) < radius * radius
  }

  predicate HitsCircle(r: Rect, c: Point, radius: real) {
    var dx := Max(Max(r.x0 - c.x, 0.0), c.x - r.x1);
    var dy := Max(Max(r.y0 - c.y, 0.0), c.y - r.y1);
    dx * dx + dy * dy < radius * radius
  }

  lemma SquareGrows(d: real, e: real)
    requires 0.0 <= d && (e >= d || -e >= d)
    ensures e * e >= d * d
  {
    var f := if e >= 0.0 then e else -e;
    assert f * f == e * e;
    assert (f - d) * d >= 0.0 && (f - d) * f >= 0.0;
  }

  function Clamp(v: real, lo: real, hi: real): real {
    if v < lo then lo else if v > hi then hi else v
  }

  /** How far a coordinate range stays from a coordinate. */
  function Gap(lo: real, hi: real, v: real): real {
    Max(Max(lo - v, 0.0), v - hi)
  }

  /** Squared distance from the centre to the nearest point of the rectangle. */
  function GapSquared(r: Rect, c: Point): real {
    Gap(r.x0, r.x1, c.x) * Gap(r.x0, r.x1, c.x) + Gap(r.y0, r.y1, c.y) * Gap(r.y0, r.y1, c.y)
  }

  function Nearest(r: Rect, c: Point): Point {
    Point(Clamp(c.x, r.x0, r.x1), Clamp(c.y, r.y0, r.y1))
  }

  lemma NoneIsCloser(r: Rect, c: Point, p: Point)
    requires Contains(r, p)
    ensures SquaredDistance(p, c) >= GapSquared(r, c)
  {
    var dx, dy := Gap(r.x0, r.x1, c.x), Gap(r.y0, r.y1, c.y);
    var ex, ey := p.x - c.x, p.y - c.y;
    assert 0.0 <= dx && (ex >= dx || -ex >= dx) && 0.0 <= dy && (ey >= dy || -ey >= dy);
    hide Gap;
    SquareGrows(dx, ex);
    SquareGrows(dy, ey);
  }

  lemma NearestIsAtGap(r: Rect, c: Point)
    requires Proper(r)
    ensures Contains(r, Nearest(r, c)) && SquaredDistance(Nearest(r, c), c) == GapSquared(r, c)
  {
    var near := Nearest(r, c);
    SameSquare(near.x - c.x, Gap(r.x0, r.x1, c.x));
    SameSquare(near.y - c.y, Gap(r.y0, r.y1, c.y));
  }

  lemma HitsCircleIsCloser(r: Rect, c: Point, radius: real)
    requires Proper(r)
    ensures HitsCircle(r, c, radius) <==> ComesCloser(r, c, radius)
  {
    hide GapSquared, SquaredDistance, Contains, Nearest, HitsCircle;
    NearestIsAtGap(r, c);
    forall p | Contains(r, p)
      ensures SquaredDistance(p, c) >= GapSquared(r, c)
    {
      NoneIsCloser(r, c, p);
    }
    HitsCircleIsGap(r, c, radius);
  }

  lemma HitsCircleIsGap(r: Rect, c: Point, radius: real)
    ensures HitsCircle(r, c, radius) <==> GapSquared(r, c) < radius * radius
  {
    hide Max;
  }

  lemma SameSquare(a: real, b: real)
    requires a == b || a == -b
    ensures a * a == b * b
  {
  }

  // ---- overlaps ----

  predicate Overlaps(r: Rect, q: Rect) {
    r.x0 < q.x1 && q.x0 < r.x1 && r.y0 < q.y1 && q.y0 < r.y1
  }

  /** Any point of one and any point of the other differ by at least the gap in some coordinate. */
  ghost predicate Apart(r: Rect, q: Rect, gap: real) {
    forall p, s :: Contains(r, p) && Contains(q, s) ==>
                     p.x - s.x >= gap || s.x - p.x >= gap || p.y - s.y >= gap || s.y - p.y >= gap
  }

  lemma OverlapsGrownIsNotApart(r: Rect, q: Rect, gap: real)
    requires Proper(r) && Proper(q) && gap > 0.0
    ensures Overlaps(Grow(r, gap), q) <==> !Apart(r, q, gap)
  {
    if Overlaps(Grow(r, gap), q) {
      var sx, sy := Clamp(r.x0, q.x0, q.x1), Clamp(r.y0, q.y0, q.y1);
      var s := Point(sx, sy);
      var p := Point(Clamp(sx, r.x0, r.x1), Clamp(sy, r.y0, r.y1));
      assert Contains(r, p) && Contains(q, s);
    }
  }

  // ---- curves ----

  function Quad1(a: real, c: real, b: real, u: real): real {
    (1.0 - u) * (1.0 - u) * a + 2.0 * (1.0 - u) * u * c + u * u * b
  }

  function Blossom1(a: real, c: real, b: real, u: real, v: real): real {
    (1.0 - u) * (1.0 - v) * a + ((1.0 - u) * v + u * (1.0 - v)) * c + u * v * b
  }

  datatype Curve = Curve(a: Point, c: Point, b: Point)

  function Quad(q: Curve, u: real): Point {
    Point(Quad1(q.a.x, q.c.x, q.b.x, u), Quad1(q.a.y, q.c.y, q.b.y, u))
  }

  function Blossom(q: Curve, u: real, v: real): Point {
    Point(Blossom1(q.a.x, q.c.x, q.b.x, u, v), Blossom1(q.a.y, q.c.y, q.b.y, u, v))
  }

  /** The piece between two parameters, as a curve of its own. */
  function Piece(q: Curve, u0: real, u1: real): Curve {
    Curve(Blossom(q, u0, u0), Blossom(q, u0, u1), Blossom(q, u1, u1))
  }

  lemma PieceIsTheCurve1(a: real, c: real, b: real, u0: real, u1: real, s: real)
    ensures Quad1(Blossom1(a, c, b, u0, u0), Blossom1(a, c, b, u0, u1), Blossom1(a, c, b, u1, u1), s)
         == Quad1(a, c, b, u0 + s * (u1 - u0))
  {
    hide Quad1, Blossom1, Bend1, Parabola;
    var p0, p1, p2 := Blossom1(a, c, b, u0, u0), Blossom1(a, c, b, u0, u1), Blossom1(a, c, b, u1, u1);
    var c1, k, slope, bend, d := 2.0 * (c - a), Bend1(a, c, b), 2.0 * (p1 - p0), Bend1(p0, p1, p2), u1 - u0;
    PieceBend1(a, c, b, u0, u1);
    PieceStart1(a, c, b, u0, u1);
    assert p0 == Parabola(a, c1, k, u0);
    assert slope == d * (c1 + 2.0 * u0 * k);
    assert bend == (d * d) * k;
    ShiftedParabola(a, c1, k, u0, d, s, slope, bend);
    assert Parabola(a, c1, k, u0 + s * d) == Parabola(p0, slope, bend, s);
    Expanded(p0, p1, p2, s);
    var u := u0 + s * d;
    Expanded(a, c, b, u);
    assert u == u0 + s * (u1 - u0);
  }

  lemma PieceStart1(a: real, c: real, b: real, u0: real, u1: real)
    ensures Blossom1(a, c, b, u0, u0) == Parabola(a, 2.0 * (c - a), Bend1(a, c, b), u0)
    ensures 2.0 * (Blossom1(a, c, b, u0, u1) - Blossom1(a, c, b, u0, u0)) ==
            (u1 - u0) * (2.0 * (c - a) + 2.0 * u0 * Bend1(a, c, b))
  {
  }

  lemma ShiftedParabola(c0: real, c1: real, k: real, from: real, d: real, s: real, slope: real, bend: real)
    requires slope == d * (c1 + 2.0 * from * k) && bend == (d * d) * k
    ensures Parabola(c0, c1, k, from + s * d) == Parabola(Parabola(c0, c1, k, from), slope, bend, s)
  {
  }

  function Bend1(a: real, c: real, b: real): real {
    a - 2.0 * c + b
  }

  function Parabola(c0: real, c1: real, k: real, u: real): real {
    c0 + c1 * u + k * (u * u)
  }

  lemma Expanded(a: real, c: real, b: real, u: real)
    ensures Quad1(a, c, b, u) == Parabola(a, 2.0 * (c - a), Bend1(a, c, b), u)
  {
  }

  /** The cut curve runs through exactly the points of the whole one between the two parameters. */
  lemma PieceIsTheCurve(q: Curve, u0: real, u1: real, s: real)
    ensures Quad(Piece(q, u0, u1), s) == Quad(q, u0 + s * (u1 - u0))
  {
    hide Quad1, Blossom1;
    PieceIsTheCurve1(q.a.x, q.c.x, q.b.x, u0, u1, s);
    PieceIsTheCurve1(q.a.y, q.c.y, q.b.y, u0, u1, s);
  }

  /** root: 24 halvings. */
  method Root(f: real -> real, lo0: real, hi0: real) returns (r: real)
    requires lo0 <= hi0
    ensures lo0 <= r <= hi0
    ensures f(lo0) >= 0.0 ==> r == lo0
    ensures f(lo0) < 0.0 && f(hi0) <= 0.0 ==> r == hi0
    ensures f(lo0) < 0.0 < f(hi0) ==>
              exists p, q :: p <= r <= q && f(p) < 0.0 <= f(q) && (q - p) * 16777216.0 == hi0 - lo0
  {
    if f(lo0) >= 0.0 { return lo0; }
    if f(hi0) <= 0.0 { return hi0; }
    var lo, hi := lo0, hi0;
    ghost var scale := 1.0;
    for i := 0 to 24
      invariant lo0 <= lo <= hi <= hi0 && f(lo) < 0.0 <= f(hi)
      invariant (hi - lo) * scale == hi0 - lo0 && scale == Power(i)
    {
      var mid := (lo + hi) / 2.0;
      if f(mid) < 0.0 {
        lo := mid;
      } else {
        hi := mid;
      }
      scale := scale * 2.0;
    }
    PowerOf24();
    return (lo + hi) / 2.0;
  }

  function Power(i: nat): real {
    if i == 0 then 1.0 else 2.0 * Power(i - 1)
  }

  lemma PowerOf24()
    ensures Power(24) == 16777216.0
  {
    assert Power(8) == 256.0;
    assert Power(16) == 65536.0;
  }

  // ---- how far the curve strays from its chords ----

  const CHORDS: nat := 16

  /** The i-th of the points that stand for a drawn curve. */
  function Knot(q: Curve, i: nat): Point {
    Quad(q, i as real / 16.0)
  }

  lemma ChordGap1(a: real, c: real, b: real, from: real, d: real, t: real)
    ensures Quad1(a, c, b, from + t * d) ==
            Quad1(a, c, b, from) + t * (Quad1(a, c, b, from + d) - Quad1(a, c, b, from))
            - (t * (1.0 - t)) * ((d * d) * Bend1(a, c, b))
  {
    hide Quad1, Bend1, Parabola;
    Expanded(a, c, b, from + t * d);
    Expanded(a, c, b, from);
    Expanded(a, c, b, from + d);
    ChordOfParabola(a, 2.0 * (c - a), Bend1(a, c, b), from, d, t);
  }

  lemma ChordOfParabola(c0: real, c1: real, k: real, from: real, d: real, t: real)
    ensures Parabola(c0, c1, k, from + t * d)
         == Parabola(c0, c1, k, from) + t * (Parabola(c0, c1, k, from + d) - Parabola(c0, c1, k, from))
            - (t * (1.0 - t)) * ((d * d) * k)
  {
  }

  lemma NonNegative(x: real, y: real)
    requires x >= 0.0 && y >= 0.0
    ensures x * y >= 0.0
  {
  }

  lemma Positive(x: real, y: real)
    requires x > 0.0 && y > 0.0
    ensures x * y > 0.0
  {
  }

  lemma ScaleDown(w: real, k: real, limit: real)
    requires 0.0 <= w <= 1.0 && Within(k, limit)
    ensures Within(w * k, limit)
  {
    NonNegative(w, limit - k);
    NonNegative(w, limit + k);
    NonNegative(1.0 - w, limit);
  }

  lemma ShareIsSmall(t: real)
    requires 0.0 <= t <= 1.0
    ensures 0.0 <= 4.0 * (t * (1.0 - t)) <= 1.0
  {
    NonNegative(t, 1.0 - t);
    var s := 2.0 * t - 1.0;
    assert s * s == 1.0 - 4.0 * (t * (1.0 - t));
    if s >= 0.0 { NonNegative(s, s); } else { NonNegative(-s, -s); assert s * s == (-s) * (-s); }
  }

  predicate Within(d: real, limit: real) {
    -limit <= d <= limit
  }

  /** The bend of the curve is at most 1024 times the padding: 4 * 16 * 16. */
  predicate Flat(q: Curve, pad: real) {
    Within(Bend1(q.a.x, q.c.x, q.b.x), 1024.0 * pad) && Within(Bend1(q.a.y, q.c.y, q.b.y), 1024.0 * pad)
  }

  lemma StaysNearChord1(a: real, c: real, b: real, from: real, to: real, t: real, pad: real)
    requires 0.0 <= t <= 1.0 && to == from + 1.0 / 16.0 && Within(Bend1(a, c, b), 1024.0 * pad)
    ensures Within(Quad1(a, c, b, from) + t * (Quad1(a, c, b, to) - Quad1(a, c, b, from))
                   - Quad1(a, c, b, from + t / 16.0), pad)
  {
    hide Quad1, Bend1;
    var d := 1.0 / 16.0;
    ChordGap1(a, c, b, from, d, t);
    assert t * d == t / 16.0;
    ShareIsSmall(t);
    var k := (d * d) * Bend1(a, c, b);
    ScaleDown(4.0 * (t * (1.0 - t)), k, 4.0 * pad);
  }

  lemma Close(r: Rect, x: Point, y: Point, pad: real)
    requires Contains(r, y) && Within(x.x - y.x, pad) && Within(x.y - y.y, pad)
    ensures Contains(Grow(r, pad), x)
  {
  }

  lemma StaysNearChord(q: Curve, pad: real, from: real, to: real, t: real)
    requires 0.0 <= t <= 1.0 && to == from + 1.0 / 16.0 && Flat(q, pad)
    ensures var x, y := Along(Quad(q, from), Quad(q, to), t), Quad(q, from + t / 16.0);
            Within(x.x - y.x, pad) && Within(x.y - y.y, pad)
  {
    hide Quad1, Bend1;
    StaysNearChord1(q.a.x, q.c.x, q.b.x, from, to, t, pad);
    StaysNearChord1(q.a.y, q.c.y, q.b.y, from, to, t, pad);
  }

  /** A rectangle whose grown form misses every chord misses the curve, as long as the curve is flat enough
      for the padding. */
  lemma MissesCurve(q: Curve, r: Rect, pad: real, u: real)
    requires 0.0 <= u <= 1.0 && Flat(q, pad)
    requires forall i: nat :: i < CHORDS ==> !SegmentMeets(Knot(q, i), Knot(q, i + 1), Grow(r, pad))
    ensures !Contains(r, Quad(q, u))
  {
    hide Quad, Along, Flat, Contains, Grow, Within;
    var i: nat := if u == 1.0 then 15 else (16.0 * u).Floor;
    var from, to := i as real / 16.0, (i + 1) as real / 16.0;
    var t := 16.0 * u - i as real;
    assert 0.0 <= t <= 1.0 && i < CHORDS;
    assert from + t / 16.0 == u && to == from + 1.0 / 16.0;
    var x := Along(Knot(q, i), Knot(q, i + 1), t);
    assert !Contains(Grow(r, pad), x);
    StaysNearChord(q, pad, from, to, t);
    if Contains(r, Quad(q, u)) {
      Close(r, x, Quad(q, u), pad);
    }
  }

  /** The gently bent curve between two stars. */
  function Bent(a: Point, b: Point, bend: real): Curve {
    Curve(a, Point((a.x + b.x) / 2.0 - (b.y - a.y) * bend, (a.y + b.y) / 2.0 + (b.x - a.x) * bend), b)
  }

  /** De Casteljau: a point of the curve divides the line between the points that divide its two legs. */
  lemma QuadDividesLegs(q: Curve, u: real)
    ensures Quad(q, u) == Along(Along(q.a, q.c, u), Along(q.c, q.b, u), u)
  {
    Divides1(q.a.x, q.c.x, q.b.x, u);
    Divides1(q.a.y, q.c.y, q.b.y, u);
  }

  lemma Divides1(a: real, c: real, b: real, u: real)
    ensures var p, r := a + u * (c - a), c + u * (b - c); Quad1(a, c, b, u) == p + u * (r - p)
  {
  }

  /** The control point lies beside the middle of the line between the stars, off it by `bend` of its length. */
  lemma BendIsSideways(a: Point, b: Point, bend: real)
    ensures var q := Bent(a, b, bend);
            var mx, my, dx, dy := q.c.x - (a.x + b.x) / 2.0, q.c.y - (a.y + b.y) / 2.0, b.x - a.x, b.y - a.y;
            && q.a == a && q.b == b
            && mx * dx + my * dy == 0.0
            && mx * mx + my * my == bend * bend * (dx * dx + dy * dy)
            && dx * my - dy * mx == bend * (dx * dx + dy * dy)
  {
  }

  lemma PieceBend1(a: real, c: real, b: real, u0: real, u1: real)
    ensures Bend1(Blossom1(a, c, b, u0, u0), Blossom1(a, c, b, u0, u1), Blossom1(a, c, b, u1, u1))
         == ((u1 - u0) * (u1 - u0)) * Bend1(a, c, b)
  {
  }

  lemma BentBend(d: real, bend: real, most: real, limit: real)
    requires Within(bend, most) && Within(d, limit) && most >= 0.0
    ensures Within(2.0 * (d * bend), 2.0 * (most * limit))
  {
    NonNegative(limit - d, most - bend);
    NonNegative(limit + d, most + bend);
    NonNegative(limit - d, most + bend);
    NonNegative(limit + d, most - bend);
  }

  /** The drawn piece of such a curve is flat enough when the stars are close enough on the screen. */
  lemma DrawnPieceIsFlat(a: Point, b: Point, bend: real, most: real, limit: real, pad: real, u0: real, u1: real)
    requires 0.0 <= u0 <= u1 <= 1.0 && Within(bend, most) && most >= 0.0
    requires Within(b.x - a.x, limit) && Within(b.y - a.y, limit) && 2.0 * (most * limit) <= 1024.0 * pad
    ensures Flat(Piece(Bent(a, b, bend), u0, u1), pad)
  {
    hide Blossom1, Bend1, Bent;
    var q := Bent(a, b, bend);
    BentBends(a, b, bend);
    var dx, dy := b.x - a.x, b.y - a.y;
    BentBend(dy, bend, most, limit);
    BentBend(dx, bend, most, limit);
    var kx, ky := 2.0 * (dy * bend), 2.0 * (dx * bend);
    assert Within(kx, 1024.0 * pad) && Within(ky, 1024.0 * pad);
    assert Bend1(q.a.x, q.c.x, q.b.x) == kx && Bend1(q.a.y, q.c.y, q.b.y) == -ky;
    PieceFlat1(q.a.x, q.c.x, q.b.x, u0, u1, 1024.0 * pad);
    PieceFlat1(q.a.y, q.c.y, q.b.y, u0, u1, 1024.0 * pad);
  }

  lemma PieceFlat1(a: real, c: real, b: real, u0: real, u1: real, limit: real)
    requires 0.0 <= u0 <= u1 <= 1.0 && Within(Bend1(a, c, b), limit)
    ensures Within(Bend1(Blossom1(a, c, b, u0, u0), Blossom1(a, c, b, u0, u1), Blossom1(a, c, b, u1, u1)), limit)
  {
    hide Bend1, Blossom1;
    var d := u1 - u0;
    NonNegative(d, d);
    NonNegative(1.0 - d, d);
    PieceBend1(a, c, b, u0, u1);
    ScaleDown(d * d, Bend1(a, c, b), limit);
  }

  lemma BentBends(a: Point, b: Point, bend: real)
    ensures var q := Bent(a, b, bend);
            && Bend1(q.a.x, q.c.x, q.b.x) == 2.0 * ((b.y - a.y) * bend)
            && Bend1(q.a.y, q.c.y, q.b.y) == -(2.0 * ((b.x - a.x) * bend))
  {
  }
}
