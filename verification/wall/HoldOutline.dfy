/**
 Projecting a hold's bounding box and polygon (server/internal/wall/reset.go).
 The projected box is the smallest one around the four projected corners; it is
 shown when it also covers everything inside the original box.
 */
module HoldOutline {
  import opened Wrappers
  import opened Homography

  datatype Box = Box(x: real, y: real, w: real, h: real)

  function Corners(b: Box): seq<Point> {
    [Point(b.x, b.y), Point(b.x + b.w, b.y), Point(b.x, b.y + b.h), Point(b.x + b.w, b.y + b.h)]
  }

  predicate Contains(b: Box, p: Point) {
    b.x <= p.x <= b.x + b.w && b.y <= p.y <= b.y + b.h
  }

  /** The smallest box around some points: it holds them all and each side touches one. */
  ghost predicate IsHull(b: Box, points: seq<Point>) {
    && (forall p :: p in points ==> Contains(b, p))
    && (exists p :: p in points && p.x == b.x)
    && (exists p :: p in points && p.x == b.x + b.w)
    && (exists p :: p in points && p.y == b.y)
    && (exists p :: p in points && p.y == b.y + b.h)
  }

  ghost predicate AllProject(points: seq<Point>, matrix: Matrix) {
    forall p :: p in points ==> ProjectPoint(p, matrix).Some?
  }

  function Images(points: seq<Point>, matrix: Matrix): (images: seq<Point>) {
    if points == [] then []
    else match ProjectPoint(points[0], matrix)
      case None => Images(points[1..], matrix)
      case Some(q) => [q] + Images(points[1..], matrix)
  }

  lemma {:induction false} ImagesAppend(points: seq<Point>, p: Point, q: Point, matrix: Matrix)
    requires ProjectPoint(p, matrix) == Some(q)
    ensures Images(points + [p], matrix) == Images(points, matrix) + [q]
  {
    if points != [] {
      assert (points + [p])[1..] == points[1..] + [p];
      ImagesAppend(points[1..], p, q, matrix);
    }
  }

  lemma {:induction false} ImageIsListed(points: seq<Point>, p: Point, matrix: Matrix)
    requires p in points && ProjectPoint(p, matrix).Some?
    ensures ProjectPoint(p, matrix).value in Images(points, matrix)
  {
    if points[0] != p { ImageIsListed(points[1..], p, matrix); }
  }

  /** Running bounds; `None` stands for the infinities the loop starts from. */
  method ProjectBBox(box: Box, matrix: Matrix) returns (out: Option<Box>)
    ensures out.Some? <==> AllProject(Corners(box), matrix)
    ensures out.Some? ==> IsHull(out.value, Images(Corners(box), matrix))
  {
    var points := Corners(box);
    var bounds: Option<(real, real, real, real)> := None;
    for i := 0 to |points|
      invariant AllProject(points[..i], matrix)
      invariant i == 0 <==> bounds.None?
      invariant |Images(points[..i], matrix)| == i
      invariant bounds.Some? ==>
        var (minX, minY, maxX, maxY) := bounds.value;
        IsHull(Box(minX, minY, maxX - minX, maxY - minY), Images(points[..i], matrix))
    {
      assert points[i] in points;
      match ProjectPoint(points[i], matrix) {
        case None => return None;
        case Some(p) =>
          ghost var before := Images(points[..i], matrix);
          ImagesAppend(points[..i], points[i], p, matrix);
          assert points[..i + 1] == points[..i] + [points[i]];
          assert Images(points[..i + 1], matrix) == before + [p];
          assert p in before + [p] && forall q :: q in before ==> q in before + [p];
          match bounds {
            case None =>
              bounds := Some((p.x, p.y, p.x, p.y));
            case Some((minX, minY, maxX, maxY)) =>
              bounds := Some((if p.x < minX then p.x else minX, if p.y < minY then p.y else minY,
                              if p.x > maxX then p.x else maxX, if p.y > maxY then p.y else maxY));
          }
      }
    }
    assert points[..|points|] == points;
    var (minX, minY, maxX, maxY) := bounds.value;
    out := Some(Box(minX, minY, maxX - minX, maxY - minY));
  }

  // ---------------------------------------------------------------- points inside the box

  function Mix(a: real, b: real, s: real): real {
    a + s * (b - a)
  }

  function Blend(u: Vec, v: Vec, s: real): Vec {
    Vec(Mix(u.x, v.x, s), Mix(u.y, v.y, s), Mix(u.z, v.z, s))
  }

  function BlendPoint(p: Point, q: Point, s: real): Point {
    Point(Mix(p.x, q.x, s), Mix(p.y, q.y, s))
  }

  predicate Fraction(s: real) {
    0.0 <= s <= 1.0
  }

  /** The point of the box at fractions s across and t down. */
  function At(b: Box, s: real, t: real): Point {
    Point(b.x + s * b.w, b.y + t * b.h)
  }

  lemma DotBlend(r: Vec, u: Vec, v: Vec, s: real)
    ensures Dot(r, Blend(u, v, s)) == Mix(Dot(r, u), Dot(r, v), s)
  {
    var (dx, dy, dz) := (v.x - u.x, v.y - u.y, v.z - u.z);
    assert r.x * (u.x + s * dx) == r.x * u.x + s * (r.x * dx);
    assert r.y * (u.y + s * dy) == r.y * u.y + s * (r.y * dy);
    assert r.z * (u.z + s * dz) == r.z * u.z + s * (r.z * dz);
    assert Dot(r, v) - Dot(r, u) == r.x * dx + r.y * dy + r.z * dz;
  }

  /** A projective map is affine before the division. */
  lemma ApplyBlend(m: Mat3, p: Point, q: Point, s: real)
    ensures Apply(m, Lift(BlendPoint(p, q, s))) == Blend(Apply(m, Lift(p)), Apply(m, Lift(q)), s)
  {
    hide Dot;
    assert Lift(BlendPoint(p, q, s)) == Blend(Lift(p), Lift(q), s);
    DotBlend(m.r0, Lift(p), Lift(q), s);
    DotBlend(m.r1, Lift(p), Lift(q), s);
    DotBlend(m.r2, Lift(p), Lift(q), s);
  }

  lemma AtIsBlend(b: Box, s: real, t: real)
    ensures At(b, s, t) == BlendPoint(BlendPoint(Corners(b)[0], Corners(b)[1], s),
                                      BlendPoint(Corners(b)[2], Corners(b)[3], s), t)
  {
    assert s * (b.x + b.w - b.x) == s * b.w;
  }

  /** The bounds lo <= n / d <= hi, stated without the division. */
  predicate Within(n: real, d: real, lo: real, hi: real) {
    lo * d <= n <= hi * d
  }

  /** Above the guard, with the image after division inside `b`. */
  predicate Above(v: Vec, b: Box) {
    && v.z >= GUARD
    && Within(v.x, v.z, b.x, b.x + b.w)
    && Within(v.y, v.z, b.y, b.y + b.h)
  }

  lemma AboveIsContained(v: Vec, b: Box)
    requires v.z >= GUARD
    ensures Above(v, b) <==> Contains(b, Drop(v))
  {
    Quotient(v.x, v.z, b.x, b.x + b.w);
    Quotient(v.y, v.z, b.y, b.y + b.h);
  }

  lemma Quotient(n: real, d: real, lo: real, hi: real)
    requires d > 0.0
    ensures Within(n, d, lo, hi) <==> lo <= n / d <= hi
  {
    var q := n / d;
    assert n == q * d;
    if lo <= q { assert (q - lo) * d >= 0.0; } else { assert (lo - q) * d > 0.0; }
    if q <= hi { assert (hi - q) * d >= 0.0; } else { assert (q - hi) * d > 0.0; }
  }

  lemma MixStaysAbove(lo: real, a: real, b: real, s: real)
    requires Fraction(s) && lo <= a && lo <= b
    ensures lo <= Mix(a, b, s)
  {
    assert (1.0 - s) * (a - lo) >= 0.0;
    assert s * (b - lo) >= 0.0;
  }

  lemma MixStaysWithin(n: real, d: real, n': real, d': real, lo: real, hi: real, s: real)
    requires Fraction(s) && Within(n, d, lo, hi) && Within(n', d', lo, hi)
    ensures Within(Mix(n, n', s), Mix(d, d', s), lo, hi)
  {
    var (below, below') := (n - lo * d, n' - lo * d');
    var (above, above') := (hi * d - n, hi * d' - n');
    MixStaysAbove(0.0, below, below', s);
    MixStaysAbove(0.0, above, above', s);
    assert Mix(n, n', s) - lo * Mix(d, d', s) == Mix(below, below', s);
    assert hi * Mix(d, d', s) - Mix(n, n', s) == Mix(above, above', s);
  }

  lemma BlendStaysAbove(u: Vec, v: Vec, s: real, b: Box)
    requires Fraction(s) && Above(u, b) && Above(v, b)
    ensures Above(Blend(u, v, s), b)
  {
    hide Mix, Within;
    MixStaysAbove(GUARD, u.z, v.z, s);
    MixStaysWithin(u.x, u.z, v.x, v.z, b.x, b.x + b.w, s);
    MixStaysWithin(u.y, u.z, v.y, v.z, b.y, b.y + b.h, s);
  }

  function Negated(v: Vec): Vec {
    Vec(-v.x, -v.y, -v.z)
  }

  lemma NegationDropsOut(v: Vec)
    requires v.z != 0.0
    ensures Drop(Negated(v)) == Drop(v)
  {
  }

  function CornerImage(b: Box, m: Mat3, i: nat): Vec
    requires i < 4
  {
    Apply(m, Lift(Corners(b)[i]))
  }

  ghost predicate CornersShareSign(b: Box, m: Mat3) {
    || (forall i: nat :: i < 4 ==> CornerImage(b, m, i).z > 0.0)
    || (forall i: nat :: i < 4 ==> CornerImage(b, m, i).z < 0.0)
  }

  lemma CornerIsInHull(b: Box, matrix: Matrix, out: Box, i: nat)
    requires AllProject(Corners(b), matrix) && IsHull(out, Images(Corners(b), matrix)) && i < 4
    ensures Is3x3(matrix)
    ensures var v := CornerImage(b, Entries(matrix), i); !Tiny(v.z) && Contains(out, Drop(v))
  {
    assert Corners(b)[i] in Corners(b);
    ImageIsListed(Corners(b), Corners(b)[i], matrix);
  }

  /** When the corner denominators share a sign, every point of the box projects into the projected box. */
  lemma ProjectedBoxCoversTheBox(b: Box, matrix: Matrix, out: Box, s: real, t: real)
    requires AllProject(Corners(b), matrix) && IsHull(out, Images(Corners(b), matrix))
    requires Is3x3(matrix) && CornersShareSign(b, Entries(matrix))
    requires Fraction(s) && Fraction(t)
    ensures ProjectPoint(At(b, s, t), matrix).Some?
    ensures Contains(out, ProjectPoint(At(b, s, t), matrix).value)
  {
    hide Dot, Apply;
    var m, c := Entries(matrix), Corners(b);
    forall i: nat | i < 4
      ensures !Tiny(CornerImage(b, m, i).z) && Contains(out, Drop(CornerImage(b, m, i)))
    {
      CornerIsInHull(b, matrix, out, i);
    }
    var v0, v1, v2, v3 := CornerImage(b, m, 0), CornerImage(b, m, 1), CornerImage(b, m, 2), CornerImage(b, m, 3);
    ApplyBlend(m, c[0], c[1], s);
    ApplyBlend(m, c[2], c[3], s);
    ApplyBlend(m, BlendPoint(c[0], c[1], s), BlendPoint(c[2], c[3], s), t);
    AtIsBlend(b, s, t);
    var v := Apply(m, Lift(At(b, s, t)));
    assert v == Blend(Blend(v0, v1, s), Blend(v2, v3, s), t);
    if v0.z > 0.0 {
      BlendOfFour(v0, v1, v2, v3, s, t, out);
      AboveIsContained(v, out);
    } else {
      NegationDropsOut(v0);
      NegationDropsOut(v1);
      NegationDropsOut(v2);
      NegationDropsOut(v3);
      BlendOfFour(Negated(v0), Negated(v1), Negated(v2), Negated(v3), s, t, out);
      BlendOfNegated(v0, v1, v2, v3, s, t);
      AboveIsContained(Negated(v), out);
      NegationDropsOut(v);
    }
  }

  lemma BlendOfFour(v0: Vec, v1: Vec, v2: Vec, v3: Vec, s: real, t: real, b: Box)
    requires Fraction(s) && Fraction(t)
    requires v0.z >= GUARD && v1.z >= GUARD && v2.z >= GUARD && v3.z >= GUARD
    requires Contains(b, Drop(v0)) && Contains(b, Drop(v1)) && Contains(b, Drop(v2)) && Contains(b, Drop(v3))
    ensures Above(Blend(Blend(v0, v1, s), Blend(v2, v3, s), t), b)
  {
    hide Blend;
    AboveIsContained(v0, b);
    AboveIsContained(v1, b);
    AboveIsContained(v2, b);
    AboveIsContained(v3, b);
    BlendStaysAbove(v0, v1, s, b);
    BlendStaysAbove(v2, v3, s, b);
    BlendStaysAbove(Blend(v0, v1, s), Blend(v2, v3, s), t, b);
  }

  lemma NegatedBlend(u: Vec, v: Vec, s: real)
    ensures Blend(Negated(u), Negated(v), s) == Negated(Blend(u, v, s))
  {
    hide Mix;
    MixOfNegated(u.x, v.x, s);
    MixOfNegated(u.y, v.y, s);
    MixOfNegated(u.z, v.z, s);
  }

  lemma MixOfNegated(a: real, b: real, s: real)
    ensures Mix(-a, -b, s) == -Mix(a, b, s)
  {
    assert s * (-b + a) == -(s * (b - a));
  }

  lemma BlendOfNegated(v0: Vec, v1: Vec, v2: Vec, v3: Vec, s: real, t: real)
    ensures Blend(Blend(Negated(v0), Negated(v1), s), Blend(Negated(v2), Negated(v3), s), t)
         == Negated(Blend(Blend(v0, v1, s), Blend(v2, v3, s), t))
  {
    hide Blend;
    NegatedBlend(v0, v1, s);
    NegatedBlend(v2, v3, s);
    NegatedBlend(Blend(v0, v1, s), Blend(v2, v3, s), t);
  }

  // ---------------------------------------------------------------- and only then

  /** Just past a zero of the denominator the quotient exceeds any bound above. */
  lemma EscapeUp(a: real, a': real, d: real, d': real, r0: real, hi: real) returns (r: real)
    requires 0.0 <= r0 < 1.0 && d < d'
    requires Mix(d, d', r0) == 0.0 && Mix(a, a', r0) > 0.0
    ensures Fraction(r) && Mix(d, d', r) > 0.0
    ensures Mix(a, a', r) > hi * Mix(d, d', r)
  {
    var (n, A, D) := (Mix(a, a', r0), a' - a, d' - d);
    var slope := hi * D - A;
    var K := (if slope < 0.0 then -slope else slope) + 1.0;
    var step := n / (2.0 * K);
    assert step > 0.0 && step * (2.0 * K) == n;
    var e := if step <= 1.0 - r0 then step else 1.0 - r0;
    r := r0 + e;
    assert e * D > 0.0 && Mix(d, d', r) == e * D;
    assert Mix(a, a', r) == n + e * A;
    SmallStep(e, step, K, slope, n);
    assert hi * (e * D) - e * A == e * slope;
  }

  lemma SmallStep(e: real, step: real, K: real, slope: real, n: real)
    requires 0.0 < e <= step && K > 0.0 && slope <= K && step * (2.0 * K) == n
    ensures e * slope < n
  {
    assert e * (K - slope) >= 0.0;
    assert (step - e) * K >= 0.0;
    assert step * K > 0.0;
  }

  lemma EscapeCoordinate(a: real, a': real, d: real, d': real, r0: real, lo: real, hi: real) returns (r: real)
    requires 0.0 <= r0 < 1.0 && d < d'
    requires Mix(d, d', r0) == 0.0 && Mix(a, a', r0) != 0.0
    ensures Fraction(r) && Mix(d, d', r) > 0.0
    ensures !Within(Mix(a, a', r), Mix(d, d', r), lo, hi)
  {
    if Mix(a, a', r0) > 0.0 {
      r := EscapeUp(a, a', d, d', r0, hi);
    } else {
      MixOfNegated(a, a', r0);
      r := EscapeUp(-a, -a', d, d', r0, -lo);
      MixOfNegated(a, a', r);
    }
  }

  lemma ZeroBetween(d: real, d': real) returns (r: real)
    requires d < 0.0 < d'
    ensures 0.0 < r < 1.0 && Mix(d, d', r) == 0.0
  {
    r := -d / (d' - d);
    assert r * (d' - d) == -d;
    assert r <= 0.0 ==> r * (d' - d) <= 0.0;
    assert r >= 1.0 ==> (r - 1.0) * (d' - d) >= 0.0;
  }

  /** An invertible map sends no point to the zero vector. */
  lemma ImageIsNotZero(m: Mat3, p: Point)
    requires Det(m) != 0.0
    ensures Apply(m, Lift(p)) != Vec(0.0, 0.0, 0.0)
  {
    hide Det, Adjugate, Product;
    AdjugateOnTheLeft(m);
    ApplyComposes(Adjugate(m), m, Lift(p));
    assert Apply(Diagonal(Det(m)), Lift(p)).z == Det(m);
    assert Apply(Adjugate(m), Vec(0.0, 0.0, 0.0)).z == 0.0;
  }

  lemma EscapeSegment(m: Mat3, p: Point, q: Point, out: Box) returns (r: real)
    requires Det(m) != 0.0
    requires Apply(m, Lift(p)).z < 0.0 < Apply(m, Lift(q)).z
    ensures Fraction(r)
    ensures var v := Apply(m, Lift(BlendPoint(p, q, r))); v.z > 0.0 && !Contains(out, Drop(v))
  {
    hide Det, Apply, Mix, BlendPoint;
    var u, v := Apply(m, Lift(p)), Apply(m, Lift(q));
    var r0 := ZeroBetween(u.z, v.z);
    ApplyBlend(m, p, q, r0);
    ImageIsNotZero(m, BlendPoint(p, q, r0));
    if Mix(u.x, v.x, r0) != 0.0 {
      r := EscapeCoordinate(u.x, v.x, u.z, v.z, r0, out.x, out.x + out.w);
    } else {
      r := EscapeCoordinate(u.y, v.y, u.z, v.z, r0, out.y, out.y + out.h);
    }
    ApplyBlend(m, p, q, r);
    var w := Blend(u, v, r);
    Quotient(w.x, w.z, out.x, out.x + out.w);
    Quotient(w.y, w.z, out.y, out.y + out.h);
  }

  /** Every point of the box that has an image (a nonzero denominator) lands in `out`. */
  ghost predicate Covers(out: Box, b: Box, m: Mat3) {
    forall s, t :: Fraction(s) && Fraction(t) && Apply(m, Lift(At(b, s, t))).z != 0.0
      ==> Contains(out, Drop(Apply(m, Lift(At(b, s, t)))))
  }

  function CornerFractions(i: nat): (real, real)
    requires i < 4
  {
    (if i % 2 == 1 then 1.0 else 0.0, if i >= 2 then 1.0 else 0.0)
  }

  lemma CornerBlendIsAt(b: Box, i: nat, j: nat, r: real)
    requires i < 4 && j < 4 && Fraction(r)
    ensures
      var (s, t) := CornerFractions(i);
      var (s', t') := CornerFractions(j);
      && Fraction(Mix(s, s', r)) && Fraction(Mix(t, t', r))
      && BlendPoint(Corners(b)[i], Corners(b)[j], r) == At(b, Mix(s, s', r), Mix(t, t', r))
  {
  }

  /**
   For an invertible map, the projected box covers the box if and only if the four
   corner denominators share a sign.
   */
  lemma ProjectedBoxCoversExactlyWhen(b: Box, matrix: Matrix, out: Box)
    requires AllProject(Corners(b), matrix) && IsHull(out, Images(Corners(b), matrix))
    requires Is3x3(matrix) && Det(Entries(matrix)) != 0.0
    ensures Covers(out, b, Entries(matrix)) <==> CornersShareSign(b, Entries(matrix))
  {
    hide Det, Dot, IsHull;
    var m := Entries(matrix);
    if CornersShareSign(b, m) {
      forall s, t | Fraction(s) && Fraction(t) && Apply(m, Lift(At(b, s, t))).z != 0.0
        ensures Contains(out, Drop(Apply(m, Lift(At(b, s, t)))))
      {
        ProjectedBoxCoversTheBox(b, matrix, out, s, t);
      }
    } else {
      forall i: nat | i < 4 ensures !Tiny(CornerImage(b, m, i).z) { CornerIsInHull(b, matrix, out, i); }
      var i: nat :| i < 4 && CornerImage(b, m, i).z <= 0.0;
      var j: nat :| j < 4 && CornerImage(b, m, j).z >= 0.0;
      var r := EscapeSegment(m, Corners(b)[i], Corners(b)[j], out);
      CornerBlendIsAt(b, i, j, r);
    }
  }

  // ---------------------------------------------------------------- polygons

  /** A polygon as stored: no polygon, something that is not a list of points, or points with extra coordinates. */
  datatype Polygon = NoPolygon | NotPoints | Points(points: seq<seq<real>>)

  ghost predicate Projectable(points: seq<seq<real>>, matrix: Matrix) {
    forall i :: 0 <= i < |points| ==> |points[i]| >= 2 && ProjectPoint(Point(points[i][0], points[i][1]), matrix).Some?
  }

  /** All or nothing: either every vertex is projected and keeps its extra coordinates, or the input is returned. */
  method ProjectPolygon(raw: Polygon, matrix: Matrix) returns (out: Polygon)
    ensures !raw.Points? ==> out == raw
    ensures raw.Points? && !Projectable(raw.points, matrix) ==> out == raw
    ensures raw.Points? && Projectable(raw.points, matrix) ==>
      && out.Points? && |out.points| == |raw.points|
      && forall i :: 0 <= i < |raw.points| ==>
        && |out.points[i]| == |raw.points[i]|
        && Some(Point(out.points[i][0], out.points[i][1])) == ProjectPoint(Point(raw.points[i][0], raw.points[i][1]), matrix)
        && out.points[i][2..] == raw.points[i][2..]
  {
    if !raw.Points? {
      return raw;
    }
    var points := raw.points;
    for i := 0 to |raw.points|
      invariant |points| == |raw.points|
      invariant Projectable(raw.points[..i], matrix)
      invariant forall k :: i <= k < |points| ==> points[k] == raw.points[k]
      invariant forall k :: 0 <= k < i ==>
        && |points[k]| == |raw.points[k]|
        && Some(Point(points[k][0], points[k][1])) == ProjectPoint(Point(raw.points[k][0], raw.points[k][1]), matrix)
        && points[k][2..] == raw.points[k][2..]
    {
      var p := points[i];
      if |p| < 2 {
        return raw;
      }
      match ProjectPoint(Point(p[0], p[1]), matrix) {
        case None => return raw;
        case Some(q) => points := points[i := p[0 := q.x][1 := q.y]];
      }
    }
    assert raw.points[..|raw.points|] == raw.points;
    out := Points(points);
  }
}
