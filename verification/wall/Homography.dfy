/**
 Projective maps used to carry hold outlines between wall photos
 (server/internal/wall/reset.go). Coordinates are reals; the 1e-12 guards stay.
 */
module Homography {
  import opened Wrappers

  /** The decoded JSON value: any list of rows, so the shape has to be checked. */
  type Matrix = seq<seq<real>>

  datatype Vec = Vec(x: real, y: real, z: real)

  /** A 3 by 3 matrix by rows. */
  datatype Mat3 = Mat3(r0: Vec, r1: Vec, r2: Vec)

  datatype Point = Point(x: real, y: real)

  const GUARD := 0.000000000001
  const GUARD_INVERSE := 1000000000000.0

  predicate Is3x3(m: Matrix) {
    |m| == 3 && |m[0]| == 3 && |m[1]| == 3 && |m[2]| == 3
  }

  function Entries(m: Matrix): Mat3
    requires Is3x3(m)
  {
    Mat3(Vec(m[0][0], m[0][1], m[0][2]), Vec(m[1][0], m[1][1], m[1][2]), Vec(m[2][0], m[2][1], m[2][2]))
  }

  function Rows(m: Mat3): (rows: Matrix)
    ensures Is3x3(rows) && Entries(rows) == m
  {
    [[m.r0.x, m.r0.y, m.r0.z], [m.r1.x, m.r1.y, m.r1.z], [m.r2.x, m.r2.y, m.r2.z]]
  }

  predicate Tiny(r: real) {
    -GUARD < r < GUARD
  }

  function Dot(u: Vec, v: Vec): real {
    u.x * v.x + u.y * v.y + u.z * v.z
  }

  /** The image of a point before the division. */
  function Apply(m: Mat3, v: Vec): Vec {
    Vec(Dot(m.r0, v), Dot(m.r1, v), Dot(m.r2, v))
  }

  function Lift(p: Point): Vec {
    Vec(p.x, p.y, 1.0)
  }

  function Drop(v: Vec): Point
    requires v.z != 0.0
  {
    Point(v.x / v.z, v.y / v.z)
  }

  function ProjectPoint(p: Point, matrix: Matrix): Option<Point> {
    if !Is3x3(matrix) then None
    else
      var image := Apply(Entries(matrix), Lift(p));
      if Tiny(image.z) then None else Some(Drop(image))
  }

  function Det(m: Mat3): real {
    var (a, b, c) := (m.r0.x, m.r0.y, m.r0.z);
    var (d, e, f) := (m.r1.x, m.r1.y, m.r1.z);
    var (g, h, i) := (m.r2.x, m.r2.y, m.r2.z);
    a * (e * i - f * h) - b * (d * i - f * g) + c * (d * h - e * g)
  }

  function Adjugate(m: Mat3): Mat3 {
    var (a, b, c) := (m.r0.x, m.r0.y, m.r0.z);
    var (d, e, f) := (m.r1.x, m.r1.y, m.r1.z);
    var (g, h, i) := (m.r2.x, m.r2.y, m.r2.z);
    Mat3(Vec(e * i - f * h, c * h - b * i, b * f - c * e),
         Vec(f * g - d * i, a * i - c * g, c * d - a * f),
         Vec(d * h - e * g, b * g - a * h, a * e - b * d))
  }

  function Over(v: Vec, s: real): Vec
    requires s != 0.0
  {
    Vec(v.x / s, v.y / s, v.z / s)
  }

  function MatOver(m: Mat3, s: real): Mat3
    requires s != 0.0
  {
    Mat3(Over(m.r0, s), Over(m.r1, s), Over(m.r2, s))
  }

  function InverseHomography(matrix: Matrix): Option<Matrix> {
    if !Is3x3(matrix) then None
    else
      var m := Entries(matrix);
      if Tiny(Det(m)) then None else Some(Rows(MatOver(Adjugate(m), Det(m))))
  }

  // ---------------------------------------------------------------- the inverse

  function Columns(m: Mat3): Mat3 {
    Mat3(Vec(m.r0.x, m.r1.x, m.r2.x), Vec(m.r0.y, m.r1.y, m.r2.y), Vec(m.r0.z, m.r1.z, m.r2.z))
  }

  function Cross(u: Vec, v: Vec): Vec {
    Vec(u.y * v.z - u.z * v.y, u.z * v.x - u.x * v.z, u.x * v.y - u.y * v.x)
  }

  /** Row by column. */
  function Product(m: Mat3, n: Mat3): Mat3 {
    Mat3(Apply(Columns(n), m.r0), Apply(Columns(n), m.r1), Apply(Columns(n), m.r2))
  }

  function Diagonal(s: real): Mat3 {
    Mat3(Vec(s, 0.0, 0.0), Vec(0.0, s, 0.0), Vec(0.0, 0.0, s))
  }

  lemma DotCommutes(u: Vec, v: Vec)
    ensures Dot(u, v) == Dot(v, u)
  {
  }

  lemma CrossIsOrthogonal(u: Vec, v: Vec)
    ensures Dot(u, Cross(u, v)) == 0.0
    ensures Dot(v, Cross(u, v)) == 0.0
  {
    var (p, q, r) := (u.x, u.y, u.z);
    var (s, t, w) := (v.x, v.y, v.z);
    assert p * (q * w - r * t) + q * (r * s - p * w) + r * (p * t - q * s) == 0.0;
    assert s * (q * w - r * t) + t * (r * s - p * w) + w * (p * t - q * s) == 0.0;
  }

  /** The triple product is unchanged by rotating its vectors. */
  lemma TripleRotates(u: Vec, v: Vec, w: Vec)
    ensures Dot(u, Cross(v, w)) == Dot(v, Cross(w, u))
  {
    var (a, b, c) := (u.x, u.y, u.z);
    var (d, e, f) := (v.x, v.y, v.z);
    var (g, h, i) := (w.x, w.y, w.z);
    assert a * (e * i - f * h) + b * (f * g - d * i) + c * (d * h - e * g)
        == d * (h * c - i * b) + e * (i * a - g * c) + f * (g * b - h * a);
  }

  lemma DetByRows(m: Mat3)
    ensures Det(m) == Dot(m.r0, Cross(m.r1, m.r2))
  {
    var (a, b, c) := (m.r0.x, m.r0.y, m.r0.z);
    var (d, e, f) := (m.r1.x, m.r1.y, m.r1.z);
    var (g, h, i) := (m.r2.x, m.r2.y, m.r2.z);
    assert a * (e * i - f * h) - b * (d * i - f * g) + c * (d * h - e * g)
        == a * (e * i - f * h) + b * (f * g - d * i) + c * (d * h - e * g);
  }

  lemma DetByColumns(m: Mat3)
    ensures Det(m) == Dot(Columns(m).r0, Cross(Columns(m).r1, Columns(m).r2))
  {
    var (a, b, c) := (m.r0.x, m.r0.y, m.r0.z);
    var (d, e, f) := (m.r1.x, m.r1.y, m.r1.z);
    var (g, h, i) := (m.r2.x, m.r2.y, m.r2.z);
    assert a * (e * i - f * h) - b * (d * i - f * g) + c * (d * h - e * g)
        == a * (e * i - h * f) + d * (h * c - b * i) + g * (b * f - e * c);
  }

  lemma AdjugateByRows(m: Mat3)
    ensures Columns(Adjugate(m)) == Mat3(Cross(m.r1, m.r2), Cross(m.r2, m.r0), Cross(m.r0, m.r1))
  {
    hide Adjugate, Cross;
    AdjugateFirstColumn(m);
    AdjugateMiddleColumn(m);
    AdjugateLastColumn(m);
  }

  lemma AdjugateFirstColumn(m: Mat3)
    ensures Columns(Adjugate(m)).r0 == Cross(m.r1, m.r2)
  {
  }

  lemma AdjugateLastColumn(m: Mat3)
    ensures Columns(Adjugate(m)).r2 == Cross(m.r0, m.r1)
  {
  }

  lemma AdjugateMiddleColumn(m: Mat3)
    ensures Columns(Adjugate(m)).r1 == Cross(m.r2, m.r0)
  {
  }

  lemma AdjugateByColumns(m: Mat3)
    ensures var c := Columns(m);
      Adjugate(m) == Mat3(Cross(c.r1, c.r2), Cross(c.r2, c.r0), Cross(c.r0, c.r1))
  {
    hide Adjugate, Cross;
    AdjugateFirstRow(m);
    AdjugateMiddleRow(m);
    AdjugateLastRow(m);
  }

  lemma AdjugateFirstRow(m: Mat3)
    ensures Adjugate(m).r0 == Cross(Columns(m).r1, Columns(m).r2)
  {
  }

  lemma AdjugateMiddleRow(m: Mat3)
    ensures Adjugate(m).r1 == Cross(Columns(m).r2, Columns(m).r0)
  {
  }

  lemma AdjugateLastRow(m: Mat3)
    ensures Adjugate(m).r2 == Cross(Columns(m).r0, Columns(m).r1)
  {
  }

  /** A matrix times its adjugate is the determinant on the diagonal. */
  lemma AdjugateOnTheRight(m: Mat3)
    ensures Product(m, Adjugate(m)) == Diagonal(Det(m))
  {
    hide Dot, Cross, Det, Adjugate;
    DetByRows(m);
    AdjugateByRows(m);
    TripleRotates(m.r0, m.r1, m.r2);
    TripleRotates(m.r1, m.r2, m.r0);
    CrossIsOrthogonal(m.r0, m.r1);
    CrossIsOrthogonal(m.r1, m.r2);
    CrossIsOrthogonal(m.r2, m.r0);
    DotTable(m, Columns(Adjugate(m)));
  }

  lemma AdjugateOnTheLeft(m: Mat3)
    ensures Product(Adjugate(m), m) == Diagonal(Det(m))
  {
    hide Dot, Cross, Det, Adjugate;
    var c := Columns(m);
    DetByColumns(m);
    AdjugateByColumns(m);
    TripleRotates(c.r0, c.r1, c.r2);
    TripleRotates(c.r1, c.r2, c.r0);
    CrossIsOrthogonal(c.r0, c.r1);
    CrossIsOrthogonal(c.r1, c.r2);
    CrossIsOrthogonal(c.r2, c.r0);
  }

  lemma DotTable(m: Mat3, n: Mat3)
    ensures Dot(m.r0, n.r0) == Dot(n.r0, m.r0) && Dot(m.r0, n.r1) == Dot(n.r1, m.r0) && Dot(m.r0, n.r2) == Dot(n.r2, m.r0)
    ensures Dot(m.r1, n.r0) == Dot(n.r0, m.r1) && Dot(m.r1, n.r1) == Dot(n.r1, m.r1) && Dot(m.r1, n.r2) == Dot(n.r2, m.r1)
    ensures Dot(m.r2, n.r0) == Dot(n.r0, m.r2) && Dot(m.r2, n.r1) == Dot(n.r1, m.r2) && Dot(m.r2, n.r2) == Dot(n.r2, m.r2)
  {
    hide Dot;
    forall u, v ensures Dot(u, v) == Dot(v, u) { DotCommutes(u, v); }
  }

  lemma DotOver(u: Vec, v: Vec, s: real)
    requires s != 0.0
    ensures Dot(u, Over(v, s)) == Dot(u, v) / s
    ensures Dot(Over(v, s), u) == Dot(v, u) / s
  {
    var (x, y, z) := (v.x / s, v.y / s, v.z / s);
    assert v.x == x * s && v.y == y * s && v.z == z * s;
    assert u.x * v.x + u.y * v.y + u.z * v.z == (u.x * x + u.y * y + u.z * z) * s;
    assert v.x * u.x + v.y * u.y + v.z * u.z == (x * u.x + y * u.y + z * u.z) * s;
  }

  lemma ColumnsOver(m: Mat3, s: real)
    requires s != 0.0
    ensures Columns(MatOver(m, s)) == MatOver(Columns(m), s)
  {
  }

  lemma ProductOver(m: Mat3, n: Mat3, s: real)
    requires s != 0.0
    ensures Product(m, MatOver(n, s)) == MatOver(Product(m, n), s)
    ensures Product(MatOver(n, s), m) == MatOver(Product(n, m), s)
  {
    hide Dot;
    ColumnsOver(n, s);
    forall u, v ensures Dot(u, Over(v, s)) == Dot(u, v) / s && Dot(Over(v, s), u) == Dot(v, u) / s {
      DotOver(u, v, s);
    }
  }

  ghost predicate Inverses(m: Mat3, n: Mat3) {
    Product(m, n) == Product(n, m) == Diagonal(1.0)
  }

  /** `inverseHomography` is a two-sided inverse. */
  lemma InverseIsTwoSided(matrix: Matrix)
    requires InverseHomography(matrix).Some?
    ensures Is3x3(InverseHomography(matrix).value)
    ensures Inverses(Entries(matrix), Entries(InverseHomography(matrix).value))
  {
    hide Dot, Adjugate, Det, Product;
    var m := Entries(matrix);
    AdjugateOnTheRight(m);
    AdjugateOnTheLeft(m);
    ProductOver(m, Adjugate(m), Det(m));
    assert MatOver(Diagonal(Det(m)), Det(m)) == Diagonal(1.0);
  }

  // ---------------------------------------------------------------- round trips

  lemma DotThroughMatrix(u: Vec, m: Mat3, v: Vec)
    ensures Dot(u, Apply(m, v)) == Dot(Apply(Columns(m), u), v)
  {
    var (a, b, c) := (m.r0.x, m.r0.y, m.r0.z);
    var (d, e, f) := (m.r1.x, m.r1.y, m.r1.z);
    var (g, h, i) := (m.r2.x, m.r2.y, m.r2.z);
    var (p, q, r) := (u.x, u.y, u.z);
    var (x, y, z) := (v.x, v.y, v.z);
    assert p * (a * x + b * y + c * z) + q * (d * x + e * y + f * z) + r * (g * x + h * y + i * z)
        == (a * p + d * q + g * r) * x + (b * p + e * q + h * r) * y + (c * p + f * q + i * r) * z;
  }

  /** Applying two maps in turn is applying their product. */
  lemma ApplyComposes(n: Mat3, m: Mat3, v: Vec)
    ensures Apply(n, Apply(m, v)) == Apply(Product(n, m), v)
  {
    hide Dot;
    DotThroughMatrix(n.r0, m, v);
    DotThroughMatrix(n.r1, m, v);
    DotThroughMatrix(n.r2, m, v);
  }

  lemma IdentityApplies(v: Vec)
    ensures Apply(Diagonal(1.0), v) == v
  {
  }

  lemma ApplyToOver(m: Mat3, v: Vec, s: real)
    requires s != 0.0
    ensures Apply(m, Over(v, s)) == Over(Apply(m, v), s)
  {
    hide Dot;
    DotOver(m.r0, v, s);
    DotOver(m.r1, v, s);
    DotOver(m.r2, v, s);
  }

  lemma LiftOfDrop(v: Vec)
    requires v.z != 0.0
    ensures Lift(Drop(v)) == Over(v, v.z)
  {
    assert v.z / v.z == 1.0;
  }

  /** Mapping a projected point through the inverse gives the original, scaled by the first denominator. */
  lemma BackThroughInverse(p: Point, m: Mat3, n: Mat3)
    requires Inverses(n, m) && Apply(m, Lift(p)).z != 0.0
    ensures Apply(n, Lift(Drop(Apply(m, Lift(p))))) == Over(Lift(p), Apply(m, Lift(p)).z)
  {
    hide Dot, Product, Apply;
    var v := Apply(m, Lift(p));
    LiftOfDrop(v);
    ApplyToOver(n, v, v.z);
    ApplyComposes(n, m, Lift(p));
    IdentityApplies(Lift(p));
  }

  lemma Reciprocal(w: real)
    requires w != 0.0
    ensures !Tiny(1.0 / w) <==> -GUARD_INVERSE <= w <= GUARD_INVERSE
  {
    var r := 1.0 / w;
    assert r * w == 1.0 && (-r) * (-w) == 1.0;
    if w > 0.0 {
      ReciprocalOfPositive(r, w);
    } else {
      ReciprocalOfPositive(-r, -w);
    }
  }

  lemma ReciprocalOfPositive(u: real, v: real)
    requires u * v == 1.0 && v > 0.0
    ensures u > 0.0
    ensures u >= GUARD <==> v <= GUARD_INVERSE
  {
    assert u <= 0.0 ==> u * v <= 0.0;
    assert GUARD * GUARD_INVERSE == 1.0;
    if v <= GUARD_INVERSE && u < GUARD {
      LessTimesLess(u, GUARD, v, GUARD_INVERSE);
    } else if v > GUARD_INVERSE && u >= GUARD {
      LessTimesLess(GUARD_INVERSE, v, GUARD, u);
    }
  }

  lemma LessTimesLess(a: real, b: real, c: real, d: real)
    requires 0.0 < a < b && 0.0 < c <= d
    ensures a * c < b * d
  {
    assert (b - a) * c > 0.0 && (b - a) * c == b * c - a * c;
    assert b * (d - c) >= 0.0 && b * (d - c) == b * d - b * c;
  }

  lemma DropOver(p: Point, w: real)
    requires w != 0.0
    ensures Over(Lift(p), w).z == 1.0 / w != 0.0
    ensures Drop(Over(Lift(p), w)) == p
  {
    Cancel(p.x, w);
    Cancel(p.y, w);
  }

  lemma Cancel(x: real, w: real)
    requires w != 0.0
    ensures 1.0 / w != 0.0
    ensures (x / w) / (1.0 / w) == x
  {
    var u := 1.0 / w;
    assert u * w == 1.0;
    assert x / w == x * u;
    assert (x * u) / u == x;
  }

  /**
   Projecting and projecting back returns the original point whenever both projections
   succeed, and the second succeeds exactly when the first denominator is at most 1e12.
   */
  lemma ProjectThereAndBack(p: Point, matrix: Matrix)
    requires ProjectPoint(p, matrix).Some? && InverseHomography(matrix).Some?
    ensures
      var w := Apply(Entries(matrix), Lift(p)).z;
      var back := ProjectPoint(ProjectPoint(p, matrix).value, InverseHomography(matrix).value);
      back == if -GUARD_INVERSE <= w <= GUARD_INVERSE then Some(p) else None
  {
    hide Dot, Product, Adjugate, Det, Apply, Over;
    var m, n := Entries(matrix), Entries(InverseHomography(matrix).value);
    InverseIsTwoSided(matrix);
    var w := Apply(m, Lift(p)).z;
    BackThroughInverse(p, m, n);
    Reciprocal(w);
    DropOver(p, w);
  }

  /** The same the other way: through the inverse first. */
  lemma ProjectBackAndThere(q: Point, matrix: Matrix)
    requires InverseHomography(matrix).Some? && ProjectPoint(q, InverseHomography(matrix).value).Some?
    ensures
      var inverse := InverseHomography(matrix).value;
      Is3x3(inverse) &&
      var w := Apply(Entries(inverse), Lift(q)).z;
      var there := ProjectPoint(ProjectPoint(q, inverse).value, matrix);
      there == if -GUARD_INVERSE <= w <= GUARD_INVERSE then Some(q) else None
  {
    hide Dot, Product, Adjugate, Det, Apply, Over;
    var m, n := Entries(matrix), Entries(InverseHomography(matrix).value);
    InverseIsTwoSided(matrix);
    var w := Apply(n, Lift(q)).z;
    BackThroughInverse(q, n, m);
    Reciprocal(w);
    DropOver(q, w);
  }
}
