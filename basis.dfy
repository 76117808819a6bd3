/** The four constant basis matrices of curve.cpp and their algebra, exact over `real`.
    Each matrix acts on the power basis (1, t, t^2, t^3): row k holds the
    power-basis coefficients of the weight given to control point k. */
module Basis {
  import opened Vectors
  import opened Matrices

  /** Cubic Bernstein (Bezier) basis. */
  const Bernstein: Mat4 :=
    Mat4(Vec4(1.0, -3.0, 3.0, -1.0),
         Vec4(0.0, 3.0, -6.0, 3.0),
         Vec4(0.0, 0.0, 3.0, -3.0),
         Vec4(0.0, 0.0, 0.0, 1.0))

  /** Derivative in t of the Bernstein basis. */
  const DBernstein: Mat4 :=
    Mat4(Vec4(-3.0, 6.0, -3.0, 0.0),
         Vec4(3.0, -12.0, 9.0, 0.0),
         Vec4(0.0, 6.0, -9.0, 0.0),
         Vec4(0.0, 0.0, 3.0, 0.0))

  /** Inverse of the Bernstein basis. */
  const BernsteinInv: Mat4 :=
    Mat4(Vec4(1.0, 1.0, 1.0, 1.0),
         Vec4(0.0, 1.0 / 3.0, 2.0 / 3.0, 1.0),
         Vec4(0.0, 0.0, 1.0 / 3.0, 1.0),
         Vec4(0.0, 0.0, 0.0, 1.0))

  /** Uniform cubic B-spline basis. */
  const BSpline: Mat4 :=
    Mat4(Vec4(1.0 / 6.0, -1.0 / 2.0, 1.0 / 2.0, -1.0 / 6.0),
         Vec4(2.0 / 3.0, 0.0, -1.0, 1.0 / 2.0),
         Vec4(1.0 / 6.0, 1.0 / 2.0, 1.0 / 2.0, -1.0 / 2.0),
         Vec4(0.0, 0.0, 0.0, 1.0 / 6.0))

  /** The power basis `Vector4f(1, t, pow(t,2), pow(t,3))`. */
  function PowerBasis(t: real): Vec4 {
    Vec4(1.0, t, t * t, t * t * t)
  }

  /** BernsteinInv is a right inverse of Bernstein. */
  lemma BernsteinTimesInverse()
    ensures Mul(Bernstein, BernsteinInv) == Identity
  {
    var m := Mul(Bernstein, BernsteinInv);
    assert m.r0.x == 1.0 && m.r0.y == 0.0 && m.r0.z == 0.0 && m.r0.w == 0.0;
    assert m.r1.x == 0.0 && m.r1.y == 1.0 && m.r1.z == 0.0 && m.r1.w == 0.0;
    assert m.r2.x == 0.0 && m.r2.y == 0.0 && m.r2.z == 1.0 && m.r2.w == 0.0;
    assert m.r3.x == 0.0 && m.r3.y == 0.0 && m.r3.z == 0.0 && m.r3.w == 1.0;
  }

  /** BernsteinInv is a left inverse of Bernstein. */
  lemma InverseTimesBernstein()
    ensures Mul(BernsteinInv, Bernstein) == Identity
  {
    var m := Mul(BernsteinInv, Bernstein);
    assert m.r0.x == 1.0 && m.r0.y == 0.0 && m.r0.z == 0.0 && m.r0.w == 0.0;
    assert m.r1.x == 0.0 && m.r1.y == 1.0 && m.r1.z == 0.0 && m.r1.w == 0.0;
    assert m.r2.x == 0.0 && m.r2.y == 0.0 && m.r2.z == 1.0 && m.r2.w == 0.0;
    assert m.r3.x == 0.0 && m.r3.y == 0.0 && m.r3.z == 0.0 && m.r3.w == 1.0;
  }

  /** DBernstein differentiates Bernstein term by term in the power basis:
      column c is (c+1) times column c+1, and the derivative has no t^3 term,
      so the last column is zero. */
  lemma DBernsteinIsDerivative()
    ensures forall r, c :: 0 <= r < 4 && 0 <= c < 3 ==>
      Entry(DBernstein, r, c) == (c + 1) as real * Entry(Bernstein, r, c + 1)
    ensures forall r :: 0 <= r < 4 ==> Entry(DBernstein, r, 3) == 0.0
  {
  }

  /** The sum of column `c`. */
  function ColumnSum(m: Mat4, c: int): real
    requires 0 <= c < 4
  {
    Entry(m, 0, c) + Entry(m, 1, c) + Entry(m, 2, c) + Entry(m, 3, c)
  }

  /** Both bases are partitions of unity: their weights sum to 1 at every t,
      that is, their columns sum to (1, 0, 0, 0). */
  lemma PartitionOfUnity()
    ensures forall c :: 0 <= c < 4 ==> ColumnSum(Bernstein, c) == Delta(0, c)
    ensures forall c :: 0 <= c < 4 ==> ColumnSum(BSpline, c) == Delta(0, c)
  {
  }

  /** The four cubic Bernstein polynomials. */
  function BernsteinBlend(t: real): Vec4 {
    Vec4((1.0 - t) * (1.0 - t) * (1.0 - t), 3.0 * t * (1.0 - t) * (1.0 - t),
         3.0 * t * t * (1.0 - t), t * t * t)
  }

  /** Their derivatives in t. */
  function BernsteinSlope(t: real): Vec4 {
    Vec4(-3.0 * (1.0 - t) * (1.0 - t), 3.0 * (1.0 - t) * (1.0 - t) - 6.0 * t * (1.0 - t),
         6.0 * t * (1.0 - t) - 3.0 * t * t, 3.0 * t * t)
  }

  /** Bernstein applied to the power basis gives the four cubic Bernstein polynomials. */
  lemma BernsteinWeights(t: real)
    ensures Apply(Bernstein, PowerBasis(t)) == BernsteinBlend(t)
  {
  }

  /** DBernstein applied to the power basis gives the derivatives of those polynomials. */
  lemma BernsteinDerivativeWeights(t: real)
    ensures Apply(DBernstein, PowerBasis(t)) == BernsteinSlope(t)
  {
  }

  /** The uniform cubic B-spline blending functions. */
  function BSplineBlend(t: real): Vec4 {
    Vec4((1.0 - t) * (1.0 - t) * (1.0 - t) / 6.0,
         (3.0 * t * t * t - 6.0 * t * t + 4.0) / 6.0,
         (-3.0 * t * t * t + 3.0 * t * t + 3.0 * t + 1.0) / 6.0,
         t * t * t / 6.0)
  }

  /** BSpline applied to the power basis gives the B-spline blending functions. */
  lemma BSplineWeights(t: real)
    ensures Apply(BSpline, PowerBasis(t)) == BSplineBlend(t)
  {
  }

  /** Column j of `BSpline * BernsteinInv` holds the weights that the four
      B-spline points of a window get in the j-th Bezier point. */
  const BSplineToBezier: Mat4 :=
    Mat4(Vec4(1.0 / 6.0, 0.0,       0.0,       0.0),
         Vec4(2.0 / 3.0, 2.0 / 3.0, 1.0 / 3.0, 1.0 / 6.0),
         Vec4(1.0 / 6.0, 1.0 / 3.0, 2.0 / 3.0, 2.0 / 3.0),
         Vec4(0.0,       0.0,       0.0,       1.0 / 6.0))

  /** The change of basis from a uniform B-spline segment to Bezier form. */
  lemma BSplineToBernstein()
    ensures Mul(BSpline, BernsteinInv) == BSplineToBezier
  {
  }

  /** Four consecutive control points: the window one cubic segment is built from. */
  datatype Window = Window(p0: Vec3, p1: Vec3, p2: Vec3, p3: Vec3)

  /** Point `j` of a window. */
  function Point(w: Window, j: int): Vec3
    requires 0 <= j < 4
  {
    if j == 0 then w.p0 else if j == 1 then w.p1 else if j == 2 then w.p2 else w.p3
  }

  /** The window P[i], P[i+1], P[i+2], P[i+3]. */
  function WindowAt(P: seq<Vec3>, i: nat): Window
    requires i + 4 <= |P|
  {
    Window(P[i], P[i + 1], P[i + 2], P[i + 3])
  }

  /** The geometry matrix `G` of one segment: its four control points, extended
      with a zero fourth component, as columns. */
  function Geometry(w: Window): Mat4 {
    FromColumns(Extend(w.p0, 0.0), Extend(w.p1, 0.0), Extend(w.p2, 0.0), Extend(w.p3, 0.0))
  }

  /** The combination a*p0 + b*p1 + c*p2 + d*p3 of a window's points. */
  function Combine(w: Window, a: real, b: real, c: real, d: real): Vec3 {
    Vec3(a * w.p0.x + b * w.p1.x + c * w.p2.x + d * w.p3.x,
         a * w.p0.y + b * w.p1.y + c * w.p2.y + d * w.p3.y,
         a * w.p0.z + b * w.p1.z + c * w.p2.z + d * w.p3.z)
  }

  /** `(G * M * v).xyz()` weighs the control points by the entries of `M * v`. */
  lemma GeometryApply(w: Window, m: Mat4, v: Vec4)
    ensures var u := Apply(m, v); Xyz(Apply(Mul(Geometry(w), m), v)) == Combine(w, u.x, u.y, u.z, u.w)
  {
    ApplyMul(Geometry(w), m, v);
  }

  /** The cubic Bezier curve of four control points, in Bernstein form. */
  function BernsteinPoint(w: Window, t: real): Vec3 {
    var b := BernsteinBlend(t);
    Combine(w, b.x, b.y, b.z, b.w)
  }

  /** The derivative in t of `BernsteinPoint(w, t)`. */
  function BernsteinTangent(w: Window, t: real): Vec3 {
    var b := BernsteinSlope(t);
    Combine(w, b.x, b.y, b.z, b.w)
  }

  /** The uniform cubic B-spline segment of four control points. */
  function BSplinePoint(w: Window, t: real): Vec3 {
    var b := BSplineBlend(t);
    Combine(w, b.x, b.y, b.z, b.w)
  }

  /** `G * Bernstein * [1, t, t^2, t^3]` is the Bezier curve of the window. */
  lemma BernsteinEvaluates(w: Window, t: real)
    ensures Xyz(Apply(Mul(Geometry(w), Bernstein), PowerBasis(t))) == BernsteinPoint(w, t)
  {
    GeometryApply(w, Bernstein, PowerBasis(t));
    BernsteinWeights(t);
  }

  /** `G * dBernstein * [1, t, t^2, t^3]` is its derivative. */
  lemma DBernsteinEvaluates(w: Window, t: real)
    ensures Xyz(Apply(Mul(Geometry(w), DBernstein), PowerBasis(t))) == BernsteinTangent(w, t)
  {
    GeometryApply(w, DBernstein, PowerBasis(t));
    BernsteinDerivativeWeights(t);
  }

  /** `G * BSpline * [1, t, t^2, t^3]` is the B-spline segment of the window. */
  lemma BSplineEvaluates(w: Window, t: real)
    ensures Xyz(Apply(Mul(Geometry(w), BSpline), PowerBasis(t))) == BSplinePoint(w, t)
  {
    GeometryApply(w, BSpline, PowerBasis(t));
    BSplineWeights(t);
  }

  /** Weights (1,0,0,0) pick the first point of a window. */
  lemma CombineFirst(w: Window, a: real, b: real, c: real, d: real)
    requires a == 1.0 && b == 0.0 && c == 0.0 && d == 0.0
    ensures Combine(w, a, b, c, d) == w.p0
  {
  }

  /** Weights (0,0,0,1) pick the last point of a window. */
  lemma CombineLast(w: Window, a: real, b: real, c: real, d: real)
    requires a == 0.0 && b == 0.0 && c == 0.0 && d == 1.0
    ensures Combine(w, a, b, c, d) == w.p3
  {
  }

  /** A Bezier segment starts at its first control point (t = 0)... */
  lemma BernsteinStart(w: Window, t: real)
    requires t == 0.0
    ensures BernsteinPoint(w, t) == w.p0
  {
    var b := BernsteinBlend(t);
    CombineFirst(w, b.x, b.y, b.z, b.w);
  }

  /** ...and ends at its last (t = 1). */
  lemma BernsteinEnd(w: Window, t: real)
    requires t == 1.0
    ensures BernsteinPoint(w, t) == w.p3
  {
    var b := BernsteinBlend(t);
    CombineLast(w, b.x, b.y, b.z, b.w);
  }

  /** Weights that skip the first point of `w` are weights on the window one step on. */
  lemma CombineShift(w: Window, v: Window, a: real, b: real, c: real, z: real)
    requires v.p0 == w.p1 && v.p1 == w.p2 && v.p2 == w.p3 && z == 0.0
    ensures Combine(v, a, b, c, z) == Combine(w, z, a, b, c)
  {
  }
}
