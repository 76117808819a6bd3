/** `evalBspline`: converts a uniform cubic B-spline control polygon into Bezier
    control points, one window at a time, and hands them to evalBezier. */
module Bspline {
  import opened Vectors
  import opened Matrices
  import opened Basis
  import opened Curves
  import opened Bezier

  /** `newG = G * BSpline * BernsteinInv` for one window of B-spline points. */
  function ControlMatrix(w: Window): Mat4 {
    Mul(Mul(Geometry(w), BSpline), BernsteinInv)
  }

  /** `newG.getCol(j).xyz()`: the j-th Bezier control point of the window. */
  function ControlPoint(w: Window, j: int): Vec3
    requires 0 <= j < 4
  {
    Xyz(Col(ControlMatrix(w), j))
  }

  /** The j-th Bezier control point of a B-spline window, by its weights: the window's
      points weighed by column `j` of `BSplineToBezier`. */
  function ConvertedPoint(w: Window, j: int): Vec3
    requires 0 <= j < 4
  {
    var c := Col(BSplineToBezier, j);
    Combine(w, c.x, c.y, c.z, c.w)
  }

  /** All four Bezier control points of one B-spline window. */
  function BezierWindow(w: Window): Window {
    Window(ConvertedPoint(w, 0), ConvertedPoint(w, 1), ConvertedPoint(w, 2), ConvertedPoint(w, 3))
  }

  /** Column `j` of `G * a * b` weighs the window's points by column `j` of `a * b`. */
  lemma ProductColumn(w: Window, a: Mat4, b: Mat4, j: int)
    requires 0 <= j < 4
    ensures var c := Col(Mul(a, b), j); Xyz(Col(Mul(Mul(Geometry(w), a), b), j)) == Combine(w, c.x, c.y, c.z, c.w)
  {
    var G, e := Geometry(w), Unit(j);
    ColIsApply(Mul(Mul(G, a), b), j);
    ColIsApply(Mul(a, b), j);
    ApplyMul(Mul(G, a), b, e);
    ApplyMul(G, a, Apply(b, e));
    ApplyMul(a, b, e);
    ApplyMul(G, Mul(a, b), e);
    GeometryApply(w, Mul(a, b), e);
  }

  /** Control point `j` weighs the window's B-spline points by column `j` of
      `BSplineToBezier`: (1/6, 2/3, 1/6, 0), (0, 2/3, 1/3, 0), (0, 1/3, 2/3, 0)
      and (0, 1/6, 2/3, 1/6). */
  lemma ControlPointWeights(w: Window, j: int)
    requires 0 <= j < 4
    ensures ControlPoint(w, j) == ConvertedPoint(w, j)
  {
    ProductColumn(w, BSpline, BernsteinInv, j);
    BSplineToBernstein();
  }

  /** The Bezier point the loop skips for every window after the first,
      `(P[i+1] + 4 P[i+2] + P[i+3]) / 6`, is the last Bezier point of the window
      before it, so skipping it loses nothing. */
  lemma DroppedPointCoincides(P: seq<Vec3>, i: nat)
    requires i + 5 <= |P|
    ensures ControlPoint(WindowAt(P, i + 1), 0) == ControlPoint(WindowAt(P, i), 3)
    ensures ConvertedPoint(WindowAt(P, i + 1), 0) == ConvertedPoint(WindowAt(P, i), 3)
  {
    var w, v := WindowAt(P, i), WindowAt(P, i + 1);
    var c0, c3 := Col(BSplineToBezier, 0), Col(BSplineToBezier, 3);
    ControlPointWeights(v, 0);
    ControlPointWeights(w, 3);
    assert c0.w == c3.x == 0.0 && c0.x == c3.y && c0.y == c3.z && c0.z == c3.w;
    CombineShift(w, v, c0.x, c0.y, c0.z, c0.w);
  }

  /** A window made of the first three rows of a matrix's columns acts, as a geometry
      matrix, like the matrix itself once the fourth component is dropped. */
  lemma GeometryOfColumns(m: Mat4, v: Vec4)
    ensures Xyz(Apply(Geometry(Window(Xyz(Col(m, 0)), Xyz(Col(m, 1)), Xyz(Col(m, 2)), Xyz(Col(m, 3)))), v))
         == Xyz(Apply(m, v))
  {
    var g := Geometry(Window(Xyz(Col(m, 0)), Xyz(Col(m, 1)), Xyz(Col(m, 2)), Xyz(Col(m, 3))));
    assert g.r0 == m.r0 && g.r1 == m.r1 && g.r2 == m.r2;
  }

  /** The four control points as the loop computes them, as a window. */
  function ComputedWindow(w: Window): Window {
    Window(ControlPoint(w, 0), ControlPoint(w, 1), ControlPoint(w, 2), ControlPoint(w, 3))
  }

  /** The computed control points, read as a Bezier segment, trace the B-spline
      segment of the window. */
  lemma ComputedSegmentIsBspline(w: Window, t: real)
    ensures BernsteinPoint(ComputedWindow(w), t) == BSplinePoint(w, t)
  {
    var G, pb := Geometry(w), PowerBasis(t);
    var u := Apply(Bernstein, pb);
    BernsteinEvaluates(ComputedWindow(w), t);
    ApplyMul(Geometry(ComputedWindow(w)), Bernstein, pb);
    GeometryOfColumns(ControlMatrix(w), u);
    ApplyMul(Mul(G, BSpline), BernsteinInv, u);
    ApplyMul(BernsteinInv, Bernstein, pb);
    InverseTimesBernstein();
    IdentityApply(pb);
    BSplineEvaluates(w, t);
  }

  /** The Bezier segment of the converted control points is the B-spline segment of
      the original window, for every t. */
  lemma BsplineSegmentIsBezier(w: Window, t: real)
    ensures BernsteinPoint(BezierWindow(w), t) == BSplinePoint(w, t)
  {
    ControlPointWeights(w, 0);
    ControlPointWeights(w, 1);
    ControlPointWeights(w, 2);
    ControlPointWeights(w, 3);
    assert BezierWindow(w) == ComputedWindow(w);
    ComputedSegmentIsBspline(w, t);
  }

  /** Points `lo` .. `hi - 1` of a window, in order. */
  function Points(w: Window, lo: nat, hi: nat): (q: seq<Vec3>)
    requires lo <= hi <= 4
    ensures |q| == hi - lo
    decreases hi
  {
    if lo == hi then [] else Points(w, lo, hi - 1) + [Point(w, hi - 1)]
  }

  /** A conversion of one window of B-spline points into Bezier form. */
  type Converter = Window -> Window

  /** The points pushed for one window: all four Bezier points for the first
      window, points 1 to 3 for every later one. */
  function WindowControls(b: Window, first: bool): seq<Vec3> {
    Points(b, if first then 0 else 1, 4)
  }

  /** `bsplineP` after the first `m` windows. */
  function ControlsUpTo(P: seq<Vec3>, m: nat, convert: Converter): seq<Vec3>
    requires m + 3 <= |P|
  {
    if m == 0 then [] else ControlsUpTo(P, m - 1, convert) + WindowControls(convert(WindowAt(P, m - 1)), m == 1)
  }

  /** The Bezier control points evalBspline builds from `P`: one window for each
      point but the last three. */
  function BezierControls(P: seq<Vec3>): seq<Vec3>
    requires |P| >= 4
  {
    ControlsUpTo(P, |P| - 3, BezierWindow)
  }

  /** Converted windows i and i + 1 meet: the first point of the later one is the
      last point of the earlier one. */
  predicate JoinAt(P: seq<Vec3>, convert: Converter, i: nat)
    requires i + 5 <= |P|
  {
    convert(WindowAt(P, i + 1)).p0 == convert(WindowAt(P, i)).p3
  }

  /** Consecutive windows convert to Bezier windows that meet at every join. */
  predicate JoinsAgree(P: seq<Vec3>, convert: Converter) {
    forall i: nat :: i + 5 <= |P| ==> JoinAt(P, convert, i)
  }

  /** The B-spline to Bezier conversion of evalBspline meets at every join. */
  lemma BezierJoinsAgree(P: seq<Vec3>)
    ensures JoinsAgree(P, BezierWindow)
  {
    forall i: nat | i + 5 <= |P|
      ensures JoinAt(P, BezierWindow, i)
    {
      DroppedPointCoincides(P, i);
    }
  }

  /** One more window appends that window's points. */
  lemma ControlsStep(P: seq<Vec3>, i: nat, convert: Converter)
    requires i + 4 <= |P|
    ensures ControlsUpTo(P, i + 1, convert) == ControlsUpTo(P, i, convert) + WindowControls(convert(WindowAt(P, i)), i == 0)
  {
  }

  /** `m` windows push 3m + 1 points (none for m = 0). */
  lemma {:induction false} ControlsLength(P: seq<Vec3>, m: nat, convert: Converter)
    requires m + 3 <= |P|
    ensures |ControlsUpTo(P, m, convert)| == if m == 0 then 0 else 3 * m + 1
  {
    if m > 0 {
      ControlsLength(P, m - 1, convert);
    }
  }

  /** Entry j - lo of `Points(b, lo, hi)` is point j of the window. */
  lemma {:induction false} PointsAt(b: Window, lo: nat, hi: nat, j: nat)
    requires lo <= j < hi <= 4
    ensures Points(b, lo, hi)[j - lo] == Point(b, j)
    decreases hi
  {
    if j < hi - 1 {
      PointsAt(b, lo, hi - 1, j);
    }
  }

  /** The points of fewer windows are a prefix of the points of more. */
  lemma {:induction false} ControlsPrefix(P: seq<Vec3>, m: nat, n: nat, convert: Converter)
    requires n <= m && m + 3 <= |P|
    ensures |ControlsUpTo(P, n, convert)| <= |ControlsUpTo(P, m, convert)|
    ensures ControlsUpTo(P, m, convert)[..|ControlsUpTo(P, n, convert)|] == ControlsUpTo(P, n, convert)
    decreases m
  {
    if n < m {
      var shorter := ControlsUpTo(P, m - 1, convert);
      ControlsPrefix(P, m - 1, n, convert);
      assert ControlsUpTo(P, m, convert)[..|shorter|] == shorter;
    }
  }

  /** Points 3k .. 3k + 3 of the first k + 1 windows are the points of converted
      window k; point 3k is shared with window k - 1 when the two meet. */
  lemma LastWindowAt(P: seq<Vec3>, k: nat, convert: Converter, j: nat)
    requires k + 4 <= |P| && j < 4 && (k > 0 ==> JoinAt(P, convert, k - 1))
    ensures 3 * k + j < |ControlsUpTo(P, k + 1, convert)|
    ensures ControlsUpTo(P, k + 1, convert)[3 * k + j] == Point(convert(WindowAt(P, k)), j)
  {
    var prefix := ControlsUpTo(P, k, convert);
    var b := convert(WindowAt(P, k));
    var last := WindowControls(b, k == 0);
    ControlsLength(P, k, convert);
    assert ControlsUpTo(P, k + 1, convert) == prefix + last;
    if k == 0 {
      PointsAt(b, 0, 4, j);
      assert (prefix + last)[3 * k + j] == last[j];
    } else if j == 0 {
      var a := convert(WindowAt(P, k - 1));
      ControlsLength(P, k - 1, convert);
      assert prefix == ControlsUpTo(P, k - 1, convert) + WindowControls(a, k == 1);
      PointsAt(a, if k == 1 then 0 else 1, 4, 3);
      assert (prefix + last)[3 * k] == prefix[|prefix| - 1];
    } else {
      PointsAt(b, 1, 4, j);
      assert (prefix + last)[3 * k + j] == last[j - 1];
    }
  }

  /** When the joins agree, point 3k + j of the list is point j of converted window k,
      for every j from 0 to 3: each window's four points sit at 3k .. 3k+3, the first
      shared with the window before. */
  lemma ControlsAt(P: seq<Vec3>, m: nat, convert: Converter, k: nat, j: nat)
    requires m + 3 <= |P| && k < m && j < 4 && JoinsAgree(P, convert)
    ensures 3 * k + j < |ControlsUpTo(P, m, convert)|
    ensures ControlsUpTo(P, m, convert)[3 * k + j] == Point(convert(WindowAt(P, k)), j)
  {
    var upto := ControlsUpTo(P, k + 1, convert);
    if k > 0 {
      assert JoinAt(P, convert, k - 1);
    }
    LastWindowAt(P, k, convert, j);
    ControlsPrefix(P, m, k + 1, convert);
    assert ControlsUpTo(P, m, convert)[3 * k + j] == ControlsUpTo(P, m, convert)[..|upto|][3 * k + j];
  }

  /** When the joins agree, window 3k of the list is converted window k. */
  lemma ControlsWindow(P: seq<Vec3>, m: nat, convert: Converter, k: nat)
    requires m + 3 <= |P| && k < m && JoinsAgree(P, convert)
    ensures 3 * k + 4 <= |ControlsUpTo(P, m, convert)|
    ensures WindowAt(ControlsUpTo(P, m, convert), 3 * k) == convert(WindowAt(P, k))
  {
    ControlsAt(P, m, convert, k, 0);
    ControlsAt(P, m, convert, k, 1);
    ControlsAt(P, m, convert, k, 2);
    ControlsAt(P, m, convert, k, 3);
  }

  /** Window 3k of the Bezier control points is the Bezier form of B-spline window k. */
  lemma BezierControlsWindow(P: seq<Vec3>, k: nat)
    requires k + 4 <= |P|
    ensures 3 * k + 4 <= |BezierControls(P)|
    ensures WindowAt(BezierControls(P), 3 * k) == BezierWindow(WindowAt(P, k))
  {
    BezierJoinsAgree(P);
    ControlsWindow(P, |P| - 3, BezierWindow, k);
  }

  /** The converted list always passes evalBezier's check: 3(|P| - 3) + 1 points. */
  lemma BsplineFeedsBezier(P: seq<Vec3>)
    requires |P| >= 4
    ensures |BezierControls(P)| == 3 * (|P| - 3) + 1 && IsBezierPolygon(BezierControls(P))
  {
    ControlsAligned(P, |P| - 3, BezierWindow);
  }

  /** One or more windows give a list of 3n + 1 points, n >= 1. */
  lemma ControlsAligned(P: seq<Vec3>, m: nat, convert: Converter)
    requires 1 <= m && m + 3 <= |P|
    ensures |ControlsUpTo(P, m, convert)| == 3 * m + 1
    ensures IsBezierPolygon(ControlsUpTo(P, m, convert))
  {
    ControlsLength(P, m, convert);
  }

  /** The B-spline curve has (|P| - 3)(steps + 1) points. */
  lemma BsplineCurveLength(P: seq<Vec3>, steps: nat, invLength: Vec3 -> real)
    requires |P| >= 4 && steps >= 1
    ensures |BezierCurve(BezierControls(P), steps, invLength)| == (|P| - 3) * (steps + 1)
  {
    var Q := BezierControls(P);
    BsplineFeedsBezier(P);
    BezierCurveLength(Q, steps, invLength);
    assert (|Q| - 1) / 3 == |P| - 3;
  }

  /** Sample s of window k of the B-spline curve lies on the uniform cubic B-spline
      segment of `P[k..k+4]`, at t = s / steps. */
  lemma BsplineCurvePoint(P: seq<Vec3>, k: nat, s: nat, steps: nat, invLength: Vec3 -> real)
    requires steps >= 1 && s <= steps && k + 4 <= |P|
    ensures SampleIndex(k, s, steps) < |BezierCurve(BezierControls(P), steps, invLength)|
    ensures BezierCurve(BezierControls(P), steps, invLength)[SampleIndex(k, s, steps)].V
         == BSplinePoint(WindowAt(P, k), Param(s, steps))
  {
    var Q := BezierControls(P);
    BezierControlsWindow(P, k);
    BezierCurvePoint(Q, k, s, steps, invLength);
    BsplineSegmentIsBezier(WindowAt(P, k), Param(s, steps));
  }

  /** The column the loop pushes is the window's Bezier point of that index. */
  lemma PushedPoint(w: Window, j: int)
    requires 0 <= j < 4
    ensures Xyz(Col(Mul(Mul(Geometry(w), BSpline), BernsteinInv), j)) == Point(BezierWindow(w), j)
  {
    ControlPointWeights(w, j);
  }

  /** The inner loop of evalBspline for the window `w`: computes `newG` and pushes its
      columns from 0 (first window) or 1 (every later one) up to 3. */
  method AppendWindow(C: seq<Vec3>, w: Window, first: bool) returns (C': seq<Vec3>)
    ensures C' == C + WindowControls(BezierWindow(w), first)
  {
    var G := Geometry(w);
    var newG := Mul(Mul(G, BSpline), BernsteinInv);
    C' := C;
    var j := if first then 0 else 1;
    ghost var start := j;
    while j < 4
      invariant start <= j <= 4
      invariant C' == C + Points(BezierWindow(w), start, j)
    {
      PushedPoint(w, j);
      C' := C' + [Xyz(Col(newG, j))];
      j := j + 1;
    }
  }

  /** The conversion loop of evalBspline: one window per point but the last three,
      all four Bezier points of the first window and the last three of every later one. */
  method ConvertControls(P: seq<Vec3>) returns (bsplineP: seq<Vec3>)
    requires |P| >= 4
    ensures bsplineP == BezierControls(P)
  {
    bsplineP := [];
    var i := 0;
    while i < |P| - 3
      invariant 0 <= i <= |P| - 3
      invariant bsplineP == ControlsUpTo(P, i, BezierWindow)
    {
      ControlsStep(P, i, BezierWindow);
      bsplineP := AppendWindow(bsplineP, WindowAt(P, i), i == 0);
      i := i + 1;
    }
  }

  /** evalBspline: rejects fewer than four points; otherwise converts the control
      points to Bezier form and evaluates the result with evalBezier. */
  method EvalBspline(P: seq<Vec3>, steps: nat, invLength: Vec3 -> real) returns (r: Result<seq<CurvePoint>>)
    requires |P| >= 4 ==> steps >= 1
    ensures |P| < 4 ==> r == Err(TooFewPoints(|P|))
    ensures |P| >= 4 ==> r == Ok(BezierCurve(BezierControls(P), steps, invLength))
  {
    if |P| < 4 {
      return Err(TooFewPoints(|P|));
    }
    var bsplineP := ConvertControls(P);
    BsplineFeedsBezier(P);
    r := EvalBezier(bsplineP, steps, invLength);
  }
}
