# Piecewise cubic curves with moving frames (curve.cpp)

A Dafny model of the curve evaluators of `src/curve.cpp`:

- `evalBezier` samples a piecewise cubic Bezier curve given by 3n+1 control points.
  It works on windows of four points at stride 3, takes `steps + 1` samples per window,
  and attaches a moving frame (T, N, B) to every sample.
- `evalBspline` converts a uniform cubic B-spline control polygon to Bezier control points
  and hands them to `evalBezier`. Each window of four points at stride 1 goes through
  `G * BSpline * BernsteinInv`.
- `evalCircle` samples a circle in the xy-plane.

Arithmetic is exact: `real` stands in for `float`, and the four basis matrices are the
constants of lines 18-27.

Two evaluators are modelled as methods whose loops follow the source:
- `Bezier.EvalBezier` checks its input and runs the window loop `Bezier.SampleWindows`,
  which uses `Bezier.AppendSegment` for its inner loop.
- `Bspline.EvalBspline` uses `Bspline.ConvertControls` and `Bspline.AppendWindow`.

Each method is proved equal to a specification function:
- `Bezier.BezierCurve` is the evalBezier curve.
- `Bspline.BezierControls` is the list of converted control points.
- `Circle.CirclePoint` gives each circle sample.

The properties are lemmas about those functions.

Each step of the source is defined once, as a function; the rows under "## Model" name the
lemmas and methods that state what each one means:

- Input check of evalBezier (line 32): `Bezier.IsBezierPolygon`.
- Geometry matrix `G` (lines 64, 134): `Basis.Geometry`, `Basis.WindowAt`.
- `t = s / steps` (line 73): `Bezier.Param`.
- Power basis `(1, t, t^2, t^3)` (line 75): `Basis.PowerBasis`.
- V and T of one sample (lines 73-80): `Bezier.SegmentSample`.
- `cross` and `normalized()` (lines 80, 92, 95-96): `Vectors.Cross`, `Vectors.Normalize`.
- Seed binormal and seed frame (lines 86-92): `Frames.SeedBinormal`, `Frames.SeedFrame`.
- Propagated frame (lines 93-97): `Frames.Propagate`.
- Push of one frame after `C.back()` (lines 84-100): `Frames.Attach`, `Frames.AttachAll`.
- Samples of all windows, and the curve (lines 62-102): `Bezier.ChainSamples`, `Bezier.BezierCurve`.
- `newG = G * BSpline * BernsteinInv` and its columns (lines 134-139): `Bspline.ControlMatrix`, `Bspline.ControlPoint`.
- Columns pushed for one window (lines 137-141): `Bspline.WindowControls`.
- The converted control list (lines 131-142): `Bspline.ControlsUpTo`, `Bspline.BezierControls`.
- Angle and point of the circle (lines 164-177): `Circle.Angle`, `Circle.CirclePoint`.

Frames are built by `Frames.AttachAll`, which folds over the samples in order:
- The first sample of the first window gets the seed frame of lines 86-92.
- Every later sample gets the frame propagated from the previous binormal (lines 93-97).
  This includes the first sample of every later window, so the frame is never reset.

`normalized()` is modelled as `Normalize(v, invLength) = invLength(v) * v`. The reciprocal
length `invLength` is a parameter of the model, so the model does not claim unit length.
It does prove every orthogonality the code establishes.

`evalCircle` takes cosine, sine and pi as parameters. The lemma that needs a trigonometric
fact takes it as a precondition: `cos^2 + sin^2 = 1`.

The process exits on bad input (`exit(0)` after a message on `cerr`). The model returns
`Err(TooFewOrMisalignedPoints(n))` or `Err(TooFewPoints(n))` instead.

The first frame keeps the seed binormal (0,0,1) or (0,1,0) without re-orthogonalising it.
So at the first point, B is perpendicular to T only when T has no z component or is
parallel to the z-axis (`Bezier.BezierFirstFrame`). Every other frame is fully orthogonal
(`Bezier.BezierCurveFrames`).

## Model

| member | source | states |
|---|---|---|
| Vectors.ScaledCrossOrthogonal | src/curve.cpp:92-96 | a scaled (normalized) cross product is perpendicular to both of its factors |
| Matrices.ApplyMul | src/curve.cpp:68-80 | `(A * B) * v == A * (B * v)`: precomputing `GxB` and `GxdB` evaluates like applying `G` to `Basis * basis` |
| Matrices.ColIsApply | src/curve.cpp:139 | `getCol(j)` is the image of the j-th unit vector |
| Basis.BernsteinTimesInverse | src/curve.cpp:18-23 | `Bernstein * BernsteinInv` is the identity |
| Basis.InverseTimesBernstein | src/curve.cpp:18-23 | `BernsteinInv * Bernstein` is the identity |
| Basis.DBernsteinIsDerivative | src/curve.cpp:18-22 | column c of dBernstein is (c+1) times column c+1 of Bernstein, and its last column is zero: dBernstein differentiates Bernstein in the power basis |
| Basis.PartitionOfUnity | src/curve.cpp:18-27 | the columns of Bernstein and of BSpline sum to (1,0,0,0), so both sets of weights sum to 1 at every t |
| Basis.BernsteinWeights | src/curve.cpp:18-21 | Bernstein times `(1, t, t^2, t^3)` gives the four cubic Bernstein polynomials |
| Basis.BernsteinDerivativeWeights | src/curve.cpp:22 | dBernstein times `(1, t, t^2, t^3)` gives their derivatives |
| Basis.BSplineWeights | src/curve.cpp:24-27 | BSpline times `(1, t, t^2, t^3)` gives the uniform cubic B-spline blending functions |
| Basis.BSplineToBernstein | src/curve.cpp:23-27 | `BSpline * BernsteinInv` equals the explicit change-of-basis matrix `BSplineToBezier` |
| Basis.GeometryApply | src/curve.cpp:64-80 | `(G * M * v).xyz()` weighs the four control points by the entries of `M * v` |
| Basis.BernsteinEvaluates | src/curve.cpp:64-78 | `(G * Bernstein * basis).xyz()` is the cubic Bezier point of the window at t |
| Basis.DBernsteinEvaluates | src/curve.cpp:64-80 | `(G * dBernstein * basis).xyz()` is its derivative |
| Basis.BSplineEvaluates | src/curve.cpp:134-136 | `G * BSpline * basis` is the uniform B-spline segment of the window |
| Basis.BernsteinStart | src/curve.cpp:73-78 | the Bezier segment passes through its first control point at t = 0 |
| Basis.BernsteinEnd | src/curve.cpp:73-78 | the Bezier segment passes through its last control point at t = 1 |
| Frames.SeedBinormalNotParallel | src/curve.cpp:86-92 | the seed binormal is never parallel to a nonzero tangent, so the seed N normalizes a nonzero vector |
| Frames.SeedFrameShape | src/curve.cpp:86-92 | the seed frame keeps V and T, and its N is perpendicular to T and to B |
| Frames.SeedBinormalOrthogonal | src/curve.cpp:86-92 | the seed B is perpendicular to T exactly when T has no z component or is parallel to the z-axis |
| Frames.PropagateOrthogonal | src/curve.cpp:93-97 | a propagated frame keeps V and T; N is perpendicular to T and to the previous B; the new B is perpendicular to T and N |
| Frames.AttachAllConcat | src/curve.cpp:62-102 | attaching frames to two runs of samples is attaching them to the first, then to the second: window boundaries do not restart the frame |
| Frames.AttachAllExtends | src/curve.cpp:99-100 | attaching frames keeps the curve built so far and adds one point per sample |
| Frames.AttachAllAt | src/curve.cpp:86-100 | each frame is computed from the curve built before it (`C.back()`) |
| Frames.FramesOrthogonal | src/curve.cpp:86-97 | every frame has N perpendicular to T and B; every frame after the first also has B perpendicular to T, and N perpendicular to the previous B |
| Bezier.SegmentSampleIsBezier | src/curve.cpp:64-80 | sample s of a window is the Bezier point at `t = s / steps`, and its T is the normalized derivative there |
| Bezier.WindowSamples | src/curve.cpp:71-102 | each window gives `steps + 1` samples |
| Bezier.AppendSegment | src/curve.cpp:63-102 | the inner loop appends the frames of the window's `steps + 1` samples, seeding only on the very first sample |
| Bezier.EvalBezier | src/curve.cpp:29-110 | fewer than 4 points or a count other than 3n+1 gives the error, for every `steps`; otherwise the result is the specified curve |
| Bezier.SampleWindows | src/curve.cpp:62-102 | the window loop, at stride 3, builds exactly the specified curve |
| Bezier.ChainSamplesLength | src/curve.cpp:62-102 | 3n+1 points give `n * (steps + 1)` samples |
| Bezier.ChainSampleAt | src/curve.cpp:62-78 | sample `k * (steps + 1) + s` is sample s of window `P[3k..3k+4]` |
| Bezier.ChainFrameAt | src/curve.cpp:62-100 | the point at index `k * (steps + 1) + s` carries the position and tangent of sample s of window k |
| Bezier.BezierCurveLength | src/curve.cpp:29-110 | the curve has `((|P| - 1) / 3) * (steps + 1)` points |
| Bezier.BezierCurvePoint | src/curve.cpp:62-80 | point `k * (steps + 1) + s` is the Bezier point of `P[3k..3k+4]` at `s / steps`, with the normalized derivative as T |
| Bezier.BezierCurveFrames | src/curve.cpp:84-97 | on the returned curve, point 0 carries the seed frame and every later point the propagated one, including the first point of each later window; N is perpendicular to T and B everywhere, and B to T after point 0 |
| Bezier.BezierInterpolatesEnds | src/curve.cpp:62-78 | the first point of window k is `P[3k]` and its last is `P[3k+3]` |
| Bezier.BezierJoinsContinuous | src/curve.cpp:62-78 | the last point of window k and the first point of window k + 1 are adjacent in the curve and equal (C0 continuity) |
| Bezier.BezierFirstFrame | src/curve.cpp:80-92 | at point 0, T is the normalized start tangent, and B is perpendicular to T exactly when T has no z component or is parallel to the z-axis |
| Bspline.ProductColumn | src/curve.cpp:134-139 | column j of `G * A * B` weighs the window's points by column j of `A * B` |
| Bspline.ControlPointWeights | src/curve.cpp:134-139 | Bezier point j of a window is the window weighed by column j of `BSplineToBezier` |
| Bspline.DroppedPointCoincides | src/curve.cpp:137-141 | the point skipped for every window after the first, `(P[i+1] + 4 P[i+2] + P[i+3]) / 6`, equals the last Bezier point of the window before |
| Bspline.ComputedSegmentIsBspline | src/curve.cpp:134-139 | the four computed columns, read as a Bezier segment, trace the B-spline segment of the window |
| Bspline.BsplineSegmentIsBezier | src/curve.cpp:129-140 | the Bezier segment of the converted points equals the uniform cubic B-spline segment of the window at every t |
| Bspline.BezierJoinsAgree | src/curve.cpp:137-141 | consecutive converted windows meet at every join |
| Bspline.ControlsLength | src/curve.cpp:132-142 | m windows push `3m + 1` points (none for m = 0) |
| Bspline.ControlsPrefix | src/curve.cpp:132-142 | the points of fewer windows are a prefix of the points of more |
| Bspline.LastWindowAt | src/curve.cpp:137-141 | points `3k .. 3k+3` after window k are window k's Bezier points, the first shared with window k - 1 |
| Bspline.ControlsAt | src/curve.cpp:132-142 | point `3k + j` of the list is Bezier point j of window k |
| Bspline.ControlsWindow | src/curve.cpp:132-142 | window 3k of the list is converted window k |
| Bspline.BezierControlsWindow | src/curve.cpp:132-148 | window 3k of evalBspline's list is the Bezier form of B-spline window k |
| Bspline.BsplineFeedsBezier | src/curve.cpp:132-148 | the converted list has `3(|P| - 3) + 1` points, so evalBezier always accepts it |
| Bspline.ControlsAligned | src/curve.cpp:132-148 | one or more windows give a list of 3n+1 points, n >= 1 |
| Bspline.BsplineCurveLength | src/curve.cpp:112-150 | the B-spline curve has `(|P| - 3) * (steps + 1)` points |
| Bspline.BsplineCurvePoint | src/curve.cpp:112-150 | point `k * (steps + 1) + s` of the B-spline curve is the B-spline point of `P[k..k+4]` at `s / steps` |
| Bspline.AppendWindow | src/curve.cpp:134-141 | the inner loop appends Bezier points 0..3 of the first window and 1..3 of every later one |
| Bspline.ConvertControls | src/curve.cpp:131-142 | the conversion loop builds exactly the specified control list |
| Bspline.EvalBspline | src/curve.cpp:112-150 | fewer than 4 points gives the error, for every `steps`; otherwise the result is evalBezier's curve of the converted list |
| Circle.EvalCircle | src/curve.cpp:152-181 | returns `steps + 1` points; point i is the circle point at angle `2 pi i / steps` |
| Circle.Angle | src/curve.cpp:164 | the angles run from 0 at the first sample to 2 pi at the last, so the samples close the circle wherever cosine and sine have period 2 pi |
| Circle.CirclePoint | src/curve.cpp:168-177 | each circle frame is orthogonal; B is the z-axis; V is `-radius * N` and lies in the xy-plane |
| Circle.CircleUnitFrame | src/curve.cpp:168-175 | where `cos^2 + sin^2 = 1`, T and N are unit vectors and V is at distance `radius` from the centre |

## Left out

- `drawCurve` (lines 183-231) draws with OpenGL. It is not part of this model.
- Logging to `cerr` is left out. The process exit on bad input is modelled as an `Err` result.
- The helper `approx` (lines 9-13) is never called by the evaluators. It is not part of this model.
- `float` rounding is not modelled: all arithmetic is exact over `real`. This includes
  `1.f/3`, `s*1.0/steps`, `pow`, and the exact comparison `cross(T,B) == 0` on line 89.
- `normalized()` divides by the vector's length, which needs a square root. The reciprocal
  length is a parameter (`invLength`), so unit length of T, N and B is not proved for the
  Bezier and B-spline curves.
- Vectors.Normalize maps the zero vector to the zero vector, for every `invLength`. The
  source divides 0 by 0 there and gets NaN components. This happens when the derivative is
  zero at line 80 (for example `P[0] == P[1]` at t = 0), or when the factors of the cross
  product at line 92 or 95 are parallel. At such a point the model's T or N is the zero
  vector, where the source's is NaN. A zero T also takes the (0,1,0) seed at line 90; in
  the source, the comparison of NaN components with zero fails, so B stays (0,0,1). The
  orthogonality lemmas (Frames.FramesOrthogonal, Bezier.BezierCurveFrames) then hold
  because T or N is zero.
- Bezier.EvalBezier, Bspline.EvalBspline and Circle.EvalCircle require `steps >= 1` for
  input that passes the size check (every input, for Circle.EvalCircle). Input that fails the
  check is rejected at lines 32-35 and 115-118 before any division, and the model returns the
  error for it whatever `steps` is. For valid input with `steps == 0` the source divides by
  zero in `float`: only `s = 0` (line 71) and `i = 0` (line 161) run, so t is 0/0, which is NaN.
- Bezier.EvalBezier, Circle.EvalCircle: `steps` is an unbounded natural, so the wrap-around of
  the `unsigned` counter at `steps == UINT_MAX` is not modelled. There the loop
  `s <= steps` (line 71) never ends because `s` wraps to 0, and `Curve R(steps+1)` (line 158)
  allocates an empty vector that lines 168-177 then write past. The model returns
  `steps + 1` points per window instead. Bspline.EvalBspline inherits this through evalBezier.
- Circle.EvalCircle takes `cos`, `sin` and `pi` as parameters, so `M_PI` and the exact
  values of the trigonometric functions are not modelled.
- The `unsigned` index arithmetic is modelled with unbounded naturals. `P.size() - 1` and
  `P.size() - 3` are only evaluated after the size checks, so they never wrap.
- The tangent of the B-spline curve is not restated in B-spline terms. Bspline.BsplineCurvePoint
  states the positions; the tangents are those of the Bezier form (Bezier.BezierCurvePoint).
