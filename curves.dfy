/** The output type shared by the evaluators of curve.cpp. */
module Curves {
  import opened Vectors

  /** One sample of a curve: position `V` and the frame (tangent `T`,
      normal `N`, binormal `B`) attached to it. */
  datatype CurvePoint = CurvePoint(V: Vec3, T: Vec3, N: Vec3, B: Vec3)

  /** The input errors on which the source reports and exits. */
  datatype CurveError =
    | TooFewOrMisalignedPoints(count: nat)  // evalBezier without 3n+1 points, n >= 1
    | TooFewPoints(count: nat)              // evalBspline with fewer than 4 points

  datatype Result<T> = Ok(value: T) | Err(error: CurveError)
}
