/** `evalCircle`: a circle of the given radius in the xy-plane, sampled at steps + 1
    evenly spaced angles. Cosine, sine and pi are parameters: the model does not fix
    their values, and the properties that need trigonometry take the identities they
    use as preconditions. */
module Circle {
  import opened Vectors
  import opened Curves

  /** The angle of sample `i`: `2 * pi * i / steps`. The angles run from 0 at the
      first sample to 2 pi at the last, so the samples close the circle wherever
      cosine and sine have period 2 pi. */
  function Angle(i: nat, steps: nat, pi: real): (t: real)
    requires steps >= 1
    ensures i == 0 ==> t == 0.0
    ensures i == steps ==> t == 2.0 * pi
  {
    2.0 * pi * (i as real) / (steps as real)
  }

  /** The point at angle `t`: position `radius * (cos t, sin t, 0)`, tangent
      `(-sin t, cos t, 0)`, normal `(-cos t, -sin t, 0)` and binormal `(0, 0, 1)`.
      The frame is orthogonal, the binormal is the z-axis, and the position is the
      normal scaled by -radius: the normal points at the centre. */
  function CirclePoint(radius: real, t: real, cos: real -> real, sin: real -> real): (p: CurvePoint)
    ensures Dot(p.T, p.N) == 0.0 && Dot(p.T, p.B) == 0.0 && Dot(p.N, p.B) == 0.0
    ensures p.B == Vec3(0.0, 0.0, 1.0) && p.V == Scale(p.N, -radius) && p.V.z == 0.0
  {
    CurvePoint(Scale(Vec3(cos(t), sin(t), 0.0), radius), Vec3(-sin(t), cos(t), 0.0),
               Vec3(-cos(t), -sin(t), 0.0), Vec3(0.0, 0.0, 1.0))
  }

  /** evalCircle: preallocates steps + 1 points and fills point `i` with the circle
      point at angle `2 * pi * i / steps`. */
  method EvalCircle(radius: real, steps: nat, cos: real -> real, sin: real -> real, pi: real)
    returns (curve: seq<CurvePoint>)
    requires steps >= 1
    ensures |curve| == steps + 1
    ensures forall i :: 0 <= i <= steps ==> curve[i] == CirclePoint(radius, Angle(i, steps, pi), cos, sin)
  {
    var R := new CurvePoint[steps + 1];
    for i := 0 to steps + 1
      invariant forall k :: 0 <= k < i ==> R[k] == CirclePoint(radius, Angle(k, steps, pi), cos, sin)
    {
      var t := 2.0 * pi * (i as real) / (steps as real);
      R[i] := CurvePoint(Scale(Vec3(cos(t), sin(t), 0.0), radius), Vec3(-sin(t), cos(t), 0.0),
                         Vec3(-cos(t), -sin(t), 0.0), Vec3(0.0, 0.0, 1.0));
    }
    curve := R[..];
  }

  /** Where `cos^2 + sin^2 = 1` holds, the tangent and normal are unit vectors and the
      point is at distance `radius` from the centre (squared). */
  lemma CircleUnitFrame(radius: real, t: real, cos: real -> real, sin: real -> real)
    requires cos(t) * cos(t) + sin(t) * sin(t) == 1.0
    ensures var p := CirclePoint(radius, t, cos, sin);
            Dot(p.T, p.T) == 1.0 && Dot(p.N, p.N) == 1.0 && Dot(p.V, p.V) == radius * radius
  {
    var c, s := cos(t), sin(t);
    SquaredScale(c, s, radius);
  }

  /** `(r c)^2 + (r s)^2 = r^2 (c^2 + s^2)`. */
  lemma SquaredScale(c: real, s: real, r: real)
    requires c * c + s * s == 1.0
    ensures (r * c) * (r * c) + (r * s) * (r * s) + (r * 0.0) * (r * 0.0) == r * r
  {
  }


}
