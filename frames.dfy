/** The moving frame evalBezier attaches to its samples: a seed for the very first
    sample and, for every later one, a frame computed from the previous binormal. */
module Frames {
  import opened Vectors
  import opened Curves

  /** Position and unit tangent of one sample, before a frame is attached. */
  datatype Sample = Sample(V: Vec3, T: Vec3)

  /** The binormal the first frame starts from: (0,0,1), or (0,1,0) when the tangent
      is parallel to (0,0,1). Either way a unit axis vector. */
  function SeedBinormal(T: Vec3): (B: Vec3)
    ensures B == Vec3(0.0, 0.0, 1.0) || B == Vec3(0.0, 1.0, 0.0)
  {
    if Cross(T, Vec3(0.0, 0.0, 1.0)) == Zero3 then Vec3(0.0, 1.0, 0.0) else Vec3(0.0, 0.0, 1.0)
  }

  /** The seed binormal is never parallel to a nonzero tangent, so the seed normal
      `normalize(B x T)` normalizes a nonzero vector. */
  lemma SeedBinormalNotParallel(T: Vec3)
    requires T != Zero3
    ensures Cross(SeedBinormal(T), T) != Zero3
  {
  }

  /** The frame of the very first sample: the seed binormal, and `N = normalize(B x T)`. */
  function SeedFrame(x: Sample, invLength: Vec3 -> real): CurvePoint {
    var B := SeedBinormal(x.T);
    CurvePoint(x.V, x.T, Normalize(Cross(B, x.T), invLength), B)
  }

  /** The frame of every later sample, from the previous binormal:
      `N = normalize(lastB x T)`, then `B = normalize(T x N)`. */
  function Propagate(lastB: Vec3, x: Sample, invLength: Vec3 -> real): CurvePoint {
    var N := Normalize(Cross(lastB, x.T), invLength);
    CurvePoint(x.V, x.T, N, Normalize(Cross(x.T, N), invLength))
  }

  /** The frame of the next sample, given the curve built so far. */
  function Attach(built: seq<CurvePoint>, x: Sample, invLength: Vec3 -> real): CurvePoint {
    if built == [] then SeedFrame(x, invLength) else Propagate(built[|built| - 1].B, x, invLength)
  }

  /** Attaches frames to the samples `xs`, in order, after the curve `built`. */
  function AttachAll(built: seq<CurvePoint>, xs: seq<Sample>, invLength: Vec3 -> real): seq<CurvePoint>
    decreases |xs|
  {
    if xs == [] then built else AttachAll(built + [Attach(built, xs[0], invLength)], xs[1..], invLength)
  }

  /** Both frames keep the sample's position and tangent; the seed's normal is
      perpendicular to its tangent and binormal. */
  lemma SeedFrameShape(x: Sample, invLength: Vec3 -> real)
    ensures var p := SeedFrame(x, invLength);
      p.V == x.V && p.T == x.T && Dot(p.T, p.N) == 0.0 && Dot(p.N, p.B) == 0.0
  {
    var B := SeedBinormal(x.T);
    ScaledCrossOrthogonal(B, x.T, invLength(Cross(B, x.T)));
  }

  /** A propagated frame is pairwise orthogonal: N is perpendicular to T and to the
      previous binormal, and the new B is perpendicular to T and N. */
  lemma PropagateOrthogonal(lastB: Vec3, x: Sample, invLength: Vec3 -> real)
    ensures var p := Propagate(lastB, x, invLength);
      p.V == x.V && p.T == x.T &&
      Dot(p.T, p.N) == 0.0 && Dot(p.N, p.B) == 0.0 && Dot(p.T, p.B) == 0.0 && Dot(lastB, p.N) == 0.0
  {
    var N := Normalize(Cross(lastB, x.T), invLength);
    ScaledCrossOrthogonal(lastB, x.T, invLength(Cross(lastB, x.T)));
    ScaledCrossOrthogonal(x.T, N, invLength(Cross(x.T, N)));
  }

  /** Attaching the samples from index `s` on is attaching sample `s`, then the rest. */
  lemma AttachAllStep(built: seq<CurvePoint>, xs: seq<Sample>, s: nat, invLength: Vec3 -> real)
    requires s < |xs|
    ensures AttachAll(built, xs[s..], invLength)
         == AttachAll(built + [Attach(built, xs[s], invLength)], xs[s + 1..], invLength)
  {
    assert xs[s..][1..] == xs[s + 1..];
  }

  /** Attaching two runs of samples is attaching the first, then the second: the frame
      is carried across the boundary and never restarted. */
  lemma {:induction false} AttachAllConcat(built: seq<CurvePoint>, xs: seq<Sample>, ys: seq<Sample>, invLength: Vec3 -> real)
    ensures AttachAll(built, xs + ys, invLength) == AttachAll(AttachAll(built, xs, invLength), ys, invLength)
    decreases |xs|
  {
    if xs == [] {
      assert xs + ys == ys;
    } else {
      assert (xs + ys)[1..] == xs[1..] + ys;
      AttachAllConcat(built + [Attach(built, xs[0], invLength)], xs[1..], ys, invLength);
    }
  }

  /** Attaching frames keeps the curve built so far and adds one frame per sample. */
  lemma {:induction false} AttachAllExtends(built: seq<CurvePoint>, xs: seq<Sample>, invLength: Vec3 -> real)
    ensures |AttachAll(built, xs, invLength)| == |built| + |xs|
    ensures AttachAll(built, xs, invLength)[..|built|] == built
    decreases |xs|
  {
    if xs != [] {
      var next := built + [Attach(built, xs[0], invLength)];
      AttachAllExtends(next, xs[1..], invLength);
      assert AttachAll(built, xs, invLength)[..|built|] == next[..|built|];
    }
  }

  /** Frame `|built| + j` is the one attached to sample `j`, from the frames before it. */
  lemma {:induction false} AttachAllAt(built: seq<CurvePoint>, xs: seq<Sample>, j: nat, invLength: Vec3 -> real)
    requires j < |xs|
    ensures |AttachAll(built, xs, invLength)| == |built| + |xs|
    ensures var c := AttachAll(built, xs, invLength);
            c[|built| + j] == Attach(c[..|built| + j], xs[j], invLength)
    decreases |xs|
  {
    AttachAllExtends(built, xs, invLength);
    var next := built + [Attach(built, xs[0], invLength)];
    var c := AttachAll(built, xs, invLength);
    assert c == AttachAll(next, xs[1..], invLength);
    if j == 0 {
      AttachAllExtends(next, xs[1..], invLength);
      assert c[..|next|] == next;
      assert c[..|built|] == built;
    } else {
      AttachAllAt(next, xs[1..], j - 1, invLength);
    }
  }

  /** The frames attached to samples from scratch: frame 0 is the seed, and every later
      frame is propagated from the binormal of the frame just before it. */
  lemma FrameRecurrence(xs: seq<Sample>, j: nat, invLength: Vec3 -> real)
    requires j < |xs|
    ensures |AttachAll([], xs, invLength)| == |xs|
    ensures var c := AttachAll([], xs, invLength);
            (j == 0 ==> c[j] == SeedFrame(xs[j], invLength)) &&
            (j > 0 ==> c[j] == Propagate(c[j - 1].B, xs[j], invLength))
  {
    AttachAllAt([], xs, j, invLength);
  }

  /** Every attached frame has N perpendicular to T and to B; every frame after the
      first also has B perpendicular to T, and N perpendicular to the previous binormal. */
  lemma FramesOrthogonal(xs: seq<Sample>, j: nat, invLength: Vec3 -> real)
    requires j < |xs|
    ensures |AttachAll([], xs, invLength)| == |xs|
    ensures var c := AttachAll([], xs, invLength);
            Dot(c[j].T, c[j].N) == 0.0 && Dot(c[j].N, c[j].B) == 0.0 &&
            (j > 0 ==> Dot(c[j].T, c[j].B) == 0.0 && Dot(c[j - 1].B, c[j].N) == 0.0)
  {
    FrameRecurrence(xs, j, invLength);
    var c := AttachAll([], xs, invLength);
    if j == 0 {
      SeedFrameShape(xs[j], invLength);
    } else {
      PropagateOrthogonal(c[j - 1].B, xs[j], invLength);
    }
  }

  /** The same recurrence, stated on the attached curve alone. */
  lemma CurveFrameRecurrence(xs: seq<Sample>, j: nat, invLength: Vec3 -> real)
    requires j < |xs|
    ensures |AttachAll([], xs, invLength)| == |xs|
    ensures var c := AttachAll([], xs, invLength);
            (j == 0 ==> c[0].B == SeedBinormal(c[0].T) && c[0].N == Normalize(Cross(c[0].B, c[0].T), invLength)) &&
            (j > 0 ==> c[j].N == Normalize(Cross(c[j - 1].B, c[j].T), invLength) &&
                       c[j].B == Normalize(Cross(c[j].T, c[j].N), invLength))
  {
    FrameRecurrence(xs, j, invLength);
  }

  /** The seed binormal is not re-orthogonalised: the first frame's B is perpendicular
      to its T exactly when T lies in the xy-plane or along the z-axis. */
  lemma SeedBinormalOrthogonal(x: Sample, invLength: Vec3 -> real)
    ensures var p := SeedFrame(x, invLength);
            Dot(p.T, p.B) == 0.0 <==> (x.T.z == 0.0 || Cross(x.T, Vec3(0.0, 0.0, 1.0)) == Zero3)
  {
  }
}
