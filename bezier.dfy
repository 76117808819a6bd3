/** `evalBezier`: piecewise cubic Bezier evaluation with a propagated frame. */
module Bezier {
  import opened Vectors
  import opened Matrices
  import opened Basis
  import opened Curves
  import opened Frames

  /** The check at the top of evalBezier: at least 4 points and 3n+1 of them. */
  predicate IsBezierPolygon(P: seq<Vec3>) {
    |P| >= 4 && |P| % 3 == 1
  }

  /** The parameter `t = s / steps` of sample `s`. */
  function Param(s: nat, steps: nat): real
    requires steps >= 1
  {
    s as real / steps as real
  }

  /** Sample `s` of the segment of window `w`:
      `V = (G * Bernstein * basis).xyz()` and `T = (G * dBernstein * basis).xyz().normalized()`. */
  function SegmentSample(w: Window, s: nat, steps: nat, invLength: Vec3 -> real): Sample
    requires steps >= 1
  {
    var G := Geometry(w);
    var basis := PowerBasis(Param(s, steps));
    Sample(Xyz(Apply(Mul(G, Bernstein), basis)), Normalize(Xyz(Apply(Mul(G, DBernstein), basis)), invLength))
  }

  /** Each sample lies on the cubic Bezier curve of its window, and its tangent
      is the normalized derivative of that curve. */
  lemma SegmentSampleIsBezier(w: Window, s: nat, steps: nat, invLength: Vec3 -> real)
    requires steps >= 1
    ensures SegmentSample(w, s, steps, invLength).V == BernsteinPoint(w, Param(s, steps))
    ensures SegmentSample(w, s, steps, invLength).T == Normalize(BernsteinTangent(w, Param(s, steps)), invLength)
  {
    BernsteinEvaluates(w, Param(s, steps));
    DBernsteinEvaluates(w, Param(s, steps));
  }

  /** A way of sampling a window: sample `s` of window `w`. The chain and frame
      structure below is stated for any sampler; `BezierSampler` is evalBezier's. */
  type Sampler = (Window, nat) -> Sample

  function BezierSampler(steps: nat, invLength: Vec3 -> real): Sampler
    requires steps >= 1
  {
    (w: Window, s: nat) => SegmentSample(w, s, steps, invLength)
  }

  /** The `steps + 1` samples of one window, s = 0 .. steps. */
  function WindowSamples(w: Window, steps: nat, sample: Sampler): (xs: seq<Sample>)
    ensures |xs| == steps + 1
  {
    seq(steps + 1, s requires 0 <= s <= steps => sample(w, s))
  }

  /** The samples of a chain of segments that share end points, window by window:
      P[0..4], P[3..7], P[6..10], ... */
  function ChainSamples(P: seq<Vec3>, steps: nat, sample: Sampler): seq<Sample>
    decreases |P|
  {
    if |P| < 4 then [] else WindowSamples(WindowAt(P, 0), steps, sample) + ChainSamples(P[3..], steps, sample)
  }

  /** The curve that evalBezier returns for a valid control polygon. */
  function BezierCurve(P: seq<Vec3>, steps: nat, invLength: Vec3 -> real): seq<CurvePoint>
    requires steps >= 1
  {
    AttachAll([], ChainSamples(P, steps, BezierSampler(steps, invLength)), invLength)
  }

  /** The samples from window `i` on are that window's samples, then the rest. */
  lemma ChainSamplesFrom(P: seq<Vec3>, i: nat, steps: nat, sample: Sampler)
    requires i + 4 <= |P|
    ensures ChainSamples(P[i..], steps, sample)
         == WindowSamples(WindowAt(P, i), steps, sample) + ChainSamples(P[i + 3..], steps, sample)
  {
    assert P[i..][3..] == P[i + 3..];
  }

  /** The inner loop of evalBezier over one window `w`: samples it at s = 0..steps
      and attaches each frame, seeding only when `first` and s == 0. */
  method AppendSegment(C: seq<CurvePoint>, w: Window, first: bool, steps: nat, invLength: Vec3 -> real)
    returns (C': seq<CurvePoint>)
    requires steps >= 1
    requires first <==> C == []
    ensures C' == AttachAll(C, WindowSamples(w, steps, BezierSampler(steps, invLength)), invLength)
    ensures |C'| == |C| + steps + 1
  {
    var G := Geometry(w);
    var GxB := Mul(G, Bernstein);
    var GxdB := Mul(G, DBernstein);
    ghost var segment := WindowSamples(w, steps, BezierSampler(steps, invLength));
    C' := C;
    var s := 0;
    while s <= steps
      invariant 0 <= s <= steps + 1
      invariant |C'| == |C| + s
      invariant AttachAll(C', segment[s..], invLength) == AttachAll(C, segment, invLength)
    {
      var t := s as real / steps as real;
      var basis := PowerBasis(t);
      var V := Xyz(Apply(GxB, basis));
      var T := Normalize(Xyz(Apply(GxdB, basis)), invLength);
      var next;
      if first && s == 0 {
        next := SeedFrame(Sample(V, T), invLength);
      } else {
        next := Propagate(C'[|C'| - 1].B, Sample(V, T), invLength);
      }
      assert segment[s] == Sample(V, T);
      AttachAllStep(C', segment, s, invLength);
      C' := C' + [next];
      s := s + 1;
    }
  }

  /** Attaching frames to the samples from window i on is attaching window i's
      samples, then those of the windows from i + 3 on. */
  lemma ChainStep(P: seq<Vec3>, i: nat, C: seq<CurvePoint>, steps: nat, invLength: Vec3 -> real)
    requires steps >= 1 && i + 4 <= |P|
    ensures AttachAll(C, ChainSamples(P[i..], steps, BezierSampler(steps, invLength)), invLength)
         == AttachAll(AttachAll(C, WindowSamples(WindowAt(P, i), steps, BezierSampler(steps, invLength)), invLength),
                      ChainSamples(P[i + 3..], steps, BezierSampler(steps, invLength)), invLength)
  {
    var sample := BezierSampler(steps, invLength);
    ChainSamplesFrom(P, i, steps, sample);
    AttachAllConcat(C, WindowSamples(WindowAt(P, i), steps, sample), ChainSamples(P[i + 3..], steps, sample), invLength);
  }

  /** evalBezier. Reports a polygon that is not 3n+1 points (n >= 1); otherwise
      samples its windows and attaches the frames (`SampleWindows`). */
  method EvalBezier(P: seq<Vec3>, steps: nat, invLength: Vec3 -> real) returns (r: Result<seq<CurvePoint>>)
    requires IsBezierPolygon(P) ==> steps >= 1
    ensures !IsBezierPolygon(P) ==> r == Err(TooFewOrMisalignedPoints(|P|))
    ensures IsBezierPolygon(P) ==> r == Ok(BezierCurve(P, steps, invLength))
  {
    if |P| < 4 || |P| % 3 != 1 {
      return Err(TooFewOrMisalignedPoints(|P|));
    }
    var C := SampleWindows(P, steps, invLength);
    return Ok(C);
  }

  /** The window loop of evalBezier: walks the windows P[i..i+4] for i = 0, 3, 6, ...,
      samples each at t = s/steps for s = 0..steps and attaches the frames in order. */
  method SampleWindows(P: seq<Vec3>, steps: nat, invLength: Vec3 -> real) returns (C: seq<CurvePoint>)
    requires steps >= 1 && IsBezierPolygon(P)
    ensures C == BezierCurve(P, steps, invLength)
  {
    ghost var sample := BezierSampler(steps, invLength);
    ghost var n := (|P| - 1) / 3;
    C := [];
    var i := 0;
    ghost var k := 0;
    while i < |P| - 1
      invariant |P| == 3 * n + 1
      invariant 0 <= k <= n && i == 3 * k
      invariant i == 0 <==> C == []
      invariant AttachAll(C, ChainSamples(P[i..], steps, sample), invLength) == BezierCurve(P, steps, invLength)
    {
      assert k + 1 <= n;
      ChainStep(P, i, C, steps, invLength);
      C := AppendSegment(C, WindowAt(P, i), i == 0, steps, invLength);
      i, k := i + 3, k + 1;
    }
  }

  // ----- What the returned curve is -----

  /** Each window contributes `steps + 1` samples. */
  lemma {:induction false} ChainSamplesLength(P: seq<Vec3>, steps: nat, sample: Sampler)
    requires |P| % 3 == 1
    ensures |ChainSamples(P, steps, sample)| == (|P| - 1) / 3 * (steps + 1)
    decreases |P|
  {
    if |P| >= 4 {
      ChainSamplesLength(P[3..], steps, sample);
      assert (|P| - 1) / 3 == (|P| - 4) / 3 + 1;
      SkipWindow((|P| - 1) / 3, steps + 1, 0);
    }
  }

  /** Where sample `s` of window `k` lands in the returned curve: each window adds `steps + 1` points. */
  function SampleIndex(k: nat, s: nat, steps: nat): nat {
    k * (steps + 1) + s
  }

  /** Index arithmetic: skipping the first of k windows of m samples. */
  lemma SkipWindow(k: nat, m: nat, s: nat)
    requires k >= 1
    ensures k * m + s == m + ((k - 1) * m + s)
  {
  }

  /** Sample `k * (steps + 1) + s` of the chain is sample `s` of window k, which is
      P[3k..3k+4]: consecutive windows overlap in one point. */
  lemma {:induction false} ChainSampleAt(P: seq<Vec3>, k: nat, s: nat, steps: nat, sample: Sampler)
    requires s <= steps && 3 * k + 4 <= |P|
    ensures SampleIndex(k, s, steps) < |ChainSamples(P, steps, sample)|
    ensures ChainSamples(P, steps, sample)[SampleIndex(k, s, steps)] == sample(WindowAt(P, 3 * k), s)
    decreases k
  {
    var first := WindowSamples(WindowAt(P, 0), steps, sample);
    var rest := ChainSamples(P[3..], steps, sample);
    var j := SampleIndex(k, s, steps);
    assert ChainSamples(P, steps, sample) == first + rest;
    if k == 0 {
      assert j == s;
    } else {
      var j' := SampleIndex(k - 1, s, steps);
      ChainSampleAt(P[3..], k - 1, s, steps, sample);
      assert WindowAt(P[3..], 3 * (k - 1)) == WindowAt(P, 3 * k);
      SampleIndexNext(k, s, steps);
      assert (first + rest)[|first| + j'] == rest[j'];
    }
  }

  /** The samples of window k come right after the `steps + 1` samples of window 0. */
  lemma SampleIndexNext(k: nat, s: nat, steps: nat)
    requires k >= 1
    ensures SampleIndex(k, s, steps) == (steps + 1) + SampleIndex(k - 1, s, steps)
  {
    SkipWindow(k, steps + 1, s);
  }

  /** For any sampler, frame `k * (steps + 1) + s` of the chain carries the position and
      tangent of sample `s` of window k. */
  lemma ChainFrameAt(P: seq<Vec3>, k: nat, s: nat, steps: nat, sample: Sampler, invLength: Vec3 -> real)
    requires s <= steps && 3 * k + 4 <= |P|
    ensures SampleIndex(k, s, steps) < |AttachAll([], ChainSamples(P, steps, sample), invLength)|
    ensures var p := AttachAll([], ChainSamples(P, steps, sample), invLength)[SampleIndex(k, s, steps)];
            p.V == sample(WindowAt(P, 3 * k), s).V && p.T == sample(WindowAt(P, 3 * k), s).T
  {
    var xs := ChainSamples(P, steps, sample);
    ChainSampleAt(P, k, s, steps, sample);
    AttachAllAt([], xs, SampleIndex(k, s, steps), invLength);
  }

  /** evalBezier returns `steps + 1` points per window. */
  lemma BezierCurveLength(P: seq<Vec3>, steps: nat, invLength: Vec3 -> real)
    requires IsBezierPolygon(P) && steps >= 1
    ensures |BezierCurve(P, steps, invLength)| == (|P| - 1) / 3 * (steps + 1)
  {
    var xs := ChainSamples(P, steps, BezierSampler(steps, invLength));
    ChainSamplesLength(P, steps, BezierSampler(steps, invLength));
    AttachAllExtends([], xs, invLength);
  }

  /** Point `k * (steps + 1) + s` of the curve lies on window k's Bezier curve at
      t = s / steps, with that curve's normalized derivative as its tangent. */
  lemma BezierCurvePoint(P: seq<Vec3>, k: nat, s: nat, steps: nat, invLength: Vec3 -> real)
    requires steps >= 1 && s <= steps && 3 * k + 4 <= |P|
    ensures SampleIndex(k, s, steps) < |BezierCurve(P, steps, invLength)|
    ensures BezierCurve(P, steps, invLength)[SampleIndex(k, s, steps)].V == BernsteinPoint(WindowAt(P, 3 * k), Param(s, steps))
    ensures BezierCurve(P, steps, invLength)[SampleIndex(k, s, steps)].T
         == Normalize(BernsteinTangent(WindowAt(P, 3 * k), Param(s, steps)), invLength)
  {
    ChainFrameAt(P, k, s, steps, BezierSampler(steps, invLength), invLength);
    SegmentSampleIsBezier(WindowAt(P, 3 * k), s, steps, invLength);
  }

  /** The frames of the returned curve, stated on the curve alone: point 0 carries the
      seed binormal and `N = normalize(B x T)`; every later point, including the first
      point of each window after the first, takes `N = normalize(prevB x T)` and
      `B = normalize(T x N)` from the point just before it. */
  lemma BezierCurveFrames(P: seq<Vec3>, j: nat, steps: nat, invLength: Vec3 -> real)
    requires steps >= 1 && j < |BezierCurve(P, steps, invLength)|
    ensures var c := BezierCurve(P, steps, invLength);
            (j == 0 ==> c[0].B == SeedBinormal(c[0].T) && c[0].N == Normalize(Cross(c[0].B, c[0].T), invLength)) &&
            (j > 0 ==> c[j].N == Normalize(Cross(c[j - 1].B, c[j].T), invLength) &&
                       c[j].B == Normalize(Cross(c[j].T, c[j].N), invLength))
    ensures var c := BezierCurve(P, steps, invLength);
            Dot(c[j].T, c[j].N) == 0.0 && Dot(c[j].N, c[j].B) == 0.0 &&
            (j > 0 ==> Dot(c[j].T, c[j].B) == 0.0)
  {
    var xs := ChainSamples(P, steps, BezierSampler(steps, invLength));
    AttachAllExtends([], xs, invLength);
    CurveFrameRecurrence(xs, j, invLength);
    FramesOrthogonal(xs, j, invLength);
  }

  /** Sample 0 is taken at t = 0 and sample `steps` at t = 1. */
  lemma ParamEnds(steps: nat)
    requires steps >= 1
    ensures Param(0, steps) == 0.0 && Param(steps, steps) == 1.0
  {}

  /** Each window's first point is its first control point and its last point is its
      last control point. */
  lemma BezierInterpolatesEnds(P: seq<Vec3>, k: nat, steps: nat, invLength: Vec3 -> real)
    requires steps >= 1 && 3 * k + 4 <= |P|
    ensures SampleIndex(k, steps, steps) < |BezierCurve(P, steps, invLength)|
    ensures BezierCurve(P, steps, invLength)[SampleIndex(k, 0, steps)].V == P[3 * k]
    ensures BezierCurve(P, steps, invLength)[SampleIndex(k, steps, steps)].V == P[3 * k + 3]
  {
    var w := WindowAt(P, 3 * k);
    var t0, t1 := Param(0, steps), Param(steps, steps);
    ParamEnds(steps);
    BezierCurvePoint(P, k, 0, steps, invLength);
    BezierCurvePoint(P, k, steps, steps, invLength);
    BernsteinStart(w, t0);
    BernsteinEnd(w, t1);
  }

  /** C0 continuity at every join: the last point of window k and the first point of
      window k + 1 are adjacent in the curve and sit at the same place, P[3k+3]. */
  lemma BezierJoinsContinuous(P: seq<Vec3>, k: nat, steps: nat, invLength: Vec3 -> real)
    requires steps >= 1 && 3 * (k + 1) + 4 <= |P|
    ensures SampleIndex(k + 1, 0, steps) == SampleIndex(k, steps, steps) + 1
    ensures SampleIndex(k + 1, 0, steps) < |BezierCurve(P, steps, invLength)|
    ensures BezierCurve(P, steps, invLength)[SampleIndex(k, steps, steps)].V
         == BezierCurve(P, steps, invLength)[SampleIndex(k + 1, 0, steps)].V
  {
    BezierInterpolatesEnds(P, k, steps, invLength);
    BezierInterpolatesEnds(P, k + 1, steps, invLength);
  }

  /** The first point of the curve: B is perpendicular to T only when the starting
      tangent has no z component or is parallel to the z-axis. */
  lemma BezierFirstFrame(P: seq<Vec3>, steps: nat, invLength: Vec3 -> real)
    requires steps >= 1 && 4 <= |P|
    ensures 0 < |BezierCurve(P, steps, invLength)|
    ensures var c := BezierCurve(P, steps, invLength);
            c[0].T == Normalize(BernsteinTangent(WindowAt(P, 0), 0.0), invLength) &&
            (Dot(c[0].T, c[0].B) == 0.0 <==> (c[0].T.z == 0.0 || Cross(c[0].T, Vec3(0.0, 0.0, 1.0)) == Zero3))
  {
    var xs := ChainSamples(P, steps, BezierSampler(steps, invLength));
    ParamEnds(steps);
    BezierCurvePoint(P, 0, 0, steps, invLength);
    assert SampleIndex(0, 0, steps) == 0;
    AttachAllExtends([], xs, invLength);
    FrameRecurrence(xs, 0, invLength);
    SeedBinormalOrthogonal(xs[0], invLength);
  }
}
