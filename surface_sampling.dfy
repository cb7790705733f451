/**
 * Area-weighted surface sampling, as in `sample_mesh_surface`: the per-face areas, their running
 * sums, the division by the total area, the `std::lower_bound` search that turns a uniform draw
 * into a face index, and the barycentric point placed on that face.
 *
 * The vector norm, the random draws and the square root of the second draw are parameters.
 * Reading a face row past the end of `F` is undefined behaviour in the source; here it is the
 * error `FaceIndexOutOfRange`.
 */
module SurfaceSampling {
  import opened Linear
  import opened Wrappers

  /** One row of the face matrix `F`: three vertex indices. */
  datatype Face = Face(a: int, b: int, c: int)

  /**
   * The three draws of one sample: `u` selects the face, `r1` is the square root of the second
   * draw and `r2` is the third draw.
   */
  datatype Draw = Draw(u: real, r1: real, r2: real)

  datatype SampleError = FaceIndexOutOfRange

  predicate ValidFace(vertexCount: nat, t: Face) {
    0 <= t.a < vertexCount && 0 <= t.b < vertexCount && 0 <= t.c < vertexCount
  }

  /** Every face names three rows of `V`. */
  predicate ValidMesh(V: seq<Vec3>, F: seq<Face>) {
    forall i :: 0 <= i < |F| ==> ValidFace(|V|, F[i])
  }

  predicate NonNegative(s: seq<real>) {
    forall i :: 0 <= i < |s| ==> s[i] >= 0.0
  }

  predicate Sorted(s: seq<real>) {
    forall i, j :: 0 <= i <= j < |s| ==> s[i] <= s[j]
  }

  /** The precondition of `std::lower_bound`: every entry below `u` precedes every other one. */
  predicate Partitioned(s: seq<real>, u: real) {
    forall i, j :: 0 <= i <= j < |s| && s[j] < u ==> s[i] < u
  }

  // ---------------------------------------------------------------------------
  // Areas, running sums and the normalised CDF
  // ---------------------------------------------------------------------------

  /** Half the norm of the cross product of two edges of face `t`. */
  function TriangleArea(V: seq<Vec3>, t: Face, norm: Vec3 -> real): real
    requires ValidFace(|V|, t)
  {
    0.5 * norm(Cross(Sub(V[t.b], V[t.a]), Sub(V[t.c], V[t.a])))
  }

  function Areas(V: seq<Vec3>, F: seq<Face>, norm: Vec3 -> real): seq<real>
    requires ValidMesh(V, F)
  {
    seq(|F|, i requires 0 <= i < |F| => TriangleArea(V, F[i], norm))
  }

  lemma AreasNonNegative(V: seq<Vec3>, F: seq<Face>, norm: Vec3 -> real)
    requires ValidMesh(V, F)
    requires forall v :: norm(v) >= 0.0
    ensures |Areas(V, F, norm)| == |F|
    ensures NonNegative(Areas(V, F, norm))
  {
  }

  /** The sum of the entries, as Eigen's `sum()`. */
  function Sum(s: seq<real>): real {
    if |s| == 0 then 0.0 else Sum(s[..|s| - 1]) + s[|s| - 1]
  }

  /** Entry `i` is the sum of the first `i + 1` entries of `s`. */
  function PrefixSums(s: seq<real>): seq<real> {
    seq(|s|, i requires 0 <= i < |s| => Sum(s[..i + 1]))
  }

  /** Every entry divided by `total` when `total` is positive, and `c` itself otherwise. */
  function Normalised(c: seq<real>, total: real): seq<real> {
    if total > 0.0 then seq(|c|, i requires 0 <= i < |c| => c[i] / total) else c
  }

  /** The CDF that the face search runs on. */
  function Cdf(area: seq<real>): seq<real> {
    Normalised(PrefixSums(area), Sum(area))
  }

  lemma SumSnoc(s: seq<real>, i: nat)
    requires i < |s|
    ensures Sum(s[..i + 1]) == Sum(s[..i]) + s[i]
  {
    assert s[..i + 1][..i] == s[..i];
  }

  lemma {:induction false} SumPrefixGrows(s: seq<real>, i: nat, j: nat)
    requires NonNegative(s)
    requires i <= j <= |s|
    ensures Sum(s[..i]) <= Sum(s[..j])
    decreases j - i
  {
    if i < j {
      SumPrefixGrows(s, i, j - 1);
      SumSnoc(s, j - 1);
    }
  }

  lemma SumWhole(s: seq<real>)
    ensures Sum(s[..|s|]) == Sum(s)
  {
    assert s[..|s|] == s;
  }

  /** With non-negative areas the running sums never decrease, start at 0 and end at the total. */
  lemma PrefixSumsBounds(s: seq<real>)
    requires NonNegative(s)
    ensures |PrefixSums(s)| == |s|
    ensures Sorted(PrefixSums(s))
    ensures forall i :: 0 <= i < |s| ==> 0.0 <= PrefixSums(s)[i] <= Sum(s)
  {
    var c := PrefixSums(s);
    forall i, j | 0 <= i <= j < |s|
      ensures c[i] <= c[j]
    {
      SumPrefixGrows(s, i + 1, j + 1);
    }
    forall i | 0 <= i < |s|
      ensures 0.0 <= c[i] <= Sum(s)
    {
      SumPrefixGrows(s, 0, i + 1);
      SumPrefixGrows(s, i + 1, |s|);
      SumWhole(s);
    }
  }

  lemma PrefixSumsLast(s: seq<real>)
    requires |s| > 0
    ensures PrefixSums(s)[|s| - 1] == Sum(s)
  {
    SumWhole(s);
  }

  lemma PrefixSumsStep(s: seq<real>, i: nat)
    requires 0 < i < |s|
    ensures PrefixSums(s)[i] == PrefixSums(s)[i - 1] + s[i]
  {
    SumSnoc(s, i);
  }

  lemma DivideMonotone(x: real, y: real, t: real)
    requires x <= y && t > 0.0
    ensures x / t <= y / t
  {
    assert y / t - x / t == (y - x) / t;
  }

  lemma DivideUnit(x: real, t: real)
    requires 0.0 <= x <= t && t > 0.0
    ensures 0.0 <= x / t <= 1.0
  {
    DivideMonotone(x, t, t);
  }

  /** The CDF of non-negative areas is sorted. */
  lemma CdfSorted(area: seq<real>)
    requires NonNegative(area)
    ensures |Cdf(area)| == |area|
    ensures Sorted(Cdf(area))
  {
    PrefixSumsBounds(area);
    var c := PrefixSums(area);
    var total := Sum(area);
    if total > 0.0 {
      forall i, j | 0 <= i <= j < |area|
        ensures Cdf(area)[i] <= Cdf(area)[j]
      {
        DivideMonotone(c[i], c[j], total);
      }
    }
  }

  /** A positive total makes every CDF entry a fraction, the last one exactly 1. */
  lemma NormalisedCdf(area: seq<real>)
    requires NonNegative(area)
    requires Sum(area) > 0.0
    ensures |Cdf(area)| == |area| > 0
    ensures forall i :: 0 <= i < |area| ==> 0.0 <= Cdf(area)[i] <= 1.0
    ensures Cdf(area)[|area| - 1] == 1.0
  {
    PrefixSumsBounds(area);
    var total := Sum(area);
    forall i | 0 <= i < |area|
      ensures 0.0 <= Cdf(area)[i] <= 1.0
    {
      DivideUnit(PrefixSums(area)[i], total);
    }
    PrefixSumsLast(area);
    assert Cdf(area)[|area| - 1] == total / total;
    DivideSelf(total);
  }

  lemma DivideSelf(t: real)
    requires t > 0.0
    ensures t / t == 1.0
  {
  }

  /** A zero total skips the division and leaves every CDF entry 0. */
  lemma ZeroAreaCdf(area: seq<real>)
    requires NonNegative(area)
    requires Sum(area) == 0.0
    ensures |Cdf(area)| == |area|
    ensures forall i :: 0 <= i < |area| ==> Cdf(area)[i] == 0.0
  {
    PrefixSumsBounds(area);
  }

  // ---------------------------------------------------------------------------
  // The face search
  // ---------------------------------------------------------------------------

  /** The least index whose entry is at least `u`, or `|s|` when there is none. */
  function FirstAtLeast(s: seq<real>, u: real): (f: nat)
    ensures f <= |s|
    ensures forall i :: 0 <= i < f ==> s[i] < u
    ensures f < |s| ==> s[f] >= u
  {
    if |s| == 0 then 0
    else if s[0] >= u then 0
    else 1 + FirstAtLeast(s[1..], u)
  }

  lemma FirstAtLeastUnique(s: seq<real>, u: real, f: nat)
    requires f <= |s|
    requires forall i :: 0 <= i < f ==> s[i] < u
    requires f < |s| ==> s[f] >= u
    ensures f == FirstAtLeast(s, u)
  {
  }

  lemma SortedPartitioned(s: seq<real>, u: real)
    requires Sorted(s)
    ensures Partitioned(s, u)
  {
  }

  /** `std::lower_bound` over the whole array, halving the candidate range at each step. */
  method LowerBound(cdf: array<real>, u: real) returns (f: nat)
    requires Partitioned(cdf[..], u)
    ensures f == FirstAtLeast(cdf[..], u)
  {
    var first := 0;
    var len := cdf.Length;
    while len > 0
      invariant 0 <= first <= first + len <= cdf.Length
      invariant forall i :: 0 <= i < first ==> cdf[i] < u
      invariant forall i :: first + len <= i < cdf.Length ==> cdf[i] >= u
      decreases len
    {
      var half := len / 2;
      var middle := first + half;
      if cdf[middle] < u {
        first := middle + 1;
        len := len - half - 1;
      } else {
        len := half;
      }
    }
    f := first;
    FirstAtLeastUnique(cdf[..], u, f);
  }

  /** With a positive total, every draw `u <= 1` selects an existing face. */
  lemma FaceInRange(area: seq<real>, u: real)
    requires NonNegative(area)
    requires Sum(area) > 0.0
    requires u <= 1.0
    ensures FirstAtLeast(Cdf(area), u) < |area|
  {
    NormalisedCdf(area);
  }

  /** With a zero total, every draw `u > 0` selects the index one past the last face. */
  lemma ZeroAreaSelectsPastEnd(area: seq<real>, u: real)
    requires NonNegative(area)
    requires Sum(area) == 0.0
    requires u > 0.0
    ensures FirstAtLeast(Cdf(area), u) == |area|
  {
    ZeroAreaCdf(area);
  }

  /** A draw `u > 0` never selects a face of zero area. */
  lemma SelectedFaceHasArea(area: seq<real>, u: real)
    requires NonNegative(area)
    requires u > 0.0
    requires FirstAtLeast(Cdf(area), u) < |area|
    ensures area[FirstAtLeast(Cdf(area), u)] > 0.0
  {
    var f := FirstAtLeast(Cdf(area), u);
    var c := PrefixSums(area);
    var total := Sum(area);
    PrefixSumsBounds(area);
    if total <= 0.0 {
      ZeroAreaSelectsPastEnd(area, u);
      assert false;
    }
    if f == 0 {
      SumSnoc(area, 0);
      assert c[0] == area[0];
      assert c[0] / total >= u;
    } else {
      PrefixSumsStep(area, f);
      var C := Cdf(area);
      assert C[f - 1] < u <= C[f];
      assert C[f - 1] == c[f - 1] / total && C[f] == c[f] / total;
      if c[f] <= c[f - 1] {
        DivideMonotone(c[f], c[f - 1], total);
      }
    }
  }

  // ---------------------------------------------------------------------------
  // Sample points
  // ---------------------------------------------------------------------------

  /** `(1 - r1) a + r1 ((1 - r2) b + r2 c)`. */
  function SamplePoint(a: Vec3, b: Vec3, c: Vec3, d: Draw): Vec3 {
    Add(Scale(1.0 - d.r1, a), Scale(d.r1, Add(Scale(1.0 - d.r2, b), Scale(d.r2, c))))
  }

  /** The barycentric weights of the corners `a`, `b` and `c` in `SamplePoint`. */
  function Weights(d: Draw): Vec3 {
    Vec3(1.0 - d.r1, d.r1 * (1.0 - d.r2), d.r1 * d.r2)
  }

  function Combination(w: Vec3, a: Vec3, b: Vec3, c: Vec3): Vec3 {
    Add(Add(Scale(w.x, a), Scale(w.y, b)), Scale(w.z, c))
  }

  /**
   * A sample point is a convex combination of the face's corners: its weights sum to 1, and
   * they lie in [0, 1] when both `r1` and `r2` do.
   */
  lemma SamplePointBarycentric(a: Vec3, b: Vec3, c: Vec3, d: Draw)
    ensures SamplePoint(a, b, c, d) == Combination(Weights(d), a, b, c)
    ensures Weights(d).x + Weights(d).y + Weights(d).z == 1.0
    ensures 0.0 <= d.r1 <= 1.0 && 0.0 <= d.r2 <= 1.0 ==>
              0.0 <= Weights(d).x <= 1.0 && 0.0 <= Weights(d).y <= 1.0 && 0.0 <= Weights(d).z <= 1.0
  {
    var inner := Add(Scale(1.0 - d.r2, b), Scale(d.r2, c));
    calc {
      Scale(d.r1, inner);
      { ScaleAdd(d.r1, Scale(1.0 - d.r2, b), Scale(d.r2, c)); }
      Add(Scale(d.r1, Scale(1.0 - d.r2, b)), Scale(d.r1, Scale(d.r2, c)));
      { ScaleScale(d.r1, 1.0 - d.r2, b); ScaleScale(d.r1, d.r2, c); }
      Add(Scale(Weights(d).y, b), Scale(Weights(d).z, c));
    }
    WeightsSum(d.r1, d.r2);
    if 0.0 <= d.r1 <= 1.0 && 0.0 <= d.r2 <= 1.0 {
      WeightsBounded(d.r1, d.r2);
    }
  }

  lemma WeightsSum(r1: real, r2: real)
    ensures (1.0 - r1) + r1 * (1.0 - r2) + r1 * r2 == 1.0
  {
    assert r1 * (1.0 - r2) == r1 - r1 * r2;
  }

  lemma WeightsBounded(r1: real, r2: real)
    requires 0.0 <= r1 <= 1.0 && 0.0 <= r2 <= 1.0
    ensures 0.0 <= r1 * (1.0 - r2) <= 1.0 && 0.0 <= r1 * r2 <= 1.0
  {
    assert r1 * (1.0 - r2) <= r1 * 1.0;
    assert r1 * r2 <= r1 * 1.0;
  }

  /** The point placed on face `t` for draw `d`. */
  function FacePoint(V: seq<Vec3>, t: Face, d: Draw): Vec3
    requires ValidFace(|V|, t)
  {
    SamplePoint(V[t.a], V[t.b], V[t.c], d)
  }

  /**
   * The samples for `draws` in order, or an error at the first draw whose face index is past
   * the end of `F`.
   */
  function Samples(V: seq<Vec3>, F: seq<Face>, cdf: seq<real>, draws: seq<Draw>): Result<seq<Vec3>, SampleError>
    requires ValidMesh(V, F)
  {
    if |draws| == 0 then Success([])
    else
      match Samples(V, F, cdf, draws[..|draws| - 1])
      case Failure(e) => Failure(e)
      case Success(pts) =>
        var f := FirstAtLeast(cdf, draws[|draws| - 1].u);
        if f < |F| then Success(pts + [FacePoint(V, F[f], draws[|draws| - 1])])
        else Failure(FaceIndexOutOfRange)
  }

  /** What `sample_mesh_surface` computes for one sequence of draws. */
  function SampleSurface(V: seq<Vec3>, F: seq<Face>, norm: Vec3 -> real, draws: seq<Draw>): Result<seq<Vec3>, SampleError>
    requires ValidMesh(V, F)
  {
    Samples(V, F, Cdf(Areas(V, F, norm)), draws)
  }

  /** Every draw picks its face by the CDF search. */
  predicate AllInRange(F: seq<Face>, cdf: seq<real>, draws: seq<Draw>) {
    forall k :: 0 <= k < |draws| ==> FirstAtLeast(cdf, draws[k].u) < |F|
  }

  /**
   * Sampling succeeds exactly when every draw selects an existing face, and then sample `k` is
   * the point that draw `k` places on the face it selects.
   */
  lemma {:induction false} SamplesMeaning(V: seq<Vec3>, F: seq<Face>, cdf: seq<real>, draws: seq<Draw>)
    requires ValidMesh(V, F)
    ensures Samples(V, F, cdf, draws).Success? <==> AllInRange(F, cdf, draws)
    ensures Samples(V, F, cdf, draws).Success? ==>
              var pts := Samples(V, F, cdf, draws).value;
              |pts| == |draws| &&
              forall k :: 0 <= k < |draws| ==>
                FirstAtLeast(cdf, draws[k].u) < |F| &&
                pts[k] == FacePoint(V, F[FirstAtLeast(cdf, draws[k].u)], draws[k])
  {
    if |draws| > 0 {
      var init := draws[..|draws| - 1];
      SamplesMeaning(V, F, cdf, init);
      assert forall k :: 0 <= k < |init| ==> init[k] == draws[k];
      if !AllInRange(F, cdf, init) {
        var k :| 0 <= k < |init| && FirstAtLeast(cdf, init[k].u) >= |F|;
        assert FirstAtLeast(cdf, draws[k].u) >= |F|;
      }
    }
  }

  lemma {:induction false} SamplesFailureSticks(V: seq<Vec3>, F: seq<Face>, cdf: seq<real>, draws: seq<Draw>, k: nat)
    requires ValidMesh(V, F)
    requires k <= |draws|
    requires Samples(V, F, cdf, draws[..k]).Failure?
    ensures Samples(V, F, cdf, draws) == Failure(FaceIndexOutOfRange)
    decreases |draws| - k
  {
    if k < |draws| {
      assert draws[..k + 1][..k] == draws[..k];
      SamplesFailureSticks(V, F, cdf, draws, k + 1);
    } else {
      assert draws[..k] == draws;
      var r := Samples(V, F, cdf, draws);
      assert r.Failure? && r.error == FaceIndexOutOfRange;
    }
  }

  /** One more draw extends the samples by the point it places, or fails past the last face. */
  lemma SamplesSnoc(V: seq<Vec3>, F: seq<Face>, cdf: seq<real>, draws: seq<Draw>, k: nat, pts: seq<Vec3>)
    requires ValidMesh(V, F)
    requires k < |draws|
    requires Samples(V, F, cdf, draws[..k]) == Success(pts)
    ensures FirstAtLeast(cdf, draws[k].u) < |F| ==>
              Samples(V, F, cdf, draws[..k + 1]) == Success(pts + [FacePoint(V, F[FirstAtLeast(cdf, draws[k].u)], draws[k])])
    ensures FirstAtLeast(cdf, draws[k].u) >= |F| ==> Samples(V, F, cdf, draws[..k + 1]).Failure?
  {
    assert draws[..k + 1][..k] == draws[..k];
  }

  /**
   * On a mesh of positive total area every draw `u <= 1` succeeds, and each sample lies on a
   * face of positive area when its `u` is positive.
   */
  lemma PositiveAreaSampling(V: seq<Vec3>, F: seq<Face>, norm: Vec3 -> real, draws: seq<Draw>)
    requires ValidMesh(V, F)
    requires forall v :: norm(v) >= 0.0
    requires Sum(Areas(V, F, norm)) > 0.0
    requires forall k :: 0 <= k < |draws| ==> draws[k].u <= 1.0
    ensures SampleSurface(V, F, norm, draws).Success?
    ensures |SampleSurface(V, F, norm, draws).value| == |draws|
    ensures forall k :: 0 <= k < |draws| && draws[k].u > 0.0 ==>
              FirstAtLeast(Cdf(Areas(V, F, norm)), draws[k].u) < |Areas(V, F, norm)| &&
              Areas(V, F, norm)[FirstAtLeast(Cdf(Areas(V, F, norm)), draws[k].u)] > 0.0
  {
    var area := Areas(V, F, norm);
    AreasNonNegative(V, F, norm);
    forall k | 0 <= k < |draws|
      ensures FirstAtLeast(Cdf(area), draws[k].u) < |F|
    {
      FaceInRange(area, draws[k].u);
    }
    SamplesMeaning(V, F, Cdf(area), draws);
    forall k | 0 <= k < |draws| && draws[k].u > 0.0
      ensures area[FirstAtLeast(Cdf(area), draws[k].u)] > 0.0
    {
      SelectedFaceHasArea(area, draws[k].u);
    }
  }

  /** On a mesh of zero total area any draw `u > 0` reads past the last face. */
  lemma ZeroAreaSamplingFails(V: seq<Vec3>, F: seq<Face>, norm: Vec3 -> real, draws: seq<Draw>, k: nat)
    requires ValidMesh(V, F)
    requires forall v :: norm(v) >= 0.0
    requires Sum(Areas(V, F, norm)) == 0.0
    requires k < |draws| && draws[k].u > 0.0
    ensures SampleSurface(V, F, norm, draws) == Failure(FaceIndexOutOfRange)
  {
    var area := Areas(V, F, norm);
    AreasNonNegative(V, F, norm);
    ZeroAreaSelectsPastEnd(area, draws[k].u);
    assert |area| == |F|;
    assert !AllInRange(F, Cdf(area), draws);
    SamplesMeaning(V, F, Cdf(area), draws);
    var r := SampleSurface(V, F, norm, draws);
    assert r == Samples(V, F, Cdf(area), draws);
    assert r.Failure? && r.error == FaceIndexOutOfRange;
  }

  // ---------------------------------------------------------------------------
  // The imperative steps
  // ---------------------------------------------------------------------------

  /** The area loop: `area(f)` for every face `f`. */
  method FaceAreas(V: seq<Vec3>, F: seq<Face>, norm: Vec3 -> real) returns (area: array<real>)
    requires ValidMesh(V, F)
    ensures fresh(area)
    ensures area[..] == Areas(V, F, norm)
  {
    area := new real[|F|];
    var f := 0;
    while f < |F|
      invariant 0 <= f <= |F|
      invariant forall i :: 0 <= i < f ==> area[i] == TriangleArea(V, F[i], norm)
    {
      area[f] := TriangleArea(V, F[f], norm);
      f := f + 1;
    }
  }

  /** The running-sum loop `cdf(i) += cdf(i - 1)`. */
  method PrefixSumInPlace(cdf: array<real>)
    modifies cdf
    ensures cdf[..] == PrefixSums(old(cdf[..]))
  {
    ghost var s := cdf[..];
    var i := 1;
    while i < cdf.Length
      invariant 1 <= i && (i <= cdf.Length || cdf.Length == 0)
      invariant forall j :: 0 <= j < i && j < cdf.Length ==> cdf[j] == Sum(s[..j + 1])
      invariant forall j :: i <= j < cdf.Length ==> cdf[j] == s[j]
    {
      SumSnoc(s, i);
      cdf[i] := cdf[i] + cdf[i - 1];
      i := i + 1;
    }
  }

  /** `if (total > 0) cdf /= total`. */
  method NormaliseInPlace(cdf: array<real>, total: real)
    modifies cdf
    ensures cdf[..] == Normalised(old(cdf[..]), total)
  {
    if total > 0.0 {
      forall i | 0 <= i < cdf.Length {
        cdf[i] := cdf[i] / total;
      }
    }
  }

  /** Lines 13-24 of `sample_mesh_surface`: the areas, their running sums and the division. */
  method BuildCdf(V: seq<Vec3>, F: seq<Face>, norm: Vec3 -> real) returns (cdf: array<real>)
    requires ValidMesh(V, F)
    ensures fresh(cdf)
    ensures cdf[..] == Cdf(Areas(V, F, norm))
  {
    var area := FaceAreas(V, F, norm);
    ghost var a := area[..];
    var total := Sum(area[..]);
    cdf := new real[|F|];
    forall i | 0 <= i < cdf.Length {
      cdf[i] := area[i];
    }
    assert cdf[..] == a;
    PrefixSumInPlace(cdf);
    ghost var p := cdf[..];
    assert p == PrefixSums(a);
    NormaliseInPlace(cdf, total);
    assert cdf[..] == Normalised(p, total);
  }

  /** Lines 30-44: one face search and one barycentric point per draw, written into `P`. */
  method SampleLoop(V: seq<Vec3>, F: seq<Face>, cdf: array<real>, draws: seq<Draw>)
    returns (res: Result<seq<Vec3>, SampleError>)
    requires ValidMesh(V, F)
    requires Sorted(cdf[..])
    ensures res == Samples(V, F, cdf[..], draws)
  {
    var P := new Vec3[|draws|];
    var k := 0;
    while k < |draws|
      invariant 0 <= k <= |draws|
      invariant Samples(V, F, cdf[..], draws[..k]) == Success(P[..k])
    {
      SortedPartitioned(cdf[..], draws[k].u);
      var f := LowerBound(cdf, draws[k].u);
      SamplesSnoc(V, F, cdf[..], draws, k, P[..k]);
      if f >= |F| {
        SamplesFailureSticks(V, F, cdf[..], draws, k + 1);
        return Failure(FaceIndexOutOfRange);
      }
      P[k] := FacePoint(V, F[f], draws[k]);
      assert P[..k + 1] == P[..k] + [P[k]];
      k := k + 1;
    }
    assert draws[..k] == draws;
    assert P[..k] == P[..];
    res := Success(P[..]);
  }

  /** `sample_mesh_surface` with one sample per draw: the CDF, then the sampling loop. */
  method SampleMeshSurface(V: seq<Vec3>, F: seq<Face>, norm: Vec3 -> real, draws: seq<Draw>)
    returns (res: Result<seq<Vec3>, SampleError>)
    requires ValidMesh(V, F)
    requires forall v :: norm(v) >= 0.0
    ensures res == SampleSurface(V, F, norm, draws)
  {
    var cdf := BuildCdf(V, F, norm);
    AreasNonNegative(V, F, norm);
    CdfSorted(Areas(V, F, norm));
    res := SampleLoop(V, F, cdf, draws);
  }
}
