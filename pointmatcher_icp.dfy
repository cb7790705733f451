/**
 * The bookkeeping of `icp_libpointmatcher` around its foreign ICP call: packing points into
 * homogeneous columns, the empty-input guard, the decomposition of the 4x4 result `T` into a
 * scale, a rotation and a translation, and the filling of `SimilarityResult`.
 *
 * The foreign ICP, the column norms, Eigen's `JacobiSVD` and the random draws are parameters.
 */
module PointMatcherIcp {
  import opened Linear
  import opened SurfaceSampling

  // ---------------------------------------------------------------------------
  // 4x4 homogeneous matrices
  // ---------------------------------------------------------------------------

  datatype Vec4 = Vec4(x: real, y: real, z: real, w: real)

  /** A 4x4 matrix given by its rows. */
  datatype Mat4 = Mat4(r0: Vec4, r1: Vec4, r2: Vec4, r3: Vec4)

  const Identity4: Mat4 :=
    Mat4(Vec4(1.0, 0.0, 0.0, 0.0), Vec4(0.0, 1.0, 0.0, 0.0), Vec4(0.0, 0.0, 1.0, 0.0), Vec4(0.0, 0.0, 0.0, 1.0))

  /** `T.topLeftCorner<3, 3>()`. */
  function TopLeft(T: Mat4): Mat3 {
    Mat3(Vec3(T.r0.x, T.r0.y, T.r0.z), Vec3(T.r1.x, T.r1.y, T.r1.z), Vec3(T.r2.x, T.r2.y, T.r2.z))
  }

  /** `T.topRightCorner<3, 1>()`. */
  function TopRight(T: Mat4): Vec3 {
    Vec3(T.r0.w, T.r1.w, T.r2.w)
  }

  /** `T` with its top-left 3x3 block replaced by `m`. */
  function WithTopLeft(T: Mat4, m: Mat3): Mat4 {
    Mat4(Vec4(m.r0.x, m.r0.y, m.r0.z, T.r0.w), Vec4(m.r1.x, m.r1.y, m.r1.z, T.r1.w),
         Vec4(m.r2.x, m.r2.y, m.r2.z, T.r2.w), T.r3)
  }

  /** `T` with its top-right 3x1 block replaced by `t`. */
  function WithTopRight(T: Mat4, t: Vec3): Mat4 {
    Mat4(Vec4(T.r0.x, T.r0.y, T.r0.z, t.x), Vec4(T.r1.x, T.r1.y, T.r1.z, t.y),
         Vec4(T.r2.x, T.r2.y, T.r2.z, t.z), T.r3)
  }

  /** The block writes leave the bottom row and the other block alone. */
  lemma BlockWrites(T: Mat4, m: Mat3, t: Vec3)
    ensures TopLeft(WithTopRight(WithTopLeft(T, m), t)) == m
    ensures TopRight(WithTopRight(WithTopLeft(T, m), t)) == t
    ensures WithTopRight(WithTopLeft(T, m), t).r3 == T.r3
  {
  }

  /** A matrix with bottom row `(0, 0, 0, 1)` is the identity with its two blocks written in. */
  lemma FromBlocks(T: Mat4)
    requires T.r3 == Vec4(0.0, 0.0, 0.0, 1.0)
    ensures WithTopRight(WithTopLeft(Identity4, TopLeft(T)), TopRight(T)) == T
  {
  }

  // ---------------------------------------------------------------------------
  // points_to_datapoints
  // ---------------------------------------------------------------------------

  /** The 4 x N feature matrix: column `j` is point `j` followed by a 1. */
  method PointsToDatapoints(P: seq<Vec3>) returns (feats: array2<real>)
    ensures fresh(feats)
    ensures feats.Length0 == 4 && feats.Length1 == |P|
    ensures forall j :: 0 <= j < |P| ==>
              feats[0, j] == P[j].x && feats[1, j] == P[j].y && feats[2, j] == P[j].z && feats[3, j] == 1.0
  {
    feats := new real[4, |P|];
    forall j | 0 <= j < |P| {
      feats[0, j] := P[j].x;
    }
    forall j | 0 <= j < |P| {
      feats[1, j] := P[j].y;
    }
    forall j | 0 <= j < |P| {
      feats[2, j] := P[j].z;
    }
    forall j | 0 <= j < |P| {
      feats[3, j] := 1.0;
    }
  }

  // ---------------------------------------------------------------------------
  // Decomposing T into a scale, a rotation and a translation
  // ---------------------------------------------------------------------------

  /** Eigen's `JacobiSVD` with full `U` and `V`: `m == U diag(singular) V^T` when it is exact. */
  datatype JacobiSvd = JacobiSvd(u: Mat3, singular: Vec3, v: Mat3)

  ghost predicate IsSvdOf(f: JacobiSvd, m: Mat3) {
    Mul(Mul(f.u, Diag(f.singular)), Transpose(f.v)) == m && Orthogonal(f.u) && Orthogonal(f.v)
  }

  /** A rotation or reflection together with the scale that multiplies it. */
  datatype ScaledRotation = ScaledRotation(r: Mat3, s: real)

  /** The fields the decomposition writes to the output: R, t and s. */
  datatype Similarity = Similarity(r: Mat3, t: Vec3, s: real)

  /** The mean of the three column norms. */
  function ScaleOf(A: Mat3, norm: Vec3 -> real): real {
    (norm(Col(A, 0)) + norm(Col(A, 1)) + norm(Col(A, 2))) / 3.0
  }

  /** `s != 0 ? A / s : A`. */
  function Unscaled(A: Mat3, s: real): Mat3 {
    if s != 0.0 then ScaleMat(1.0 / s, A) else A
  }

  /** `U V^T`, the orthogonal factor of the decomposed matrix. */
  function Polar(f: JacobiSvd): Mat3 {
    Mul(f.u, Transpose(f.v))
  }

  /** Lines 142-149 as written: on a negative determinant, negate column 2 of U and the scale. */
  function SignFixAsWritten(f: JacobiSvd, s: real): ScaledRotation {
    if Det(Polar(f)) < 0.0 then ScaledRotation(Mul(NegateLastCol(f.u), Transpose(f.v)), -s)
    else ScaledRotation(Polar(f), s)
  }

  /** The sign fix that keeps the product `s * R`: on a negative determinant, negate R and s. */
  function SignFix(f: JacobiSvd, s: real): ScaledRotation {
    if Det(Polar(f)) < 0.0 then ScaledRotation(ScaleMat(-1.0, Polar(f)), -s)
    else ScaledRotation(Polar(f), s)
  }

  /** Lines 133-149 as written. */
  function DecomposeAsWritten(T: Mat4, norm: Vec3 -> real, svd: Mat3 -> JacobiSvd): Similarity {
    var A := TopLeft(T);
    var s := ScaleOf(A, norm);
    var d := SignFixAsWritten(svd(Unscaled(A, s)), s);
    Similarity(d.r, TopRight(T), d.s)
  }

  /** Lines 133-149 with the corrected sign fix. */
  function Decompose(T: Mat4, norm: Vec3 -> real, svd: Mat3 -> JacobiSvd): Similarity {
    var A := TopLeft(T);
    var s := ScaleOf(A, norm);
    var d := SignFix(svd(Unscaled(A, s)), s);
    Similarity(d.r, TopRight(T), d.s)
  }

  /** Lines 155-158: `S = I * s`, then `T = [S R, t; 0 0 0 1]`. */
  function Rebuilt(d: Similarity): Mat4 {
    WithTopRight(WithTopLeft(Identity4, Mul(ScaleMat(d.s, Identity), d.r)), d.t)
  }

  /**
   * The sign fix as written negates the determinant of `U V^T` when it is negative and flips the
   * sign of the scale; otherwise it keeps both. The result never has a negative determinant, and
   * it is a rotation when `U` and `V` are orthogonal.
   */
  lemma SignFixAsWrittenDet(f: JacobiSvd, s: real)
    ensures Det(Polar(f)) < 0.0 ==>
              Det(SignFixAsWritten(f, s).r) == -Det(Polar(f)) && SignFixAsWritten(f, s).s == -s
    ensures Det(Polar(f)) >= 0.0 ==> SignFixAsWritten(f, s) == ScaledRotation(Polar(f), s)
    ensures Det(SignFixAsWritten(f, s).r) >= 0.0
    ensures Orthogonal(f.u) && Orthogonal(f.v) ==>
              Orthogonal(SignFixAsWritten(f, s).r) && Det(SignFixAsWritten(f, s).r) == 1.0
  {
    var vt := Transpose(f.v);
    DetMul(f.u, vt);
    DetMul(NegateLastCol(f.u), vt);
    DetNegateLastCol(f.u);
    NegateFactor(1.0, Det(f.u), Det(vt));
    if Orthogonal(f.u) && Orthogonal(f.v) {
      OrthogonalTranspose(f.v);
      OrthogonalNegateLastCol(f.u);
      OrthogonalMul(f.u, vt);
      OrthogonalMul(NegateLastCol(f.u), vt);
      DetOrthogonal(SignFixAsWritten(f, s).r);
    }
  }

  /**
   * The corrected sign fix has the same determinant behaviour, and in addition keeps the
   * product of scale and rotation equal to `s U V^T`.
   */
  lemma SignFixKeepsProduct(f: JacobiSvd, s: real)
    ensures ScaleMat(SignFix(f, s).s, SignFix(f, s).r) == ScaleMat(s, Polar(f))
    ensures Det(Polar(f)) < 0.0 ==> Det(SignFix(f, s).r) == -Det(Polar(f)) && SignFix(f, s).s == -s
    ensures Det(Polar(f)) >= 0.0 ==> SignFix(f, s) == ScaledRotation(Polar(f), s)
    ensures Det(SignFix(f, s).r) >= 0.0
    ensures Orthogonal(f.u) && Orthogonal(f.v) ==>
              Orthogonal(SignFix(f, s).r) && Det(SignFix(f, s).r) == 1.0
  {
    DetNegate(Polar(f));
    ScaleMatNegate(s, Polar(f));
    if Orthogonal(f.u) && Orthogonal(f.v) {
      OrthogonalTranspose(f.v);
      OrthogonalMul(f.u, Transpose(f.v));
      OrthogonalNegate(Polar(f));
      DetOrthogonal(SignFix(f, s).r);
    }
  }

  lemma DiagOnes()
    ensures Diag(Vec3(1.0, 1.0, 1.0)) == Identity
  {
  }

  /** `U^T X V`, which undoes `U K V^T` when `U` and `V` are orthogonal. */
  function Unwrap(f: JacobiSvd, X: Mat3): Mat3 {
    Mul(Transpose(f.u), Mul(X, f.v))
  }

  lemma UnwrapWrapped(f: JacobiSvd, K: Mat3)
    requires Orthogonal(f.u) && Orthogonal(f.v)
    ensures Unwrap(f, Mul(Mul(f.u, K), Transpose(f.v))) == K
  {
    calc {
      Mul(Mul(Mul(f.u, K), Transpose(f.v)), f.v);
      { MulAssoc(Mul(f.u, K), Transpose(f.v), f.v); }
      Mul(Mul(f.u, K), Mul(Transpose(f.v), f.v));
      { MulIdentity(Mul(f.u, K)); }
      Mul(f.u, K);
    }
    calc {
      Mul(Transpose(f.u), Mul(f.u, K));
      { MulAssoc(Transpose(f.u), f.u, K); }
      Mul(Mul(Transpose(f.u), f.u), K);
      { MulIdentity(K); }
      K;
    }
  }

  lemma UnwrapScale(f: JacobiSvd, c: real, X: Mat3)
    ensures Unwrap(f, ScaleMat(c, X)) == ScaleMat(c, Unwrap(f, X))
  {
    MulScaleLeft(c, X, f.v);
    MulScaleRight(c, Transpose(f.u), Mul(X, f.v));
  }

  lemma ScaledFlipIsNotScaledIdentity(s: real)
    requires s != 0.0
    ensures ScaleMat(-s, FlipZ) != ScaleMat(s, Identity)
  {
    assert ScaleMat(-s, FlipZ).r0.x == -s * 1.0;
    assert ScaleMat(s, Identity).r0.x == s * 1.0;
  }

  /**
   * Whenever `U V^T` is a reflection and `s` is nonzero, the sign fix as written changes the
   * product of scale and rotation: `s_fixed R` is `-s U diag(1, 1, -1) V^T`, not `s U V^T`.
   */
  lemma SignFixAsWrittenBreaksProduct(f: JacobiSvd, s: real)
    requires Orthogonal(f.u) && Orthogonal(f.v)
    requires Det(Polar(f)) < 0.0 && s != 0.0
    ensures ScaleMat(SignFixAsWritten(f, s).s, SignFixAsWritten(f, s).r) != ScaleMat(s, Polar(f))
  {
    var d := SignFixAsWritten(f, s);
    NegateLastColIsMul(f.u);
    assert d.r == Mul(Mul(f.u, FlipZ), Transpose(f.v));
    MulIdentity(f.u);
    assert Polar(f) == Mul(Mul(f.u, Identity), Transpose(f.v));
    UnwrapWrapped(f, FlipZ);
    UnwrapWrapped(f, Identity);
    UnwrapScale(f, -s, d.r);
    UnwrapScale(f, s, Polar(f));
    assert Unwrap(f, ScaleMat(d.s, d.r)) == ScaleMat(-s, FlipZ);
    assert Unwrap(f, ScaleMat(s, Polar(f))) == ScaleMat(s, Identity);
    ScaledFlipIsNotScaledIdentity(s);
  }

  /** The SVD facts under which the top-left block of `T` is `s` times an orthogonal matrix. */
  ghost predicate ExactSimilarity(T: Mat4, norm: Vec3 -> real, svd: Mat3 -> JacobiSvd) {
    var A := TopLeft(T);
    var s := ScaleOf(A, norm);
    s != 0.0 && IsSvdOf(svd(Unscaled(A, s)), Unscaled(A, s)) &&
    svd(Unscaled(A, s)).singular == Vec3(1.0, 1.0, 1.0)
  }

  lemma ExactPolar(T: Mat4, norm: Vec3 -> real, svd: Mat3 -> JacobiSvd)
    requires ExactSimilarity(T, norm, svd)
    ensures Polar(svd(Unscaled(TopLeft(T), ScaleOf(TopLeft(T), norm)))) == Unscaled(TopLeft(T), ScaleOf(TopLeft(T), norm))
    ensures ScaleMat(ScaleOf(TopLeft(T), norm), Polar(svd(Unscaled(TopLeft(T), ScaleOf(TopLeft(T), norm))))) == TopLeft(T)
  {
    var A := TopLeft(T);
    var s := ScaleOf(A, norm);
    var f := svd(Unscaled(A, s));
    DiagOnes();
    MulIdentity(f.u);
    assert Polar(f) == ScaleMat(1.0 / s, A);
    ScaleMatCancel(s, A);
  }

  /**
   * When the top-left block of `T` is a nonzero multiple of a reflection (an orthogonal matrix
   * of determinant -1), the decomposition as written never rebuilds `T`.
   */
  lemma DecomposeAsWrittenBreaksReflection(T: Mat4, norm: Vec3 -> real, svd: Mat3 -> JacobiSvd)
    requires ExactSimilarity(T, norm, svd)
    requires Det(Unscaled(TopLeft(T), ScaleOf(TopLeft(T), norm))) < 0.0
    ensures Rebuilt(DecomposeAsWritten(T, norm, svd)) != T
  {
    var A := TopLeft(T);
    var s := ScaleOf(A, norm);
    var f := svd(Unscaled(A, s));
    var d := DecomposeAsWritten(T, norm, svd);
    ExactPolar(T, norm, svd);
    SignFixAsWrittenBreaksProduct(f, s);
    RebuiltShape(d);
  }

  /** A transform whose top-left block is the reflection `diag(1, 1, -1)`. */
  const Mirror: Mat4 := WithTopLeft(Identity4, FlipZ)

  /** An exact SVD `U diag(1, 1, 1) I^T` of an orthogonal `U`. */
  lemma SvdOfOrthogonal(u: Mat3)
    requires Orthogonal(u)
    ensures IsSvdOf(JacobiSvd(u, Vec3(1.0, 1.0, 1.0), Identity), u)
  {
    DiagOnes();
    MulIdentity(u);
    assert Transpose(Identity) == Identity;
    OrthogonalIdentity();
  }

  lemma UnscaledByOne(m: Mat3)
    ensures Unscaled(m, 1.0) == m
  {
  }

  /** An orthogonal top-left block with unit column norms and an exact SVD. */
  lemma ExactOrthogonal(T: Mat4, norm: Vec3 -> real, svd: Mat3 -> JacobiSvd, m: Mat3)
    requires TopLeft(T) == m && Orthogonal(m) && ScaleOf(m, norm) == 1.0
    requires svd(m) == JacobiSvd(m, Vec3(1.0, 1.0, 1.0), Identity)
    ensures ExactSimilarity(T, norm, svd)
    ensures Unscaled(TopLeft(T), ScaleOf(TopLeft(T), norm)) == m
  {
    UnscaledByOne(m);
    SvdOfOrthogonal(m);
  }

  /**
   * The mirror transform meets the hypotheses of `DecomposeAsWrittenBreaksReflection` once the
   * column norms are 1 and the SVD of `diag(1, 1, -1)` is `diag(1, 1, -1) I I^T`.
   */
  lemma MirrorIsExactReflection(norm: Vec3 -> real, svd: Mat3 -> JacobiSvd)
    requires norm(Vec3(1.0, 0.0, 0.0)) == 1.0 && norm(Vec3(0.0, 1.0, 0.0)) == 1.0
    requires norm(Vec3(0.0, 0.0, -1.0)) == 1.0
    requires svd(FlipZ) == JacobiSvd(FlipZ, Vec3(1.0, 1.0, 1.0), Identity)
    ensures ExactSimilarity(Mirror, norm, svd)
    ensures Det(Unscaled(TopLeft(Mirror), ScaleOf(TopLeft(Mirror), norm))) < 0.0
  {
    assert TopLeft(Mirror) == FlipZ;
    assert ScaleOf(FlipZ, norm) == 1.0;
    OrthogonalFlipZ();
    ExactOrthogonal(Mirror, norm, svd, FlipZ);
  }

  /**
   * When the top-left block of `T` is a nonzero multiple of an orthogonal matrix and the bottom
   * row is `(0, 0, 0, 1)`, the corrected decomposition rebuilds `T` exactly.
   */
  lemma DecomposeRebuilds(T: Mat4, norm: Vec3 -> real, svd: Mat3 -> JacobiSvd)
    requires ExactSimilarity(T, norm, svd)
    requires T.r3 == Vec4(0.0, 0.0, 0.0, 1.0)
    ensures Rebuilt(Decompose(T, norm, svd)) == T
  {
    var A := TopLeft(T);
    var s := ScaleOf(A, norm);
    var f := svd(Unscaled(A, s));
    var d := Decompose(T, norm, svd);
    ExactPolar(T, norm, svd);
    SignFixKeepsProduct(f, s);
    ScaledIdentityMul(d.s, d.r);
    FromBlocks(T);
  }

  /** On the mirror transform the decomposition as written loses `T`; the corrected one keeps it. */
  lemma MirrorOutcome(norm: Vec3 -> real, svd: Mat3 -> JacobiSvd)
    requires norm(Vec3(1.0, 0.0, 0.0)) == 1.0 && norm(Vec3(0.0, 1.0, 0.0)) == 1.0
    requires norm(Vec3(0.0, 0.0, -1.0)) == 1.0
    requires svd(FlipZ) == JacobiSvd(FlipZ, Vec3(1.0, 1.0, 1.0), Identity)
    ensures Rebuilt(DecomposeAsWritten(Mirror, norm, svd)) != Mirror
    ensures Rebuilt(Decompose(Mirror, norm, svd)) == Mirror
  {
    MirrorIsExactReflection(norm, svd);
    DecomposeAsWrittenBreaksReflection(Mirror, norm, svd);
    DecomposeRebuilds(Mirror, norm, svd);
  }

  /** The rebuilt transform: `S R` on the top left, `t` on the top right, `(0, 0, 0, 1)` below. */
  lemma RebuiltShape(d: Similarity)
    ensures TopLeft(Rebuilt(d)) == ScaleMat(d.s, d.r)
    ensures TopRight(Rebuilt(d)) == d.t
    ensures Rebuilt(d).r3 == Vec4(0.0, 0.0, 0.0, 1.0)
  {
    ScaledIdentityMul(d.s, d.r);
    BlockWrites(Identity4, Mul(ScaleMat(d.s, Identity), d.r), d.t);
  }

  // ---------------------------------------------------------------------------
  // icp_libpointmatcher
  // ---------------------------------------------------------------------------

  /** The output struct: rotation, translation, scale, scale matrix and the 4x4 transform. */
  class SimilarityResult {
    var R: Mat3
    var t: Vec3
    var s: real
    var S: Mat3
    var T: Mat4

    constructor (R0: Mat3, t0: Vec3, s0: real, S0: Mat3, T0: Mat4)
      ensures R == R0 && t == t0 && s == s0 && S == S0 && T == T0
    {
      R, t, s, S, T := R0, t0, s0, S0, T0;
    }

    /** The scale matrix is `s I` and the transform is `[S R, t; 0 0 0 1]`. */
    ghost predicate Consistent()
      reads this
    {
      S == ScaleMat(s, Identity) && TopLeft(T) == Mul(S, R) && TopRight(T) == t &&
      T.r3 == Vec4(0.0, 0.0, 0.0, 1.0)
    }
  }

  /** The guard of lines 70-71: every input matrix has at least one row. */
  predicate NonEmptyInputs(VA: seq<Vec3>, FA: seq<Face>, VB: seq<Vec3>, FB: seq<Face>) {
    |VA| > 0 && |FA| > 0 && |VB| > 0 && |FB| > 0
  }

  /**
   * The run gets past the guard and past both surface samplings of lines 74-75, neither of which
   * reads a face row past the end.
   */
  predicate SamplesBoth(VA: seq<Vec3>, FA: seq<Face>, VB: seq<Vec3>, FB: seq<Face>, norm: Vec3 -> real,
                        drawsA: seq<Draw>, drawsB: seq<Draw>)
    requires NonEmptyInputs(VA, FA, VB, FB) ==> ValidMesh(VA, FA) && ValidMesh(VB, FB)
  {
    && NonEmptyInputs(VA, FA, VB, FB)
    && SampleSurface(VA, FA, norm, drawsA).Success?
    && SampleSurface(VB, FB, norm, drawsB).Success?
  }

  /** On two non-empty meshes of positive total area, with draws `u <= 1`, both samplings succeed. */
  lemma PositiveAreaMeshesSample(VA: seq<Vec3>, FA: seq<Face>, VB: seq<Vec3>, FB: seq<Face>, norm: Vec3 -> real,
                                 drawsA: seq<Draw>, drawsB: seq<Draw>)
    requires NonEmptyInputs(VA, FA, VB, FB) && ValidMesh(VA, FA) && ValidMesh(VB, FB)
    requires forall v :: norm(v) >= 0.0
    requires Sum(Areas(VA, FA, norm)) > 0.0 && Sum(Areas(VB, FB, norm)) > 0.0
    requires forall k :: 0 <= k < |drawsA| ==> drawsA[k].u <= 1.0
    requires forall k :: 0 <= k < |drawsB| ==> drawsB[k].u <= 1.0
    ensures SamplesBoth(VA, FA, VB, FB, norm, drawsA, drawsB)
  {
    PositiveAreaSampling(VA, FA, norm, drawsA);
    PositiveAreaSampling(VB, FB, norm, drawsB);
  }

  /**
   * A non-empty mesh whose faces all have zero area passes the guard of lines 70-71, but a draw
   * `u > 0` makes its sampling read face row `Tn`.
   */
  lemma ZeroAreaMeshStopsSampling(VA: seq<Vec3>, FA: seq<Face>, VB: seq<Vec3>, FB: seq<Face>, norm: Vec3 -> real,
                                  drawsA: seq<Draw>, drawsB: seq<Draw>, k: nat)
    requires ValidMesh(VA, FA) && ValidMesh(VB, FB)
    requires forall v :: norm(v) >= 0.0
    ensures k < |drawsA| && drawsA[k].u > 0.0 && Sum(Areas(VA, FA, norm)) == 0.0 ==>
              !SamplesBoth(VA, FA, VB, FB, norm, drawsA, drawsB)
    ensures k < |drawsB| && drawsB[k].u > 0.0 && Sum(Areas(VB, FB, norm)) == 0.0 ==>
              !SamplesBoth(VA, FA, VB, FB, norm, drawsA, drawsB)
  {
    if k < |drawsA| && drawsA[k].u > 0.0 && Sum(Areas(VA, FA, norm)) == 0.0 {
      ZeroAreaSamplingFails(VA, FA, norm, drawsA, k);
    }
    if k < |drawsB| && drawsB[k].u > 0.0 && Sum(Areas(VB, FB, norm)) == 0.0 {
      ZeroAreaSamplingFails(VB, FB, norm, drawsB, k);
    }
  }

  /**
   * `icp_libpointmatcher`: returns false and leaves `out` alone when a mesh is empty. Otherwise it
   * samples both surfaces, runs the foreign ICP `icp(src, ref)` on the samples of B and A, and
   * fills `out` from the decomposition of the transform it returns. A sampling that reads past the
   * last face (undefined behaviour in the source) also returns false here, before the ICP runs.
   */
  method IcpLibpointmatcher(VA: seq<Vec3>, FA: seq<Face>, VB: seq<Vec3>, FB: seq<Face>, out: SimilarityResult,
                            norm: Vec3 -> real, drawsA: seq<Draw>, drawsB: seq<Draw>,
                            icp: (seq<Vec3>, seq<Vec3>) -> Mat4, svd: Mat3 -> JacobiSvd)
    returns (ok: bool)
    requires NonEmptyInputs(VA, FA, VB, FB) ==> ValidMesh(VA, FA) && ValidMesh(VB, FB)
    requires forall v :: norm(v) >= 0.0
    modifies out
    ensures ok <==> SamplesBoth(VA, FA, VB, FB, norm, drawsA, drawsB)
    ensures !ok ==> unchanged(out)
    ensures ok ==>
              && SamplesBoth(VA, FA, VB, FB, norm, drawsA, drawsB)
              && var d := Decompose(icp(SampleSurface(VB, FB, norm, drawsB).value,
                                        SampleSurface(VA, FA, norm, drawsA).value), norm, svd);
                 out.R == d.r && out.t == d.t && out.s == d.s && out.T == Rebuilt(d)
    ensures ok ==> out.Consistent()
  {
    if |VA| == 0 || |FA| == 0 || |VB| == 0 || |FB| == 0 {
      return false;
    }
    var aPts := SampleMeshSurface(VA, FA, norm, drawsA);
    if aPts.Failure? {
      return false;
    }
    var bPts := SampleMeshSurface(VB, FB, norm, drawsB);
    if bPts.Failure? {
      return false;
    }
    var icpT := icp(bPts.value, aPts.value);
    var A := TopLeft(icpT);
    var t := TopRight(icpT);
    var s := ScaleOf(A, norm);
    var R := Unscaled(A, s);
    var f := svd(R);
    R := Mul(f.u, Transpose(f.v));
    var sFixed := s;
    if Det(R) < 0.0 {
      R := ScaleMat(-1.0, R);
      sFixed := -sFixed;
    }
    out.R := R;
    out.t := t;
    out.s := sFixed;
    out.S := ScaleMat(sFixed, Identity);
    out.T := Identity4;
    out.T := WithTopLeft(out.T, Mul(out.S, out.R));
    out.T := WithTopRight(out.T, out.t);
    BlockWrites(Identity4, Mul(out.S, out.R), out.t);
    return true;
  }
}
