/**
 * The NumPy Kabsch step `rigid_alignment_numpy`, the row-convention step that corrects it, and a
 * point set on which the two differ.
 *
 * Point sets are sequences of row vectors and a rigid transform acts as `X @ R + t`. The SVD is
 * foreign and enters as a function parameter; nothing is assumed about what it returns unless a
 * lemma says so.
 */
module RigidAlignment {
  import opened Linear
  import opened Wrappers

  /** The factors `U, S, Vt` returned by `np.linalg.svd(H)`, with `H == U @ diag(S) @ Vt`. */
  datatype Svd = Svd(u: Mat3, s: Vec3, vt: Mat3)

  /** A step or accumulated transform `(R, t)`, applied to a row vector as `v @ R + t`. */
  datatype RigidTransform = RigidTransform(r: Mat3, t: Vec3)

  /**
   * Why the NumPy step produces no transform: `X_centered.T @ P_centered` raises on point sets of
   * different sizes, and the mean of an empty point set is NaN.
   */
  datatype AlignError = ShapeMismatch | EmptyPointSet

  // ---------------------------------------------------------------------------
  // Point sets
  // ---------------------------------------------------------------------------

  /** The column sums of an N x 3 array. */
  function SumRows(X: seq<Vec3>): Vec3 {
    if |X| == 0 then Zero else Add(SumRows(X[..|X| - 1]), X[|X| - 1])
  }

  /** `X.mean(axis=0)`. */
  function Mean(X: seq<Vec3>): Vec3
    requires |X| > 0
  {
    Scale(1.0 / |X| as real, SumRows(X))
  }

  /** `X - m`, broadcasting the row `m`. */
  function Centered(X: seq<Vec3>, m: Vec3): (c: seq<Vec3>)
    ensures |c| == |X|
  {
    seq(|X|, i requires 0 <= i < |X| => Sub(X[i], m))
  }

  function Apply(v: Vec3, R: Mat3, t: Vec3): Vec3 {
    Add(VecMat(v, R), t)
  }

  /** `X @ R + t`. */
  function Transform(X: seq<Vec3>, R: Mat3, t: Vec3): (Y: seq<Vec3>)
    ensures |Y| == |X|
  {
    seq(|X|, i requires 0 <= i < |X| => Apply(X[i], R, t))
  }

  /** `A.T @ B` for two N x 3 arrays, as the sum of the outer products of their rows. */
  function CrossCovariance(A: seq<Vec3>, B: seq<Vec3>): Mat3
    requires |A| == |B|
  {
    if |A| == 0 then ZeroMat
    else AddMat(CrossCovariance(A[..|A| - 1], B[..|B| - 1]), Outer(A[|A| - 1], B[|B| - 1]))
  }

  /** `sum(A[i][j] * B[i][k] for i in range(N))`. */
  function ColumnProductSum(A: seq<Vec3>, B: seq<Vec3>, j: nat, k: nat): real
    requires |A| == |B| && j < 3 && k < 3
  {
    if |A| == 0 then 0.0
    else ColumnProductSum(A[..|A| - 1], B[..|B| - 1], j, k) + EntryProduct(A[|A| - 1], B[|B| - 1], j, k)
  }

  /** `a[j] * b[k]`. */
  function EntryProduct(a: Vec3, b: Vec3, j: nat, k: nat): real
    requires j < 3 && k < 3
  {
    a.At(j) * b.At(k)
  }

  // ---------------------------------------------------------------------------
  // Scalar and vector helpers
  // ---------------------------------------------------------------------------

  lemma ScaleSucc(n: real, v: Vec3)
    ensures Scale(n + 1.0, v) == Add(Scale(n, v), v)
  {
    var l, r := Scale(n + 1.0, v), Add(Scale(n, v), v);
    assert l.x == r.x && l.y == r.y && l.z == r.z;
  }

  // ---------------------------------------------------------------------------
  // Centroids and translation (lines 10-14 and 25)
  // ---------------------------------------------------------------------------

  lemma {:induction false} SumRowsCentered(X: seq<Vec3>, m: Vec3)
    ensures SumRows(Centered(X, m)) == Sub(SumRows(X), Scale(|X| as real, m))
    decreases |X|
  {
    if |X| > 0 {
      var n := |X| - 1;
      assert Centered(X, m)[..n] == Centered(X[..n], m);
      SumRowsCentered(X[..n], m);
      ScaleSucc(n as real, m);
    }
  }

  /** Centring a point set on its own mean leaves zero column sums. */
  lemma CenteredSumsToZero(X: seq<Vec3>)
    requires |X| > 0
    ensures SumRows(Centered(X, Mean(X))) == Zero
  {
    var n, s := |X| as real, SumRows(X);
    SumRowsCentered(X, Mean(X));
    ScaleCancel(n, s.x);
    ScaleCancel(n, s.y);
    ScaleCancel(n, s.z);
  }

  lemma {:induction false} SumRowsTransform(X: seq<Vec3>, R: Mat3, t: Vec3)
    ensures SumRows(Transform(X, R, t)) == Add(VecMat(SumRows(X), R), Scale(|X| as real, t))
    decreases |X|
  {
    if |X| == 0 {
      VecMatZero(R);
    } else {
      var n := |X| - 1;
      assert Transform(X, R, t)[..n] == Transform(X[..n], R, t);
      SumRowsTransform(X[..n], R, t);
      VecMatAdd(SumRows(X[..n]), X[n], R);
      ScaleSucc(n as real, t);
    }
  }

  /** The mean of `X @ R + t` is `mean(X) @ R + t`. */
  lemma MeanOfTransform(X: seq<Vec3>, R: Mat3, t: Vec3)
    requires |X| > 0
    ensures Mean(Transform(X, R, t)) == Apply(Mean(X), R, t)
  {
    var n, s := |X| as real, SumRows(X);
    calc {
      Mean(Transform(X, R, t));
      Scale(1.0 / n, SumRows(Transform(X, R, t)));
      { SumRowsTransform(X, R, t); }
      Scale(1.0 / n, Add(VecMat(s, R), Scale(n, t)));
      { ScaleAdd(1.0 / n, VecMat(s, R), Scale(n, t)); }
      Add(Scale(1.0 / n, VecMat(s, R)), Scale(1.0 / n, Scale(n, t)));
      { VecMatScale(1.0 / n, s, R); ScaleInverse(n, t); }
      Add(VecMat(Scale(1.0 / n, s), R), t);
    }
  }

  lemma ScaleInverse(n: real, v: Vec3)
    requires n != 0.0
    ensures Scale(1.0 / n, Scale(n, v)) == v
  {
    ScaleCancel(n, v.x);
    ScaleCancel(n, v.y);
    ScaleCancel(n, v.z);
  }

  /** The translation `P_mean - X_mean @ R` of line 25. */
  function Translation(X: seq<Vec3>, P: seq<Vec3>, R: Mat3): Vec3
    requires |X| > 0 && |P| > 0
  {
    Sub(Mean(P), VecMat(Mean(X), R))
  }

  /** Whatever the rotation, the translation of line 25 carries the mean of X onto the mean of P. */
  lemma TranslationAlignsMeans(X: seq<Vec3>, P: seq<Vec3>, R: Mat3)
    requires |X| > 0 && |P| > 0
    ensures Mean(Transform(X, R, Translation(X, P, R))) == Mean(P)
  {
    MeanOfTransform(X, R, Translation(X, P, R));
  }

  /** Entry (j, k) of `A.T @ B` is the sum over the rows of `A[i][j] * B[i][k]` (line 16). */
  lemma {:induction false} CrossCovarianceEntry(A: seq<Vec3>, B: seq<Vec3>, j: nat, k: nat)
    requires |A| == |B| && j < 3 && k < 3
    ensures CrossCovariance(A, B).Get(j, k) == ColumnProductSum(A, B, j, k)
    decreases |A|
  {
    if |A| > 0 {
      calc {
        CrossCovariance(A, B).Get(j, k);
        { CrossCovarianceStep(A, B, j, k); }
        CrossCovariance(A[..|A| - 1], B[..|B| - 1]).Get(j, k) + Outer(A[|A| - 1], B[|B| - 1]).Get(j, k);
        { CrossCovarianceEntry(A[..|A| - 1], B[..|B| - 1], j, k); OuterEntry(A[|A| - 1], B[|B| - 1], j, k); }
        ColumnProductSum(A[..|A| - 1], B[..|B| - 1], j, k) + EntryProduct(A[|A| - 1], B[|B| - 1], j, k);
        ColumnProductSum(A, B, j, k);
      }
    }
  }

  /** One step of the sum: entry (j, k) gains the entry of the last row's outer product. */
  lemma CrossCovarianceStep(A: seq<Vec3>, B: seq<Vec3>, j: nat, k: nat)
    requires |A| == |B| > 0 && j < 3 && k < 3
    ensures CrossCovariance(A, B).Get(j, k)
         == CrossCovariance(A[..|A| - 1], B[..|B| - 1]).Get(j, k) + Outer(A[|A| - 1], B[|B| - 1]).Get(j, k)
  {
    AddMatEntry(CrossCovariance(A[..|A| - 1], B[..|B| - 1]), Outer(A[|A| - 1], B[|B| - 1]), j, k);
  }

  lemma OuterEntry(u: Vec3, v: Vec3, j: nat, k: nat)
    requires j < 3 && k < 3
    ensures Outer(u, v).Get(j, k) == EntryProduct(u, v, j, k)
  {
    OuterRow(u, v, j);
    ScaleAt(u.At(j), v, k);
  }

  lemma OuterRow(u: Vec3, v: Vec3, j: nat)
    requires j < 3
    ensures Outer(u, v).Row(j) == Scale(u.At(j), v)
  {
  }

  lemma ScaleAt(c: real, v: Vec3, k: nat)
    requires k < 3
    ensures Scale(c, v).At(k) == c * v.At(k)
  {
  }

  lemma AddMatEntry(a: Mat3, b: Mat3, j: nat, k: nat)
    requires j < 3 && k < 3
    ensures AddMat(a, b).Get(j, k) == a.Get(j, k) + b.Get(j, k)
  {
  }

  // ---------------------------------------------------------------------------
  // The rotation (lines 16-23)
  // ---------------------------------------------------------------------------

  /** `H = X_centered.T @ P_centered`. */
  function CentredCrossCovariance(X: seq<Vec3>, P: seq<Vec3>): Mat3
    requires |X| == |P| > 0
  {
    CrossCovariance(Centered(X, Mean(X)), Centered(P, Mean(P)))
  }

  /** `Vt.T @ U.T`, the rotation line 18 computes. */
  function ColumnRotation(f: Svd): Mat3 {
    Mul(Transpose(f.vt), Transpose(f.u))
  }

  /**
   * The reflection fix of lines 21-23: the last row of `Vt` is negated when `det(Vt.T @ U.T) < 0`.
   * Afterwards the recomputed rotation never has a negative determinant: a negative one is negated,
   * and factors whose rotation already had a non-negative one are returned unchanged.
   */
  function ReflectionFix(f: Svd): (g: Svd)
    ensures Det(ColumnRotation(g)) >= 0.0
    ensures Det(ColumnRotation(f)) < 0.0 ==> Det(ColumnRotation(g)) == -Det(ColumnRotation(f))
    ensures Det(ColumnRotation(f)) >= 0.0 ==> g == f
  {
    DetNegateLastRowOfVt(f);
    if Det(ColumnRotation(f)) < 0.0 then f.(vt := NegateLastRow(f.vt)) else f
  }

  /** Negating the last row of `Vt` negates `det(Vt.T @ U.T)`. */
  lemma DetNegateLastRowOfVt(f: Svd)
    ensures Det(ColumnRotation(f.(vt := NegateLastRow(f.vt)))) == -Det(ColumnRotation(f))
  {
    TransposeNegateLastRow(f.vt);
    DetMul(NegateLastCol(Transpose(f.vt)), Transpose(f.u));
    DetMul(Transpose(f.vt), Transpose(f.u));
    DetNegateLastCol(Transpose(f.vt));
  }

  /** With orthogonal SVD factors, the rotation of line 23 is a proper rotation. */
  lemma ColumnRotationProper(f: Svd)
    requires Orthogonal(f.u) && Orthogonal(f.vt)
    ensures Orthogonal(ColumnRotation(ReflectionFix(f)))
    ensures Det(ColumnRotation(ReflectionFix(f))) == 1.0
  {
    var g := ReflectionFix(f);
    OrthogonalNegateLastRow(f.vt);
    OrthogonalTranspose(g.vt);
    OrthogonalTranspose(g.u);
    OrthogonalMul(Transpose(g.vt), Transpose(g.u));
    DetOrthogonal(ColumnRotation(g));
  }

  /**
   * `rigid_alignment_numpy(X, P)` as written: the rotation of lines 18-23 and the translation of
   * line 25.
   */
  function RigidAlignmentNumpy(X: seq<Vec3>, P: seq<Vec3>, svd: Mat3 -> Svd): (r: Result<RigidTransform, AlignError>)
    ensures r == Failure(ShapeMismatch) <==> |X| != |P|
    ensures r == Failure(EmptyPointSet) <==> |X| == |P| == 0
    ensures r.Success? ==>
      var f := svd(CentredCrossCovariance(X, P));
      && (r.value.r == ColumnRotation(f) || r.value.r == ColumnRotation(f.(vt := NegateLastRow(f.vt))))
      && (Det(ColumnRotation(f)) >= 0.0 ==> r.value.r == ColumnRotation(f))
      && Det(r.value.r) >= 0.0
      && Mean(Transform(X, r.value.r, r.value.t)) == Mean(P)
  {
    if |X| != |P| then Failure(ShapeMismatch)
    else if |X| == 0 then Failure(EmptyPointSet)
    else
      var f := svd(CentredCrossCovariance(X, P));
      var R := ColumnRotation(ReflectionFix(f));
      TranslationAlignsMeans(X, P, R);
      Success(RigidTransform(R, Translation(X, P, R)))
  }

  // ---------------------------------------------------------------------------
  // The rotation for row vectors
  // ---------------------------------------------------------------------------

  /**
   * `U @ Vt`. For points applied as `x @ R`, this is the rotation that makes `sum(x_i @ R . p_i)`
   * reach the Kabsch value; line 18's `Vt.T @ U.T` is its transpose, the rotation for column
   * vectors `R @ x`.
   */
  function RowRotation(f: Svd): (R: Mat3)
    ensures R == Transpose(ColumnRotation(f))
    ensures Det(R) == Det(ColumnRotation(f))
  {
    TransposeMul(Transpose(f.vt), Transpose(f.u));
    TransposeTranspose(f.vt);
    TransposeTranspose(f.u);
    DetTranspose(ColumnRotation(f));
    Mul(f.u, f.vt)
  }

  /**
   * The Kabsch step for row vectors: the same centroids, reflection test and translation as
   * `RigidAlignmentNumpy`, with the rotation `U @ Vt` after the reflection fix.
   */
  function CorrectedRigidAlignment(X: seq<Vec3>, P: seq<Vec3>, svd: Mat3 -> Svd): (r: Result<RigidTransform, AlignError>)
    ensures r == Failure(ShapeMismatch) <==> |X| != |P|
    ensures r == Failure(EmptyPointSet) <==> |X| == |P| == 0
    ensures r.Success? ==>
      && r.value.r == RowRotation(ReflectionFix(svd(CentredCrossCovariance(X, P))))
      && Det(r.value.r) >= 0.0
      && Mean(Transform(X, r.value.r, r.value.t)) == Mean(P)
  {
    if |X| != |P| then Failure(ShapeMismatch)
    else if |X| == 0 then Failure(EmptyPointSet)
    else
      var f := svd(CentredCrossCovariance(X, P));
      var R := RowRotation(ReflectionFix(f));
      TranslationAlignsMeans(X, P, R);
      Success(RigidTransform(R, Translation(X, P, R)))
  }

  /** The corrected step fails exactly when the NumPy step does, and otherwise returns its transpose. */
  lemma CorrectedTransposesNumpy(X: seq<Vec3>, P: seq<Vec3>, svd: Mat3 -> Svd)
    ensures CorrectedRigidAlignment(X, P, svd).Failure? <==> RigidAlignmentNumpy(X, P, svd).Failure?
    ensures CorrectedRigidAlignment(X, P, svd).Success? ==>
      CorrectedRigidAlignment(X, P, svd).value.r == Transpose(RigidAlignmentNumpy(X, P, svd).value.r)
  {
  }

  /** With orthogonal SVD factors, the corrected rotation is a proper rotation. */
  lemma RowRotationProper(f: Svd)
    requires Orthogonal(f.u) && Orthogonal(f.vt)
    ensures Orthogonal(RowRotation(ReflectionFix(f)))
    ensures Det(RowRotation(ReflectionFix(f))) == 1.0
  {
    ColumnRotationProper(f);
    OrthogonalTranspose(ColumnRotation(ReflectionFix(f)));
  }

  /** `sum_i (x_i @ R) . p_i`, the correlation that the Kabsch rotation maximises. */
  function Correlation(X: seq<Vec3>, P: seq<Vec3>, R: Mat3): real
    requires |X| == |P|
  {
    if |X| == 0 then 0.0
    else Correlation(X[..|X| - 1], P[..|P| - 1], R) + Dot(VecMat(X[|X| - 1], R), P[|P| - 1])
  }

  lemma DotVecMat(x: Vec3, R: Mat3, p: Vec3)
    ensures Dot(VecMat(x, R), p) == Frobenius(R, Outer(x, p))
  {
    var v := VecMat(x, R);
    ColEntries(R);
    ColumnTerm(x.x, x.y, x.z, R.r0.x, R.r1.x, R.r2.x, p.x, v.x);
    ColumnTerm(x.x, x.y, x.z, R.r0.y, R.r1.y, R.r2.y, p.y, v.y);
    ColumnTerm(x.x, x.y, x.z, R.r0.z, R.r1.z, R.r2.z, p.z, v.z);
    calc {
      Dot(v, p);
      v.x * p.x + v.y * p.y + v.z * p.z;
      (R.r0.x * (x.x * p.x) + R.r1.x * (x.y * p.x) + R.r2.x * (x.z * p.x))
        + (R.r0.y * (x.x * p.y) + R.r1.y * (x.y * p.y) + R.r2.y * (x.z * p.y))
        + (R.r0.z * (x.x * p.z) + R.r1.z * (x.y * p.z) + R.r2.z * (x.z * p.z));
      (R.r0.x * (x.x * p.x) + R.r0.y * (x.x * p.y) + R.r0.z * (x.x * p.z))
        + (R.r1.x * (x.y * p.x) + R.r1.y * (x.y * p.y) + R.r1.z * (x.y * p.z))
        + (R.r2.x * (x.z * p.x) + R.r2.y * (x.z * p.y) + R.r2.z * (x.z * p.z));
      Frobenius(R, Outer(x, p));
    }
  }

  /** One column of `x @ R` against one coordinate of `p`, regrouped by the rows of `R`. */
  lemma ColumnTerm(x0: real, x1: real, x2: real, c0: real, c1: real, c2: real, p: real, d: real)
    requires d == x0 * c0 + x1 * c1 + x2 * c2
    ensures d * p == c0 * (x0 * p) + c1 * (x1 * p) + c2 * (x2 * p)
  {
    Dist3R(x0 * c0, x1 * c1, x2 * c2, p);
    ProductReorder(x0, c0, p);
    ProductReorder(x1, c1, p);
    ProductReorder(x2, c2, p);
  }

  lemma ProductReorder(a: real, b: real, c: real)
    ensures (a * b) * c == b * (a * c)
  {
  }

  lemma FrobeniusAdd(R: Mat3, a: Mat3, b: Mat3)
    ensures Frobenius(R, AddMat(a, b)) == Frobenius(R, a) + Frobenius(R, b)
  {
    DotAdd(R.r0, a.r0, b.r0);
    DotAdd(R.r1, a.r1, b.r1);
    DotAdd(R.r2, a.r2, b.r2);
  }

  lemma DotAdd(u: Vec3, a: Vec3, b: Vec3)
    ensures Dot(u, Add(a, b)) == Dot(u, a) + Dot(u, b)
  {
    assert u.x * (a.x + b.x) == u.x * a.x + u.x * b.x;
    assert u.y * (a.y + b.y) == u.y * a.y + u.y * b.y;
    assert u.z * (a.z + b.z) == u.z * a.z + u.z * b.z;
  }

  lemma FrobeniusZero(R: Mat3)
    ensures Frobenius(R, ZeroMat) == 0.0
  {
  }

  /** The correlation of `X @ R` with `P` is the Frobenius product of `R` with `H = X.T @ P`. */
  lemma {:induction false} CorrelationIsFrobenius(X: seq<Vec3>, P: seq<Vec3>, R: Mat3)
    requires |X| == |P|
    ensures Correlation(X, P, R) == Frobenius(R, CrossCovariance(X, P))
    decreases |X|
  {
    if |X| == 0 {
      FrobeniusZero(R);
    } else {
      var n := |X| - 1;
      CorrelationIsFrobenius(X[..n], P[..n], R);
      DotVecMat(X[n], R, P[n]);
      FrobeniusAdd(R, CrossCovariance(X[..n], P[..n]), Outer(X[n], P[n]));
    }
  }

  /** The reflection fix as a product: `Vt` is multiplied on the left by `diag(1, 1, +-1)`. */
  function FixSign(f: Svd): Mat3 {
    if Det(ColumnRotation(f)) < 0.0 then FlipZ else Identity
  }

  lemma ReflectionFixIsMul(f: Svd)
    ensures ReflectionFix(f).vt == Mul(FixSign(f), f.vt)
  {
    NegateLastRowIsMul(f.vt);
    MulIdentity(f.vt);
  }

  /**
   * When `U @ diag(S) @ Vt` is an SVD of H, the corrected rotation reaches the correlation
   * `S[0] + S[1] + S[2]`, or `S[0] + S[1] - S[2]` after the reflection fix: the Kabsch optimum.
   */
  lemma CorrectedRotationCorrelation(f: Svd, H: Mat3)
    requires Orthogonal(f.u) && Orthogonal(f.vt)
    requires H == Mul(Mul(f.u, Diag(f.s)), f.vt)
    ensures Frobenius(RowRotation(ReflectionFix(f)), H)
         == f.s.x + f.s.y + (if Det(ColumnRotation(f)) < 0.0 then -f.s.z else f.s.z)
  {
    var D, U, Vt, Sg := FixSign(f), f.u, f.vt, Diag(f.s);
    ReflectionFixIsMul(f);
    var R := Mul(U, Mul(D, Vt));
    assert Transpose(D) == D;
    calc {
      Transpose(R);
      { TransposeMul(U, Mul(D, Vt)); }
      Mul(Transpose(Mul(D, Vt)), Transpose(U));
      { TransposeMul(D, Vt); }
      Mul(Mul(Transpose(Vt), D), Transpose(U));
    }
    calc {
      Mul(Transpose(U), H);
      { MulAssoc(Transpose(U), Mul(U, Sg), Vt); }
      Mul(Mul(Transpose(U), Mul(U, Sg)), Vt);
      { MulAssoc(Transpose(U), U, Sg); MulIdentity(Sg); }
      Mul(Sg, Vt);
    }
    calc {
      Frobenius(R, H);
      { FrobeniusIsTrace(R, H); }
      Trace(Mul(Transpose(R), H));
      Trace(Mul(Mul(Mul(Transpose(Vt), D), Transpose(U)), H));
      { MulAssoc(Mul(Transpose(Vt), D), Transpose(U), H); }
      Trace(Mul(Mul(Transpose(Vt), D), Mul(Sg, Vt)));
      { MulAssoc(Transpose(Vt), D, Mul(Sg, Vt)); }
      Trace(Mul(Transpose(Vt), Mul(D, Mul(Sg, Vt))));
      { TraceCyclic(Transpose(Vt), Mul(D, Mul(Sg, Vt))); }
      Trace(Mul(Mul(D, Mul(Sg, Vt)), Transpose(Vt)));
      { MulAssoc(D, Mul(Sg, Vt), Transpose(Vt)); MulAssoc(Sg, Vt, Transpose(Vt)); MulIdentity(Sg); }
      Trace(Mul(D, Sg));
      { MulDiagTrace(f.s); }
      f.s.x + f.s.y + (if Det(ColumnRotation(f)) < 0.0 then -f.s.z else f.s.z);
    }
  }

  // ---------------------------------------------------------------------------
  // A point set on which line 18's rotation turns the wrong way
  // ---------------------------------------------------------------------------

  /** Four points at distance `a` from the origin on the x and y axes. */
  function ExampleX(a: real): seq<Vec3> {
    [Vec3(a, 0.0, 0.0), Vec3(-a, 0.0, 0.0), Vec3(0.0, a, 0.0), Vec3(0.0, -a, 0.0)]
  }

  /** The same points turned a quarter turn about the z axis. */
  function ExampleP(a: real): seq<Vec3> {
    [Vec3(0.0, a, 0.0), Vec3(0.0, -a, 0.0), Vec3(-a, 0.0, 0.0), Vec3(a, 0.0, 0.0)]
  }

  /** A quarter turn about the z axis, in the row convention: `e1 @ Q == e2`. */
  const QuarterTurn: Mat3 := Mat3(Vec3(0.0, 1.0, 0.0), Vec3(-1.0, 0.0, 0.0), Vec3(0.0, 0.0, 1.0))

  const QuarterTurnBack: Mat3 := Mat3(Vec3(0.0, -1.0, 0.0), Vec3(1.0, 0.0, 0.0), Vec3(0.0, 0.0, 1.0))

  /** The singular values of the example's H are `(b, b, 0)` with `b = 2a^2`. */
  function ExampleSingularValues(b: real): Vec3 {
    Vec3(b, b, 0.0)
  }

  /** The SVD routine on the example: `U = I`, `S = (b, b, 0)`, `Vt = QuarterTurn`. */
  function ExampleSvd(b: real): Mat3 -> Svd {
    h => Svd(Identity, ExampleSingularValues(b), QuarterTurn)
  }

  lemma QuarterTurnTranspose()
    ensures Transpose(QuarterTurn) == QuarterTurnBack
  {
  }

  lemma RowTimesQuarterTurn(v: Vec3)
    ensures VecMat(v, QuarterTurn) == Vec3(-v.y, v.x, v.z)
    ensures VecMat(v, QuarterTurnBack) == Vec3(v.y, -v.x, v.z)
  {
  }

  lemma MulQuarterTurn(m: Mat3)
    ensures Mul(m, QuarterTurn)
         == Mat3(Vec3(-m.r0.y, m.r0.x, m.r0.z), Vec3(-m.r1.y, m.r1.x, m.r1.z), Vec3(-m.r2.y, m.r2.x, m.r2.z))
    ensures Mul(m, QuarterTurnBack)
         == Mat3(Vec3(m.r0.y, -m.r0.x, m.r0.z), Vec3(m.r1.y, -m.r1.x, m.r1.z), Vec3(m.r2.y, -m.r2.x, m.r2.z))
  {
    RowTimesQuarterTurn(m.r0);
    RowTimesQuarterTurn(m.r1);
    RowTimesQuarterTurn(m.r2);
  }

  lemma OrthogonalQuarterTurn()
    ensures Orthogonal(QuarterTurn)
  {
    QuarterTurnTranspose();
    MulQuarterTurn(QuarterTurnBack);
    MulQuarterTurn(QuarterTurn);
  }

  lemma TransformOfFour(a: Vec3, b: Vec3, c: Vec3, d: Vec3, R: Mat3, t: Vec3)
    ensures Transform([a, b, c, d], R, t) == [Apply(a, R, t), Apply(b, R, t), Apply(c, R, t), Apply(d, R, t)]
  {
  }

  lemma SumRowsOfFour(a: Vec3, b: Vec3, c: Vec3, d: Vec3)
    ensures SumRows([a, b, c, d]) == Add(Add(Add(Add(Zero, a), b), c), d)
  {
    assert [a, b, c, d][..3] == [a, b, c] && [a, b, c][..2] == [a, b] && [a, b][..1] == [a] && [a][..0] == [];
    assert SumRows([a]) == Add(Zero, a);
    assert SumRows([a, b]) == Add(SumRows([a]), b);
    assert SumRows([a, b, c]) == Add(SumRows([a, b]), c);
    assert SumRows([a, b, c, d]) == Add(SumRows([a, b, c]), d);
  }

  lemma CrossCovarianceOfFour(a: Vec3, b: Vec3, c: Vec3, d: Vec3, p: Vec3, q: Vec3, r: Vec3, w: Vec3)
    ensures CrossCovariance([a, b, c, d], [p, q, r, w])
         == AddMat(AddMat(AddMat(AddMat(ZeroMat, Outer(a, p)), Outer(b, q)), Outer(c, r)), Outer(d, w))
  {
    assert [a, b, c, d][..3] == [a, b, c] && [a, b, c][..2] == [a, b] && [a, b][..1] == [a] && [a][..0] == [];
    assert [p, q, r, w][..3] == [p, q, r] && [p, q, r][..2] == [p, q] && [p, q][..1] == [p] && [p][..0] == [];
    assert CrossCovariance([a], [p]) == AddMat(ZeroMat, Outer(a, p));
    assert CrossCovariance([a, b], [p, q]) == AddMat(CrossCovariance([a], [p]), Outer(b, q));
    assert CrossCovariance([a, b, c], [p, q, r]) == AddMat(CrossCovariance([a, b], [p, q]), Outer(c, r));
    assert CrossCovariance([a, b, c, d], [p, q, r, w]) == AddMat(CrossCovariance([a, b, c], [p, q, r]), Outer(d, w));
  }

  lemma ExampleTransform(a: real)
    ensures ExampleP(a) == Transform(ExampleX(a), QuarterTurn, Zero)
    ensures Transform(ExampleX(a), QuarterTurnBack, Zero)[0] == Vec3(0.0, -a, 0.0)
  {
    var X := ExampleX(a);
    TransformOfFour(X[0], X[1], X[2], X[3], QuarterTurn, Zero);
    TransformOfFour(X[0], X[1], X[2], X[3], QuarterTurnBack, Zero);
    RowTimesQuarterTurn(X[0]);
    RowTimesQuarterTurn(X[1]);
    RowTimesQuarterTurn(X[2]);
    RowTimesQuarterTurn(X[3]);
  }

  lemma ExampleMeans(a: real)
    ensures Mean(ExampleX(a)) == Zero && Mean(ExampleP(a)) == Zero
    ensures Centered(ExampleX(a), Zero) == ExampleX(a) && Centered(ExampleP(a), Zero) == ExampleP(a)
  {
    var X, P := ExampleX(a), ExampleP(a);
    SumRowsOfFour(X[0], X[1], X[2], X[3]);
    SumRowsOfFour(P[0], P[1], P[2], P[3]);
  }

  lemma ExampleCovariance(a: real)
    ensures CentredCrossCovariance(ExampleX(a), ExampleP(a))
         == Mat3(Vec3(0.0, 2.0 * (a * a), 0.0), Vec3(-2.0 * (a * a), 0.0, 0.0), Zero)
  {
    var X, P := ExampleX(a), ExampleP(a);
    ExampleMeans(a);
    CrossCovarianceOfFour(X[0], X[1], X[2], X[3], P[0], P[1], P[2], P[3]);
    assert (-a) * (-a) == a * a;
    assert a * (-a) == -(a * a) && (-a) * a == -(a * a);
  }

  lemma DiagQuarterTurn(d: Vec3)
    ensures Mul(Mul(Identity, Diag(d)), QuarterTurn) == Mat3(Vec3(0.0, d.x, 0.0), Vec3(-d.y, 0.0, 0.0), Vec3(0.0, 0.0, d.z))
  {
    MulIdentity(Diag(d));
    MulQuarterTurn(Diag(d));
  }

  lemma QuarterTurnFactors(H: Mat3, b: real)
    requires H == Mat3(Vec3(0.0, b, 0.0), Vec3(-b, 0.0, 0.0), Zero)
    ensures H == Mul(Mul(Identity, Diag(ExampleSingularValues(b))), QuarterTurn)
  {
    DiagQuarterTurn(ExampleSingularValues(b));
  }

  /** `U = I, S = (b, b, 0), Vt = QuarterTurn` is an SVD of the example's H, with orthogonal factors. */
  lemma ExampleSvdIsSvd(a: real, b: real)
    requires b == 2.0 * (a * a)
    ensures var f := ExampleSvd(b)(CentredCrossCovariance(ExampleX(a), ExampleP(a)));
      && CentredCrossCovariance(ExampleX(a), ExampleP(a)) == Mul(Mul(f.u, Diag(f.s)), f.vt)
      && Orthogonal(f.u) && Orthogonal(f.vt)
  {
    var H := CentredCrossCovariance(ExampleX(a), ExampleP(a));
    var f := ExampleSvd(b)(H);
    assert f == Svd(Identity, ExampleSingularValues(b), QuarterTurn);
    assert H == Mat3(Vec3(0.0, b, 0.0), Vec3(-b, 0.0, 0.0), Zero) by { ExampleCovariance(a); }
    QuarterTurnFactors(H, b);
    OrthogonalIdentity();
    OrthogonalQuarterTurn();
  }

  lemma ExampleColumnRotation(b: real)
    ensures ColumnRotation(Svd(Identity, ExampleSingularValues(b), QuarterTurn)) == QuarterTurnBack
  {
    QuarterTurnTranspose();
    assert Transpose(Identity) == Identity;
    MulIdentity(QuarterTurnBack);
  }

  lemma ExampleRowRotation(b: real)
    ensures RowRotation(Svd(Identity, ExampleSingularValues(b), QuarterTurn)) == QuarterTurn
  {
    MulIdentity(QuarterTurn);
  }

  lemma QuarterTurnBackDet()
    ensures Det(QuarterTurnBack) == 1.0
  {
  }

  lemma ExampleReflectionFix(b: real)
    ensures var f := Svd(Identity, ExampleSingularValues(b), QuarterTurn); ReflectionFix(f) == f
  {
    ExampleColumnRotation(b);
    QuarterTurnBackDet();
  }

  /** On two point sets whose means are both the origin, both steps return a zero translation. */
  lemma CentredPairResults(X: seq<Vec3>, P: seq<Vec3>, svd: Mat3 -> Svd, f: Svd)
    requires |X| == |P| > 0
    requires Mean(X) == Zero && Mean(P) == Zero
    requires svd(CentredCrossCovariance(X, P)) == f
    ensures RigidAlignmentNumpy(X, P, svd) == Success(RigidTransform(ColumnRotation(ReflectionFix(f)), Zero))
    ensures CorrectedRigidAlignment(X, P, svd) == Success(RigidTransform(RowRotation(ReflectionFix(f)), Zero))
  {
    VecMatZero(ColumnRotation(ReflectionFix(f)));
    VecMatZero(RowRotation(ReflectionFix(f)));
  }

  /** The NumPy step returns the inverse turn `QuarterTurnBack` on the example. */
  lemma ExampleNumpyResult(a: real, b: real)
    ensures RigidAlignmentNumpy(ExampleX(a), ExampleP(a), ExampleSvd(b)) == Success(RigidTransform(QuarterTurnBack, Zero))
  {
    var f := Svd(Identity, ExampleSingularValues(b), QuarterTurn);
    ExampleMeans(a);
    ExampleReflectionFix(b);
    ExampleColumnRotation(b);
    CentredPairResults(ExampleX(a), ExampleP(a), ExampleSvd(b), f);
  }

  /** The corrected step returns `QuarterTurn`, the turn that carries `ExampleX(a)` onto `ExampleP(a)`. */
  lemma ExampleCorrectedResult(a: real, b: real)
    ensures CorrectedRigidAlignment(ExampleX(a), ExampleP(a), ExampleSvd(b)) == Success(RigidTransform(QuarterTurn, Zero))
  {
    var f := Svd(Identity, ExampleSingularValues(b), QuarterTurn);
    ExampleMeans(a);
    ExampleReflectionFix(b);
    ExampleRowRotation(b);
    CentredPairResults(ExampleX(a), ExampleP(a), ExampleSvd(b), f);
  }

  lemma ExampleCorrelations(a: real)
    ensures Correlation(ExampleX(a), ExampleP(a), QuarterTurnBack) == -4.0 * (a * a)
    ensures Correlation(ExampleX(a), ExampleP(a), QuarterTurn) == 4.0 * (a * a)
  {
    ExampleCovariance(a);
    ExampleMeans(a);
    CorrelationIsFrobenius(ExampleX(a), ExampleP(a), QuarterTurnBack);
    CorrelationIsFrobenius(ExampleX(a), ExampleP(a), QuarterTurn);
  }

  /**
   * For every `a != 0` the NumPy step's rotation moves `ExampleX(a)` away from `ExampleP(a)` and
   * reaches the correlation `-4a^2`, while the row rotation reaches `4a^2`.
   */
  lemma NumpyRotationTurnsBackwards(a: real)
    requires a != 0.0
    ensures Transform(ExampleX(a), QuarterTurnBack, Zero) != ExampleP(a)
    ensures Correlation(ExampleX(a), ExampleP(a), QuarterTurnBack) < 0.0
    ensures Correlation(ExampleX(a), ExampleP(a), QuarterTurn) > 0.0
  {
    ExampleTransform(a);
    assert ExampleP(a)[0] == Vec3(0.0, a, 0.0);
    ExampleCorrelations(a);
    NegativeQuadruple(a, Correlation(ExampleX(a), ExampleP(a), QuarterTurnBack));
    NegativeQuadruple(-a, -Correlation(ExampleX(a), ExampleP(a), QuarterTurn));
  }

  lemma NegativeQuadruple(a: real, c: real)
    requires a != 0.0 && c == -4.0 * (a * a)
    ensures c < 0.0
  {
    calc {
      c;
      -4.0 * (a * a);
    <
      0.0;
    }
  }
}
