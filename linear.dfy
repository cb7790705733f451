/**
 * Exact real 3-vectors and 3x3 matrices, with the identities the alignment code relies on.
 *
 * Points are ROW vectors, as in numpy's N x 3 arrays: `VecMat(v, m)` is `v @ m`, and the rows of
 * `Mul(a, b)` are the rows of `a` each multiplied by `b`.
 *
 * Z3 does not distribute products over sums on its own, so the nonlinear identities below are
 * proved coordinate by coordinate from the small distributivity facts at the top.
 */
module Linear {

  // ---------------------------------------------------------------------------
  // Scalar facts that the nonlinear proofs are built from
  // ---------------------------------------------------------------------------

  lemma ScaleCancel(n: real, c: real)
    requires n != 0.0
    ensures n * ((1.0 / n) * c) == c
    ensures (1.0 / n) * (n * c) == c
  {
    assert n * (1.0 / n) == 1.0;
    assert n * ((1.0 / n) * c) == (n * (1.0 / n)) * c;
    assert (1.0 / n) * (n * c) == ((1.0 / n) * n) * c;
  }

  lemma Dist(a: real, b: real, c: real)
    ensures a * (b - c) == a * b - a * c
  {
  }

  lemma DistR(a: real, b: real, k: real)
    ensures (a - b) * k == a * k - b * k
  {
  }

  lemma Dist3(k: real, a: real, b: real, c: real)
    ensures k * (a + b + c) == k * a + k * b + k * c
  {
  }

  lemma Dist3R(a: real, b: real, c: real, k: real)
    ensures (a + b + c) * k == a * k + b * k + c * k
  {
  }

  lemma Comm(k: real, a: real, b: real)
    ensures k * (a * b) == k * (b * a)
  {
  }

  lemma Swap(a: real, b: real, c: real, d: real)
    ensures (a * b) * (c * d) == (a * c) * (b * d)
  {
  }

  /** Every ordering of the product of three factors, written `_ * (_ * _)`. */
  lemma TriplePerm(a: real, b: real, c: real)
    ensures a * (b * c) == a * (c * b)
    ensures a * (b * c) == b * (a * c)
    ensures a * (b * c) == b * (c * a)
    ensures a * (b * c) == c * (a * b)
    ensures a * (b * c) == c * (b * a)
  {
  }

  lemma Expand2(p: real, q: real, r: real, s: real, t: real, u: real)
    ensures (p + q + r) * (s + t + u) == p * s + p * t + p * u + q * s + q * t + q * u + r * s + r * t + r * u
  {
    Dist3R(p, q, r, s + t + u);
    Dist3(p, s, t, u);
    Dist3(q, s, t, u);
    Dist3(r, s, t, u);
  }

  lemma ExpandDiff(a: real, b: real, c: real, d: real)
    ensures (a - b) * (c - d) == a * c - a * d - b * c + b * d
  {
    DistR(a, b, c - d);
    Dist(a, c, d);
    Dist(b, c, d);
  }

  /** One off-diagonal entry of the adjugate identity vanishes; k0, k1, k2 are the cross products' entries. */
  lemma OffDiagonal(xa: real, xb: real, ya: real, yb: real, za: real, zb: real, k0: real, k1: real, k2: real)
    requires k0 == ya * zb - yb * za && k1 == za * xb - zb * xa && k2 == xa * yb - xb * ya
    ensures xa * k0 + ya * k1 + za * k2 == 0.0
  {
    Dist(xa, ya * zb, yb * za);
    Dist(ya, za * xb, zb * xa);
    Dist(za, xa * yb, xb * ya);
    TriplePerm(xa, ya, zb);
    TriplePerm(xa, yb, za);
    TriplePerm(xb, ya, za);
  }

  lemma OffDiagonal2(xa: real, xb: real, ya: real, yb: real, za: real, zb: real, k0: real, k1: real, k2: real)
    requires k0 == ya * zb - yb * za && k1 == za * xb - zb * xa && k2 == xa * yb - xb * ya
    ensures xb * k0 + yb * k1 + zb * k2 == 0.0
  {
    Dist(xb, ya * zb, yb * za);
    Dist(yb, za * xb, zb * xa);
    Dist(zb, xa * yb, xb * ya);
    TriplePerm(xb, ya, zb);
    TriplePerm(xb, yb, za);
    TriplePerm(xa, yb, zb);
  }

  /**
   * The diagonal entry along coordinate m (a and b the next two) of the adjugate identity is the
   * triple product expanded along m; ka and kb are the other two entries of the first cross product.
   */
  lemma Diagonal(xm: real, xa: real, xb: real, ym: real, ya: real, yb: real, zm: real, za: real, zb: real,
                 k0: real, k1: real, k2: real, ka: real, kb: real)
    requires k0 == ya * zb - yb * za && k1 == za * xb - zb * xa && k2 == xa * yb - xb * ya
    requires ka == yb * zm - ym * zb && kb == ym * za - ya * zm
    ensures xm * k0 + ym * k1 + zm * k2 == xm * k0 + xa * ka + xb * kb
  {
    Dist(ym, za * xb, zb * xa);
    Dist(zm, xa * yb, xb * ya);
    Dist(xa, yb * zm, ym * zb);
    Dist(xb, ym * za, ya * zm);
    TriplePerm(xb, ym, za);
    TriplePerm(xa, ym, zb);
    TriplePerm(xa, yb, zm);
    TriplePerm(xb, ya, zm);
  }

  lemma NegateFactor(a: real, b: real, c: real)
    ensures a * (b * -c) == -(a * (b * c))
    ensures a * (-b * c) == -(a * (b * c))
    ensures -a * (b * c) == -(a * (b * c))
  {
  }

  // ---------------------------------------------------------------------------
  // Vectors
  // ---------------------------------------------------------------------------

  datatype Vec3 = Vec3(x: real, y: real, z: real) {
    /** Coordinate j, as `v[j]`. */
    function At(j: nat): real
      requires j < 3
    {
      if j == 0 then x else if j == 1 then y else z
    }
  }

  const Zero: Vec3 := Vec3(0.0, 0.0, 0.0)

  function Add(a: Vec3, b: Vec3): Vec3 {
    Vec3(a.x + b.x, a.y + b.y, a.z + b.z)
  }

  function Sub(a: Vec3, b: Vec3): Vec3 {
    Vec3(a.x - b.x, a.y - b.y, a.z - b.z)
  }

  function Scale(c: real, a: Vec3): Vec3 {
    Vec3(c * a.x, c * a.y, c * a.z)
  }

  function Dot(a: Vec3, b: Vec3): real {
    a.x * b.x + a.y * b.y + a.z * b.z
  }

  function Cross(a: Vec3, b: Vec3): Vec3 {
    Vec3(a.y * b.z - a.z * b.y, a.z * b.x - a.x * b.z, a.x * b.y - a.y * b.x)
  }

  lemma ScaleAdd(c: real, a: Vec3, b: Vec3)
    ensures Scale(c, Add(a, b)) == Add(Scale(c, a), Scale(c, b))
  {
    var l, r := Scale(c, Add(a, b)), Add(Scale(c, a), Scale(c, b));
    assert l.x == r.x && l.y == r.y && l.z == r.z;
  }

  lemma ScaleScale(p: real, q: real, v: Vec3)
    ensures Scale(p, Scale(q, v)) == Scale(p * q, v)
  {
  }

  // ---------------------------------------------------------------------------
  // Matrices
  // ---------------------------------------------------------------------------

  /** A 3x3 matrix given by its rows. */
  datatype Mat3 = Mat3(r0: Vec3, r1: Vec3, r2: Vec3) {
    function Row(j: nat): Vec3
      requires j < 3
    {
      if j == 0 then r0 else if j == 1 then r1 else r2
    }

    /** Entry (j, k), as `m[j, k]`. */
    function Get(j: nat, k: nat): real
      requires j < 3 && k < 3
    {
      Row(j).At(k)
    }
  }

  const Identity: Mat3 := Mat3(Vec3(1.0, 0.0, 0.0), Vec3(0.0, 1.0, 0.0), Vec3(0.0, 0.0, 1.0))

  const ZeroMat: Mat3 := Mat3(Zero, Zero, Zero)

  function Col(m: Mat3, k: nat): Vec3
    requires k < 3
  {
    if k == 0 then Vec3(m.r0.x, m.r1.x, m.r2.x)
    else if k == 1 then Vec3(m.r0.y, m.r1.y, m.r2.y)
    else Vec3(m.r0.z, m.r1.z, m.r2.z)
  }

  function Transpose(m: Mat3): Mat3 {
    Mat3(Col(m, 0), Col(m, 1), Col(m, 2))
  }

  /** The row vector `v` times `m`, as `v @ m`. */
  function VecMat(v: Vec3, m: Mat3): Vec3 {
    Vec3(Dot(v, Col(m, 0)), Dot(v, Col(m, 1)), Dot(v, Col(m, 2)))
  }

  /** The matrix product `a @ b`. */
  function Mul(a: Mat3, b: Mat3): Mat3 {
    Mat3(VecMat(a.r0, b), VecMat(a.r1, b), VecMat(a.r2, b))
  }

  function AddMat(a: Mat3, b: Mat3): Mat3 {
    Mat3(Add(a.r0, b.r0), Add(a.r1, b.r1), Add(a.r2, b.r2))
  }

  function ScaleMat(c: real, m: Mat3): Mat3 {
    Mat3(Scale(c, m.r0), Scale(c, m.r1), Scale(c, m.r2))
  }

  /** The column `u` times the row `v`: entry (j, k) is `u[j] * v[k]`. */
  function Outer(u: Vec3, v: Vec3): Mat3 {
    Mat3(Scale(u.x, v), Scale(u.y, v), Scale(u.z, v))
  }

  /** The diagonal matrix with `d` on its diagonal. */
  function Diag(d: Vec3): Mat3 {
    Mat3(Vec3(d.x, 0.0, 0.0), Vec3(0.0, d.y, 0.0), Vec3(0.0, 0.0, d.z))
  }

  function Trace(m: Mat3): real {
    m.r0.x + m.r1.y + m.r2.z
  }

  /** The determinant, as the triple product of the rows. */
  function Det(m: Mat3): real {
    Dot(m.r0, Cross(m.r1, m.r2))
  }

  /** `m` with its last row negated, as numpy's `m[-1, :] *= -1`. */
  function NegateLastRow(m: Mat3): Mat3 {
    Mat3(m.r0, m.r1, Scale(-1.0, m.r2))
  }

  /** `m` with its last column negated, as Eigen's `m.col(2) *= -1.0`. */
  function NegateLastCol(m: Mat3): Mat3 {
    Mat3(Vec3(m.r0.x, m.r0.y, -m.r0.z), Vec3(m.r1.x, m.r1.y, -m.r1.z), Vec3(m.r2.x, m.r2.y, -m.r2.z))
  }

  ghost predicate Orthogonal(m: Mat3) {
    Mul(Transpose(m), m) == Identity && Mul(m, Transpose(m)) == Identity
  }

  // ---------------------------------------------------------------------------
  // Linear identities
  // ---------------------------------------------------------------------------

  lemma ColEntries(m: Mat3)
    ensures Col(m, 0) == Vec3(m.r0.x, m.r1.x, m.r2.x)
    ensures Col(m, 1) == Vec3(m.r0.y, m.r1.y, m.r2.y)
    ensures Col(m, 2) == Vec3(m.r0.z, m.r1.z, m.r2.z)
  {
  }

  lemma VecMatAdd(a: Vec3, b: Vec3, m: Mat3)
    ensures VecMat(Add(a, b), m) == Add(VecMat(a, m), VecMat(b, m))
  {
  }

  lemma VecMatScale(c: real, a: Vec3, m: Mat3)
    ensures VecMat(Scale(c, a), m) == Scale(c, VecMat(a, m))
  {
    var l, r := VecMat(Scale(c, a), m), Scale(c, VecMat(a, m));
    assert l.x == r.x;
    assert l.y == r.y;
    assert l.z == r.z;
  }

  lemma VecMatIdentity(v: Vec3)
    ensures VecMat(v, Identity) == v
  {
  }

  lemma VecMatZero(m: Mat3)
    ensures VecMat(Zero, m) == Zero
  {
  }

  /** One coordinate of `(v @ a) @ b` equals the same coordinate of `v @ (a @ b)`. */
  lemma VecMatAssocAt(v: Vec3, a: Mat3, b: Mat3, k: nat)
    requires k < 3
    ensures Dot(VecMat(v, a), Col(b, k)) == Dot(v, Col(Mul(a, b), k))
  {
    var c := Col(b, k);
    Dist3R(v.x * a.r0.x, v.y * a.r1.x, v.z * a.r2.x, c.x);
    Dist3R(v.x * a.r0.y, v.y * a.r1.y, v.z * a.r2.y, c.y);
    Dist3R(v.x * a.r0.z, v.y * a.r1.z, v.z * a.r2.z, c.z);
    Dist3(v.x, a.r0.x * c.x, a.r0.y * c.y, a.r0.z * c.z);
    Dist3(v.y, a.r1.x * c.x, a.r1.y * c.y, a.r1.z * c.z);
    Dist3(v.z, a.r2.x * c.x, a.r2.y * c.y, a.r2.z * c.z);
    assert Col(Mul(a, b), k) == Vec3(Dot(a.r0, c), Dot(a.r1, c), Dot(a.r2, c));
  }

  /** `(v @ a) @ b == v @ (a @ b)`. */
  lemma VecMatAssoc(v: Vec3, a: Mat3, b: Mat3)
    ensures VecMat(VecMat(v, a), b) == VecMat(v, Mul(a, b))
  {
    VecMatAssocAt(v, a, b, 0);
    VecMatAssocAt(v, a, b, 1);
    VecMatAssocAt(v, a, b, 2);
  }

  lemma MulAssoc(a: Mat3, b: Mat3, c: Mat3)
    ensures Mul(Mul(a, b), c) == Mul(a, Mul(b, c))
  {
    VecMatAssoc(a.r0, b, c);
    VecMatAssoc(a.r1, b, c);
    VecMatAssoc(a.r2, b, c);
  }

  lemma MulIdentity(m: Mat3)
    ensures Mul(Identity, m) == m && Mul(m, Identity) == m
  {
    VecMatIdentity(m.r0);
    VecMatIdentity(m.r1);
    VecMatIdentity(m.r2);
  }

  lemma TransposeTranspose(m: Mat3)
    ensures Transpose(Transpose(m)) == m
  {
  }

  lemma TransposeMul(a: Mat3, b: Mat3)
    ensures Transpose(Mul(a, b)) == Mul(Transpose(b), Transpose(a))
  {
  }

  lemma TransposeNegateLastRow(m: Mat3)
    ensures Transpose(NegateLastRow(m)) == NegateLastCol(Transpose(m))
  {
  }

  // ---------------------------------------------------------------------------
  // Determinants
  // ---------------------------------------------------------------------------

  /** The six terms of the Leibniz formula for the rows X, Y, Z. */
  function Leibniz(X: Vec3, Y: Vec3, Z: Vec3): real {
    X.x * (Y.y * Z.z) - X.x * (Y.z * Z.y) + X.y * (Y.z * Z.x) - X.y * (Y.x * Z.z) + X.z * (Y.x * Z.y) - X.z * (Y.y * Z.x)
  }

  lemma TripleProductLeibniz(X: Vec3, Y: Vec3, Z: Vec3)
    ensures Dot(X, Cross(Y, Z)) == Leibniz(X, Y, Z)
  {
    Dist(X.x, Y.y * Z.z, Y.z * Z.y);
    Dist(X.y, Y.z * Z.x, Y.x * Z.z);
    Dist(X.z, Y.x * Z.y, Y.y * Z.x);
  }

  lemma DetTranspose(m: Mat3)
    ensures Det(Transpose(m)) == Det(m)
  {
    ColEntries(m);
    TripleProductLeibniz(m.r0, m.r1, m.r2);
    TripleProductLeibniz(Col(m, 0), Col(m, 1), Col(m, 2));
    TriplePerm(m.r0.x, m.r1.y, m.r2.z);
    TriplePerm(m.r0.x, m.r1.z, m.r2.y);
    TriplePerm(m.r0.y, m.r1.z, m.r2.x);
    TriplePerm(m.r0.y, m.r1.x, m.r2.z);
    TriplePerm(m.r0.z, m.r1.x, m.r2.y);
    TriplePerm(m.r0.z, m.r1.y, m.r2.x);
  }

  lemma DetNegateLastCol(m: Mat3)
    ensures Det(NegateLastCol(m)) == -Det(m)
  {
    var n := NegateLastCol(m);
    TripleProductLeibniz(m.r0, m.r1, m.r2);
    TripleProductLeibniz(n.r0, n.r1, n.r2);
    NegateFactor(m.r0.x, m.r1.y, m.r2.z);
    NegateFactor(m.r0.x, m.r1.z, m.r2.y);
    NegateFactor(m.r0.y, m.r1.z, m.r2.x);
    NegateFactor(m.r0.y, m.r1.x, m.r2.z);
    NegateFactor(m.r0.z, m.r1.x, m.r2.y);
    NegateFactor(m.r0.z, m.r1.y, m.r2.x);
  }

  lemma DetIdentity()
    ensures Det(Identity) == 1.0
  {
  }

  /** `Dot(p, X) * Dot(w, K)` spread over the nine products `(p_l w_m)(X_l K_m)`. */
  lemma DotDot(p: Vec3, X: Vec3, w: Vec3, K: Vec3)
    ensures Dot(p, X) * Dot(w, K) ==
        (p.x * w.x) * (X.x * K.x) + (p.x * w.y) * (X.x * K.y) + (p.x * w.z) * (X.x * K.z)
      + (p.y * w.x) * (X.y * K.x) + (p.y * w.y) * (X.y * K.y) + (p.y * w.z) * (X.y * K.z)
      + (p.z * w.x) * (X.z * K.x) + (p.z * w.y) * (X.z * K.y) + (p.z * w.z) * (X.z * K.z)
  {
    Expand2(p.x * X.x, p.y * X.y, p.z * X.z, w.x * K.x, w.y * K.y, w.z * K.z);
    Swap(p.x, X.x, w.x, K.x); Swap(p.x, X.x, w.y, K.y); Swap(p.x, X.x, w.z, K.z);
    Swap(p.y, X.y, w.x, K.x); Swap(p.y, X.y, w.y, K.y); Swap(p.y, X.y, w.z, K.z);
    Swap(p.z, X.z, w.x, K.x); Swap(p.z, X.z, w.y, K.y); Swap(p.z, X.z, w.z, K.z);
  }

  /** Lagrange's identity. */
  lemma BinetCauchy(p: Vec3, q: Vec3, u: Vec3, v: Vec3)
    ensures Dot(p, u) * Dot(q, v) - Dot(p, v) * Dot(q, u) == Dot(Cross(p, q), Cross(u, v))
  {
    DotDot(p, u, q, v);
    DotDot(p, v, q, u);
    Comm(p.x * q.x, v.x, u.x); Comm(p.x * q.y, v.x, u.y); Comm(p.x * q.z, v.x, u.z);
    Comm(p.y * q.x, v.y, u.x); Comm(p.y * q.y, v.y, u.y); Comm(p.y * q.z, v.y, u.z);
    Comm(p.z * q.x, v.z, u.x); Comm(p.z * q.y, v.z, u.y); Comm(p.z * q.z, v.z, u.z);
    ExpandDiff(p.y * q.z, p.z * q.y, u.y * v.z, u.z * v.y);
    ExpandDiff(p.z * q.x, p.x * q.z, u.z * v.x, u.x * v.z);
    ExpandDiff(p.x * q.y, p.y * q.x, u.x * v.y, u.y * v.x);
  }

  /** The cross product of two rows of `a @ b`, in terms of the columns of `b`. */
  lemma CrossOfRows(p: Vec3, q: Vec3, b: Mat3)
    ensures Cross(VecMat(p, b), VecMat(q, b))
         == Vec3(Dot(Cross(p, q), Cross(Col(b, 1), Col(b, 2))),
                 Dot(Cross(p, q), Cross(Col(b, 2), Col(b, 0))),
                 Dot(Cross(p, q), Cross(Col(b, 0), Col(b, 1))))
  {
    var cx, cy, cz := Col(b, 0), Col(b, 1), Col(b, 2);
    BinetCauchy(p, q, cy, cz);
    BinetCauchy(p, q, cz, cx);
    BinetCauchy(p, q, cx, cy);
  }

  /** The rows X, Y, Z against the columns K0, K1, K2 of their adjugate: `d` times the identity. */
  ghost predicate AdjugateFacts(X: Vec3, Y: Vec3, Z: Vec3, K0: Vec3, K1: Vec3, K2: Vec3, d: real) {
    && X.x * K0.x + Y.x * K1.x + Z.x * K2.x == d
    && X.y * K0.y + Y.y * K1.y + Z.y * K2.y == d
    && X.z * K0.z + Y.z * K1.z + Z.z * K2.z == d
    && X.x * K0.y + Y.x * K1.y + Z.x * K2.y == 0.0
    && X.x * K0.z + Y.x * K1.z + Z.x * K2.z == 0.0
    && X.y * K0.x + Y.y * K1.x + Z.y * K2.x == 0.0
    && X.y * K0.z + Y.y * K1.z + Z.y * K2.z == 0.0
    && X.z * K0.x + Y.z * K1.x + Z.z * K2.x == 0.0
    && X.z * K0.y + Y.z * K1.y + Z.z * K2.y == 0.0
  }

  /** One entry of `rows(X, Y, Z) @ adjugate == det * identity`, named by its row and column. */
  lemma AdjugateXX(X: Vec3, Y: Vec3, Z: Vec3)
    ensures X.x * Cross(Y, Z).x + Y.x * Cross(Z, X).x + Z.x * Cross(X, Y).x == Dot(X, Cross(Y, Z))
  {
    Diagonal(X.x, X.y, X.z, Y.x, Y.y, Y.z, Z.x, Z.y, Z.z,
      Cross(Y, Z).x, Cross(Z, X).x, Cross(X, Y).x, Cross(Y, Z).y, Cross(Y, Z).z);
  }

  lemma AdjugateYY(X: Vec3, Y: Vec3, Z: Vec3)
    ensures X.y * Cross(Y, Z).y + Y.y * Cross(Z, X).y + Z.y * Cross(X, Y).y == Dot(X, Cross(Y, Z))
  {
    Diagonal(X.y, X.z, X.x, Y.y, Y.z, Y.x, Z.y, Z.z, Z.x,
      Cross(Y, Z).y, Cross(Z, X).y, Cross(X, Y).y, Cross(Y, Z).z, Cross(Y, Z).x);
  }

  lemma AdjugateZZ(X: Vec3, Y: Vec3, Z: Vec3)
    ensures X.z * Cross(Y, Z).z + Y.z * Cross(Z, X).z + Z.z * Cross(X, Y).z == Dot(X, Cross(Y, Z))
  {
    Diagonal(X.z, X.x, X.y, Y.z, Y.x, Y.y, Z.z, Z.x, Z.y,
      Cross(Y, Z).z, Cross(Z, X).z, Cross(X, Y).z, Cross(Y, Z).x, Cross(Y, Z).y);
  }

  lemma AdjugateYX(X: Vec3, Y: Vec3, Z: Vec3)
    ensures X.y * Cross(Y, Z).x + Y.y * Cross(Z, X).x + Z.y * Cross(X, Y).x == 0.0
  {
    OffDiagonal(X.y, X.z, Y.y, Y.z, Z.y, Z.z,
      Cross(Y, Z).x, Cross(Z, X).x, Cross(X, Y).x);
  }

  lemma AdjugateZX(X: Vec3, Y: Vec3, Z: Vec3)
    ensures X.z * Cross(Y, Z).x + Y.z * Cross(Z, X).x + Z.z * Cross(X, Y).x == 0.0
  {
    OffDiagonal2(X.y, X.z, Y.y, Y.z, Z.y, Z.z,
      Cross(Y, Z).x, Cross(Z, X).x, Cross(X, Y).x);
  }

  lemma AdjugateZY(X: Vec3, Y: Vec3, Z: Vec3)
    ensures X.z * Cross(Y, Z).y + Y.z * Cross(Z, X).y + Z.z * Cross(X, Y).y == 0.0
  {
    OffDiagonal(X.z, X.x, Y.z, Y.x, Z.z, Z.x,
      Cross(Y, Z).y, Cross(Z, X).y, Cross(X, Y).y);
  }

  lemma AdjugateXY(X: Vec3, Y: Vec3, Z: Vec3)
    ensures X.x * Cross(Y, Z).y + Y.x * Cross(Z, X).y + Z.x * Cross(X, Y).y == 0.0
  {
    OffDiagonal2(X.z, X.x, Y.z, Y.x, Z.z, Z.x,
      Cross(Y, Z).y, Cross(Z, X).y, Cross(X, Y).y);
  }

  lemma AdjugateXZ(X: Vec3, Y: Vec3, Z: Vec3)
    ensures X.x * Cross(Y, Z).z + Y.x * Cross(Z, X).z + Z.x * Cross(X, Y).z == 0.0
  {
    OffDiagonal(X.x, X.y, Y.x, Y.y, Z.x, Z.y,
      Cross(Y, Z).z, Cross(Z, X).z, Cross(X, Y).z);
  }

  lemma AdjugateYZ(X: Vec3, Y: Vec3, Z: Vec3)
    ensures X.y * Cross(Y, Z).z + Y.y * Cross(Z, X).z + Z.y * Cross(X, Y).z == 0.0
  {
    OffDiagonal2(X.x, X.y, Y.x, Y.y, Z.x, Z.y,
      Cross(Y, Z).z, Cross(Z, X).z, Cross(X, Y).z);
  }

  lemma Adjugate(X: Vec3, Y: Vec3, Z: Vec3)
    ensures AdjugateFacts(X, Y, Z, Cross(Y, Z), Cross(Z, X), Cross(X, Y), Dot(X, Cross(Y, Z)))
  {
    AdjugateXX(X, Y, Z); AdjugateYY(X, Y, Z); AdjugateZZ(X, Y, Z); AdjugateYX(X, Y, Z); AdjugateZX(X, Y, Z);
    AdjugateZY(X, Y, Z); AdjugateXY(X, Y, Z); AdjugateXZ(X, Y, Z); AdjugateYZ(X, Y, Z);
  }

  lemma Contract(p: Vec3, w: Vec3, X: Vec3, Y: Vec3, Z: Vec3, K0: Vec3, K1: Vec3, K2: Vec3, d: real)
    requires AdjugateFacts(X, Y, Z, K0, K1, K2, d)
    ensures Dot(p, X) * Dot(w, K0) + Dot(p, Y) * Dot(w, K1) + Dot(p, Z) * Dot(w, K2) == Dot(p, w) * d
  {
    var cxx, cxy, cxz := p.x * w.x, p.x * w.y, p.x * w.z;
    var cyx, cyy, cyz := p.y * w.x, p.y * w.y, p.y * w.z;
    var czx, czy, czz := p.z * w.x, p.z * w.y, p.z * w.z;
    calc {
      Dot(p, X) * Dot(w, K0) + Dot(p, Y) * Dot(w, K1) + Dot(p, Z) * Dot(w, K2);
      { DotDot(p, X, w, K0); DotDot(p, Y, w, K1); DotDot(p, Z, w, K2); }
        cxx * (X.x * K0.x) + cxy * (X.x * K0.y) + cxz * (X.x * K0.z)
      + cyx * (X.y * K0.x) + cyy * (X.y * K0.y) + cyz * (X.y * K0.z)
      + czx * (X.z * K0.x) + czy * (X.z * K0.y) + czz * (X.z * K0.z)
      + cxx * (Y.x * K1.x) + cxy * (Y.x * K1.y) + cxz * (Y.x * K1.z)
      + cyx * (Y.y * K1.x) + cyy * (Y.y * K1.y) + cyz * (Y.y * K1.z)
      + czx * (Y.z * K1.x) + czy * (Y.z * K1.y) + czz * (Y.z * K1.z)
      + cxx * (Z.x * K2.x) + cxy * (Z.x * K2.y) + cxz * (Z.x * K2.z)
      + cyx * (Z.y * K2.x) + cyy * (Z.y * K2.y) + cyz * (Z.y * K2.z)
      + czx * (Z.z * K2.x) + czy * (Z.z * K2.y) + czz * (Z.z * K2.z);
      {
        Dist3(cxx, X.x * K0.x, Y.x * K1.x, Z.x * K2.x);
        Dist3(cxy, X.x * K0.y, Y.x * K1.y, Z.x * K2.y);
        Dist3(cxz, X.x * K0.z, Y.x * K1.z, Z.x * K2.z);
        Dist3(cyx, X.y * K0.x, Y.y * K1.x, Z.y * K2.x);
        Dist3(cyy, X.y * K0.y, Y.y * K1.y, Z.y * K2.y);
        Dist3(cyz, X.y * K0.z, Y.y * K1.z, Z.y * K2.z);
        Dist3(czx, X.z * K0.x, Y.z * K1.x, Z.z * K2.x);
        Dist3(czy, X.z * K0.y, Y.z * K1.y, Z.z * K2.y);
        Dist3(czz, X.z * K0.z, Y.z * K1.z, Z.z * K2.z);
      }
        cxx * (X.x * K0.x + Y.x * K1.x + Z.x * K2.x) + cxy * (X.x * K0.y + Y.x * K1.y + Z.x * K2.y)
      + cxz * (X.x * K0.z + Y.x * K1.z + Z.x * K2.z) + cyx * (X.y * K0.x + Y.y * K1.x + Z.y * K2.x)
      + cyy * (X.y * K0.y + Y.y * K1.y + Z.y * K2.y) + cyz * (X.y * K0.z + Y.y * K1.z + Z.y * K2.z)
      + czx * (X.z * K0.x + Y.z * K1.x + Z.z * K2.x) + czy * (X.z * K0.y + Y.z * K1.y + Z.z * K2.y)
      + czz * (X.z * K0.z + Y.z * K1.z + Z.z * K2.z);
      cxx * d + cxy * 0.0 + cxz * 0.0 + cyx * 0.0 + cyy * d + cyz * 0.0 + czx * 0.0 + czy * 0.0 + czz * d;
      { Dist3(d, cxx, cyy, czz); }
      Dot(p, w) * d;
    }
  }

  lemma ContractColumns(b: Mat3, w: Vec3, p: Vec3)
    ensures Dot(p, Col(b, 0)) * Dot(w, Cross(Col(b, 1), Col(b, 2)))
          + Dot(p, Col(b, 1)) * Dot(w, Cross(Col(b, 2), Col(b, 0)))
          + Dot(p, Col(b, 2)) * Dot(w, Cross(Col(b, 0), Col(b, 1))) == Dot(p, w) * Det(b)
  {
    var cx, cy, cz := Col(b, 0), Col(b, 1), Col(b, 2);
    Adjugate(cx, cy, cz);
    Contract(p, w, cx, cy, cz, Cross(cy, cz), Cross(cz, cx), Cross(cx, cy), Dot(cx, Cross(cy, cz)));
    DetTranspose(b);
  }

  /** The determinant is multiplicative: `det(a @ b) == det(a) * det(b)`. */
  lemma DetMul(a: Mat3, b: Mat3)
    ensures Det(Mul(a, b)) == Det(a) * Det(b)
  {
    CrossOfRows(a.r1, a.r2, b);
    ContractColumns(b, Cross(a.r1, a.r2), a.r0);
  }

  lemma DetOfInverse(a: Mat3, b: Mat3)
    requires Mul(a, b) == Identity
    ensures Det(a) * Det(b) == 1.0
  {
    DetMul(a, b);
    DetIdentity();
  }

  lemma SquareOne(d: real)
    requires d * d == 1.0
    ensures d == 1.0 || d == -1.0
  {
    assert (d - 1.0) * (d + 1.0) == d * d - 1.0;
  }

  /** An orthogonal matrix has determinant 1 or -1. */
  lemma DetOrthogonal(m: Mat3)
    requires Orthogonal(m)
    ensures Det(m) == 1.0 || Det(m) == -1.0
  {
    DetOfInverse(Transpose(m), m);
    DetTranspose(m);
    SquareOne(Det(m));
  }

  lemma OrthogonalMul(a: Mat3, b: Mat3)
    requires Orthogonal(a) && Orthogonal(b)
    ensures Orthogonal(Mul(a, b))
  {
    var m := Mul(a, b);
    TransposeMul(a, b);
    calc {
      Mul(Transpose(m), m);
      Mul(Mul(Transpose(b), Transpose(a)), Mul(a, b));
      { MulAssoc(Transpose(b), Transpose(a), Mul(a, b)); }
      Mul(Transpose(b), Mul(Transpose(a), Mul(a, b)));
      { MulAssoc(Transpose(a), a, b); }
      Mul(Transpose(b), Mul(Mul(Transpose(a), a), b));
      { MulIdentity(b); }
      Mul(Transpose(b), b);
      Identity;
    }
    calc {
      Mul(m, Transpose(m));
      Mul(Mul(a, b), Mul(Transpose(b), Transpose(a)));
      { MulAssoc(a, b, Mul(Transpose(b), Transpose(a))); }
      Mul(a, Mul(b, Mul(Transpose(b), Transpose(a))));
      { MulAssoc(b, Transpose(b), Transpose(a)); }
      Mul(a, Mul(Mul(b, Transpose(b)), Transpose(a)));
      { MulIdentity(Transpose(a)); }
      Mul(a, Transpose(a));
      Identity;
    }
  }

  lemma OrthogonalTranspose(m: Mat3)
    requires Orthogonal(m)
    ensures Orthogonal(Transpose(m))
  {
    TransposeTranspose(m);
  }

  /** The reflection `diag(1, 1, -1)`. */
  const FlipZ := Mat3(Vec3(1.0, 0.0, 0.0), Vec3(0.0, 1.0, 0.0), Vec3(0.0, 0.0, -1.0))

  lemma NegateLastColIsMul(m: Mat3)
    ensures NegateLastCol(m) == Mul(m, FlipZ)
  {
  }

  lemma OrthogonalFlipZ()
    ensures Orthogonal(FlipZ)
  {
    assert Transpose(FlipZ) == FlipZ;
  }

  lemma OrthogonalNegateLastCol(m: Mat3)
    requires Orthogonal(m)
    ensures Orthogonal(NegateLastCol(m))
  {
    NegateLastColIsMul(m);
    OrthogonalFlipZ();
    OrthogonalMul(m, FlipZ);
  }

  lemma OrthogonalNegateLastRow(m: Mat3)
    requires Orthogonal(m)
    ensures Orthogonal(NegateLastRow(m))
  {
    OrthogonalTranspose(m);
    OrthogonalNegateLastCol(Transpose(m));
    TransposeNegateLastRow(m);
    OrthogonalTranspose(NegateLastCol(Transpose(m)));
    TransposeTranspose(NegateLastRow(m));
  }
  // ---------------------------------------------------------------------------
  // Traces and the Frobenius product
  // ---------------------------------------------------------------------------

  /** The Frobenius inner product `sum(a * b)` of two matrices. */
  function Frobenius(a: Mat3, b: Mat3): real {
    Dot(a.r0, b.r0) + Dot(a.r1, b.r1) + Dot(a.r2, b.r2)
  }

  lemma FrobeniusIsTrace(a: Mat3, b: Mat3)
    ensures Frobenius(a, b) == Trace(Mul(Transpose(a), b))
  {
    ColEntries(a);
    ColEntries(b);
  }

  lemma TraceCyclic(a: Mat3, b: Mat3)
    ensures Trace(Mul(a, b)) == Trace(Mul(b, a))
  {
    ColEntries(a);
    ColEntries(b);
  }

  lemma NegateLastRowIsMul(m: Mat3)
    ensures NegateLastRow(m) == Mul(FlipZ, m)
  {
  }

  lemma MulDiagTrace(s: Vec3)
    ensures Trace(Mul(Identity, Diag(s))) == s.x + s.y + s.z
    ensures Trace(Mul(FlipZ, Diag(s))) == s.x + s.y - s.z
  {
  }

  // ---------------------------------------------------------------------------
  // Negation and uniform scaling
  // ---------------------------------------------------------------------------

  lemma DotNegate(a: Vec3, b: Vec3)
    ensures Dot(Scale(-1.0, a), b) == -Dot(a, b)
    ensures Dot(Scale(-1.0, a), Scale(-1.0, b)) == Dot(a, b)
  {
  }

  lemma CrossNegate(a: Vec3, b: Vec3)
    ensures Cross(Scale(-1.0, a), Scale(-1.0, b)) == Cross(a, b)
  {
    NegateFactor(1.0, a.y, b.z);
  }

  /** Negating a 3x3 matrix negates its determinant. */
  lemma DetNegate(m: Mat3)
    ensures Det(ScaleMat(-1.0, m)) == -Det(m)
  {
    CrossNegate(m.r1, m.r2);
    DotNegate(m.r0, Cross(m.r1, m.r2));
  }

  lemma ColNegate(m: Mat3, k: nat)
    requires k < 3
    ensures Col(ScaleMat(-1.0, m), k) == Scale(-1.0, Col(m, k))
  {
  }

  lemma MulNegate(a: Mat3, b: Mat3)
    ensures Mul(ScaleMat(-1.0, a), ScaleMat(-1.0, b)) == Mul(a, b)
  {
    ColNegate(b, 0);
    ColNegate(b, 1);
    ColNegate(b, 2);
    forall r | r in [a.r0, a.r1, a.r2]
      ensures VecMat(Scale(-1.0, r), ScaleMat(-1.0, b)) == VecMat(r, b)
    {
      DotNegate(r, Col(b, 0));
      DotNegate(r, Col(b, 1));
      DotNegate(r, Col(b, 2));
    }
  }

  lemma TransposeNegate(m: Mat3)
    ensures Transpose(ScaleMat(-1.0, m)) == ScaleMat(-1.0, Transpose(m))
  {
  }

  lemma OrthogonalNegate(m: Mat3)
    requires Orthogonal(m)
    ensures Orthogonal(ScaleMat(-1.0, m))
  {
    TransposeNegate(m);
    MulNegate(Transpose(m), m);
    MulNegate(m, Transpose(m));
  }

  /** `Identity * c` multiplied by `m` is `c * m`. */
  lemma ScaledIdentityMul(c: real, m: Mat3)
    ensures Mul(ScaleMat(c, Identity), m) == ScaleMat(c, m)
  {
    ColEntries(m);
  }

  lemma ScaleVecCancel(c: real, v: Vec3)
    requires c != 0.0
    ensures Scale(c, Scale(1.0 / c, v)) == v
  {
    ScaleCancel(c, v.x);
    ScaleCancel(c, v.y);
    ScaleCancel(c, v.z);
  }

  lemma ScaleMatCancel(c: real, m: Mat3)
    requires c != 0.0
    ensures ScaleMat(c, ScaleMat(1.0 / c, m)) == m
  {
    ScaleVecCancel(c, m.r0);
    ScaleVecCancel(c, m.r1);
    ScaleVecCancel(c, m.r2);
  }

  lemma ScaleMatNegate(c: real, m: Mat3)
    ensures ScaleMat(-c, ScaleMat(-1.0, m)) == ScaleMat(c, m)
  {
  }

  lemma OrthogonalIdentity()
    ensures Orthogonal(Identity)
  {
    assert Transpose(Identity) == Identity;
    MulIdentity(Identity);
  }

  lemma TransposeScale(c: real, m: Mat3)
    ensures Transpose(ScaleMat(c, m)) == ScaleMat(c, Transpose(m))
  {
  }

  lemma MulScaleLeft(c: real, a: Mat3, b: Mat3)
    ensures Mul(ScaleMat(c, a), b) == ScaleMat(c, Mul(a, b))
  {
    VecMatScale(c, a.r0, b);
    VecMatScale(c, a.r1, b);
    VecMatScale(c, a.r2, b);
  }

  lemma MulScaleRight(c: real, a: Mat3, b: Mat3)
    ensures Mul(a, ScaleMat(c, b)) == ScaleMat(c, Mul(a, b))
  {
    calc {
      Mul(a, ScaleMat(c, b));
      { TransposeTranspose(Mul(a, ScaleMat(c, b))); }
      Transpose(Transpose(Mul(a, ScaleMat(c, b))));
      { TransposeMul(a, ScaleMat(c, b)); }
      Transpose(Mul(Transpose(ScaleMat(c, b)), Transpose(a)));
      { TransposeScale(c, b); }
      Transpose(Mul(ScaleMat(c, Transpose(b)), Transpose(a)));
      { MulScaleLeft(c, Transpose(b), Transpose(a)); }
      Transpose(ScaleMat(c, Mul(Transpose(b), Transpose(a))));
      { TransposeScale(c, Mul(Transpose(b), Transpose(a))); }
      ScaleMat(c, Transpose(Mul(Transpose(b), Transpose(a))));
      { TransposeMul(Transpose(b), Transpose(a)); TransposeTranspose(a); TransposeTranspose(b); }
      ScaleMat(c, Mul(a, b));
    }
  }
}
