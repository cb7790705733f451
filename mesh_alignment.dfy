/**
 * The ICP loop of `rigid_align_meshes`: each pass aligns the current copy of mesh A's vertices to
 * their closest points on mesh B, composes that step into the running transform and moves the
 * vertices by it.
 *
 * The closest-point query and libigl's `rigid_alignment` are foreign and enter as function
 * parameters; the NumPy fallback is the step of the RigidAlignment module.
 */
module MeshAlignment {
  import opened Linear
  import opened Wrappers
  import opened RigidAlignment

  /** `max(1, iters)`: the number of passes the loop makes. */
  function Iterations(iters: int): (n: nat)
    ensures n >= 1
    ensures iters >= 1 ==> n == iters
    ensures iters < 1 ==> n == 1
  {
    if iters < 1 then 1 else iters
  }

  /**
   * One pass's step: the closest points `C` of `X` on mesh B, then libigl's rigid alignment of `X`
   * to `C` when the binding has it, or the NumPy fallback otherwise.
   */
  function Step(X: seq<Vec3>, closest: seq<Vec3> -> seq<Vec3>, useIglRigid: bool,
                iglRigid: (seq<Vec3>, seq<Vec3>) -> RigidTransform, svd: Mat3 -> Svd): Result<RigidTransform, AlignError>
  {
    var C := closest(X);
    if useIglRigid then Success(iglRigid(X, C)) else CorrectedRigidAlignment(X, C, svd)
  }

  /** `R_total` after the given steps: their rotations multiplied in the order they were taken. */
  function RotationProduct(steps: seq<RigidTransform>): Mat3 {
    if |steps| == 0 then Identity
    else Mul(RotationProduct(steps[..|steps| - 1]), steps[|steps| - 1].r)
  }

  /** `t_total` after the given steps: each step maps the previous total by `t @ R_step + t_step`. */
  function ComposedTranslation(steps: seq<RigidTransform>): Vec3 {
    if |steps| == 0 then Zero
    else
      var last := steps[|steps| - 1];
      Apply(ComposedTranslation(steps[..|steps| - 1]), last.r, last.t)
  }

  /** `X` after the given steps: the vertices moved by each step in turn. */
  function Moved(va: seq<Vec3>, steps: seq<RigidTransform>): (X: seq<Vec3>)
    ensures |X| == |va|
  {
    if |steps| == 0 then va
    else
      var last := steps[|steps| - 1];
      Transform(Moved(va, steps[..|steps| - 1]), last.r, last.t)
  }

  /** The step computation of one pass, as a function of the current vertices. */
  function Pass(closest: seq<Vec3> -> seq<Vec3>, useIglRigid: bool,
                iglRigid: (seq<Vec3>, seq<Vec3>) -> RigidTransform, svd: Mat3 -> Svd): seq<Vec3> -> Result<RigidTransform, AlignError>
  {
    X => Step(X, closest, useIglRigid, iglRigid, svd)
  }

  /**
   * The steps of the first `n` passes, each computed by `pass` on the vertices the earlier steps
   * moved, or the first error a pass reports.
   */
  function Run(va: seq<Vec3>, n: nat, pass: seq<Vec3> -> Result<RigidTransform, AlignError>): Result<seq<RigidTransform>, AlignError>
  {
    if n == 0 then Success([])
    else
      match Run(va, n - 1, pass)
      case Failure(e) => Failure(e)
      case Success(steps) =>
        match pass(Moved(va, steps))
        case Failure(e) => Failure(e)
        case Success(s) => Success(steps + [s])
  }

  /** What `rigid_align_meshes` returns after the passes of `Run`. */
  function Outcome(r: Result<seq<RigidTransform>, AlignError>): Result<RigidTransform, AlignError> {
    match r
    case Failure(e) => Failure(e)
    case Success(steps) => Success(RigidTransform(RotationProduct(steps), ComposedTranslation(steps)))
  }

  // ---------------------------------------------------------------------------
  // Composition
  // ---------------------------------------------------------------------------

  /** Applying `(R1, t1)` and then `(R2, t2)` is applying `(R1 @ R2, t1 @ R2 + t2)`. */
  lemma ApplyCompose(v: Vec3, r1: Mat3, t1: Vec3, r2: Mat3, t2: Vec3)
    ensures Apply(Apply(v, r1, t1), r2, t2) == Apply(v, Mul(r1, r2), Apply(t1, r2, t2))
  {
    VecMatAdd(VecMat(v, r1), t1, r2);
    VecMatAssoc(v, r1, r2);
  }

  lemma TransformCompose(X: seq<Vec3>, r1: Mat3, t1: Vec3, r2: Mat3, t2: Vec3)
    ensures Transform(Transform(X, r1, t1), r2, t2) == Transform(X, Mul(r1, r2), Apply(t1, r2, t2))
  {
    forall i | 0 <= i < |X|
      ensures Transform(Transform(X, r1, t1), r2, t2)[i] == Transform(X, Mul(r1, r2), Apply(t1, r2, t2))[i]
    {
      ApplyCompose(X[i], r1, t1, r2, t2);
    }
  }

  lemma TransformIdentity(X: seq<Vec3>)
    ensures Transform(X, Identity, Zero) == X
  {
    forall i | 0 <= i < |X|
      ensures Transform(X, Identity, Zero)[i] == X[i]
    {
      VecMatIdentity(X[i]);
    }
  }

  /** The moved vertices are mesh A's vertices under the accumulated transform (lines 58-60). */
  lemma {:induction false} MovedIsComposed(va: seq<Vec3>, steps: seq<RigidTransform>)
    ensures Moved(va, steps) == Transform(va, RotationProduct(steps), ComposedTranslation(steps))
    decreases |steps|
  {
    if |steps| == 0 {
      TransformIdentity(va);
    } else {
      var prev, last := steps[..|steps| - 1], steps[|steps| - 1];
      MovedIsComposed(va, prev);
      TransformCompose(va, RotationProduct(prev), ComposedTranslation(prev), last.r, last.t);
    }
  }

  /** One more step multiplies `R_total` by its rotation, maps `t_total` and moves the vertices. */
  lemma AppendStep(va: seq<Vec3>, steps: seq<RigidTransform>, s: RigidTransform)
    ensures RotationProduct(steps + [s]) == Mul(RotationProduct(steps), s.r)
    ensures ComposedTranslation(steps + [s]) == Apply(ComposedTranslation(steps), s.r, s.t)
    ensures Moved(va, steps + [s]) == Transform(Moved(va, steps), s.r, s.t)
  {
    assert (steps + [s])[..|steps|] == steps;
  }

  /** Running `p` and then `q` multiplies the two rotation totals. */
  lemma {:induction false} RotationProductAppend(p: seq<RigidTransform>, q: seq<RigidTransform>)
    ensures RotationProduct(p + q) == Mul(RotationProduct(p), RotationProduct(q))
    decreases |q|
  {
    if |q| == 0 {
      assert p + q == p;
      MulIdentity(RotationProduct(p));
    } else {
      var q', last := q[..|q| - 1], q[|q| - 1];
      assert p + q == (p + q') + [last];
      calc {
        RotationProduct(p + q);
        { AppendStep([], p + q', last); }
        Mul(RotationProduct(p + q'), last.r);
        { RotationProductAppend(p, q'); }
        Mul(Mul(RotationProduct(p), RotationProduct(q')), last.r);
        { MulAssoc(RotationProduct(p), RotationProduct(q'), last.r); }
        Mul(RotationProduct(p), Mul(RotationProduct(q'), last.r));
      }
    }
  }

  /** Running `p` and then `q` maps `p`'s translation total by `q`'s totals. */
  lemma {:induction false} ComposedTranslationAppend(p: seq<RigidTransform>, q: seq<RigidTransform>)
    ensures ComposedTranslation(p + q) == Apply(ComposedTranslation(p), RotationProduct(q), ComposedTranslation(q))
    decreases |q|
  {
    if |q| == 0 {
      assert p + q == p;
      VecMatIdentity(ComposedTranslation(p));
    } else {
      var q', last := q[..|q| - 1], q[|q| - 1];
      assert p + q == (p + q') + [last];
      calc {
        ComposedTranslation(p + q);
        { AppendStep([], p + q', last); }
        Apply(ComposedTranslation(p + q'), last.r, last.t);
        { ComposedTranslationAppend(p, q'); }
        Apply(Apply(ComposedTranslation(p), RotationProduct(q'), ComposedTranslation(q')), last.r, last.t);
        { ApplyCompose(ComposedTranslation(p), RotationProduct(q'), ComposedTranslation(q'), last.r, last.t); }
        Apply(ComposedTranslation(p), Mul(RotationProduct(q'), last.r), Apply(ComposedTranslation(q'), last.r, last.t));
      }
    }
  }

  /** When every step is a proper rotation, so is `R_total`. */
  lemma {:induction false} RotationProductProper(steps: seq<RigidTransform>)
    requires forall i :: 0 <= i < |steps| ==> ProperRotation(steps[i].r)
    ensures ProperRotation(RotationProduct(steps))
    decreases |steps|
  {
    if |steps| == 0 {
      ProperIdentity();
    } else {
      var prev, last := steps[..|steps| - 1], steps[|steps| - 1];
      RotationProductProper(prev);
      assert RotationProduct(steps) == Mul(RotationProduct(prev), last.r);
      ProperMul(RotationProduct(prev), last.r);
    }
  }

  lemma ProperIdentity()
    ensures ProperRotation(Identity)
  {
    OrthogonalIdentity();
    DetIdentity();
  }

  lemma ProperMul(a: Mat3, b: Mat3)
    requires ProperRotation(a) && ProperRotation(b)
    ensures ProperRotation(Mul(a, b))
  {
    OrthogonalMul(a, b);
    DetMul(a, b);
    UnitProduct(Det(a), Det(b));
  }

  lemma UnitProduct(x: real, y: real)
    requires x == 1.0 && y == 1.0
    ensures x * y == 1.0
  {
  }

  // ---------------------------------------------------------------------------
  // The passes
  // ---------------------------------------------------------------------------

  /** A run that completes records one step per pass. */
  lemma {:induction false} RunLength(va: seq<Vec3>, n: nat, pass: seq<Vec3> -> Result<RigidTransform, AlignError>)
    ensures Run(va, n, pass).Success? ==> |Run(va, n, pass).value| == n
    decreases n
  {
    if n > 0 {
      RunLength(va, n - 1, pass);
    }
  }

  /** A pass extends a run by the step it computes on the moved vertices, or ends it with its error. */
  lemma RunStep(va: seq<Vec3>, i: nat, pass: seq<Vec3> -> Result<RigidTransform, AlignError>, steps: seq<RigidTransform>)
    requires Run(va, i, pass) == Success(steps)
    ensures var step := pass(Moved(va, steps));
      Run(va, i + 1, pass) == if step.Success? then Success(steps + [step.value]) else Failure(step.error)
  {
  }

  /** Once a pass fails, every longer run reports the same error. */
  lemma {:induction false} RunFailureSticks(va: seq<Vec3>, i: nat, n: nat, pass: seq<Vec3> -> Result<RigidTransform, AlignError>)
    requires i <= n
    requires Run(va, i, pass).Failure?
    ensures Run(va, n, pass) == Run(va, i, pass)
    decreases n - i
  {
    if i < n {
      RunFailureSticks(va, i, n - 1, pass);
    }
  }

  /** A proper rotation: orthogonal with determinant 1. */
  ghost predicate ProperRotation(r: Mat3) {
    Orthogonal(r) && Det(r) == 1.0
  }

  /**
   * If every pass on a point set of mesh A's size produces a proper rotation, then every run
   * completes and all its steps are proper rotations.
   */
  lemma {:induction false} RunProper(va: seq<Vec3>, n: nat, pass: seq<Vec3> -> Result<RigidTransform, AlignError>)
    requires forall X: seq<Vec3> :: |X| == |va| ==> pass(X).Success? && ProperRotation(pass(X).value.r)
    ensures Run(va, n, pass).Success?
    ensures var steps := Run(va, n, pass).value;
      forall i :: 0 <= i < |steps| ==> ProperRotation(steps[i].r)
    decreases n
  {
    if n > 0 {
      RunProper(va, n - 1, pass);
      RunStep(va, n - 1, pass, Run(va, n - 1, pass).value);
    }
  }

  /** The fallback pass produces a proper rotation on every non-empty point set of a given size. */
  lemma FallbackPassProper(size: nat, closest: seq<Vec3> -> seq<Vec3>,
                           iglRigid: (seq<Vec3>, seq<Vec3>) -> RigidTransform, svd: Mat3 -> Svd)
    requires size > 0
    requires forall X: seq<Vec3> :: |closest(X)| == |X|
    requires forall h: Mat3 :: Orthogonal(svd(h).u) && Orthogonal(svd(h).vt)
    ensures forall X: seq<Vec3> :: |X| == size ==>
      Pass(closest, false, iglRigid, svd)(X).Success? && ProperRotation(Pass(closest, false, iglRigid, svd)(X).value.r)
  {
    forall X: seq<Vec3> | |X| == size
      ensures Pass(closest, false, iglRigid, svd)(X).Success? && ProperRotation(Pass(closest, false, iglRigid, svd)(X).value.r)
    {
      FallbackStepProper(X, closest, iglRigid, svd);
    }
  }

  /** One fallback pass on a non-empty point set produces a proper rotation. */
  lemma FallbackStepProper(X: seq<Vec3>, closest: seq<Vec3> -> seq<Vec3>,
                           iglRigid: (seq<Vec3>, seq<Vec3>) -> RigidTransform, svd: Mat3 -> Svd)
    requires |X| > 0 && |closest(X)| == |X|
    requires forall h: Mat3 :: Orthogonal(svd(h).u) && Orthogonal(svd(h).vt)
    ensures var step := Pass(closest, false, iglRigid, svd)(X);
      step.Success? && ProperRotation(step.value.r)
  {
    assert Pass(closest, false, iglRigid, svd)(X) == Step(X, closest, false, iglRigid, svd);
    var C := closest(X);
    var f := svd(CentredCrossCovariance(X, C));
    RowRotationProper(f);
    assert CorrectedRigidAlignment(X, C, svd).value.r == RowRotation(ReflectionFix(f));
  }

  /**
   * The loop of lines 38-62 for a given pass: it returns `Outcome(Run(va, n, pass))`, the product
   * of the `n` step rotations in order and the composed translation, or the first pass's error.
   */
  method AlignLoop(va: seq<Vec3>, n: nat, pass: seq<Vec3> -> Result<RigidTransform, AlignError>)
    returns (res: Result<RigidTransform, AlignError>)
    ensures res == Outcome(Run(va, n, pass))
  {
    var X := va;
    var rTotal := Identity;
    var tTotal := Zero;
    ghost var steps: seq<RigidTransform> := [];
    var i := 0;
    while i < n
      invariant 0 <= i <= n
      invariant Run(va, i, pass) == Success(steps)
      invariant X == Moved(va, steps)
      invariant rTotal == RotationProduct(steps) && tTotal == ComposedTranslation(steps)
    {
      var step := pass(X);
      RunStep(va, i, pass, steps);
      if step.Failure? {
        RunFailureSticks(va, i + 1, n, pass);
        return Failure(step.error);
      }
      var s := step.value;
      rTotal := Mul(rTotal, s.r);
      tTotal := Apply(tTotal, s.r, s.t);
      X := Transform(X, s.r, s.t);
      AppendStep(va, steps, s);
      steps := steps + [s];
      i := i + 1;
    }
    res := Success(RigidTransform(rTotal, tTotal));
  }

  /**
   * `rigid_align_meshes` after loading: `max(1, iters)` passes, each stepping by libigl's rigid
   * alignment when the binding has it and by the NumPy fallback otherwise.
   */
  method RigidAlignMeshes(va: seq<Vec3>, iters: int, closest: seq<Vec3> -> seq<Vec3>, useIglRigid: bool,
                          iglRigid: (seq<Vec3>, seq<Vec3>) -> RigidTransform, svd: Mat3 -> Svd)
    returns (res: Result<RigidTransform, AlignError>)
    ensures res == Outcome(Run(va, Iterations(iters), Pass(closest, useIglRigid, iglRigid, svd)))
  {
    res := AlignLoop(va, Iterations(iters), Pass(closest, useIglRigid, iglRigid, svd));
  }

  /**
   * What the loop's result means: on success there was one step per pass, and the returned
   * `(R_total, t_total)` maps mesh A's vertices exactly onto the vertices the last pass left.
   */
  lemma OutcomeMovesVertices(va: seq<Vec3>, n: nat, pass: seq<Vec3> -> Result<RigidTransform, AlignError>)
    requires Run(va, n, pass).Success?
    ensures var steps := Run(va, n, pass).value;
      var res := Outcome(Run(va, n, pass));
      && |steps| == n
      && res.Success?
      && Transform(va, res.value.r, res.value.t) == Moved(va, steps)
  {
    RunLength(va, n, pass);
    MovedIsComposed(va, Run(va, n, pass).value);
  }

  /** If every pass on point sets of mesh A's size produces a proper rotation, so does the loop. */
  lemma OutcomeProper(va: seq<Vec3>, n: nat, pass: seq<Vec3> -> Result<RigidTransform, AlignError>)
    requires forall X: seq<Vec3> :: |X| == |va| ==> pass(X).Success? && ProperRotation(pass(X).value.r)
    ensures Outcome(Run(va, n, pass)).Success? && ProperRotation(Outcome(Run(va, n, pass)).value.r)
  {
    RunProper(va, n, pass);
    RotationProductProper(Run(va, n, pass).value);
  }
}
