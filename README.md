# Rigid and similarity alignment of triangle meshes

This project models the hand-written logic of a small mesh-registration toolkit and proves properties of it. Almost everything else in the toolkit calls into libigl, libpointmatcher, Open3D and SciPy.

Python side (`scripts/libigl_rigid_algnment.py`):

- `rigid_alignment_numpy` is one Kabsch step on row-vector point sets. It takes both centroids, centres both sets and forms the cross-covariance `H`. It builds a rotation from the SVD factors of `H`, fixes a reflection by negating the last row of `Vt`, and sets the translation `P_mean - X_mean @ R`.
- `rigid_align_meshes` runs `max(1, iters)` ICP passes. Each pass computes a step: libigl's rigid alignment when the binding has it, the NumPy step otherwise. It composes the step into `R_total` and `t_total` and moves the vertices `X @ R + t`.

C++ side (`src/cpp/non_rigid_alignment.cpp`):

- `sample_mesh_surface` draws points uniformly by area. It computes triangle areas and turns their running sums into a CDF, normalised when the total area is positive. For each uniform draw it picks a face by `std::lower_bound` on the CDF and places a barycentric point on that face.
- `points_to_datapoints` packs points into homogeneous 4 x N columns.
- `icp_libpointmatcher`:
  - guards against empty meshes;
  - hands the sampled clouds to a libpointmatcher similarity ICP;
  - decomposes the returned 4x4 transform `T` into a uniform scale, a rotation and a translation, with a determinant sign fix;
  - fills a `SimilarityResult`.

Modules:

- `Wrappers`: `Result`.
- `Linear`: 3-vectors and 3x3 matrices over `real`. It defines products, transpose, determinant, orthogonality and the Frobenius product. It proves `det(AB) = det A det B`, that orthogonality is preserved by products, and the other algebra the proofs need.
- `RigidAlignment`: the Kabsch step, as written and corrected (see Findings).
- `MeshAlignment`: the ICP loop as a method with a loop invariant, proved against a recursive specification of the passes.
- `SurfaceSampling`: the area, prefix-sum and normalisation loops over arrays. It also covers the `lower_bound` search and the sampling loop, proved against functions on sequences.
- `PointMatcherIcp`: the homogeneous packing, the decomposition of `T`, and `SimilarityResult` as a class that `IcpLibpointmatcher` updates in place.

Foreign computations are function parameters, and nothing is assumed about them unless a lemma's `requires` says so:

- the SVDs;
- the vector norm;
- the closest-point query;
- libigl's rigid alignment.

The random draws of the sampler are sequence parameters. The foreign ICP is a function from the two sample clouds to its 4x4 result `T`.

## Model

| member | source | states |
|---|---|---|
| RigidAlignment.CenteredSumsToZero | scripts/libigl_rigid_algnment.py:10-14 | centring a non-empty point set on its own mean leaves all three column sums 0 |
| RigidAlignment.MeanOfTransform | scripts/libigl_rigid_algnment.py:25 | the mean of `X @ R + t` is `mean(X) @ R + t`, for any `R` and `t` |
| RigidAlignment.TranslationAlignsMeans | scripts/libigl_rigid_algnment.py:25 | for every 3x3 `R`, the translation `P_mean - X_mean @ R` moves the mean of `X @ R + t` exactly onto the mean of `P` |
| RigidAlignment.CrossCovarianceEntry | scripts/libigl_rigid_algnment.py:16 | entry (j, k) of `A.T @ B` is the sum over rows i of `A[i][j] * B[i][k]` |
| RigidAlignment.DetNegateLastRowOfVt | scripts/libigl_rigid_algnment.py:22-23 | negating the last row of `Vt` negates `det(Vt.T @ U.T)` |
| RigidAlignment.ReflectionFix | scripts/libigl_rigid_algnment.py:18-23 | after the fix the recomputed rotation has a non-negative determinant; a negative one is negated, and factors whose rotation already had a non-negative determinant are kept |
| RigidAlignment.ColumnRotationProper | scripts/libigl_rigid_algnment.py:17-23 | with orthogonal SVD factors the rotation of line 23 is orthogonal with determinant 1 |
| RigidAlignment.RigidAlignmentNumpy | scripts/libigl_rigid_algnment.py:5-26 | the step as written: `ShapeMismatch` iff the sizes differ, `EmptyPointSet` iff both are empty; otherwise the rotation is `Vt.T @ U.T` of the (possibly fixed) factors, has determinant >= 0, and the translation aligns the means |
| RigidAlignment.RowRotation | scripts/libigl_rigid_algnment.py:18 | `U @ Vt` is the transpose of line 18's `Vt.T @ U.T` and has the same determinant |
| RigidAlignment.CorrectedRigidAlignment | scripts/libigl_rigid_algnment.py:5-26 | the corrected step: the same error cases; otherwise the rotation is `U @ Vt` after the reflection fix, with determinant >= 0, and the translation aligns the means |
| RigidAlignment.CorrectedTransposesNumpy | scripts/libigl_rigid_algnment.py:18-25 | the corrected step fails exactly when the as-written one does, and otherwise returns the transpose of its rotation |
| RigidAlignment.RowRotationProper | scripts/libigl_rigid_algnment.py:17-23 | with orthogonal SVD factors the corrected rotation is orthogonal with determinant 1 |
| RigidAlignment.CorrelationIsFrobenius | scripts/libigl_rigid_algnment.py:16 | the correlation `sum_i (x_i @ R) . p_i` is the Frobenius product of `R` with `H = X.T @ P` |
| RigidAlignment.CorrectedRotationCorrelation | scripts/libigl_rigid_algnment.py:16-23 | when `U diag(S) Vt` is an SVD of `H`, the corrected rotation reaches the correlation `S0 + S1 + S2`, or `S0 + S1 - S2` after a reflection fix |
| RigidAlignment.ExampleTransform | scripts/libigl_rigid_algnment.py:60 | the example target `P` is `X @ QuarterTurn`, and `X @ QuarterTurnBack` sends the first point to `(0, -a, 0)` |
| RigidAlignment.ExampleMeans | scripts/libigl_rigid_algnment.py:10-14 | both example point sets have mean 0, so centring leaves them unchanged |
| RigidAlignment.ExampleCovariance | scripts/libigl_rigid_algnment.py:16 | the example's `H` has entries `(0,1) = 2a^2`, `(1,0) = -2a^2`, and zero everywhere else |
| RigidAlignment.ExampleSvdIsSvd | scripts/libigl_rigid_algnment.py:17 | the example SVD `I diag(2a^2, 2a^2, 0) QuarterTurn` reproduces `H`, with orthogonal factors |
| RigidAlignment.ExampleNumpyResult | scripts/libigl_rigid_algnment.py:5-26 | on the example the step as written returns `(QuarterTurnBack, 0)` |
| RigidAlignment.ExampleCorrectedResult | scripts/libigl_rigid_algnment.py:5-26 | on the example the corrected step returns `(QuarterTurn, 0)`, which maps `X` onto `P` |
| RigidAlignment.ExampleCorrelations | scripts/libigl_rigid_algnment.py:16-18 | the rotation as written reaches correlation `-4a^2` on the example, the corrected one `+4a^2` |
| RigidAlignment.NumpyRotationTurnsBackwards | scripts/libigl_rigid_algnment.py:18-25 | for every `a != 0` the as-written rotation does not map `X` onto `P`, and its correlation is negative while the corrected rotation's is positive |
| MeshAlignment.Iterations | scripts/libigl_rigid_algnment.py:46 | the pass count `max(1, iters)` is at least 1, equals `iters` when `iters >= 1`, and is 1 otherwise |
| MeshAlignment.MovedIsComposed | scripts/libigl_rigid_algnment.py:38-60 | for any steps, the moved vertices equal the original ones under `(R_total, t_total)`, starting from `(I, 0)` |
| MeshAlignment.AppendStep | scripts/libigl_rigid_algnment.py:58-60 | one more step multiplies `R_total` by `R_step` on the right, maps `t_total` to `t_total @ R_step + t_step`, and moves `X` by the step |
| MeshAlignment.RotationProductAppend | scripts/libigl_rigid_algnment.py:58 | `R_total` of two runs one after the other is the product of their totals, in order |
| MeshAlignment.ComposedTranslationAppend | scripts/libigl_rigid_algnment.py:59 | `t_total` of two runs one after the other is the first run's total mapped by the second run's `(R_total, t_total)` |
| MeshAlignment.RotationProductProper | scripts/libigl_rigid_algnment.py:58 | when every step rotation is orthogonal with determinant 1, so is `R_total` |
| MeshAlignment.RunLength | scripts/libigl_rigid_algnment.py:46 | a run of `n` passes that completes records exactly `n` steps |
| MeshAlignment.RunStep | scripts/libigl_rigid_algnment.py:46-60 | a pass extends the run by the step computed on the currently moved vertices, or ends it with that pass's error |
| MeshAlignment.RunFailureSticks | scripts/libigl_rigid_algnment.py:46-55 | once a pass fails, every longer run reports the same error |
| MeshAlignment.RunProper | scripts/libigl_rigid_algnment.py:46-58 | if every pass on point sets of mesh A's size yields a proper rotation, the run completes and all its steps are proper rotations |
| MeshAlignment.FallbackStepProper | scripts/libigl_rigid_algnment.py:53-55 | with closest-point results of matching size and orthogonal SVD factors, a fallback pass on a non-empty point set yields a proper rotation |
| MeshAlignment.FallbackPassProper | scripts/libigl_rigid_algnment.py:53-55 | the same for every point set of a given non-empty size |
| MeshAlignment.AlignLoop | scripts/libigl_rigid_algnment.py:38-62 | the loop returns the product of the step rotations in order and the composed translation, or the first pass's error, for any steps the passes return |
| MeshAlignment.RigidAlignMeshes | scripts/libigl_rigid_algnment.py:38-62 | `rigid_align_meshes` after loading: `max(1, iters)` passes with the libigl step or the fallback |
| MeshAlignment.OutcomeMovesVertices | scripts/libigl_rigid_algnment.py:58-62 | on success there is one step per pass, and the returned `(R_total, t_total)` maps mesh A's vertices exactly onto the vertices the last pass left |
| MeshAlignment.OutcomeProper | scripts/libigl_rigid_algnment.py:46-62 | if every pass yields a proper rotation, the returned `R_total` is a proper rotation |
| SurfaceSampling.AreasNonNegative | src/cpp/non_rigid_alignment.cpp:14-20 | one area per face, and every area is non-negative when the norm is |
| SurfaceSampling.PrefixSumsBounds | src/cpp/non_rigid_alignment.cpp:21-23 | with non-negative areas the running sums never decrease and lie between 0 and the total |
| SurfaceSampling.PrefixSumsLast | src/cpp/non_rigid_alignment.cpp:21-23 | the last running sum is the total area |
| SurfaceSampling.PrefixSumsStep | src/cpp/non_rigid_alignment.cpp:23 | running sum i is running sum i-1 plus `area(i)` |
| SurfaceSampling.CdfSorted | src/cpp/non_rigid_alignment.cpp:21-24 | the CDF of non-negative areas has one entry per face and is non-decreasing, normalised or not |
| SurfaceSampling.NormalisedCdf | src/cpp/non_rigid_alignment.cpp:24 | with a positive total every CDF entry lies in [0, 1] and the last is exactly 1 |
| SurfaceSampling.ZeroAreaCdf | src/cpp/non_rigid_alignment.cpp:24 | with a zero total the division is skipped and every CDF entry is 0 |
| SurfaceSampling.FirstAtLeast | src/cpp/non_rigid_alignment.cpp:34-35 | the result f is at most the length, every entry before f is below u, and entry f (if any) is at least u |
| SurfaceSampling.FirstAtLeastUnique | src/cpp/non_rigid_alignment.cpp:34-35 | any index with those three properties is the one `FirstAtLeast` returns |
| SurfaceSampling.LowerBound | src/cpp/non_rigid_alignment.cpp:34-35 | `std::lower_bound` by range halving returns the least index whose entry is at least u, or the length |
| SurfaceSampling.FaceInRange | src/cpp/non_rigid_alignment.cpp:24-38 | with a positive total area, every draw `u <= 1` selects an existing face |
| SurfaceSampling.ZeroAreaSelectsPastEnd | src/cpp/non_rigid_alignment.cpp:24-35 | with a zero total area, every draw `u > 0` selects index `Tn`, one past the last face |
| SurfaceSampling.SelectedFaceHasArea | src/cpp/non_rigid_alignment.cpp:33-35 | a draw `u > 0` that selects a face selects one of positive area |
| SurfaceSampling.SamplePointBarycentric | src/cpp/non_rigid_alignment.cpp:40-42 | the sample is the combination of the corners with weights `1 - r1`, `r1 (1 - r2)`, `r1 r2`; these sum to 1 and lie in [0, 1] when `r1` and `r2` do |
| SurfaceSampling.SamplesMeaning | src/cpp/non_rigid_alignment.cpp:30-44 | sampling succeeds iff every draw selects an existing face; then there is one point per draw, and point k lies on the face the CDF search picks for draw k |
| SurfaceSampling.SamplesFailureSticks | src/cpp/non_rigid_alignment.cpp:31-38 | once a draw reads past the last face, the whole sampling fails with `FaceIndexOutOfRange` |
| SurfaceSampling.SamplesSnoc | src/cpp/non_rigid_alignment.cpp:31-43 | one more draw appends the point it places on its face, or fails when it selects past the last face |
| SurfaceSampling.PositiveAreaSampling | src/cpp/non_rigid_alignment.cpp:6-46 | on a mesh of positive total area with draws `u <= 1`, sampling succeeds with one point per draw, and each draw `u > 0` lands on a face of positive area |
| SurfaceSampling.ZeroAreaSamplingFails | src/cpp/non_rigid_alignment.cpp:21-38 | on a mesh of zero total area, any draw `u > 0` reads row `Tn` of `F` |
| SurfaceSampling.FaceAreas | src/cpp/non_rigid_alignment.cpp:14-20 | the area loop fills a new array with half the cross-product norm of each face |
| SurfaceSampling.PrefixSumInPlace | src/cpp/non_rigid_alignment.cpp:23 | the in-place loop `cdf(i) += cdf(i - 1)` leaves the running sums of the old contents |
| SurfaceSampling.NormaliseInPlace | src/cpp/non_rigid_alignment.cpp:24 | the in-place division by the total happens only when the total is positive |
| SurfaceSampling.BuildCdf | src/cpp/non_rigid_alignment.cpp:11-24 | the area, copy, running-sum and division steps build exactly the CDF of the face areas |
| SurfaceSampling.SampleLoop | src/cpp/non_rigid_alignment.cpp:30-44 | the sampling loop over a sorted CDF returns the samples of the draws, or `FaceIndexOutOfRange` at the first draw past the last face |
| SurfaceSampling.SampleMeshSurface | src/cpp/non_rigid_alignment.cpp:6-46 | the whole function returns what `SampleSurface` specifies for the draws |
| PointMatcherIcp.BlockWrites | src/cpp/non_rigid_alignment.cpp:156-158 | writing the two blocks sets them and leaves the bottom row alone |
| PointMatcherIcp.FromBlocks | src/cpp/non_rigid_alignment.cpp:133-134 | a matrix with bottom row `(0, 0, 0, 1)` is the identity with its two blocks written in |
| PointMatcherIcp.PointsToDatapoints | src/cpp/non_rigid_alignment.cpp:51-59 | a new 4 x N matrix whose rows 0-2 are the x, y and z coordinates of the points and whose row 3 is all ones |
| PointMatcherIcp.SignFixAsWrittenDet | src/cpp/non_rigid_alignment.cpp:142-149 | as written: when `det(U V^T) < 0`, negating column 2 of U negates the determinant and flips `s_fixed`; otherwise `s_fixed = s` and `R = U V^T`; unit determinant with orthogonal factors |
| PointMatcherIcp.SignFixKeepsProduct | src/cpp/non_rigid_alignment.cpp:132-149 | the corrected fix has the same determinant and scale behaviour and keeps `s_fixed R = s U V^T` |
| PointMatcherIcp.SignFixAsWrittenBreaksProduct | src/cpp/non_rigid_alignment.cpp:132-149 | as written, whenever `U V^T` is a reflection and `s != 0`, `s_fixed R` differs from `s U V^T` |
| PointMatcherIcp.ExactPolar | src/cpp/non_rigid_alignment.cpp:136-142 | when `A / s` has an exact SVD with unit singular values, `U V^T = A / s` and `s U V^T = A` |
| PointMatcherIcp.DecomposeAsWrittenBreaksReflection | src/cpp/non_rigid_alignment.cpp:133-158 | as written, when the top-left block of `T` is a nonzero multiple of a reflection, the rebuilt `out.T` is not `T` |
| PointMatcherIcp.MirrorIsExactReflection | src/cpp/non_rigid_alignment.cpp:133-142 | the transform with top-left block `diag(1, 1, -1)` has scale 1, an exact SVD and a negative determinant |
| PointMatcherIcp.DecomposeRebuilds | src/cpp/non_rigid_alignment.cpp:132-158 | with the corrected fix, every similarity `T` (nonzero multiple of an orthogonal block, bottom row `(0, 0, 0, 1)`, exact SVD) is rebuilt exactly |
| PointMatcherIcp.MirrorOutcome | src/cpp/non_rigid_alignment.cpp:132-158 | on the mirror transform the decomposition as written loses `T` and the corrected one returns it |
| PointMatcherIcp.RebuiltShape | src/cpp/non_rigid_alignment.cpp:155-158 | the rebuilt transform has `s R` on the top left, `t` on the top right and `(0, 0, 0, 1)` below |
| PointMatcherIcp.SimilarityResult.constructor | src/cpp/non_rigid_alignment.h:10-16 | the result record holds the given R, t, s, S and T |
| PointMatcherIcp.PositiveAreaMeshesSample | src/cpp/non_rigid_alignment.cpp:70-75 | on two non-empty meshes of positive total area, with draws `u <= 1`, the run gets past the guard and both samplings |
| PointMatcherIcp.ZeroAreaMeshStopsSampling | src/cpp/non_rigid_alignment.cpp:70-75 | a non-empty mesh A or B whose faces all have zero area passes the guard, but any draw `u > 0` makes its sampling read face row `Tn` |
| PointMatcherIcp.IcpLibpointmatcher | src/cpp/non_rigid_alignment.cpp:61-161 | returns true iff all four of VA, FA, VB, FB are non-empty and both surface samplings stay within the faces; on false `out` is unchanged; on true `out` holds R, t and s from the decomposition of the ICP result on the two sample clouds, `S = s I`, `T[0:3,0:3] = S R`, `T[0:3,3] = t` and `T[3,:] = (0, 0, 0, 1)` |

## Left out

- Mesh I/O and face normals (`igl.read_triangle_mesh`, `igl.per_face_normals`, lines 31-36 of the Python script): file input; the vertices of mesh A are a parameter.
- `igl.point_mesh_squared_distance` and `igl.rigid_alignment` with its `Ncorr` normals: foreign geometry. They enter as the `closest` and `iglRigid` parameters, and the loop lemmas hold for whatever steps they return.
- The `print` when the binding lacks `rigid_alignment`: console output only.
- `np.linalg.svd`, `np.linalg.det` and Eigen's `JacobiSVD`: the SVD is a parameter, and the determinant is the model's own 3x3 cofactor formula. Lemmas say in their `requires` which SVD facts they rely on (orthogonal factors, exact reconstruction).
- Square roots: `.norm()` in the area loop and in the scale, and `sqrt(U(rng))` for `r1`. The norm is a parameter (non-negative where a lemma needs it); `r1` is taken as drawn.
- The random number generator (lines 26-28, 33, 40-41): the draws `(u, r1, r2)` are a sequence parameter, and `n_samples` is its length. In `IcpLibpointmatcher` the two meshes get separate draw sequences, which the model does not force to the same length.
- The libpointmatcher pipeline (lines 82-129) and its parameters `max_iter` and `trim_ratio`: configuration of a foreign ICP. It is the `icp` parameter of `IcpLibpointmatcher`, applied to the samples of B (source) and A (reference).
- IcpLibpointmatcher: where a sampling at line 74 or 75 would read face row `Tn` (a non-empty mesh of zero total area and a draw `u > 0`), the source has undefined behaviour; the model returns false there, leaves `out` unchanged and does not run the ICP. `ZeroAreaMeshStopsSampling` states when this happens.
- The `points_to_datapoints` calls of lines 78-79 and the `DP` wrapper: the foreign ICP takes the sample clouds directly. `PointsToDatapoints` models the packing on its own and returns the feature matrix that `DP` wraps.
- Floating point: all quantities are exact reals, so facts such as "the last CDF entry is exactly 1" and "`U V^T` is orthogonal" do not carry over to doubles as they stand.
- Vertex indices: `ValidMesh` (every face names rows of `V`) is a precondition, because Eigen does not check row indices and a bad index is undefined behaviour, not an error the code handles. `IcpLibpointmatcher` requires it only of inputs that pass the empty-input guard.
- The face row `Tn` that `lower_bound` can return on a zero-area mesh is undefined behaviour in the source. The model reports it as `FaceIndexOutOfRange` instead of reading past the end.
- The NaN mean of an empty point set and NumPy's exception on point sets of different sizes become the errors `EmptyPointSet` and `ShapeMismatch`.
- `CorrectedRotationCorrelation`: proves that the corrected rotation attains `S0 + S1 +- S2`. It does not prove that this value is the maximum over all rotations (von Neumann's trace inequality).
- `FallbackPassProper` and `OutcomeProper` are stated separately. Together they give a proper `R_total` for the fallback loop on a non-empty mesh, but no single lemma states that combination.
- `RigidAlignMeshes` uses the corrected Kabsch step as its fallback (see Findings). The as-written step fits the same loop through `AlignLoop`, whose contract holds for any pass.
- `IcpLibpointmatcher` uses the corrected sign fix (see Findings). The as-written decomposition is `DecomposeAsWritten`.
- Eigen's `A / s` is modelled as `ScaleMat(1 / s, A)`.

## Findings

| source | as written | input that shows it | evidently intended | confidence | as-written member | corrected member |
|---|---|---|---|---|---|---|
| scripts/libigl_rigid_algnment.py:18-25 | `R = Vt.T @ U.T`, the Kabsch rotation for column vectors `R x`. It is then applied to row vectors as `X @ R + t` (lines 25 and 60), which rotates the inverse way | `X = (a,0,0), (-a,0,0), (0,a,0), (0,-a,0)` with `P = X @ QuarterTurn` and `a != 0`. The SVD of `H` is `I diag(2a^2, 2a^2, 0) QuarterTurn`. The step returns `QuarterTurnBack`, which takes correlation `-4a^2` instead of `+4a^2` and does not map `X` onto `P` | `R = U @ Vt` (the transpose), the rotation that aligns row vectors | not executed | RigidAlignment.RigidAlignmentNumpy, RigidAlignment.NumpyRotationTurnsBackwards | RigidAlignment.CorrectedRigidAlignment, RigidAlignment.CorrectedRotationCorrelation |
| src/cpp/non_rigid_alignment.cpp:144-149 | when `det(U V^T) < 0`, column 2 of U is negated and `s_fixed` is also negated, so `out.T`'s top-left block becomes `-s U diag(1,1,-1) V^T` instead of `A = s U V^T` | `T` with top-left block `diag(1, 1, -1)`, translation 0, unit column norms, and SVD `U = diag(1, 1, -1)`, singular values 1, `V = I`. The rebuilt top-left block is `-I`, not `T`'s | `T(0:3,0:3) = s * R` (comment at line 132) with `det R > 0`: negate R together with `s_fixed` (`R = -U V^T`) | not executed | PointMatcherIcp.DecomposeAsWrittenBreaksReflection, PointMatcherIcp.MirrorOutcome | PointMatcherIcp.DecomposeRebuilds, PointMatcherIcp.SignFixKeepsProduct |
