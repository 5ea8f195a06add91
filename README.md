# BoxQP: a model of crocoddyl's box-constrained QP solver

The files model `BoxQP` from crocoddyl. It is a projected-Newton, active-set
solver for

    minimise 0.5 * x'Hx + q'x   subject to   lb <= x <= ub.

A `BoxQP` object is built once for a dimension `nx`, with the options
`maxiter`, `th_acceptstep`, `th_grad` and `reg`. At construction it fills a
table of ten step lengths, 1, 1/2, ..., 1/512. Each call to `solve` does the
following:

- checks the dimensions of H, q, lb, ub and xinit;
- clips the warm start into the box;
- runs at most `maxiter` outer iterations. Each iteration:
  - computes the gradient g = q + Hx;
  - splits the indices into clamped ones (on a bound, with the gradient
    pushing outward) and free ones;
  - returns when the gradient is small or no index is free;
  - otherwise takes a Newton step on the free subspace, with the clamped
    variables held fixed;
  - returns when that step is small;
  - otherwise runs a backtracking line search over the step lengths. Each
    candidate point is projected back into the box.

The model is written over `real`. The modules follow the solver's parts:

- `LinAlg` (linalg.dfy): vectors, matrices, dot products, the objective,
  the gradient and the infinity norm. It also holds the interface to the
  Cholesky factorisation: a function `Matrix -> Option<Matrix>` that returns
  None when the matrix is not positive definite, and its inverse otherwise.
- `ActiveSet` (active_set.dfy): clamping and clipping into the box, the
  classification into clamped and free indices, and scattering the
  free-space step into the full space.
- `LineSearch` (line_search.dfy): the step-length table, the projected
  candidates, the sufficient-decrease test, and `Search`, the point the
  line search moves to.
- `Reduced` (reduced.dfy): the blocks of the reduced problem
  (Hff, Hfc, qf, xf, xc), regularisation, and the Newton step.
- `BoxQPSolver` (box_qp.dfy): the class `BoxQP`. Its fields mirror the
  solver's members:
  - `x`, `xnew`, `g`, `dx` are fixed-size arrays;
  - `freeIdx` and `clampedIdx` are sequences that are cleared and appended to;
  - `hffInv` holds the inverse of the last factorised free block;
  - `solution` holds what `Solve` returns.

  `Solve` is split into methods for its steps. Each method that changes
  state has an `ensures` tying its new state to a function of the old state.
  - `WarmStart` gives `Clip`, `ComputeGradient` gives `Gradient` and
    `Classify` gives `Select`.
  - `ScatterStep` gives `Scatter` and `Project` gives `Candidate`.
  - `Backtrack` gives `Search` and `NewtonDirection` gives `FullStep`.
  - `Converge`, `Advance` (with `Descend`) and `Iterate` make up one outer
    iteration. Their contracts are stated against `Outer`, a ghost function
    giving how an iteration started at a point ends.
  - `Run`, `Iteration` and `Next` apply `Outer` repeatedly from the warm
    start. `Loop` and `Solve` are proved against them through the predicate
    `LoopResult`.

The Cholesky factorisation is a parameter `llt` of `Solve`. `Solve` requires
that a successful factorisation of an n x n matrix returns an n x n inverse.
This is what the library promises. Every triangular solve is modelled as a
product with that inverse.

Three behaviours of the code are worth stating. The model follows the code
in each of them:

- On the convergence return (box-qp.hxx:86-112), the free Hessian is
  factorised only when the iteration counter `k` is 0 (line 87). A
  convergence return at a later iteration hands back the inverse computed
  by the previous iteration's Newton step.
- With `maxiter == 0`, the loop at line 65 runs no iteration. The returned
  free and clamped index lists and the inverse are the ones left over from
  the previous call (lines 179-183). On a fresh object they are empty. So
  the partition property is stated only for `maxiter > 0`.
- `solve` never checks lb <= ub (lines 38-57 check only dimensions). When
  lb_i > ub_i, the clip at line 61 yields lb_i. Every box property is
  therefore stated under `BoxOk(lb, ub)`.

## Model

| member | source | states |
|---|---|---|
| `BoxQPSolver.BoxQP.constructor` | include/crocoddyl/core/solvers/box-qp.hxx:14-32 | stores nx, maxiter, th_acceptstep, th_grad and reg; allocates fresh buffers of length nx; the step-length table is exactly `StepLengths()` (1 / 2^n for n = 0..9); the index lists and the inverse start empty |
| `LineSearch.Pow2` | include/crocoddyl/core/solvers/box-qp.hxx:30 | 2^n computed exactly, and at least 1 |
| `LineSearch.StepLengthsShape` | include/crocoddyl/core/solvers/box-qp.hxx:27-31 | the table has exactly 10 entries; it starts at 1 and ends at 1/512; each entry is half the previous one; all lie in (0, 1]; it is strictly decreasing |
| `BoxQPSolver.DimensionError` | include/crocoddyl/core/solvers/box-qp.hxx:38-57 | no error exactly when H is nx x nx and q, lb, ub, xinit have length nx; each argument is reported exactly when it has the wrong dimension and every argument checked before it fits (order H, q, lb, ub, xinit) |
| `BoxQPSolver.BoxQP.Solve` | include/crocoddyl/core/solvers/box-qp.hxx:36-184 | a dimension error returns `InvalidArgument` for the first bad argument and leaves the object and its buffers unchanged; otherwise `LoopResult` holds for the run from the clipped warm start, including which factorisation the returned inverse is; any error keeps the previously held solution; a returned solution lies in [lb, ub] when lb <= ub; with maxiter > 0 its index lists form an ordered partition of 0..nx-1 and every clamped coordinate sits on a bound |
| `BoxQPSolver.BoxQP.Loop` | include/crocoddyl/core/solvers/box-qp.hxx:65-183 | the loop's result satisfies `LoopResult` against `Run`: a backward error or an early return happens at an iteration `iters < maxiter` reached by `Run`, where `Outer` prescribes exactly that return; on a convergence or stall return the lists classify the returned x; the inverse handed back is the factorisation of the current regularised free block on a stall return and on a convergence return at iteration 0, and the previous iteration's on a convergence return later; running out means `Run` reaches x after maxiter iterations that all moved on, and the lists and inverse are those of the last iteration (those held before when maxiter is 0); an error keeps the previous solution |
| `BoxQPSolver.BoxQP.Round` | include/crocoddyl/core/solvers/box-qp.hxx:65-177 | iteration k of the loop either yields a result satisfying `LoopResult`, or moves on and re-establishes the loop invariant for k + 1 with the solution untouched |
| `BoxQPSolver.BoxQP.ReturnResult` | include/crocoddyl/core/solvers/box-qp.hxx:86-163 | an iteration reached by `Run` that returns as `Outer` prescribes gives a result satisfying `LoopResult` (a step of the proof of `Loop`: it unfolds `LoopResult`) |
| `BoxQPSolver.BoxQP.ExhaustedResult` | include/crocoddyl/core/solvers/box-qp.hxx:178-183 | running out of iterations, with the solution built from the current state, gives a result satisfying `LoopResult` (a step of the proof of `Loop`: it unfolds `LoopResult`) |
| `BoxQPSolver.BoxQP.ResultShape` | include/crocoddyl/core/solvers/box-qp.hxx:65-183 | any result satisfying `LoopResult` from a start in a valid box has x in the box and, when maxiter > 0, an ordered partition with the clamped coordinates on their bounds |
| `BoxQPSolver.BoxQP.LastClassification` | include/crocoddyl/core/solvers/box-qp.hxx:65-177 | after k + 1 iterations that moved on, the lists of the last one partition the indices, and its clamped indices still sit on their bounds at the point it moved to |
| `BoxQPSolver.BoxQP.IterationAt` | include/crocoddyl/core/solvers/box-qp.hxx:65-177 | iteration k, once `Run` reaches it, ends exactly as `Outer` says for the point reached, with the first-iteration flag set exactly when k = 0 (the unfolding of `Iteration`, used by the `Run` lemmas) |
| `BoxQPSolver.BoxQP.RunStep` | include/crocoddyl/core/solvers/box-qp.hxx:65-177 | when iteration k moves on, `Run` after k + 1 iterations is the point it moved to (the unfolding of `Run`, used by `Round` and `LastClassification`) |
| `BoxQPSolver.BoxQP.RunMoves` | include/crocoddyl/core/solvers/box-qp.hxx:65 | reaching iteration k means every iteration j <= k was reached |
| `BoxQPSolver.BoxQP.RunPrefix` | include/crocoddyl/core/solvers/box-qp.hxx:65-177 | reaching iteration k means every earlier iteration took the branch of `Outer` that moves on |
| `BoxQPSolver.BoxQP.RunInBox` | include/crocoddyl/core/solvers/box-qp.hxx:59-177 | every point the loop reaches from a start in a valid box is in the box |
| `BoxQPSolver.BoxQP.OuterInBox` | include/crocoddyl/core/solvers/box-qp.hxx:156-177 | an iteration that moves on keeps x in a valid box, and its clamped coordinates on their bounds |
| `BoxQPSolver.BoxQP.OuterFirst` | include/crocoddyl/core/solvers/box-qp.hxx:86-112 | whether an iteration moves on, and where to, does not depend on the counter being 0 (a stated property; no other proof uses it) |
| `BoxQPSolver.BoxQP.Iterate` | include/crocoddyl/core/solvers/box-qp.hxx:65-177 | the lists become the classification of the starting x (an ordered partition); x stays in a valid box with the clamped coordinates on bounds; a Continue is `Outer`'s move-on, so the convergence test failed, dx is the full Newton step, its norm is at least th_grad, and x moved to `Search` along it; the convergence return is taken exactly when the convergence test holds; a return leaves x unchanged and is `Outer`'s return: a backward error exactly when the factorisation failed, a stall with a small step, a convergence with a small gradient or no free index (the inverse refactorised only at k = 0, kept otherwise) |
| `BoxQPSolver.BoxQP.Converge` | include/crocoddyl/core/solvers/box-qp.hxx:86-112 | the convergence return: at k = 0 it fails exactly when the regularised free block is not factorisable and otherwise stores that inverse; at k > 0 the inverse is kept; the solution holds the inverse, x and both lists; the return is what `Outer` prescribes |
| `BoxQPSolver.BoxQP.Advance` | include/crocoddyl/core/solvers/box-qp.hxx:114-177 | after a non-converged classification: a backward error exactly when the free block is not factorisable, leaving x and the solution unchanged; otherwise the stored inverse is that factorisation's and dx is `FullStep` of the old x; then either the stall return with x unchanged and a step below th_grad, or the line search moves x to `Search`; x stays in a valid box and the clamped coordinates on bounds |
| `BoxQPSolver.BoxQP.Descend` | include/crocoddyl/core/solvers/box-qp.hxx:156-177 | with a step that is zero on clamped indices: a step below th_grad returns the current point with the solution built from it; otherwise x moves to `Search` and the solution is untouched; a valid box and the clamped bounds are kept |
| `BoxQPSolver.BoxQP.WarmStart` | include/crocoddyl/core/solvers/box-qp.hxx:59-62 | x becomes the projection `Clip(xinit, lb, ub)` of the warm start |
| `ActiveSet.Clamp` | include/crocoddyl/core/solvers/box-qp.hxx:61 | max(min(v, hi), lo) is at least lo; it is at most hi when lo <= hi; it is v when v is already in [lo, hi]; it is always one of lo, hi or v |
| `ActiveSet.Clip` | include/crocoddyl/core/solvers/box-qp.hxx:59-62 | the projected vector lies in [lb, ub] when lb <= ub; entries already inside their bounds are kept; every entry is at least its lower bound and equals lb_i, ub_i or the input |
| `BoxQPSolver.BoxQP.ComputeGradient` | include/crocoddyl/core/solvers/box-qp.hxx:68-70 | g becomes q + Hx for the current x |
| `BoxQPSolver.BoxQP.Classify` | include/crocoddyl/core/solvers/box-qp.hxx:66-81 | the index lists are cleared and refilled so that they equal the clamped and the free selections of 0..nx-1 for the current x and g |
| `ActiveSet.SelectSpec` | include/crocoddyl/core/solvers/box-qp.hxx:71-81 | each selection is strictly increasing and below n; an index j < n is in it exactly when its classification ((x_j = lb_j and g_j > 0) or (x_j = ub_j and g_j < 0)) matches |
| `ActiveSet.ClassificationPartition` | include/crocoddyl/core/solvers/box-qp.hxx:66-81 | the free and clamped lists are an ordered partition of 0..n-1; j is clamped exactly when (x_j = lb_j and g_j > 0) or (x_j = ub_j and g_j < 0); hence every clamped x_j equals lb_j or ub_j |
| `BoxQPSolver.Classification` | include/crocoddyl/core/solvers/box-qp.hxx:66-81 | the lists computed at x under its own gradient q + Hx are an ordered partition, and every clamped coordinate is on a bound |
| `LinAlg.InfNorm` | include/crocoddyl/core/solvers/box-qp.hxx:86 | the infinity norm is non-negative, bounds every absolute entry, is attained by one of them, and is 0 for the empty vector |
| `Reduced.GatherRow` | include/crocoddyl/core/solvers/box-qp.hxx:91-93 | the row read out of H holds H[fi][idx_j] at position j |
| `Reduced.FreeHessian` | include/crocoddyl/core/solvers/box-qp.hxx:88-97 | the block built for the first-iteration convergence return is nf x nf, with entry (i, j) equal to H[free_i][free_j] plus reg on the diagonal, that is the regularised free block |
| `Reduced.AddRegularization` | include/crocoddyl/core/solvers/box-qp.hxx:95-97 | adds reg to exactly the diagonal entries of a square matrix and leaves the rest unchanged |
| `LinAlg.RegularizedBlockExt` | include/crocoddyl/core/solvers/box-qp.hxx:88-97 | any nf x nf matrix with entry (i, j) equal to H[free_i][free_j] plus reg on the diagonal is the regularised free block |
| `LinAlg.SubMatrixExt` | include/crocoddyl/core/solvers/box-qp.hxx:128-132 | any matrix with entry (i, j) equal to H[free_i][clamped_j] is the free x clamped block of H |
| `Reduced.ReducedBlocks` | include/crocoddyl/core/solvers/box-qp.hxx:115-136 | Hff is H on free x free plus reg on the diagonal; Hfc is H on free x clamped; qf and xf are q and x at the free indices; xc is x at the clamped indices |
| `Reduced.NewtonStep` | include/crocoddyl/core/solvers/box-qp.hxx:145-150 | the free-space step has one entry per free index, and xf + dxf is the inverse applied to -(qf + Hfc xc), including when no index is clamped and the subtraction is skipped |
| `BoxQPSolver.BoxQP.NewtonDirection` | include/crocoddyl/core/solvers/box-qp.hxx:114-154 | succeeds exactly when the factorisation of the regularised free block succeeds; on failure the inverse and dx are untouched; on success the stored inverse is that factorisation's, and dx is the Newton step scattered into the full space, which is zero at every clamped index |
| `BoxQPSolver.FullStepSpec` | include/crocoddyl/core/solvers/box-qp.hxx:145-154 | the full step is zero at every clamped index, and at each free index the current coordinate plus the step is the inverse applied to the reduced right-hand side |
| `BoxQPSolver.BoxQP.ScatterStep` | include/crocoddyl/core/solvers/box-qp.hxx:151-154 | dx becomes `Scatter(dxf, freeIdx, nx)`: zero, with dxf[i] written at freeIdx[i] |
| `ActiveSet.ScatterSpec` | include/crocoddyl/core/solvers/box-qp.hxx:151-154 | for a strictly increasing index list the scattered vector holds dxf[i] at position free[i] and 0 at every position not in the list |
| `ActiveSet.GatherScatter` | include/crocoddyl/core/solvers/box-qp.hxx:121-154 | gathering the scattered step at the free indices (as xf and qf are gathered) returns the free-space step unchanged (a stated property; no other proof uses it) |
| `ActiveSet.StepZeroOnClamped` | include/crocoddyl/core/solvers/box-qp.hxx:151-154 | for a partition, the full step is 0 at every clamped index and equals dxf[i] at free[i] |
| `BoxQPSolver.BoxQP.Project` | include/crocoddyl/core/solvers/box-qp.hxx:169-171 | xnew becomes the candidate x + a * dx projected onto [lb, ub] |
| `BoxQPSolver.BoxQP.Commit` | include/crocoddyl/core/solvers/box-qp.hxx:174 | x becomes xnew |
| `BoxQPSolver.BoxQP.Backtrack` | include/crocoddyl/core/solvers/box-qp.hxx:165-177 | x becomes `Search(...)` of the old x: the first step length, in table order, whose projected candidate gives sufficient decrease; it stays unchanged if none does |
| `LineSearch.SearchFrom` | include/crocoddyl/core/solvers/box-qp.hxx:167-177 | searching from the t-th step length either accepts that candidate or goes on with the (t+1)-th (the unfolding of `Search`, used by `Backtrack`) |
| `LineSearch.SearchOutcome` | include/crocoddyl/core/solvers/box-qp.hxx:166-177 | there is an index k such that every earlier candidate was rejected; x is unchanged when k is past the table; otherwise x moves to candidate k, which satisfies fold - fnew > th_acceptstep * g'(x - xnew) |
| `LineSearch.SearchInBox` | include/crocoddyl/core/solvers/box-qp.hxx:169-174 | when lb <= ub and x is in the box, the point the line search moves to is in the box |
| `LineSearch.SearchKeepsFixed` | include/crocoddyl/core/solvers/box-qp.hxx:169-171 | a coordinate inside its bounds whose step is 0 is never moved by the line search |
| `LineSearch.SearchKeepsClamped` | include/crocoddyl/core/solvers/box-qp.hxx:169-174 | indices on a bound with zero step stay on that bound after the line search |

## Left out

- The internals of the Cholesky factorisation (`compute`, `info`, `solveInPlace`) and the numerical content of the inverse belong to the linear-algebra library. They are the parameter `llt`. Which factorisation the returned inverse comes from is proved on every return path (see the `Loop` row); its numerical content, the inverse of that block, is not.
- IEEE-754 rounding, `pow` and the precision of the infinity norm are not modelled. All arithmetic is exact over `real`, and the step lengths are exactly 1 / 2^n.
- Convergence, optimality, a monotone objective and the unconstrained-optimum scenario are not claimed. The code does not establish them.
- The error messages are not modelled. An error is `InvalidArgument` with the argument's name, or `BackwardError`.
- Memory management is not modelled: `reserve`, `resize` and the destructor. Sequence lengths stand for buffer sizes.
- The scratch blocks Hff, Hfc, qf, xf, xc and dxf are values returned by `Reduced` methods, not fields. Their contents do not outlive an iteration except through the stored inverse.
- `BoxQPSolver.BoxQP.Backtrack`: its contract does not say what `xnew` holds afterwards. It is the last candidate tried, which nothing reads.
- A matrix is a sequence of rows. A 0 x k matrix H with k != 0 cannot be told apart from a 0 x 0 one, so for nx = 0 the model accepts it where the code rejects it.
- Concurrency and reentrancy are not modelled. The solver is single-threaded.
