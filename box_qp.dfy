/** The projected-Newton active-set solver for
      minimise 0.5 * x'Hx + q'x  subject to  lb <= x <= ub.
    One instance owns its working buffers and is reused across calls. */
module BoxQPSolver {
  import opened LinAlg
  import opened ActiveSet
  import opened LineSearch
  import opened Reduced

  /** The argument whose dimension was rejected. */
  datatype Arg = ArgH | ArgQ | ArgLb | ArgUb | ArgXInit

  datatype SolveError = InvalidArgument(arg: Arg) | BackwardError

  datatype Result<T> = Ok(value: T) | Err(error: SolveError)

  /** What solve returns: the inverse of the last factorised free block,
      the point, and the free and clamped indices. */
  datatype Solution = Solution(hffInv: Matrix, x: Vector, freeIdx: seq<nat>, clampedIdx: seq<nat>)

  /** Which return of the outer loop was taken. */
  datatype Exit = Converged | Stalled | Exhausted

  /** How one outer iteration ends: on to the next one, or out of solve. */
  datatype Step = Continue | Return(result: Result<Solution>, exit: Exit)

  /** The first argument, in the order H, q, lb, ub, xinit, whose dimension
      differs from nx; None when all of them fit. */
  function DimensionError(nx: nat, H: Matrix, q: Vector, lb: Vector, ub: Vector, xinit: Vector): (r: Option<Arg>)
    ensures r.None? <==> IsMatrix(H, nx, nx) && |q| == nx && |lb| == nx && |ub| == nx && |xinit| == nx
    ensures r == Some(ArgH) <==> !IsMatrix(H, nx, nx)
    ensures r == Some(ArgQ) <==> IsMatrix(H, nx, nx) && |q| != nx
    ensures r == Some(ArgLb) <==> IsMatrix(H, nx, nx) && |q| == nx && |lb| != nx
    ensures r == Some(ArgUb) <==> IsMatrix(H, nx, nx) && |q| == nx && |lb| == nx && |ub| != nx
    ensures r == Some(ArgXInit) <==>
      IsMatrix(H, nx, nx) && |q| == nx && |lb| == nx && |ub| == nx && |xinit| != nx
  {
    if !IsMatrix(H, nx, nx) then Some(ArgH)
    else if |q| != nx then Some(ArgQ)
    else if |lb| != nx then Some(ArgLb)
    else if |ub| != nx then Some(ArgUb)
    else if |xinit| != nx then Some(ArgXInit)
    else None
  }

  /** The free indices of x under its own gradient q + Hx. */
  ghost function FreeOf(H: Matrix, q: Vector, lb: Vector, ub: Vector, x: Vector): (r: seq<nat>)
    requires IsMatrix(H, |x|, |x|) && |q| == |x| && |lb| == |x| && |ub| == |x|
    ensures IndicesBelow(r, |x|)
  {
    SelectSpec(x, lb, ub, Gradient(H, q, x), |x|, false);
    Select(x, lb, ub, Gradient(H, q, x), |x|, false)
  }

  /** The clamped indices of x under its own gradient q + Hx: with the free
      ones an ordered partition of the indices, and all on a bound. */
  ghost function ClampedOf(H: Matrix, q: Vector, lb: Vector, ub: Vector, x: Vector): (r: seq<nat>)
    requires IsMatrix(H, |x|, |x|) && |q| == |x| && |lb| == |x| && |ub| == |x|
    ensures IndicesBelow(r, |x|)
  {
    SelectSpec(x, lb, ub, Gradient(H, q, x), |x|, true);
    Select(x, lb, ub, Gradient(H, q, x), |x|, true)
  }

  /** The free and clamped lists at x partition its indices, in increasing
      order, and every clamped index sits on one of its bounds. */
  lemma Classification(H: Matrix, q: Vector, lb: Vector, ub: Vector, x: Vector)
    requires IsMatrix(H, |x|, |x|) && |q| == |x| && |lb| == |x| && |ub| == |x|
    ensures IsPartition(FreeOf(H, q, lb, ub, x), ClampedOf(H, q, lb, ub, x), |x|)
    ensures AtBounds(x, lb, ub, ClampedOf(H, q, lb, ub, x))
  {
    ClassificationPartition(x, lb, ub, Gradient(H, q, x), |x|);
  }


  /** The reduced Newton step for the classification (free, clamped) and the
      inverse of the free block, scattered into the full space. */
  ghost function FullStep(H: Matrix, q: Vector, x: Vector, free: seq<nat>, clamped: seq<nat>, inv: Matrix): (r: Vector)
    requires IsMatrix(H, |x|, |x|) && |q| == |x|
    requires IsPartition(free, clamped, |x|) && IsMatrix(inv, |free|, |free|)
    ensures |r| == |x|
  {
    Scatter(NewtonStep(inv, Gather(q, free), SubMatrix(H, free, clamped), Gather(x, clamped), Gather(x, free)), free, |x|)
  }

  /** The full step is zero at every clamped index; at a free index, the
      current coordinate plus the step is the inverse applied to the reduced
      right-hand side. */
  lemma FullStepSpec(H: Matrix, q: Vector, x: Vector, free: seq<nat>, clamped: seq<nat>, inv: Matrix)
    requires IsMatrix(H, |x|, |x|) && |q| == |x|
    requires IsPartition(free, clamped, |x|) && IsMatrix(inv, |free|, |free|)
    ensures forall k :: 0 <= k < |clamped| ==> FullStep(H, q, x, free, clamped, inv)[clamped[k]] == 0.0
    ensures forall k :: 0 <= k < |free| ==>
      x[free[k]] + FullStep(H, q, x, free, clamped, inv)[free[k]]
        == Dot(inv[k], ReducedRhs(Gather(q, free), SubMatrix(H, free, clamped), Gather(x, clamped)))
  {
    var dxf := NewtonStep(inv, Gather(q, free), SubMatrix(H, free, clamped), Gather(x, clamped), Gather(x, free));
    StepZeroOnClamped(dxf, free, clamped, |x|);
  }

  /** How one outer iteration started at a point ends: it moves on to the
      next point, returns (converged or stalled), or the factorisation fails. */
  datatype Round = Proceed(next: Vector) | Stop(exit: Exit) | Fail

  class BoxQP {
    const nx: nat
    const maxiter: nat
    const thAcceptStep: real
    const thGrad: real
    const reg: real
    const alphas: seq<real>

    const x: array<real>
    const xnew: array<real>
    const g: array<real>
    const dx: array<real>
    var freeIdx: seq<nat>
    var clampedIdx: seq<nat>
    var hffInv: Matrix
    var solution: Solution

    ghost predicate Valid()
      reads this
    {
      && x.Length == nx && xnew.Length == nx && g.Length == nx && dx.Length == nx
      && x != xnew && x != g && x != dx && xnew != g && xnew != dx && g != dx
      && alphas == StepLengths()
    }

    /** The convergence test of an iteration started at xk: a small gradient or no free index. */
    ghost predicate ConvergedAt(H: Matrix, q: Vector, lb: Vector, ub: Vector, xk: Vector)
      requires IsMatrix(H, |xk|, |xk|) && |q| == |xk| && |lb| == |xk| && |ub| == |xk|
    {
      InfNorm(Gradient(H, q, xk)) <= thGrad || FreeOf(H, q, lb, ub, xk) == []
    }

    /** The factorisation of the regularised free block at xk. */
    ghost function FactorAt(H: Matrix, q: Vector, lb: Vector, ub: Vector, xk: Vector, llt: Factorization)
        : (r: Option<Matrix>)
      requires FactorizationShaped(llt)
      requires IsMatrix(H, |xk|, |xk|) && |q| == |xk| && |lb| == |xk| && |ub| == |xk|
      ensures r.Some? ==> IsMatrix(r.value, |FreeOf(H, q, lb, ub, xk)|, |FreeOf(H, q, lb, ub, xk)|)
    {
      assert InverseShaped(llt, RegularizedBlock(H, FreeOf(H, q, lb, ub, xk), reg));
      llt(RegularizedBlock(H, FreeOf(H, q, lb, ub, xk), reg))
    }

    /** The full Newton step at xk for the inverse inv of its free block. */
    ghost function StepAt(H: Matrix, q: Vector, lb: Vector, ub: Vector, xk: Vector, inv: Matrix): (r: Vector)
      requires IsMatrix(H, |xk|, |xk|) && |q| == |xk| && |lb| == |xk| && |ub| == |xk|
      requires IsMatrix(inv, |FreeOf(H, q, lb, ub, xk)|, |FreeOf(H, q, lb, ub, xk)|)
      ensures |r| == |xk|
    {
      Classification(H, q, lb, ub, xk);
      FullStep(H, q, xk, FreeOf(H, q, lb, ub, xk), ClampedOf(H, q, lb, ub, xk), inv)
    }

    /** One outer iteration started at xk, as a value; `first` says whether it
        is the iteration with counter 0, the only one whose convergence
        return factorises the free block. */
    ghost function Outer(H: Matrix, q: Vector, lb: Vector, ub: Vector, xk: Vector, llt: Factorization, first: bool)
        : (r: Round)
      requires FactorizationShaped(llt)
      requires IsMatrix(H, |xk|, |xk|) && |q| == |xk| && |lb| == |xk| && |ub| == |xk|
      ensures r.Proceed? ==> |r.next| == |xk|
    {
      if ConvergedAt(H, q, lb, ub, xk) then
        if first && FactorAt(H, q, lb, ub, xk, llt).None? then Fail else Stop(Converged)
      else if FactorAt(H, q, lb, ub, xk, llt).None? then Fail
      else if InfNorm(StepAt(H, q, lb, ub, xk, FactorAt(H, q, lb, ub, xk, llt).value)) < thGrad then Stop(Stalled)
      else Proceed(Search(H, q, Gradient(H, q, xk), lb, ub, xk,
                          StepAt(H, q, lb, ub, xk, FactorAt(H, q, lb, ub, xk, llt).value), alphas, thAcceptStep))
    }

    /** The point reached from x0 after k outer iterations that all moved on;
        None when one of them returned. */
    ghost function Run(H: Matrix, q: Vector, lb: Vector, ub: Vector, x0: Vector, llt: Factorization, k: nat)
        : (r: Option<Vector>)
      decreases k, 0
      ensures r.Some? ==> |r.value| == |x0|
    {
      if k == 0 then Some(x0) else Next(H, q, lb, ub, x0, llt, k - 1)
    }

    /** How iteration k ends when it is reached, that is, when the first k
        iterations all moved on; None otherwise. */
    ghost function Iteration(H: Matrix, q: Vector, lb: Vector, ub: Vector, x0: Vector, llt: Factorization, k: nat)
        : (r: Option<Round>)
      decreases k, 1
      ensures r.Some? ==> Run(H, q, lb, ub, x0, llt, k).Some?
      ensures r.Some? && r.value.Proceed? ==> |r.value.next| == |x0|
    {
      match Run(H, q, lb, ub, x0, llt, k)
      case None => None
      case Some(y) =>
        if FactorizationShaped(llt) && IsMatrix(H, |y|, |y|) && |q| == |y| && |lb| == |y| && |ub| == |y|
        then Some(Outer(H, q, lb, ub, y, llt, k == 0))
        else None
    }

    /** The point iteration k moves to; None when it is not reached or returns. */
    ghost function Next(H: Matrix, q: Vector, lb: Vector, ub: Vector, x0: Vector, llt: Factorization, k: nat)
        : (r: Option<Vector>)
      decreases k, 2
      ensures r.Some? ==> Run(H, q, lb, ub, x0, llt, k).Some? && |r.value| == |x0|
    {
      match Iteration(H, q, lb, ub, x0, llt, k)
      case Some(Proceed(next)) => Some(next)
      case _ => None
    }

    /** Iteration k, once reached, ends as Outer says for the point Run reached. */
    lemma IterationAt(H: Matrix, q: Vector, lb: Vector, ub: Vector, x0: Vector, llt: Factorization, k: nat)
      requires FactorizationShaped(llt)
      requires IsMatrix(H, |x0|, |x0|) && |q| == |x0| && |lb| == |x0| && |ub| == |x0|
      requires Run(H, q, lb, ub, x0, llt, k).Some?
      ensures Iteration(H, q, lb, ub, x0, llt, k) ==
        Some(Outer(H, q, lb, ub, Run(H, q, lb, ub, x0, llt, k).value, llt, k == 0))
    {
    }

    /** Whether an iteration moves on, and where to, does not depend on its being the first. */
    lemma OuterFirst(H: Matrix, q: Vector, lb: Vector, ub: Vector, xk: Vector, llt: Factorization)
      requires FactorizationShaped(llt)
      requires IsMatrix(H, |xk|, |xk|) && |q| == |xk| && |lb| == |xk| && |ub| == |xk|
      ensures Outer(H, q, lb, ub, xk, llt, true).Proceed? <==> Outer(H, q, lb, ub, xk, llt, false).Proceed?
      ensures Outer(H, q, lb, ub, xk, llt, true).Proceed? ==>
        Outer(H, q, lb, ub, xk, llt, true) == Outer(H, q, lb, ub, xk, llt, false)
    {
    }

    /** One more iteration that moves on extends the run. */
    lemma RunStep(H: Matrix, q: Vector, lb: Vector, ub: Vector, x0: Vector, llt: Factorization, k: nat, xk: Vector)
      requires FactorizationShaped(llt)
      requires IsMatrix(H, |x0|, |x0|) && |q| == |x0| && |lb| == |x0| && |ub| == |x0|
      requires Run(H, q, lb, ub, x0, llt, k) == Some(xk)
      requires Outer(H, q, lb, ub, xk, llt, k == 0).Proceed?
      ensures Run(H, q, lb, ub, x0, llt, k + 1) == Some(Outer(H, q, lb, ub, xk, llt, k == 0).next)
    {
      IterationAt(H, q, lb, ub, x0, llt, k);
    }

    /** An iteration that moves on keeps x in the box, and its clamped indices on their bounds. */
    lemma OuterInBox(H: Matrix, q: Vector, lb: Vector, ub: Vector, xk: Vector, llt: Factorization, first: bool)
      requires FactorizationShaped(llt)
      requires IsMatrix(H, |xk|, |xk|) && |q| == |xk| && |lb| == |xk| && |ub| == |xk|
      requires BoxOk(lb, ub) && InBox(xk, lb, ub)
      requires Outer(H, q, lb, ub, xk, llt, first).Proceed?
      ensures InBox(Outer(H, q, lb, ub, xk, llt, first).next, lb, ub)
      ensures AtBounds(Outer(H, q, lb, ub, xk, llt, first).next, lb, ub, ClampedOf(H, q, lb, ub, xk))
    {
      Classification(H, q, lb, ub, xk);
      var gk := Gradient(H, q, xk);
      var step := StepAt(H, q, lb, ub, xk, FactorAt(H, q, lb, ub, xk, llt).value);
      FullStepSpec(H, q, xk, FreeOf(H, q, lb, ub, xk), ClampedOf(H, q, lb, ub, xk), FactorAt(H, q, lb, ub, xk, llt).value);
      SearchInBox(H, q, gk, lb, ub, xk, step, alphas, thAcceptStep);
      SearchKeepsClamped(H, q, gk, lb, ub, xk, step, alphas, thAcceptStep, ClampedOf(H, q, lb, ub, xk));
    }

    /** Every point the outer loop reaches from a start in the box stays in the box. */
    lemma {:induction false} RunInBox(H: Matrix, q: Vector, lb: Vector, ub: Vector, x0: Vector, llt: Factorization, k: nat)
      decreases k
      requires FactorizationShaped(llt)
      requires IsMatrix(H, |x0|, |x0|) && |q| == |x0| && |lb| == |x0| && |ub| == |x0|
      requires BoxOk(lb, ub) && InBox(x0, lb, ub)
      requires Run(H, q, lb, ub, x0, llt, k).Some?
      ensures InBox(Run(H, q, lb, ub, x0, llt, k).value, lb, ub)
    {
      if k > 0 {
        RunInBox(H, q, lb, ub, x0, llt, k - 1);
        IterationAt(H, q, lb, ub, x0, llt, k - 1);
        OuterInBox(H, q, lb, ub, Run(H, q, lb, ub, x0, llt, k - 1).value, llt, k - 1 == 0);
      }
    }

    /** Reaching iteration k means every earlier iteration was reached too. */
    lemma {:induction false} RunMoves(H: Matrix, q: Vector, lb: Vector, ub: Vector, x0: Vector, llt: Factorization, j: nat, k: nat)
      decreases k
      requires j <= k && Run(H, q, lb, ub, x0, llt, k).Some?
      ensures Run(H, q, lb, ub, x0, llt, j).Some?
    {
      if j < k {
        RunMoves(H, q, lb, ub, x0, llt, j, k - 1);
      }
    }

    /** Reaching iteration k means every earlier iteration took the branch of
        Outer that moves on. */
    lemma RunPrefix(H: Matrix, q: Vector, lb: Vector, ub: Vector, x0: Vector, llt: Factorization, j: nat, k: nat)
      requires FactorizationShaped(llt)
      requires IsMatrix(H, |x0|, |x0|) && |q| == |x0| && |lb| == |x0| && |ub| == |x0|
      requires j < k && Run(H, q, lb, ub, x0, llt, k).Some?
      ensures Run(H, q, lb, ub, x0, llt, j).Some?
      ensures Outer(H, q, lb, ub, Run(H, q, lb, ub, x0, llt, j).value, llt, j == 0).Proceed?
    {
      RunMoves(H, q, lb, ub, x0, llt, j + 1, k);
      IterationAt(H, q, lb, ub, x0, llt, j);
    }

    /** Fixes the dimension and the options, allocates the buffers and fills
        the table of step lengths 1 / 2^n, n = 0 .. 9. */
    constructor (nx: nat, maxiter: nat, thAcceptStep: real, thGrad: real, reg: real)
      ensures Valid()
      ensures this.nx == nx && this.maxiter == maxiter && this.thAcceptStep == thAcceptStep
      ensures this.thGrad == thGrad && this.reg == reg
      ensures fresh(x) && fresh(xnew) && fresh(g) && fresh(dx)
      ensures freeIdx == [] && clampedIdx == [] && hffInv == []
      ensures alphas == StepLengths()
    {
      var steps: seq<real> := [];
      for n := 0 to StepCount
        invariant steps == seq(n, k requires 0 <= k => 1.0 / Pow2(k))
      {
        steps := steps + [1.0 / Pow2(n)];
      }
      this.nx := nx;
      this.maxiter := maxiter;
      this.thAcceptStep := thAcceptStep;
      this.thGrad := thGrad;
      this.reg := reg;
      alphas := steps;
      x := new real[nx];
      xnew := new real[nx];
      g := new real[nx];
      dx := new real[nx];
      freeIdx, clampedIdx, hffInv := [], [], [];
      solution := Solution([], [], [], []);
    }

    /** Projects the warm start onto the box. */
    method WarmStart(xinit: Vector, lb: Vector, ub: Vector)
      requires Valid() && |xinit| == nx && |lb| == nx && |ub| == nx
      modifies x
      ensures x[..] == Clip(xinit, lb, ub)
    {
      for i := 0 to nx
        invariant forall k :: 0 <= k < i ==> x[k] == Clamp(xinit[k], lb[k], ub[k])
      {
        x[i] := Clamp(xinit[i], lb[i], ub[i]);
      }
    }

    /** g := q + H x. */
    method ComputeGradient(H: Matrix, q: Vector)
      requires Valid() && IsMatrix(H, nx, nx) && |q| == nx
      modifies g
      ensures g[..] == Gradient(H, q, x[..])
    {
      for i := 0 to nx
        invariant forall k :: 0 <= k < i ==> g[k] == q[k] + Dot(H[k], x[..])
      {
        g[i] := q[i] + Dot(H[i], x[..]);
      }
    }

    /** Clears both index lists and sorts every index into one of them. */
    method Classify(lb: Vector, ub: Vector)
      requires Valid() && |lb| == nx && |ub| == nx
      modifies this`freeIdx, this`clampedIdx
      ensures freeIdx == Select(x[..], lb, ub, g[..], nx, false)
      ensures clampedIdx == Select(x[..], lb, ub, g[..], nx, true)
    {
      clampedIdx := [];
      freeIdx := [];
      for j := 0 to nx
        invariant freeIdx == Select(x[..], lb, ub, g[..], j, false)
        invariant clampedIdx == Select(x[..], lb, ub, g[..], j, true)
      {
        if (x[j] == lb[j] && g[j] > 0.0) || (x[j] == ub[j] && g[j] < 0.0) {
          clampedIdx := clampedIdx + [j];
        } else {
          freeIdx := freeIdx + [j];
        }
      }
    }

    /** dx := 0, then dx[freeIdx[i]] := dxf[i]. */
    method ScatterStep(dxf: Vector)
      requires Valid() && |dxf| == |freeIdx| && IndicesBelow(freeIdx, nx)
      modifies dx
      ensures dx[..] == Scatter(dxf, freeIdx, nx)
    {
      forall i | 0 <= i < nx {
        dx[i] := 0.0;
      }
      assert dx[..] == Scatter(dxf[..0], freeIdx[..0], nx);
      for i := 0 to |freeIdx|
        invariant dx[..] == Scatter(dxf[..i], freeIdx[..i], nx)
      {
        assert dxf[..i + 1][..i] == dxf[..i] && freeIdx[..i + 1][..i] == freeIdx[..i];
        dx[freeIdx[i]] := dxf[i];
      }
      assert dxf[..|freeIdx|] == dxf && freeIdx[..|freeIdx|] == freeIdx;
    }

    /** Writes the projected candidate x + a * dx into xnew. */
    method Project(a: real, lb: Vector, ub: Vector)
      requires Valid() && |lb| == nx && |ub| == nx
      modifies xnew
      ensures xnew[..] == Candidate(x[..], dx[..], a, lb, ub)
    {
      for i := 0 to nx
        invariant forall k :: 0 <= k < i ==> xnew[k] == Clamp(Move(x[k], a, dx[k]), lb[k], ub[k])
      {
        xnew[i] := Clamp(Move(x[i], a, dx[i]), lb[i], ub[i]);
      }
      ghost var cand := Candidate(x[..], dx[..], a, lb, ub);
      assert forall k :: 0 <= k < nx ==> xnew[..][k] == cand[k];
    }

    /** Takes the accepted candidate: x becomes xnew. */
    method Commit()
      requires Valid()
      modifies x
      ensures x[..] == xnew[..]
    {
      forall i | 0 <= i < nx {
        x[i] := xnew[i];
      }
    }

    /** Tries the step lengths in order; moves x to the first projected
        candidate that gives sufficient decrease. */
    method Backtrack(H: Matrix, q: Vector, lb: Vector, ub: Vector)
      requires Valid() && IsMatrix(H, nx, nx) && |q| == nx && |lb| == nx && |ub| == nx
      modifies x, xnew
      ensures x[..] == Search(H, q, g[..], lb, ub, old(x[..]), dx[..], alphas, thAcceptStep)
    {
      ghost var x0 := x[..];
      ghost var gs, dxs := g[..], dx[..];
      var fold := Objective(H, q, x[..]);
      for t := 0 to |alphas|
        invariant x[..] == x0 && g[..] == gs && dx[..] == dxs
        invariant Search(H, q, gs, lb, ub, x0, dxs, alphas, thAcceptStep)
               == Search(H, q, gs, lb, ub, x0, dxs, alphas[t..], thAcceptStep)
      {
        Project(alphas[t], lb, ub);
        ghost var cand := Candidate(x0, dxs, alphas[t], lb, ub);
        var fnew := Objective(H, q, xnew[..]);
        SearchFrom(H, q, gs, lb, ub, x0, dxs, alphas, thAcceptStep, t);
        ghost var accepted := Accepts(H, q, gs, x0, cand, thAcceptStep);
        assert fold == Objective(H, q, x0) && fnew == Objective(H, q, cand);
        assert Dot(g[..], Sub(x[..], xnew[..])) == Dot(gs, Sub(x0, cand));
        if Sufficient(fold, fnew, thAcceptStep, Dot(g[..], Sub(x[..], xnew[..]))) {
          assert accepted;
          Commit();
          assert x[..] == cand == Search(H, q, gs, lb, ub, x0, dxs, alphas, thAcceptStep);
          return;
        }
        assert !accepted;
      }
      assert alphas[|alphas|..] == [];
      assert x[..] == x0 == Search(H, q, gs, lb, ub, x0, dxs, alphas, thAcceptStep);
    }

    /** The reduced Newton step: builds the blocks of the reduced problem,
        factorises the regularised free block, keeps its inverse and scatters
        the free-space step into dx. Reports false when the factorisation fails. */
    method NewtonDirection(H: Matrix, q: Vector, llt: Factorization) returns (factored: bool)
      requires Valid() && FactorizationShaped(llt)
      requires IsMatrix(H, nx, nx) && |q| == nx
      requires IsPartition(freeIdx, clampedIdx, nx) && |freeIdx| > 0
      modifies this`hffInv, dx
      ensures factored <==> llt(RegularizedBlock(H, freeIdx, reg)).Some?
      ensures !factored ==> hffInv == old(hffInv) && dx[..] == old(dx[..])
      ensures factored ==>
        && llt(RegularizedBlock(H, freeIdx, reg)) == Some(hffInv)
        && IsMatrix(hffInv, |freeIdx|, |freeIdx|)
        && dx[..] == FullStep(H, q, x[..], freeIdx, clampedIdx, hffInv)
      ensures factored ==> forall k :: 0 <= k < |clampedIdx| ==> dx[clampedIdx[k]] == 0.0
    {
      var hff, hfc, qf, xf, xc := ReducedBlocks(H, q, x[..], freeIdx, clampedIdx, reg);
      var factor := llt(hff);
      if factor.None? {
        return false;
      }
      hffInv := factor.value;
      assert InverseShaped(llt, hff);
      var dxf := NewtonStep(hffInv, qf, hfc, xc, xf);
      ScatterStep(dxf);
      FullStepSpec(H, q, x[..], freeIdx, clampedIdx, hffInv);
      factored := true;
    }

    /** The stall check and the line search along dx: a step smaller than
        the gradient threshold returns the current point, otherwise the search
        moves x. Coordinates whose step is zero stay where they are. */
    method Descend(H: Matrix, q: Vector, lb: Vector, ub: Vector) returns (step: Step)
      requires Valid() && IsMatrix(H, nx, nx) && |q| == nx && |lb| == nx && |ub| == nx
      requires BoxOk(lb, ub) ==> InBox(x[..], lb, ub) && AtBounds(x[..], lb, ub, clampedIdx)
      requires forall k :: 0 <= k < |clampedIdx| ==> clampedIdx[k] < nx && dx[clampedIdx[k]] == 0.0
      modifies this`solution, x, xnew
      ensures Valid()
      ensures BoxOk(lb, ub) ==> InBox(x[..], lb, ub) && AtBounds(x[..], lb, ub, clampedIdx)
      ensures step.Return? ==>
        && step == Return(Ok(solution), Stalled)
        && x[..] == old(x[..])
        && InfNorm(dx[..]) < thGrad
        && solution == Solution(hffInv, x[..], freeIdx, clampedIdx)
      ensures step.Continue? ==>
        && InfNorm(dx[..]) >= thGrad
        && x[..] == Search(H, q, g[..], lb, ub, old(x[..]), dx[..], alphas, thAcceptStep)
        && solution == old(solution)
    {
      if InfNorm(dx[..]) < thGrad {
        solution := Solution(hffInv, x[..], freeIdx, clampedIdx);
        return Return(Ok(solution), Stalled);
      }
      ghost var xs, gs, dxs := x[..], g[..], dx[..];
      Backtrack(H, q, lb, ub);
      if BoxOk(lb, ub) {
        SearchInBox(H, q, gs, lb, ub, xs, dxs, alphas, thAcceptStep);
        SearchKeepsClamped(H, q, gs, lb, ub, xs, dxs, alphas, thAcceptStep, clampedIdx);
      }
      step := Continue;
    }

    /** The part of an outer iteration after the convergence check: the
        reduced Newton step, then the stall check and the line search. */
    method Advance(H: Matrix, q: Vector, lb: Vector, ub: Vector, llt: Factorization)
        returns (step: Step)
      requires Valid() && FactorizationShaped(llt)
      requires IsMatrix(H, nx, nx) && |q| == nx && |lb| == nx && |ub| == nx
      requires BoxOk(lb, ub) ==> InBox(x[..], lb, ub)
      requires g[..] == Gradient(H, q, x[..])
      requires freeIdx == FreeOf(H, q, lb, ub, x[..]) && clampedIdx == ClampedOf(H, q, lb, ub, x[..])
      requires IsPartition(freeIdx, clampedIdx, nx) && (BoxOk(lb, ub) ==> AtBounds(x[..], lb, ub, clampedIdx))
      requires !ConvergedAt(H, q, lb, ub, x[..])
      modifies this`hffInv, this`solution, x, xnew, dx
      ensures Valid()
      ensures BoxOk(lb, ub) ==> InBox(x[..], lb, ub) && AtBounds(x[..], lb, ub, clampedIdx)
      // the factorisation fails exactly on the backward-error return
      ensures step == Return(Err(BackwardError), Stalled) <==> llt(RegularizedBlock(H, freeIdx, reg)).None?
      ensures step == Return(Err(BackwardError), Stalled) ==> x[..] == old(x[..]) && solution == old(solution)
      ensures step != Return(Err(BackwardError), Stalled) ==>
        && llt(RegularizedBlock(H, freeIdx, reg)) == Some(hffInv)
        && IsMatrix(hffInv, |freeIdx|, |freeIdx|)
        && dx[..] == FullStep(H, q, old(x[..]), freeIdx, clampedIdx, hffInv)
      ensures step.Return? ==> step.exit == Stalled && (step.result.Ok? || step.result == Err(BackwardError))
      // a small step returns the current point
      ensures step.Return? && step.result.Ok? ==>
        && x[..] == old(x[..])
        && InfNorm(dx[..]) < thGrad
        && step.result.value == solution
        && solution == Solution(hffInv, x[..], freeIdx, clampedIdx)
      // otherwise the line search moves x
      ensures step.Continue? ==>
        && InfNorm(dx[..]) >= thGrad
        && x[..] == Search(H, q, g[..], lb, ub, old(x[..]), dx[..], alphas, thAcceptStep)
        && solution == old(solution)
    {
      assert |freeIdx| > 0;
      var factored := NewtonDirection(H, q, llt);
      if !factored {
        return Return(Err(BackwardError), Stalled);
      }
      step := Descend(H, q, lb, ub);
    }

    /** The convergence return: on the first iteration it factorises the
        regularised free block and keeps its inverse; then it hands back the
        current point with the index lists. */
    method Converge(H: Matrix, q: Vector, lb: Vector, ub: Vector, llt: Factorization, k: nat) returns (step: Step)
      requires Valid() && FactorizationShaped(llt)
      requires IsMatrix(H, nx, nx) && |q| == nx && |lb| == nx && |ub| == nx
      requires g[..] == Gradient(H, q, x[..])
      requires freeIdx == FreeOf(H, q, lb, ub, x[..]) && clampedIdx == ClampedOf(H, q, lb, ub, x[..])
      requires ConvergedAt(H, q, lb, ub, x[..])
      modifies this`hffInv, this`solution
      ensures step.Return? && step.exit == Converged
      ensures step.result.Ok? || step.result == Err(BackwardError)
      // only the first iteration can fail, when the free block is not factorisable
      ensures step.result == Err(BackwardError) <==> k == 0 && llt(RegularizedBlock(H, freeIdx, reg)).None?
      ensures step.result == Err(BackwardError) ==>
        solution == old(solution) && Outer(H, q, lb, ub, x[..], llt, k == 0) == Fail
      ensures step.result.Ok? ==>
        && Outer(H, q, lb, ub, x[..], llt, k == 0) == Stop(Converged)
        && step.result.value == solution
        && solution == Solution(hffInv, x[..], freeIdx, clampedIdx)
      ensures step.result.Ok? && k == 0 ==> llt(RegularizedBlock(H, freeIdx, reg)) == Some(hffInv)
      ensures k > 0 ==> hffInv == old(hffInv)
    {
      ClassificationPartition(x[..], lb, ub, g[..], nx);
      if k == 0 {
        var hff := FreeHessian(H, freeIdx, reg);
        var factor := llt(hff);
        if factor.None? {
          return Return(Err(BackwardError), Converged);
        }
        hffInv := factor.value;
      }
      solution := Solution(hffInv, x[..], freeIdx, clampedIdx);
      return Return(Ok(solution), Converged);
    }

    /** One outer iteration: gradient, classification, convergence check,
        then the reduced Newton step, stall check and line search. `k` is
        the number of iterations already done. */
    method Iterate(H: Matrix, q: Vector, lb: Vector, ub: Vector, llt: Factorization, k: nat)
        returns (step: Step)
      requires Valid() && FactorizationShaped(llt)
      requires IsMatrix(H, nx, nx) && |q| == nx && |lb| == nx && |ub| == nx
      requires BoxOk(lb, ub) ==> InBox(x[..], lb, ub)
      modifies this`freeIdx, this`clampedIdx, this`hffInv, this`solution, x, xnew, g, dx
      ensures Valid()
      // the lists are the classification of the point the iteration started from
      ensures freeIdx == FreeOf(H, q, lb, ub, old(x[..]))
      ensures clampedIdx == ClampedOf(H, q, lb, ub, old(x[..]))
      ensures IsPartition(freeIdx, clampedIdx, nx)
      ensures BoxOk(lb, ub) ==> InBox(x[..], lb, ub) && AtBounds(x[..], lb, ub, clampedIdx)
      // the iteration does what Outer says
      ensures step.Continue? ==>
        && Outer(H, q, lb, ub, old(x[..]), llt, k == 0) == Proceed(x[..])
        && llt(RegularizedBlock(H, freeIdx, reg)) == Some(hffInv)
        && solution == old(solution)
      // moving on means: not converged, a Newton step no smaller than the
      // threshold, and x moved by the line search along it
      ensures step.Continue? ==>
        && !ConvergedAt(H, q, lb, ub, old(x[..]))
        && dx[..] == FullStep(H, q, old(x[..]), freeIdx, clampedIdx, hffInv)
        && InfNorm(dx[..]) >= thGrad
        && x[..] == Search(H, q, Gradient(H, q, old(x[..])), lb, ub, old(x[..]), dx[..], alphas, thAcceptStep)
      ensures step.Return? ==> x[..] == old(x[..]) && step.exit != Exhausted
      // the convergence return is taken exactly when the convergence test holds
      ensures ConvergedAt(H, q, lb, ub, old(x[..])) <==> step.Return? && step.exit == Converged
      ensures step.Return? ==> step.result.Ok? || step.result == Err(BackwardError)
      ensures step.Return? && step.result == Err(BackwardError) ==>
        && Outer(H, q, lb, ub, x[..], llt, k == 0) == Fail
        && llt(RegularizedBlock(H, freeIdx, reg)).None?
        && solution == old(solution)
      ensures step.Return? && step.result.Ok? ==>
        && Outer(H, q, lb, ub, x[..], llt, k == 0) == Stop(step.exit)
        && step.result.value == solution
        && solution == Solution(hffInv, x[..], freeIdx, clampedIdx)
      ensures step.Return? && step.result.Ok? && step.exit == Stalled ==>
        && InfNorm(dx[..]) < thGrad
        && llt(RegularizedBlock(H, freeIdx, reg)) == Some(hffInv)
      ensures step.Return? && step.result.Ok? && step.exit == Converged ==>
        && (InfNorm(Gradient(H, q, x[..])) <= thGrad || freeIdx == [])
        && (k == 0 ==> llt(RegularizedBlock(H, freeIdx, reg)) == Some(hffInv))
        && (k > 0 ==> hffInv == old(hffInv))
    {
      ComputeGradient(H, q);
      Classify(lb, ub);
      ghost var xs, gs := x[..], g[..];
      ClassificationPartition(xs, lb, ub, gs, nx);
      assert IsPartition(freeIdx, clampedIdx, nx) && AtBounds(xs, lb, ub, clampedIdx);
      var nf := |freeIdx|;

      assert gs == Gradient(H, q, xs);
      assert freeIdx == FreeOf(H, q, lb, ub, xs) && clampedIdx == ClampedOf(H, q, lb, ub, xs);
      if InfNorm(g[..]) <= thGrad || nf == 0 {
        step := Converge(H, q, lb, ub, llt, k);
      } else {
        step := Advance(H, q, lb, ub, llt);
        if step != Return(Err(BackwardError), Stalled) {
          assert FactorAt(H, q, lb, ub, xs, llt) == Some(hffInv);
          assert StepAt(H, q, lb, ub, xs, hffInv) == dx[..];
        }
      }
    }

    /** What the outer loop promises when it hands back r after `iters`
        iterations from x0, given the index lists, inverse and solution the
        object held before: the first `iters` iterations all moved on, and
        either iteration `iters` took the return Outer prescribes, or
        `iters` is maxiter and the loop ran out. */
    ghost predicate LoopResult(H: Matrix, q: Vector, lb: Vector, ub: Vector, x0: Vector, llt: Factorization,
                               r: Result<Solution>, iters: nat, exit: Exit,
                               free0: seq<nat>, clamped0: seq<nat>, inv0: Matrix, sol0: Solution)
      reads this, x
      requires FactorizationShaped(llt)
      requires IsMatrix(H, |x0|, |x0|) && |q| == |x0| && |lb| == |x0| && |ub| == |x0| && x.Length == |x0|
    {
      && (r.Ok? || r == Err(BackwardError))
      && (r == Err(BackwardError) ==>
            && iters < maxiter
            && Run(H, q, lb, ub, x0, llt, iters) == Some(x[..])
            && Outer(H, q, lb, ub, x[..], llt, iters == 0) == Fail
            && solution == sol0)
      && (r.Ok? ==> r.value == solution && solution == Solution(hffInv, x[..], freeIdx, clampedIdx))
      && (r.Ok? && exit != Exhausted ==>
            && iters < maxiter
            && Run(H, q, lb, ub, x0, llt, iters) == Some(x[..])
            && Outer(H, q, lb, ub, x[..], llt, iters == 0) == Stop(exit)
            && freeIdx == FreeOf(H, q, lb, ub, x[..])
            && clampedIdx == ClampedOf(H, q, lb, ub, x[..]))
      // a stall return, or a convergence return at the first iteration, hands
      // back the inverse of the free block it has just factorised
      && (r.Ok? && (exit == Stalled || (exit == Converged && iters == 0)) ==>
            llt(RegularizedBlock(H, freeIdx, reg)) == Some(hffInv))
      // a convergence return after the first iteration keeps the previous inverse
      && (r.Ok? && exit == Converged && iters > 0 ==>
            && Run(H, q, lb, ub, x0, llt, iters - 1).Some?
            && llt(RegularizedBlock(H, FreeOf(H, q, lb, ub, Run(H, q, lb, ub, x0, llt, iters - 1).value), reg))
               == Some(hffInv))
      && (r.Ok? && exit == Exhausted ==>
            && iters == maxiter
            && Run(H, q, lb, ub, x0, llt, maxiter) == Some(x[..]))
      // after maxiter iterations the lists and the inverse are those of the last one
      && (r.Ok? && exit == Exhausted && maxiter > 0 ==>
            && Run(H, q, lb, ub, x0, llt, maxiter - 1).Some?
            && freeIdx == FreeOf(H, q, lb, ub, Run(H, q, lb, ub, x0, llt, maxiter - 1).value)
            && clampedIdx == ClampedOf(H, q, lb, ub, Run(H, q, lb, ub, x0, llt, maxiter - 1).value)
            && llt(RegularizedBlock(H, freeIdx, reg)) == Some(hffInv))
      // with no iteration at all they are the ones held before
      && (r.Ok? && maxiter == 0 ==> freeIdx == free0 && clampedIdx == clamped0 && hffInv == inv0)
    }

    /** An iteration k that returns gives the loop's result. */
    lemma ReturnResult(H: Matrix, q: Vector, lb: Vector, ub: Vector, x0: Vector, llt: Factorization,
                       r: Result<Solution>, k: nat, exit: Exit, prev: Vector,
                       free0: seq<nat>, clamped0: seq<nat>, inv0: Matrix, sol0: Solution)
      requires FactorizationShaped(llt)
      requires IsMatrix(H, |x0|, |x0|) && |q| == |x0| && |lb| == |x0| && |ub| == |x0| && x.Length == |x0|
      requires k < maxiter && Run(H, q, lb, ub, x0, llt, k) == Some(x[..]) && exit != Exhausted
      requires freeIdx == FreeOf(H, q, lb, ub, x[..]) && clampedIdx == ClampedOf(H, q, lb, ub, x[..])
      requires r.Ok? || r == Err(BackwardError)
      requires r == Err(BackwardError) ==> Outer(H, q, lb, ub, x[..], llt, k == 0) == Fail && solution == sol0
      requires r.Ok? ==>
        && Outer(H, q, lb, ub, x[..], llt, k == 0) == Stop(exit)
        && r.value == solution && solution == Solution(hffInv, x[..], freeIdx, clampedIdx)
      requires r.Ok? && (exit == Stalled || (exit == Converged && k == 0)) ==>
        llt(RegularizedBlock(H, freeIdx, reg)) == Some(hffInv)
      requires r.Ok? && exit == Converged && k > 0 ==>
        && Run(H, q, lb, ub, x0, llt, k - 1) == Some(prev)
        && llt(RegularizedBlock(H, FreeOf(H, q, lb, ub, prev), reg)) == Some(hffInv)
      ensures LoopResult(H, q, lb, ub, x0, llt, r, k, exit, free0, clamped0, inv0, sol0)
    {
    }

    /** What holds before iteration k of the outer loop started from x0: x is the
        point Run reaches after k iterations; before the first one the lists and
        the inverse are those held on entry (free0, clamped0, inv0), afterwards
        those computed by iteration k - 1 at the point prev. */
    ghost predicate LoopInv(H: Matrix, q: Vector, lb: Vector, ub: Vector, x0: Vector, llt: Factorization,
                            k: nat, prev: Vector, free0: seq<nat>, clamped0: seq<nat>, inv0: Matrix)
      reads this`freeIdx, this`clampedIdx, this`hffInv, x
      requires FactorizationShaped(llt)
      requires IsMatrix(H, |x0|, |x0|) && |q| == |x0| && |lb| == |x0| && |ub| == |x0| && x.Length == |x0|
    {
      && k <= maxiter
      && Run(H, q, lb, ub, x0, llt, k) == Some(x[..])
      && (BoxOk(lb, ub) ==> InBox(x[..], lb, ub))
      && (k == 0 ==> freeIdx == free0 && clampedIdx == clamped0 && hffInv == inv0)
      && (k > 0 ==>
            && Run(H, q, lb, ub, x0, llt, k - 1) == Some(prev)
            && |prev| == |x0|
            && freeIdx == FreeOf(H, q, lb, ub, prev)
            && clampedIdx == ClampedOf(H, q, lb, ub, prev)
            && llt(RegularizedBlock(H, freeIdx, reg)) == Some(hffInv))
    }

    /** Running out of iterations gives the loop's result. */
    lemma ExhaustedResult(H: Matrix, q: Vector, lb: Vector, ub: Vector, x0: Vector, llt: Factorization,
                          r: Result<Solution>, prev: Vector,
                          free0: seq<nat>, clamped0: seq<nat>, inv0: Matrix, sol0: Solution)
      requires FactorizationShaped(llt) && |x0| == nx
      requires IsMatrix(H, |x0|, |x0|) && |q| == |x0| && |lb| == |x0| && |ub| == |x0| && x.Length == |x0|
      requires LoopInv(H, q, lb, ub, x0, llt, maxiter, prev, free0, clamped0, inv0)
      requires r == Ok(solution) && solution == Solution(hffInv, x[..], freeIdx, clampedIdx)
      ensures LoopResult(H, q, lb, ub, x0, llt, r, maxiter, Exhausted, free0, clamped0, inv0, sol0)
    {
    }

    /** Iteration k of the outer loop: either the loop's result, or the loop's
        invariant for k + 1. */
    method Round(H: Matrix, q: Vector, lb: Vector, ub: Vector, llt: Factorization, ghost x0: Vector,
                 k: nat, ghost prev: Vector, ghost free0: seq<nat>, ghost clamped0: seq<nat>,
                 ghost inv0: Matrix, ghost sol0: Solution)
        returns (step: Step)
      requires Valid() && FactorizationShaped(llt)
      requires IsMatrix(H, nx, nx) && |q| == nx && |lb| == nx && |ub| == nx && |x0| == nx
      requires k < maxiter && LoopInv(H, q, lb, ub, x0, llt, k, prev, free0, clamped0, inv0)
      requires solution == sol0
      modifies this`freeIdx, this`clampedIdx, this`hffInv, this`solution, x, xnew, g, dx
      ensures Valid()
      ensures step.Return? ==>
        LoopResult(H, q, lb, ub, x0, llt, step.result, k, step.exit, free0, clamped0, inv0, sol0)
      ensures step.Continue? ==>
        && LoopInv(H, q, lb, ub, x0, llt, k + 1, old(x[..]), free0, clamped0, inv0)
        && solution == sol0
    {
      ghost var xk := x[..];
      step := Iterate(H, q, lb, ub, llt, k);
      if step.Return? {
        ReturnResult(H, q, lb, ub, x0, llt, step.result, k, step.exit, prev, free0, clamped0, inv0, sol0);
      } else {
        RunStep(H, q, lb, ub, x0, llt, k, xk);
      }
    }

    /** The outer loop: at most maxiter iterations from the current x. */
    method Loop(H: Matrix, q: Vector, lb: Vector, ub: Vector, llt: Factorization, ghost x0: Vector)
        returns (r: Result<Solution>, ghost iters: nat, ghost exit: Exit)
      requires Valid() && FactorizationShaped(llt)
      requires IsMatrix(H, nx, nx) && |q| == nx && |lb| == nx && |ub| == nx
      requires x[..] == x0 && (BoxOk(lb, ub) ==> InBox(x0, lb, ub))
      modifies this`freeIdx, this`clampedIdx, this`hffInv, this`solution, x, xnew, g, dx
      ensures Valid()
      ensures LoopResult(H, q, lb, ub, x0, llt, r, iters, exit,
                         old(freeIdx), old(clampedIdx), old(hffInv), old(solution))
    {
      var k := 0;
      ghost var prev := x0;
      while k < maxiter
        invariant Valid()
        invariant LoopInv(H, q, lb, ub, x0, llt, k, prev, old(freeIdx), old(clampedIdx), old(hffInv))
        invariant solution == old(solution)
      {
        ghost var xk := x[..];
        var step := Round(H, q, lb, ub, llt, x0, k, prev,
                          old(freeIdx), old(clampedIdx), old(hffInv), old(solution));
        if step.Return? {
          r, iters, exit := step.result, k, step.exit;
          return;
        }
        prev := xk;
        k := k + 1;
      }

      solution := Solution(hffInv, x[..], freeIdx, clampedIdx);
      r, iters, exit := Ok(solution), k, Exhausted;
      ExhaustedResult(H, q, lb, ub, x0, llt, r, prev,
                      old(freeIdx), old(clampedIdx), old(hffInv), old(solution));
    }

    /** What the loop guarantees besides its result: x stays in a well-formed
        box and, once an iteration ran, the lists partition the indices and the
        clamped ones sit on their bounds. */
    ghost predicate LoopShape(lb: Vector, ub: Vector, r: Result<Solution>)
      reads this, x
    {
      && (r.Ok? && BoxOk(lb, ub) ==> InBox(x[..], lb, ub))
      && (r.Ok? && maxiter > 0 ==> IsPartition(freeIdx, clampedIdx, nx))
      && (r.Ok? && maxiter > 0 && BoxOk(lb, ub) ==> AtBounds(x[..], lb, ub, clampedIdx))
    }

    /** After k + 1 iterations that all moved on, the lists computed by the last
        one partition the indices, and, from a start in a well-formed box, its
        clamped indices still sit on their bounds at the point it moved to. */
    lemma LastClassification(H: Matrix, q: Vector, lb: Vector, ub: Vector, x0: Vector, llt: Factorization, k: nat)
      requires FactorizationShaped(llt)
      requires IsMatrix(H, |x0|, |x0|) && |q| == |x0| && |lb| == |x0| && |ub| == |x0|
      requires Run(H, q, lb, ub, x0, llt, k + 1).Some?
      ensures Run(H, q, lb, ub, x0, llt, k).Some?
      ensures IsPartition(FreeOf(H, q, lb, ub, Run(H, q, lb, ub, x0, llt, k).value),
                          ClampedOf(H, q, lb, ub, Run(H, q, lb, ub, x0, llt, k).value), |x0|)
      ensures BoxOk(lb, ub) && InBox(x0, lb, ub) ==>
        AtBounds(Run(H, q, lb, ub, x0, llt, k + 1).value, lb, ub,
                 ClampedOf(H, q, lb, ub, Run(H, q, lb, ub, x0, llt, k).value))
    {
      RunPrefix(H, q, lb, ub, x0, llt, k, k + 1);
      var prev := Run(H, q, lb, ub, x0, llt, k).value;
      RunStep(H, q, lb, ub, x0, llt, k, prev);
      Classification(H, q, lb, ub, prev);
      if BoxOk(lb, ub) && InBox(x0, lb, ub) {
        RunInBox(H, q, lb, ub, x0, llt, k);
        OuterInBox(H, q, lb, ub, prev, llt, k == 0);
      }
    }

    /** Whatever the loop returns, from a start in a well-formed box: x stays
        in the box and, once an iteration ran, the lists partition the indices
        and the clamped ones sit on their bounds. */
    lemma ResultShape(H: Matrix, q: Vector, lb: Vector, ub: Vector, x0: Vector, llt: Factorization,
                      r: Result<Solution>, iters: nat, exit: Exit,
                      free0: seq<nat>, clamped0: seq<nat>, inv0: Matrix, sol0: Solution)
      requires FactorizationShaped(llt) && |x0| == nx
      requires IsMatrix(H, |x0|, |x0|) && |q| == |x0| && |lb| == |x0| && |ub| == |x0| && x.Length == |x0|
      requires BoxOk(lb, ub) ==> InBox(x0, lb, ub)
      requires LoopResult(H, q, lb, ub, x0, llt, r, iters, exit, free0, clamped0, inv0, sol0)
      ensures LoopShape(lb, ub, r)
    {
      if r.Ok? {
        if BoxOk(lb, ub) {
          RunInBox(H, q, lb, ub, x0, llt, iters);
        }
        if exit != Exhausted {
          Classification(H, q, lb, ub, x[..]);
        } else if maxiter > 0 {
          LastClassification(H, q, lb, ub, x0, llt, maxiter - 1);
        }
      }
    }

    /** Solves the box-constrained QP from the warm start xinit. `llt` is the
        Cholesky factorisation of the library: None when the matrix is not
        positive definite, otherwise its inverse. */
    method Solve(H: Matrix, q: Vector, lb: Vector, ub: Vector, xinit: Vector, llt: Factorization)
        returns (r: Result<Solution>, ghost iters: nat, ghost exit: Exit)
      requires Valid()
      requires FactorizationShaped(llt)
      modifies this, x, xnew, g, dx
      ensures Valid()
      // dimension checks come first and change nothing
      ensures DimensionError(nx, H, q, lb, ub, xinit).Some? ==>
        && r == Err(InvalidArgument(DimensionError(nx, H, q, lb, ub, xinit).value))
        && unchanged(this) && unchanged(x) && unchanged(xnew) && unchanged(g) && unchanged(dx)
      // then the outer loop runs from the clipped warm start
      ensures DimensionError(nx, H, q, lb, ub, xinit).None? ==>
        LoopResult(H, q, lb, ub, Clip(xinit, lb, ub), llt, r, iters, exit,
                   old(freeIdx), old(clampedIdx), old(hffInv), old(solution))
      // an error leaves the previously held solution in place
      ensures r.Err? ==> solution == old(solution)
      // every solution handed back lies in the box, with its clamped indices on bounds
      ensures r.Ok? && BoxOk(lb, ub) ==> InBox(solution.x, lb, ub)
      ensures r.Ok? && maxiter > 0 ==> IsPartition(solution.freeIdx, solution.clampedIdx, nx)
      ensures r.Ok? && maxiter > 0 && BoxOk(lb, ub) ==> AtBounds(solution.x, lb, ub, solution.clampedIdx)
    {
      var err := DimensionError(nx, H, q, lb, ub, xinit);
      if err.Some? {
        r, iters, exit := Err(InvalidArgument(err.value)), 0, Exhausted;
        return;
      }

      WarmStart(xinit, lb, ub);
      ghost var x0 := x[..];
      r, iters, exit := Loop(H, q, lb, ub, llt, x0);
      ResultShape(H, q, lb, ub, x0, llt, r, iters, exit,
                  old(freeIdx), old(clampedIdx), old(hffInv), old(solution));
    }
  }
}
