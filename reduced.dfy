/** The reduced problem on the free subspace: the free-free block of the
    Hessian, the free-clamped coupling block, the free and clamped parts of
    q and x, and the Newton step computed from them. */
module Reduced {
  import opened LinAlg

  /** The entries of v at the given indices, in order. */
  method GatherRow(v: Vector, idx: seq<nat>) returns (row: Vector)
    requires IndicesBelow(idx, |v|)
    ensures |row| == |idx| && forall b :: 0 <= b < |idx| ==> row[b] == v[idx[b]]
  {
    row := [];
    for j := 0 to |idx|
      invariant |row| == j
      invariant forall b :: 0 <= b < j ==> row[b] == v[idx[b]]
    {
      row := row + [v[idx[j]]];
    }
  }

  /** The regularised free-free block alone, as built when the solver
      converges on its first iteration. */
  method FreeHessian(H: Matrix, free: seq<nat>, reg: real) returns (hff: Matrix)
    requires IsMatrix(H, |H|, |H|) && IndicesBelow(free, |H|)
    ensures IsMatrix(hff, |free|, |free|)
    ensures forall i, j :: 0 <= i < |free| && 0 <= j < |free| ==>
      hff[i][j] == H[free[i]][free[j]] + (if i == j then reg else 0.0)
    ensures hff == RegularizedBlock(H, free, reg)
  {
    var nf := |free|;
    hff := [];
    for i := 0 to nf
      invariant IsMatrix(hff, i, nf)
      invariant forall a, b :: 0 <= a < i && 0 <= b < nf ==> hff[a][b] == H[free[a]][free[b]]
    {
      var fi := free[i];
      var row := GatherRow(H[fi], free);
      hff := hff + [row];
    }
    hff := AddRegularization(hff, reg);
    RegularizedBlockExt(hff, H, free, reg);
  }

  /** Adds reg to the diagonal when reg is nonzero. */
  method AddRegularization(M: Matrix, reg: real) returns (r: Matrix)
    requires IsMatrix(M, |M|, |M|)
    ensures IsMatrix(r, |M|, |M|)
    ensures forall i, j :: 0 <= i < |M| && 0 <= j < |M| ==>
      r[i][j] == M[i][j] + (if i == j then reg else 0.0)
  {
    r := M;
    if reg != 0.0 {
      for i := 0 to |M|
        invariant IsMatrix(r, |M|, |M|)
        invariant forall a, b :: 0 <= a < |M| && 0 <= b < |M| ==>
          r[a][b] == M[a][b] + (if a == b && a < i then reg else 0.0)
      {
        r := r[i := r[i][i := r[i][i] + reg]];
      }
    }
  }

  /** All blocks of the reduced problem, filled in one pass over the free indices. */
  method ReducedBlocks(H: Matrix, q: Vector, x: Vector, free: seq<nat>, clamped: seq<nat>, reg: real)
      returns (hff: Matrix, hfc: Matrix, qf: Vector, xf: Vector, xc: Vector)
    requires IsMatrix(H, |x|, |x|) && |q| == |x|
    requires IndicesBelow(free, |x|) && IndicesBelow(clamped, |x|)
    requires |free| > 0
    ensures hff == RegularizedBlock(H, free, reg)
    ensures hfc == SubMatrix(H, free, clamped)
    ensures qf == Gather(q, free) && xf == Gather(x, free) && xc == Gather(x, clamped)
  {
    var nf, nc := |free|, |clamped|;
    hff, hfc, qf, xf := [], [], [], [];
    xc := seq(nc, _ => 0.0);
    for i := 0 to nf
      invariant IsMatrix(hff, i, nf) && IsMatrix(hfc, i, nc)
      invariant forall a, b :: 0 <= a < i && 0 <= b < nf ==> hff[a][b] == H[free[a]][free[b]]
      invariant forall a, b :: 0 <= a < i && 0 <= b < nc ==> hfc[a][b] == H[free[a]][clamped[b]]
      invariant |qf| == i && forall a :: 0 <= a < i ==> qf[a] == q[free[a]]
      invariant |xf| == i && forall a :: 0 <= a < i ==> xf[a] == x[free[a]]
      invariant |xc| == nc && (i > 0 ==> forall b :: 0 <= b < nc ==> xc[b] == x[clamped[b]])
    {
      var fi := free[i];
      qf := qf + [q[fi]];
      xf := xf + [x[fi]];
      var row := GatherRow(H[fi], free);
      var rowc: Vector := [];
      for j := 0 to nc
        invariant |rowc| == j && |xc| == nc
        invariant forall b :: 0 <= b < j ==> rowc[b] == H[fi][clamped[b]]
        invariant forall b :: 0 <= b < j ==> xc[b] == x[clamped[b]]
        invariant i > 0 ==> forall b :: 0 <= b < nc ==> xc[b] == x[clamped[b]]
      {
        var cj := clamped[j];
        xc := xc[j := x[cj]];
        rowc := rowc + [H[fi][cj]];
      }
      hff := hff + [row];
      hfc := hfc + [rowc];
    }
    hff := AddRegularization(hff, reg);
    RegularizedBlockExt(hff, H, free, reg);
    SubMatrixExt(hfc, H, free, clamped);
  }

  /** The right-hand side -(qf + Hfc * xc) of the reduced system, with the
      clamped variables held at their current values. */
  function ReducedRhs(qf: Vector, hfc: Matrix, xc: Vector): (r: Vector)
    requires IsMatrix(hfc, |qf|, |xc|)
    ensures |r| == |qf|
  {
    seq(|qf|, i requires 0 <= i < |qf| => -(qf[i] + Dot(hfc[i], xc)))
  }

  /** The free-space step: start from -qf, subtract Hfc * xc only when some
      index is clamped, apply the inverse, subtract xf. The current free point
      plus the step is the inverse applied to the reduced right-hand side. */
  function NewtonStep(inv: Matrix, qf: Vector, hfc: Matrix, xc: Vector, xf: Vector): (dxf: Vector)
    requires IsMatrix(inv, |qf|, |qf|) && IsMatrix(hfc, |qf|, |xc|) && |xf| == |qf|
    ensures |dxf| == |qf|
    ensures forall i :: 0 <= i < |qf| ==> xf[i] + dxf[i] == Dot(inv[i], ReducedRhs(qf, hfc, xc))
  {
    var negq := seq(|qf|, i requires 0 <= i < |qf| => -qf[i]);
    var rhs := if |xc| != 0 then Sub(negq, MatVec(hfc, xc)) else negq;
    assert rhs == ReducedRhs(qf, hfc, xc) by {
      if |xc| == 0 {
        forall i | 0 <= i < |qf|
          ensures rhs[i] == ReducedRhs(qf, hfc, xc)[i]
        {
          assert Dot(hfc[i], xc) == 0.0;
        }
      }
    }
    Sub(MatVec(inv, rhs), xf)
  }
}
