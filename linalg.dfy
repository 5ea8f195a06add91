/** Dense vectors and matrices over the reals, and the operations the solver
    takes from its linear-algebra library: dot products, matrix-vector
    products, the quadratic objective, its gradient and the infinity norm. */
module LinAlg {

  datatype Option<T> = None | Some(value: T)

  type Vector = seq<real>
  type Matrix = seq<seq<real>>

  /** M has `rows` rows, each of length `cols`. */
  predicate IsMatrix(M: Matrix, rows: nat, cols: nat)
  {
    |M| == rows && forall i :: 0 <= i < |M| ==> |M[i]| == cols
  }

  /** Every index of `idx` addresses a position below n. */
  predicate IndicesBelow(idx: seq<nat>, n: nat)
  {
    forall k :: 0 <= k < |idx| ==> idx[k] < n
  }

  function Abs(a: real): real
  {
    if a < 0.0 then -a else a
  }

  function Max(a: real, b: real): real
  {
    if a < b then b else a
  }

  /** Sum of u[i] * v[i] over the first n positions. */
  function DotPrefix(u: Vector, v: Vector, n: nat): real
    requires n <= |u| && n <= |v|
  {
    if n == 0 then 0.0 else DotPrefix(u, v, n - 1) + u[n - 1] * v[n - 1]
  }

  /** Sum of u[i] * v[i]. */
  function Dot(u: Vector, v: Vector): real
    requires |u| == |v|
  {
    DotPrefix(u, v, |u|)
  }

  function MatVec(M: Matrix, v: Vector): (r: Vector)
    requires forall i :: 0 <= i < |M| ==> |M[i]| == |v|
    ensures |r| == |M|
  {
    seq(|M|, i requires 0 <= i < |M| => Dot(M[i], v))
  }

  function Sub(u: Vector, v: Vector): (r: Vector)
    requires |u| == |v|
    ensures |r| == |u|
  {
    seq(|u|, i requires 0 <= i < |u| => u[i] - v[i])
  }

  /** The quadratic model 0.5 * x'Hx + q'x. */
  function Objective(H: Matrix, q: Vector, x: Vector): real
    requires IsMatrix(H, |x|, |x|) && |q| == |x|
  {
    0.5 * Dot(x, MatVec(H, x)) + Dot(q, x)
  }

  /** The gradient q + Hx of the objective (for symmetric H). */
  function Gradient(H: Matrix, q: Vector, x: Vector): (r: Vector)
    requires IsMatrix(H, |q|, |x|)
    ensures |r| == |q|
  {
    seq(|q|, i requires 0 <= i < |q| => q[i] + Dot(H[i], x))
  }

  /** The largest absolute value among the first n entries, 0 when n is 0. */
  function MaxAbsPrefix(v: Vector, n: nat): (r: real)
    requires n <= |v|
    ensures 0.0 <= r
    ensures forall i :: 0 <= i < n ==> Abs(v[i]) <= r
    ensures n > 0 ==> exists i :: 0 <= i < n && r == Abs(v[i])
  {
    if n == 0 then 0.0 else Max(MaxAbsPrefix(v, n - 1), Abs(v[n - 1]))
  }

  /** The infinity norm: the largest absolute entry, 0 for the empty vector. */
  function InfNorm(v: Vector): (r: real)
    ensures 0.0 <= r
    ensures forall i :: 0 <= i < |v| ==> Abs(v[i]) <= r
    ensures |v| == 0 ==> r == 0.0
    ensures |v| > 0 ==> exists i :: 0 <= i < |v| && r == Abs(v[i])
  {
    MaxAbsPrefix(v, |v|)
  }

  /** The entries of v at the positions idx, in order. */
  function Gather(v: Vector, idx: seq<nat>): (r: Vector)
    requires IndicesBelow(idx, |v|)
    ensures |r| == |idx|
  {
    seq(|idx|, k requires 0 <= k < |idx| => v[idx[k]])
  }

  /** The block of M with the given rows and columns. */
  function SubMatrix(M: Matrix, rows: seq<nat>, cols: seq<nat>): (r: Matrix)
    requires IsMatrix(M, |M|, |M|) && IndicesBelow(rows, |M|) && IndicesBelow(cols, |M|)
    ensures IsMatrix(r, |rows|, |cols|)
  {
    seq(|rows|, i requires 0 <= i < |rows| => Gather(M[rows[i]], cols))
  }

  /** M with `reg` added to each diagonal entry. */
  function AddDiagonal(M: Matrix, reg: real): (r: Matrix)
    requires IsMatrix(M, |M|, |M|)
    ensures IsMatrix(r, |M|, |M|)
  {
    seq(|M|, i requires 0 <= i < |M| => M[i][i := M[i][i] + reg])
  }

  /** The regularised free-free block of H that is handed to the factorisation. */
  function RegularizedBlock(H: Matrix, free: seq<nat>, reg: real): (r: Matrix)
    requires IsMatrix(H, |H|, |H|) && IndicesBelow(free, |H|)
    ensures IsMatrix(r, |free|, |free|)
  {
    AddDiagonal(SubMatrix(H, free, free), reg)
  }

  /** A matrix whose entry (i, j) is H[free[i]][free[j]], plus reg on the
      diagonal, is the regularised block. */
  lemma RegularizedBlockExt(B: Matrix, H: Matrix, free: seq<nat>, reg: real)
    requires IsMatrix(H, |H|, |H|) && IndicesBelow(free, |H|) && IsMatrix(B, |free|, |free|)
    requires forall i, j :: 0 <= i < |free| && 0 <= j < |free| ==>
      B[i][j] == H[free[i]][free[j]] + (if i == j then reg else 0.0)
    ensures B == RegularizedBlock(H, free, reg)
  {
    var S := SubMatrix(H, free, free);
    var R := RegularizedBlock(H, free, reg);
    forall i, j | 0 <= i < |free| && 0 <= j < |free|
      ensures B[i][j] == R[i][j]
    {
      assert S[i] == Gather(H[free[i]], free);
    }
    MatrixExt(B, R, |free|, |free|);
  }

  /** A matrix whose entry (i, j) is M[rows[i]][cols[j]] is the block of M
      with those rows and columns. */
  lemma SubMatrixExt(B: Matrix, M: Matrix, rows: seq<nat>, cols: seq<nat>)
    requires IsMatrix(M, |M|, |M|) && IndicesBelow(rows, |M|) && IndicesBelow(cols, |M|)
    requires IsMatrix(B, |rows|, |cols|)
    requires forall i, j :: 0 <= i < |rows| && 0 <= j < |cols| ==> B[i][j] == M[rows[i]][cols[j]]
    ensures B == SubMatrix(M, rows, cols)
  {
    var S := SubMatrix(M, rows, cols);
    forall i, j | 0 <= i < |rows| && 0 <= j < |cols|
      ensures B[i][j] == S[i][j]
    {
      assert S[i] == Gather(M[rows[i]], cols);
    }
    MatrixExt(B, S, |rows|, |cols|);
  }

  /** Two matrices of the same shape that agree entrywise are equal. */
  lemma MatrixExt(A: Matrix, B: Matrix, rows: nat, cols: nat)
    requires IsMatrix(A, rows, cols) && IsMatrix(B, rows, cols)
    requires forall i, j :: 0 <= i < rows && 0 <= j < cols ==> A[i][j] == B[i][j]
    ensures A == B
  {
    forall i | 0 <= i < rows
      ensures A[i] == B[i]
    {
      assert forall j :: 0 <= j < cols ==> A[i][j] == B[i][j];
    }
  }

  /** The Cholesky factorisation: for an n x n matrix it either reports that
      the matrix is not positive definite (None) or yields its inverse
      (Some), through which every later triangular solve is expressed. */
  type Factorization = Matrix -> Option<Matrix>

  /** What the factorisation library promises about shapes: a successful
      factorisation of an n x n matrix gives an n x n inverse. */
  ghost predicate InverseShaped(llt: Factorization, M: Matrix)
  {
    llt(M).Some? ==> IsMatrix(llt(M).value, |M|, |M|)
  }

  ghost predicate FactorizationShaped(llt: Factorization)
  {
    forall M :: InverseShaped(llt, M)
  }
}
