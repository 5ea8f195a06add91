/** The table of step lengths and the backtracking line search over it. */
module LineSearch {
  import opened LinAlg
  import opened ActiveSet

  /** Number of step lengths the solver tries. */
  const StepCount: nat := 10

  /** 2^n, exactly. */
  function Pow2(n: nat): (r: real)
    ensures r >= 1.0
  {
    if n == 0 then 1.0 else 2.0 * Pow2(n - 1)
  }

  /** The step lengths 1 / 2^n for n = 0 .. StepCount - 1. */
  function StepLengths(): seq<real>
  {
    seq(StepCount, n requires 0 <= n => 1.0 / Pow2(n))
  }

  lemma {:induction false} Pow2Increasing(i: nat, j: nat)
    requires i < j
    ensures Pow2(i) < Pow2(j)
  {
    if i + 1 < j {
      Pow2Increasing(i, j - 1);
    }
  }

  /** Each step length is half the previous one. */
  lemma StepLengthHalves(n: nat)
    ensures 1.0 / Pow2(n + 1) == (1.0 / Pow2(n)) / 2.0
  {
  }

  /** Ten positive step lengths, starting at 1 and ending at 1/512, each half
      the previous one, so strictly decreasing. */
  lemma StepLengthsShape()
    ensures |StepLengths()| == 10
    ensures StepLengths()[0] == 1.0 && StepLengths()[9] == 1.0 / 512.0
    ensures forall n :: 0 <= n < 9 ==> StepLengths()[n + 1] == StepLengths()[n] / 2.0
    ensures forall n :: 0 <= n < 10 ==> 0.0 < StepLengths()[n] <= 1.0
    ensures forall i, j :: 0 <= i < j < 10 ==> StepLengths()[j] < StepLengths()[i]
  {
    var s := StepLengths();
    assert Pow2(9) == 512.0;
    forall n | 0 <= n < 9
      ensures s[n + 1] == s[n] / 2.0
    {
      StepLengthHalves(n);
    }
    forall i, j | 0 <= i < j < 10
      ensures s[j] < s[i]
    {
      Pow2Increasing(i, j);
    }
  }

  /** One coordinate of x + a * dx. */
  function Move(xi: real, a: real, di: real): real
  {
    xi + a * di
  }

  /** The point x + a * dx projected onto [lb, ub]. */
  function Candidate(x: Vector, dx: Vector, a: real, lb: Vector, ub: Vector): (r: Vector)
    requires |dx| == |x| && |lb| == |x| && |ub| == |x|
    ensures |r| == |x|
  {
    Clip(seq(|x|, i requires 0 <= i < |x| => Move(x[i], a, dx[i])), lb, ub)
  }

  /** The decrease fold - fnew beats th times the linearised decrease. */
  predicate Sufficient(fold: real, fnew: real, th: real, linear: real)
  {
    fold - fnew > th * linear
  }

  /** Sufficient decrease: f(x) - f(xn) > th * g'(x - xn). */
  predicate Accepts(H: Matrix, q: Vector, g: Vector, x: Vector, xn: Vector, th: real)
    requires IsMatrix(H, |x|, |x|) && |q| == |x| && |g| == |x| && |xn| == |x|
  {
    Sufficient(Objective(H, q, x), Objective(H, q, xn), th, Dot(g, Sub(x, xn)))
  }

  /** All the vectors of one line search have the problem's dimension. */
  ghost predicate SearchShape(H: Matrix, q: Vector, g: Vector, lb: Vector, ub: Vector, x: Vector, dx: Vector)
  {
    IsMatrix(H, |x|, |x|) && |q| == |x| && |g| == |x| && |lb| == |x| && |ub| == |x| && |dx| == |x|
  }

  /** The point the line search moves to: the first candidate, in the order of
      `alphas`, that gives sufficient decrease; x itself if none does. */
  function Search(H: Matrix, q: Vector, g: Vector, lb: Vector, ub: Vector,
                  x: Vector, dx: Vector, alphas: seq<real>, th: real): (r: Vector)
    requires SearchShape(H, q, g, lb, ub, x, dx)
    ensures |r| == |x|
  {
    if |alphas| == 0 then x
    else
      var xn := Candidate(x, dx, alphas[0], lb, ub);
      if Accepts(H, q, g, x, xn, th) then xn
      else Search(H, q, g, lb, ub, x, dx, alphas[1..], th)
  }

  /** One step of the search from the t-th step length on. */
  lemma SearchFrom(H: Matrix, q: Vector, g: Vector, lb: Vector, ub: Vector,
                   x: Vector, dx: Vector, alphas: seq<real>, th: real, t: nat)
    requires SearchShape(H, q, g, lb, ub, x, dx) && t < |alphas|
    ensures Search(H, q, g, lb, ub, x, dx, alphas[t..], th) ==
      if Accepts(H, q, g, x, Candidate(x, dx, alphas[t], lb, ub), th)
      then Candidate(x, dx, alphas[t], lb, ub)
      else Search(H, q, g, lb, ub, x, dx, alphas[t + 1..], th)
  {
    assert alphas[t..][0] == alphas[t] && alphas[t..][1..] == alphas[t + 1..];
  }

  /** The search either tries every step length in vain and keeps x (k = |alphas|),
      or stops at the first accepted one, k, and moves to its candidate. */
  lemma {:induction false} SearchOutcome(H: Matrix, q: Vector, g: Vector, lb: Vector, ub: Vector,
                                         x: Vector, dx: Vector, alphas: seq<real>, th: real)
      returns (k: nat)
    requires SearchShape(H, q, g, lb, ub, x, dx)
    ensures k <= |alphas|
    ensures forall i :: 0 <= i < k ==> !Accepts(H, q, g, x, Candidate(x, dx, alphas[i], lb, ub), th)
    ensures k == |alphas| ==> Search(H, q, g, lb, ub, x, dx, alphas, th) == x
    ensures k < |alphas| ==>
      && Search(H, q, g, lb, ub, x, dx, alphas, th) == Candidate(x, dx, alphas[k], lb, ub)
      && Accepts(H, q, g, x, Search(H, q, g, lb, ub, x, dx, alphas, th), th)
  {
    if |alphas| == 0 {
      k := 0;
    } else if Accepts(H, q, g, x, Candidate(x, dx, alphas[0], lb, ub), th) {
      k := 0;
    } else {
      var k' := SearchOutcome(H, q, g, lb, ub, x, dx, alphas[1..], th);
      k := k' + 1;
      forall i | 0 <= i < k
        ensures !Accepts(H, q, g, x, Candidate(x, dx, alphas[i], lb, ub), th)
      {
        if i > 0 {
          assert alphas[i] == alphas[1..][i - 1];
        }
      }
    }
  }

  /** When the box is well formed every point the search can move to lies in it. */
  lemma SearchInBox(H: Matrix, q: Vector, g: Vector, lb: Vector, ub: Vector,
                    x: Vector, dx: Vector, alphas: seq<real>, th: real)
    requires SearchShape(H, q, g, lb, ub, x, dx)
    requires BoxOk(lb, ub) && InBox(x, lb, ub)
    ensures InBox(Search(H, q, g, lb, ub, x, dx, alphas, th), lb, ub)
  {
    var k := SearchOutcome(H, q, g, lb, ub, x, dx, alphas, th);
  }

  /** A coordinate inside its bounds whose step is zero is never moved by the search. */
  lemma {:induction false} SearchKeepsFixed(H: Matrix, q: Vector, g: Vector, lb: Vector, ub: Vector,
                                            x: Vector, dx: Vector, alphas: seq<real>, th: real, j: nat)
    requires SearchShape(H, q, g, lb, ub, x, dx)
    requires j < |x| && dx[j] == 0.0 && lb[j] <= x[j] <= ub[j]
    ensures Search(H, q, g, lb, ub, x, dx, alphas, th)[j] == x[j]
  {
    if |alphas| > 0 {
      SearchKeepsFixed(H, q, g, lb, ub, x, dx, alphas[1..], th, j);
    }
  }

  /** Indices on a bound with a zero step stay on that bound after the search. */
  lemma SearchKeepsClamped(H: Matrix, q: Vector, g: Vector, lb: Vector, ub: Vector,
                           x: Vector, dx: Vector, alphas: seq<real>, th: real, clamped: seq<nat>)
    requires SearchShape(H, q, g, lb, ub, x, dx)
    requires InBox(x, lb, ub) && AtBounds(x, lb, ub, clamped)
    requires forall k :: 0 <= k < |clamped| ==> dx[clamped[k]] == 0.0
    ensures AtBounds(Search(H, q, g, lb, ub, x, dx, alphas, th), lb, ub, clamped)
  {
    forall k | 0 <= k < |clamped|
      ensures Search(H, q, g, lb, ub, x, dx, alphas, th)[clamped[k]] == x[clamped[k]]
    {
      SearchKeepsFixed(H, q, g, lb, ub, x, dx, alphas, th, clamped[k]);
    }
  }
}
