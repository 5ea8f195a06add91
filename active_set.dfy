/** The box [lb, ub], projection onto it, the split of the indices into
    clamped and free ones, and scattering a free-space vector back into the
    full space. */
module ActiveSet {
  import opened LinAlg

  /** max(min(v, hi), lo), with the tie-breaking of std::min and std::max. */
  function Clamp(v: real, lo: real, hi: real): (r: real)
    ensures lo <= r
    ensures lo <= hi ==> r <= hi
    ensures lo <= v <= hi ==> r == v
    ensures r == lo || r == hi || r == v
  {
    var m := if hi < v then hi else v;
    if m < lo then lo else m
  }

  /** Every lower bound is at most its upper bound. */
  ghost predicate BoxOk(lb: Vector, ub: Vector)
  {
    |lb| == |ub| && forall i :: 0 <= i < |lb| ==> lb[i] <= ub[i]
  }

  ghost predicate InBox(x: Vector, lb: Vector, ub: Vector)
  {
    |x| == |lb| == |ub| && forall i :: 0 <= i < |x| ==> lb[i] <= x[i] <= ub[i]
  }

  /** Elementwise projection of v onto [lb, ub]. */
  function Clip(v: Vector, lb: Vector, ub: Vector): (r: Vector)
    requires |v| == |lb| == |ub|
    ensures |r| == |v|
    ensures BoxOk(lb, ub) ==> InBox(r, lb, ub)
    ensures forall i :: 0 <= i < |v| && lb[i] <= v[i] <= ub[i] ==> r[i] == v[i]
    ensures forall i :: 0 <= i < |v| ==> lb[i] <= r[i]
    ensures forall i :: 0 <= i < |v| ==> r[i] == lb[i] || r[i] == ub[i] || r[i] == v[i]
  {
    seq(|v|, i requires 0 <= i < |v| => Clamp(v[i], lb[i], ub[i]))
  }

  /** x, lb, ub and g all have the same length. */
  ghost predicate Conform(x: Vector, lb: Vector, ub: Vector, g: Vector)
  {
    |lb| == |x| && |ub| == |x| && |g| == |x|
  }

  /** Index j sits on a bound and the gradient pushes it outward. */
  predicate ClampedAt(x: Vector, lb: Vector, ub: Vector, g: Vector, j: nat)
    requires j < |x| && j < |lb| && j < |ub| && j < |g|
  {
    (x[j] == lb[j] && g[j] > 0.0) || (x[j] == ub[j] && g[j] < 0.0)
  }

  /** The indices below n, in increasing order, whose classification is
      `clamped` (true: the clamped indices, false: the free ones). */
  function Select(x: Vector, lb: Vector, ub: Vector, g: Vector, n: nat, clamped: bool): seq<nat>
    requires Conform(x, lb, ub, g) && n <= |x|
  {
    if n == 0 then []
    else
      Select(x, lb, ub, g, n - 1, clamped)
        + (if ClampedAt(x, lb, ub, g, n - 1) == clamped then [n - 1] else [])
  }

  ghost predicate StrictlyIncreasing(s: seq<nat>)
  {
    forall i, j :: 0 <= i < j < |s| ==> s[i] < s[j]
  }

  /** free and clamped are ordered, disjoint and together hold exactly 0..n-1. */
  ghost predicate IsPartition(free: seq<nat>, clamped: seq<nat>, n: nat)
  {
    && StrictlyIncreasing(free)
    && StrictlyIncreasing(clamped)
    && IndicesBelow(free, n)
    && IndicesBelow(clamped, n)
    && (forall j :: 0 <= j < n ==> (j in free <==> j !in clamped))
  }

  /** Every index of idx addresses a coordinate of x that equals its lower or upper bound. */
  ghost predicate AtBounds(x: Vector, lb: Vector, ub: Vector, idx: seq<nat>)
  {
    forall k :: 0 <= k < |idx| ==>
      idx[k] < |x| && idx[k] < |lb| && idx[k] < |ub|
      && (x[idx[k]] == lb[idx[k]] || x[idx[k]] == ub[idx[k]])
  }

  lemma {:induction false} SelectSpec(x: Vector, lb: Vector, ub: Vector, g: Vector, n: nat, clamped: bool)
    requires Conform(x, lb, ub, g) && n <= |x|
    ensures StrictlyIncreasing(Select(x, lb, ub, g, n, clamped))
    ensures IndicesBelow(Select(x, lb, ub, g, n, clamped), n)
    ensures forall j :: 0 <= j < n ==>
      (j in Select(x, lb, ub, g, n, clamped) <==> ClampedAt(x, lb, ub, g, j) == clamped)
  {
    if n > 0 {
      SelectSpec(x, lb, ub, g, n - 1, clamped);
      var prev := Select(x, lb, ub, g, n - 1, clamped);
      var r := Select(x, lb, ub, g, n, clamped);
      if ClampedAt(x, lb, ub, g, n - 1) == clamped {
        assert r == prev + [n - 1];
        forall j | 0 <= j < n
          ensures j in r <==> ClampedAt(x, lb, ub, g, j) == clamped
        {
          assert j in r <==> j in prev || j == n - 1;
        }
      } else {
        assert r == prev;
      }
    }
  }

  /** The classification of 0..n-1 is an ordered partition; an index is clamped
      exactly when ClampedAt holds, and every clamped index sits on a bound. */
  lemma ClassificationPartition(x: Vector, lb: Vector, ub: Vector, g: Vector, n: nat)
    requires Conform(x, lb, ub, g) && n <= |x|
    ensures IsPartition(Select(x, lb, ub, g, n, false), Select(x, lb, ub, g, n, true), n)
    ensures forall j :: 0 <= j < n ==>
      (j in Select(x, lb, ub, g, n, true) <==> ClampedAt(x, lb, ub, g, j))
    ensures AtBounds(x, lb, ub, Select(x, lb, ub, g, n, true))
  {
    SelectSpec(x, lb, ub, g, n, false);
    SelectSpec(x, lb, ub, g, n, true);
    var clamped := Select(x, lb, ub, g, n, true);
    forall k | 0 <= k < |clamped|
      ensures x[clamped[k]] == lb[clamped[k]] || x[clamped[k]] == ub[clamped[k]]
    {
      assert clamped[k] in clamped;
    }
  }

  /** The full-space vector that is 0 everywhere except at idx[k], where it is
      d[k]: zero the vector, then write the entries one after another. */
  function Scatter(d: Vector, idx: seq<nat>, n: nat): (r: Vector)
    requires |d| == |idx| && IndicesBelow(idx, n)
    ensures |r| == n
  {
    if |idx| == 0 then seq(n, _ => 0.0)
    else Scatter(d[..|d| - 1], idx[..|idx| - 1], n)[idx[|idx| - 1] := d[|d| - 1]]
  }

  lemma {:induction false} ScatterSpec(d: Vector, idx: seq<nat>, n: nat)
    requires |d| == |idx| && IndicesBelow(idx, n) && StrictlyIncreasing(idx)
    ensures forall k :: 0 <= k < |idx| ==> Scatter(d, idx, n)[idx[k]] == d[k]
    ensures forall j :: 0 <= j < n && j !in idx ==> Scatter(d, idx, n)[j] == 0.0
  {
    if |idx| > 0 {
      var m := |idx| - 1;
      ScatterSpec(d[..m], idx[..m], n);
      forall j | 0 <= j < n && j !in idx
        ensures Scatter(d, idx, n)[j] == 0.0
      {
        assert j !in idx[..m] && j != idx[m];
      }
    }
  }

  /** Gathering the scattered vector at the same indices gives it back. */
  lemma GatherScatter(d: Vector, idx: seq<nat>, n: nat)
    requires |d| == |idx| && IndicesBelow(idx, n) && StrictlyIncreasing(idx)
    ensures Gather(Scatter(d, idx, n), idx) == d
  {
    ScatterSpec(d, idx, n);
  }

  /** The full step is zero at every clamped index and carries the free-space
      step at every free index. */
  lemma StepZeroOnClamped(d: Vector, free: seq<nat>, clamped: seq<nat>, n: nat)
    requires IsPartition(free, clamped, n) && |d| == |free|
    ensures forall k :: 0 <= k < |clamped| ==> Scatter(d, free, n)[clamped[k]] == 0.0
    ensures forall k :: 0 <= k < |free| ==> Scatter(d, free, n)[free[k]] == d[k]
  {
    ScatterSpec(d, free, n);
    forall k | 0 <= k < |clamped|
      ensures clamped[k] !in free
    {
      assert clamped[k] in clamped;
    }
  }
}
