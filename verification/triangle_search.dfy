/** Choosing a triangle for a sample: inverse-CDF lookup over the cumulative area table. */
module TriangleSearch {
  import opened AreaCdf

  /** Reference lookup by linear scan: the first index from `from` on whose cumulative area exceeds `r`,
      falling back to the last triangle when there is none. */
  function FirstAbove(cdf: seq<real>, r: real, from: nat): (t: nat)
    requires from < |cdf|
    ensures from <= t < |cdf|
    ensures forall j :: from <= j < t ==> cdf[j] <= r
    ensures t == |cdf| - 1 || r < cdf[t]
    decreases |cdf| - from
  {
    if from == |cdf| - 1 || r < cdf[from] then from else FirstAbove(cdf, r, from + 1)
  }

  /** The triangle an inverse-CDF lookup of `r` must return: the least `t` with `r < cdf[t]`,
      or the last triangle if `r` reaches past every entry. */
  function InverseCdf(cdf: seq<real>, r: real): (t: nat)
    requires |cdf| > 0
    ensures t < |cdf|
    ensures forall j :: 0 <= j < t ==> cdf[j] <= r
    ensures t == |cdf| - 1 || r < cdf[t]
  {
    FirstAbove(cdf, r, 0)
  }

  /** The two properties of `InverseCdf` pin its result down. */
  lemma InverseCdfUnique(cdf: seq<real>, r: real, t: nat)
    requires t < |cdf|
    requires forall j :: 0 <= j < t ==> cdf[j] <= r
    requires t == |cdf| - 1 || r < cdf[t]
    ensures t == InverseCdf(cdf, r)
  {
  }

  /** The sampler's binary search over `[0, triCount - 1]`: probe the midpoint (a right shift, which is
      halving for these non-negative bounds); keep the lower half including the midpoint when `r` is below
      its entry, otherwise the upper half past it; stop when one index is left. */
  method LowerBound(cdf: seq<real>, r: real) returns (t: nat)
    requires |cdf| > 0
    requires NonDecreasing(cdf)
    ensures t < |cdf|
    ensures t == InverseCdf(cdf, r)
  {
    var lo, hi := 0, |cdf| - 1;
    while lo < hi
      invariant 0 <= lo <= hi < |cdf|
      invariant forall j :: 0 <= j < lo ==> cdf[j] <= r
      invariant hi == |cdf| - 1 || r < cdf[hi]
      decreases hi - lo
    {
      var mid := (lo + hi) / 2;
      if r < cdf[mid] {
        hi := mid;
      } else {
        lo := mid + 1;
      }
    }
    t := lo;
    InverseCdfUnique(cdf, r, t);
  }

  /** Inverse-CDF correctness: for `0 <= r < totalArea`, triangle `t` is chosen exactly when `r` falls in
      `[cdf[t-1], cdf[t])`, an interval as wide as triangle `t`'s area; so a chosen triangle has positive area. */
  lemma InverseCdfInterval(areas: seq<real>, r: real, t: nat)
    requires AllNonNegative(areas)
    requires t < |areas|
    requires 0.0 <= r < TotalArea(areas)
    ensures InverseCdf(Cdf(areas), r) == t <==>
              (t == 0 || Cdf(areas)[t - 1] <= r) && r < Cdf(areas)[t]
    ensures InverseCdf(Cdf(areas), r) == t ==> areas[t] > 0.0
  {
    var cdf := Cdf(areas);
    CdfNonDecreasing(areas);
    CdfStep(areas, t);
    if InverseCdf(cdf, r) == t {
      assert r < cdf[t];
    }
    if (t == 0 || cdf[t - 1] <= r) && r < cdf[t] {
      forall j | 0 <= j < t
        ensures cdf[j] <= r
      {
        assert cdf[j] <= cdf[t - 1];
      }
      InverseCdfUnique(cdf, r, t);
    }
  }
}
