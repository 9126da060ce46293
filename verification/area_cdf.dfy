/** The cumulative triangle-area table the sampler builds before drawing points. */
module AreaCdf {

  type NonNegReal = r: real | r >= 0.0

  /** Sum of a sequence, accumulated left to right as the sampler's loop does. */
  function Sum(s: seq<real>): real
  {
    if |s| == 0 then 0.0 else Sum(s[..|s| - 1]) + s[|s| - 1]
  }

  predicate AllNonNegative(s: seq<real>)
  {
    forall i :: 0 <= i < |s| ==> s[i] >= 0.0
  }

  predicate NonDecreasing(s: seq<real>)
  {
    forall i, j :: 0 <= i <= j < |s| ==> s[i] <= s[j]
  }

  /** The intended table: entry `i` is the total area of triangles `0..i`. */
  function Cdf(areas: seq<real>): seq<real>
  {
    seq(|areas|, i requires 0 <= i < |areas| => Sum(areas[..i + 1]))
  }

  /** The `totalArea` the accumulation leaves behind. */
  function TotalArea(areas: seq<real>): (total: real)
    ensures |areas| > 0 ==> total == Cdf(areas)[|areas| - 1]
    ensures |areas| == 0 ==> total == 0.0
    ensures AllNonNegative(areas) ==> total >= 0.0
  {
    assert areas[..|areas|] == areas;
    if AllNonNegative(areas) then SumNonNegative(areas); Sum(areas) else Sum(areas)
  }

  /** The accumulation loop: a running total of the areas, in triangle order, recorded after each one. */
  method BuildCdf(areas: seq<real>) returns (cdf: seq<real>, total: real)
    ensures cdf == Cdf(areas)
    ensures total == TotalArea(areas)
  {
    var table := new real[|areas|];
    total := 0.0;
    var i := 0;
    while i < |areas|
      invariant 0 <= i <= |areas|
      invariant total == Sum(areas[..i])
      invariant forall k :: 0 <= k < i ==> table[k] == Sum(areas[..k + 1])
    {
      assert areas[..i + 1][..i] == areas[..i];
      total := total + areas[i];
      table[i] := total;
      i := i + 1;
    }
    assert areas[..|areas|] == areas;
    cdf := table[..];
  }

  lemma {:induction false} SumNonNegative(s: seq<real>)
    requires AllNonNegative(s)
    ensures Sum(s) >= 0.0
    decreases |s|
  {
    if |s| > 0 {
      SumNonNegative(s[..|s| - 1]);
    }
  }

  /** With non-negative summands, a prefix never sums to more than the whole. */
  lemma {:induction false} SumPrefixAtMost(s: seq<real>, n: nat)
    requires AllNonNegative(s)
    requires n <= |s|
    ensures Sum(s[..n]) <= Sum(s)
    decreases |s|
  {
    if n == |s| {
      assert s[..n] == s;
    } else {
      var init := s[..|s| - 1];
      assert init[..n] == s[..n];
      SumPrefixAtMost(init, n);
    }
  }

  /** Triangle areas are non-negative, so the cumulative table never decreases. */
  lemma CdfNonDecreasing(areas: seq<real>)
    requires AllNonNegative(areas)
    ensures NonDecreasing(Cdf(areas))
  {
    var cdf := Cdf(areas);
    forall i, j | 0 <= i <= j < |cdf|
      ensures cdf[i] <= cdf[j]
    {
      var upto := areas[..j + 1];
      assert upto[..i + 1] == areas[..i + 1];
      SumPrefixAtMost(upto, i + 1);
    }
  }

  /** Each triangle's area is recovered as the step of the table at its index. */
  lemma CdfStep(areas: seq<real>, i: nat)
    requires i < |areas|
    ensures i == 0 ==> Cdf(areas)[i] == areas[0]
    ensures i > 0 ==> Cdf(areas)[i] == Cdf(areas)[i - 1] + areas[i]
  {
    var upto := areas[..i + 1];
    assert upto[..i] == areas[..i];
    assert Sum(upto) == Sum(areas[..i]) + areas[i];
  }
}
