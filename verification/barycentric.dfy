/** Uniform points in a triangle: folding a random (u, v) into the unit triangle and interpolating. */
module Barycentric {
  import opened Geometry

  datatype Coords = Coords(u: real, v: real)

  predicate InUnitInterval(x: real)
  {
    0.0 <= x <= 1.0
  }

  /** The unit triangle `u >= 0, v >= 0, u + v <= 1`. */
  predicate InUnitTriangle(c: Coords)
  {
    0.0 <= c.u && 0.0 <= c.v && c.u + c.v <= 1.0
  }

  /** The fold applied to two draws: a point of the unit square above the diagonal `u + v = 1` is
      reflected through (1/2, 1/2) to a point strictly below it. */
  function Fold(u: real, v: real): (c: Coords)
    ensures InUnitInterval(u) && InUnitInterval(v) ==> InUnitTriangle(c)
    ensures u + v <= 1.0 ==> c == Coords(u, v)
    ensures u + v > 1.0 ==> c.u + c.v < 1.0 && c.u + u == 1.0 && c.v + v == 1.0
  {
    if u + v > 1.0 then Coords(1.0 - u, 1.0 - v) else Coords(u, v)
  }

  /** Folding a folded pair changes nothing. */
  lemma FoldIdempotent(u: real, v: real)
    ensures Fold(Fold(u, v).u, Fold(u, v).v) == Fold(u, v)
  {
  }

  /** Every point strictly below the diagonal has exactly two preimages in the unit square, one on each
      side, so a uniform square draw yields a uniform triangle point. */
  lemma FoldTwoToOne(c: Coords, u: real, v: real)
    requires InUnitTriangle(c) && c.u + c.v < 1.0
    requires InUnitInterval(u) && InUnitInterval(v)
    ensures Fold(u, v) == c <==> (u == c.u && v == c.v) || (u == 1.0 - c.u && v == 1.0 - c.v)
    ensures InUnitInterval(1.0 - c.u) && InUnitInterval(1.0 - c.v) && (1.0 - c.u) + (1.0 - c.v) > 1.0
  {
  }

  /** Weighted sum `wa*a + wb*b + wc*c`. */
  function Combine(wa: real, a: Vec3, wb: real, b: Vec3, wc: real, c: Vec3): Vec3
  {
    Add(Add(Scale(wa, a), Scale(wb, b)), Scale(wc, c))
  }

  /** `v0 + u*(v1 - v0) + v*(v2 - v0)`: the point with barycentric weights `(1-u-v, u, v)`. The corners
      of the unit triangle map to the triangle's corners. */
  function Interpolate(a: Vec3, b: Vec3, c: Vec3, w: Coords): (p: Vec3)
    ensures w == Coords(0.0, 0.0) ==> p == a
    ensures w == Coords(1.0, 0.0) ==> p == b
    ensures w == Coords(0.0, 1.0) ==> p == c
  {
    Add(Add(a, Scale(w.u, Sub(b, a))), Scale(w.v, Sub(c, a)))
  }

  /** The sampler's formula is the barycentric combination with weights `(1-u-v, u, v)`. */
  lemma InterpolateIsCombination(a: Vec3, b: Vec3, c: Vec3, w: Coords)
    ensures Interpolate(a, b, c, w) == Combine(1.0 - w.u - w.v, a, w.u, b, w.v, c)
  {
  }

  /** Inside the unit triangle all three weights lie in [0, 1] and sum to 1, so the point lies in the
      triangle. */
  lemma InterpolateWeightsInUnit(w: Coords)
    requires InUnitTriangle(w)
    ensures InUnitInterval(1.0 - w.u - w.v) && InUnitInterval(w.u) && InUnitInterval(w.v)
  {
  }
}
