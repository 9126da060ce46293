/** The offline bake: area-weighted random points on a mesh's surface, saved as a `PointCloudData` asset. */
module Sampler {
  import opened Geometry
  import opened AreaCdf
  import opened TriangleSearch
  import opened Barycentric
  import opened AssetNaming

  /** Points per unit of surface area. */
  const Density: real := 300.0

  /** A Unity mesh: vertex positions, a flat list of triangle corner indices, and per-vertex normals
      (an empty list when the mesh has none). */
  datatype Mesh = Mesh(name: string, vertices: seq<Vec3>, triangles: seq<int>, normals: seq<Vec3>)

  /** A `Random.value` draw. */
  type UnitReal = r: real | 0.0 <= r <= 1.0

  /** `tris.Length / 3`: an incomplete trailing triple of indices is ignored. */
  function TriangleCount(m: Mesh): (n: nat)
    ensures 3 * n <= |m.triangles| < 3 * n + 3
  {
    |m.triangles| / 3
  }

  /** Every corner index the sampler reads names a vertex (Unity rejects meshes where one does not). */
  predicate ValidIndices(m: Mesh)
  {
    forall k :: 0 <= k < 3 * TriangleCount(m) ==> 0 <= m.triangles[k] < |m.vertices|
  }

  /** Corner `k` of triangle `t`: `verts[tris[t*3 + k]]`. */
  function Corner(m: Mesh, t: nat, k: nat): Vec3
    requires ValidIndices(m) && t < TriangleCount(m) && k < 3
  {
    m.vertices[m.triangles[3 * t + k]]
  }

  /** Area of every complete triangle, in order; `area` stands for half the cross-product magnitude. */
  function TriangleAreas(m: Mesh, area: (Vec3, Vec3, Vec3) -> NonNegReal): (areas: seq<real>)
    requires ValidIndices(m)
    ensures |areas| == TriangleCount(m)
    ensures AllNonNegative(areas)
  {
    var areas := seq(TriangleCount(m), t requires 0 <= t < TriangleCount(m) =>
                       area(Corner(m, t, 0), Corner(m, t, 1), Corner(m, t, 2)) as real);
    assert forall i :: 0 <= i < |areas| ==> areas[i] == area(Corner(m, i, 0), Corner(m, i, 1), Corner(m, i, 2)) as real;
    areas
  }

  /** `mesh.normals` when it has one normal per vertex, otherwise null. */
  function VertexNormals(m: Mesh): Option<seq<Vec3>>
  {
    if |m.normals| == |m.vertices| then Some(m.normals) else None
  }

  /** The normal stored with a sample on triangle `t`: the normalized sum of the corners' normals,
      or `Vector3.up` when the mesh's normals are unusable. `normalize` stands for `.normalized`. */
  function SampleNormal(m: Mesh, t: nat, normalize: Vec3 -> Vec3): (n: Vec3)
    requires ValidIndices(m) && t < TriangleCount(m)
    ensures |m.normals| != |m.vertices| ==> n == Up
    ensures |m.normals| == |m.vertices| ==>
              n == normalize(Add(Add(m.normals[m.triangles[3 * t]], m.normals[m.triangles[3 * t + 1]]),
                                 m.normals[m.triangles[3 * t + 2]]))
  {
    match VertexNormals(m)
    case None => Up
    case Some(ns) =>
      normalize(Add(Add(ns[m.triangles[3 * t]], ns[m.triangles[3 * t + 1]]), ns[m.triangles[3 * t + 2]]))
  }

  /** `Mathf.CeilToInt` on an exact real: the least integer not below `x`. */
  function Ceil(x: real): (n: int)
    ensures (n - 1) as real < x <= n as real
  {
    -((-x).Floor)
  }

  /** `Mathf.CeilToInt(totalArea * DENSITY)`: the fewest samples giving at least `Density` per unit area. */
  function TargetCount(totalArea: real): (n: nat)
    requires totalArea >= 0.0
    ensures (n - 1) as real < totalArea * Density <= n as real
    ensures n == 0 <==> totalArea == 0.0
  {
    Ceil(totalArea * Density)
  }

  /** `Random.value * totalArea`: a point of `[0, totalArea]`, below `totalArea` unless the draw is 1. */
  function ScaledDraw(draw: UnitReal, totalArea: real): (r: real)
    ensures totalArea >= 0.0 ==> 0.0 <= r <= totalArea
    ensures draw < 1.0 && totalArea > 0.0 ==> r < totalArea
  {
    assert totalArea - draw * totalArea == (1.0 - draw) * totalArea;
    draw * totalArea
  }

  /** The random choices behind one sample: its triangle and its folded barycentric coordinates. */
  datatype Choice = Choice(triangle: nat, coords: Coords)

  /** The choices for sample `p` as the bake is meant to make them from draws `3p` (triangle), `3p+1` (u)
      and `3p+2` (v): the triangle by inverse-CDF lookup of `draw * totalArea`, the point by folding. */
  function ChoiceAt(m: Mesh, areas: seq<real>, random: nat -> UnitReal, p: nat): (c: Choice)
    requires |areas| == TriangleCount(m) > 0
    ensures c.triangle < TriangleCount(m)
  {
    Choice(InverseCdf(Cdf(areas), ScaledDraw(random(3 * p), TotalArea(areas))), Fold(random(3 * p + 1), random(3 * p + 2)))
  }

  /** `v0 + u*(v1 - v0) + v*(v2 - v0)` on the chosen triangle. */
  function PositionOf(m: Mesh, c: Choice): Vec3
    requires ValidIndices(m) && c.triangle < TriangleCount(m)
  {
    Interpolate(Corner(m, c.triangle, 0), Corner(m, c.triangle, 1), Corner(m, c.triangle, 2), c.coords)
  }

  /** Every sample lies on a triangle of the mesh, at barycentric weights that are all in [0, 1]. */
  lemma SampleOnSurface(m: Mesh, areas: seq<real>, random: nat -> UnitReal, p: nat)
    requires ValidIndices(m) && |areas| == TriangleCount(m) > 0
    ensures var c := ChoiceAt(m, areas, random, p);
            && InUnitTriangle(c.coords)
            && InUnitInterval(1.0 - c.coords.u - c.coords.v)
            && PositionOf(m, c) == Combine(1.0 - c.coords.u - c.coords.v, Corner(m, c.triangle, 0),
                                           c.coords.u, Corner(m, c.triangle, 1),
                                           c.coords.v, Corner(m, c.triangle, 2))
  {
    var c := ChoiceAt(m, areas, random, p);
    InterpolateIsCombination(Corner(m, c.triangle, 0), Corner(m, c.triangle, 1), Corner(m, c.triangle, 2), c.coords);
    InterpolateWeightsInUnit(c.coords);
  }

  /** Unless its triangle draw is exactly 1, a sample's triangle has positive area, and the scaled draw
      fell in the slice of the cumulative table that belongs to that triangle. */
  lemma SampleTriangleHasArea(m: Mesh, areas: seq<real>, random: nat -> UnitReal, p: nat)
    requires |areas| == TriangleCount(m) > 0
    requires AllNonNegative(areas)
    requires random(3 * p) < 1.0
    ensures var t := ChoiceAt(m, areas, random, p).triangle;
            var r := ScaledDraw(random(3 * p), TotalArea(areas));
            TotalArea(areas) > 0.0 ==>
              && areas[t] > 0.0
              && (t == 0 || Cdf(areas)[t - 1] <= r)
              && r < Cdf(areas)[t]
  {
    var total := TotalArea(areas);
    var r := ScaledDraw(random(3 * p), total);
    if total > 0.0 {
      var t := ChoiceAt(m, areas, random, p).triangle;
      InverseCdfInterval(areas, r, t);
    }
  }

  /** What a bake produces: the asset, the path it is saved under, and the sample count. */
  datatype BakeResult = BakeResult(asset: PointCloudData, path: string, count: nat)

  /** The bake of mesh `m`: `ceil(totalArea * Density)` samples, each at the `ChoiceAt` of its index,
      positions and normals of equal length, saved under the mesh's asset path. */
  ghost predicate BakedFrom(m: Mesh, area: (Vec3, Vec3, Vec3) -> NonNegReal, normalize: Vec3 -> Vec3,
                            random: nat -> UnitReal, b: BakeResult)
    requires ValidIndices(m)
  {
    var areas := TriangleAreas(m, area);
    && b.count == TargetCount(TotalArea(areas))
    && |b.asset.positions| == b.count
    && |b.asset.normals| == b.count
    && b.path == AssetPath(m.name)
    && (b.count > 0 ==> TriangleCount(m) > 0)
    && forall p :: 0 <= p < b.count ==>
         && |areas| > 0
         && b.asset.positions[p] == PositionOf(m, ChoiceAt(m, areas, random, p))
         && b.asset.normals[p] == SampleNormal(m, ChoiceAt(m, areas, random, p).triangle, normalize)
  }

  /** `Bake`: no result when there is no mesh; otherwise the area table, the sample loop with its
      binary search, and the asset path. File-system and asset-database calls are left out. */
  method Bake(mesh: Option<Mesh>, area: (Vec3, Vec3, Vec3) -> NonNegReal, normalize: Vec3 -> Vec3,
              random: nat -> UnitReal) returns (result: Option<BakeResult>)
    requires mesh.Some? ==> ValidIndices(mesh.value)
    ensures mesh.None? <==> result.None?
    ensures mesh.Some? ==> result.Some? && BakedFrom(mesh.value, area, normalize, random, result.value)
    ensures mesh.Some? ==> result.Some? && result.value.path == AssetPath(mesh.value.name)
    ensures mesh.Some? && TriangleCount(mesh.value) == 0 ==> result.Some? && result.value.count == 0
  {
    if mesh.None? {
      return None;
    }
    var m := mesh.value;
    var areas := TriangleAreas(m, area);
    var cdf, total := BuildCdf(areas);
    var target := TargetCount(total);
    CdfNonDecreasing(areas);

    var positions: seq<Vec3> := [];
    var normals: seq<Vec3> := [];
    var p := 0;
    while p < target
      invariant 0 <= p <= target
      invariant |positions| == p && |normals| == p
      invariant p > 0 ==> TriangleCount(m) > 0
      invariant forall q :: 0 <= q < p ==>
                  && |areas| > 0
                  && positions[q] == PositionOf(m, ChoiceAt(m, areas, random, q))
                  && normals[q] == SampleNormal(m, ChoiceAt(m, areas, random, q).triangle, normalize)
    {
      assert |areas| > 0;
      var r := ScaledDraw(random(3 * p), total);
      var t := LowerBound(cdf, r);
      var w := Fold(random(3 * p + 1), random(3 * p + 2));
      var pos := Interpolate(Corner(m, t, 0), Corner(m, t, 1), Corner(m, t, 2), w);
      var n := SampleNormal(m, t, normalize);
      assert ChoiceAt(m, areas, random, p) == Choice(t, w);
      positions := positions + [pos];
      normals := normals + [n];
      p := p + 1;
    }
    result := Some(BakeResult(PointCloudData(positions, normals), AssetPath(m.name), target));
  }
}
