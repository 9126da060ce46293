/** Value types shared by the sampler, the renderer and the dispatch planner. */
module Geometry {

  /** A reference that may be null. */
  datatype Option<+T> = None | Some(value: T)

  /** A Unity `Vector3`. Components are exact reals: single-precision rounding is not modelled. */
  datatype Vec3 = Vec3(x: real, y: real, z: real)

  function Add(a: Vec3, b: Vec3): Vec3
  {
    Vec3(a.x + b.x, a.y + b.y, a.z + b.z)
  }

  function Sub(a: Vec3, b: Vec3): Vec3
  {
    Vec3(a.x - b.x, a.y - b.y, a.z - b.z)
  }

  function Scale(k: real, a: Vec3): Vec3
  {
    Vec3(k * a.x, k * a.y, k * a.z)
  }

  /** `Vector3.up`. */
  const Up: Vec3 := Vec3(0.0, 1.0, 0.0)

  /** The baked `PointCloudData` asset: two arrays that nothing forces to the same length. */
  datatype PointCloudData = PointCloudData(positions: seq<Vec3>, normals: seq<Vec3>)
}
