/** Three-component vectors and the axis-aligned bounding box of an exported model, in exact arithmetic. */
module Geometry {

  datatype Vec3 = Vec3(x: real, y: real, z: real)

  const Zero := Vec3(0.0, 0.0, 0.0)
  const Ones := Vec3(1.0, 1.0, 1.0)

  /** `UrhoBoundingBox`: the smallest and largest corner. */
  datatype BoundingBox = BoundingBox(min: Vec3, max: Vec3)
}
