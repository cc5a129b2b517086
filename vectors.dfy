/** Integer 3-vectors, standing in for nalgebra's `Vector3` (every component the core uses is an integer). */
module Vectors {
  datatype Vec3 = Vec3(x: int, y: int, z: int) {
    function Add(o: Vec3): Vec3 {
      Vec3(x + o.x, y + o.y, z + o.z)
    }
  }
}
