/** Three-dimensional points and vectors (Eigen's Vector3 / Point3), over the reals. */
module Vectors {

  datatype Vec3 = Vec3(x: real, y: real, z: real) {

    function Plus(v: Vec3): Vec3 {
      Vec3(x + v.x, y + v.y, z + v.z)
    }

    function Negated(): Vec3 {
      Vec3(-x, -y, -z)
    }

    function Times(k: real): Vec3 {
      Vec3(x * k, y * k, z * k)
    }
  }
}
