/** Small exact 3- and 4-vectors over `real`, standing in for the
    `Vector3f`/`Vector4f` types of the vecmath library. */
module Vectors {

  datatype Vec3 = Vec3(x: real, y: real, z: real)

  /** A homogeneous 4-vector; `w` is the fourth component. */
  datatype Vec4 = Vec4(x: real, y: real, z: real, w: real)

  const Zero3: Vec3 := Vec3(0.0, 0.0, 0.0)

  function Add(a: Vec3, b: Vec3): Vec3 {
    Vec3(a.x + b.x, a.y + b.y, a.z + b.z)
  }

  function Sub(a: Vec3, b: Vec3): Vec3 {
    Vec3(a.x - b.x, a.y - b.y, a.z - b.z)
  }

  function Scale(a: Vec3, c: real): Vec3 {
    Vec3(c * a.x, c * a.y, c * a.z)
  }

  function Dot(a: Vec3, b: Vec3): real {
    a.x * b.x + a.y * b.y + a.z * b.z
  }

  /** The right-handed cross product `Vector3f::cross(a, b)`. */
  function Cross(a: Vec3, b: Vec3): Vec3 {
    Vec3(a.y * b.z - a.z * b.y, a.z * b.x - a.x * b.z, a.x * b.y - a.y * b.x)
  }

  /** `v.normalized()`: `v` scaled by its reciprocal length. The square root is
      not modelled; `invLength` supplies the factor and stays uninterpreted. */
  function Normalize(v: Vec3, invLength: Vec3 -> real): Vec3 {
    Scale(v, invLength(v))
  }

  /** `Vector4f(v, w)`. */
  function Extend(v: Vec3, w: real): Vec4 {
    Vec4(v.x, v.y, v.z, w)
  }

  /** `v.xyz()`: drops the homogeneous component. */
  function Xyz(v: Vec4): Vec3 {
    Vec3(v.x, v.y, v.z)
  }

  /** A scaled cross product is orthogonal to both of its factors. */
  lemma ScaledCrossOrthogonal(a: Vec3, b: Vec3, c: real)
    ensures Dot(Scale(Cross(a, b), c), a) == 0.0
    ensures Dot(Scale(Cross(a, b), c), b) == 0.0
  {
    var k := Cross(a, b);
    assert Dot(k, a) == 0.0;
    assert Dot(k, b) == 0.0;
    assert Dot(Scale(k, c), a) == c * Dot(k, a);
    assert Dot(Scale(k, c), b) == c * Dot(k, b);
  }
}
