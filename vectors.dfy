/** Value types shared by the particle records: a 3-vector of reals standing for the
    source's `CVector3` (only the two operators the simulation uses), and an RGBA colour. */
module Vectors {

  datatype Vector3 = Vector3(x: real, y: real, z: real)

  /** Componentwise sum (`operator+` on two vectors). */
  function Add(v: Vector3, w: Vector3): Vector3
  {
    Vector3(v.x + w.x, v.y + w.y, v.z + w.z)
  }

  /** Multiplication by a scalar (`operator*` and `operator*=` with a float). */
  function Scale(v: Vector3, s: real): Vector3
  {
    Vector3(v.x * s, v.y * s, v.z * s)
  }

  /** RGBA colour; `a` is the transparency that stars fade out. */
  datatype Colour = Colour(r: real, g: real, b: real, a: real)
}
