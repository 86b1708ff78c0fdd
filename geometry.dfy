/**
 * Landmark positions as exact 3-vectors. The step only ever adds, subtracts
 * and scales positions; normalising a vector (a square root) is left to the
 * caller, who passes the unit vector in.
 */
module Geometry {

  datatype Vec3 = Vec3(x: real, y: real, z: real)

  function Add(a: Vec3, b: Vec3): Vec3 {
    Vec3(a.x + b.x, a.y + b.y, a.z + b.z)
  }

  function Sub(a: Vec3, b: Vec3): Vec3 {
    Vec3(a.x - b.x, a.y - b.y, a.z - b.z)
  }

  function Scale(k: real, v: Vec3): Vec3 {
    Vec3(k * v.x, k * v.y, k * v.z)
  }

  /** Moving one point by -d and another by +d keeps their sum, hence their midpoint. */
  lemma OppositeMovesKeepSum(a: Vec3, b: Vec3, d: Vec3)
    ensures Add(Sub(a, d), Add(b, d)) == Add(a, b)
  {
  }

  /**
   * If a - b lies along u at distance len, moving a by -k*u and b by +k*u
   * leaves a - b along u at distance len - 2k.
   */
  lemma OppositeMovesAlongDirection(a: Vec3, b: Vec3, u: Vec3, len: real, k: real)
    requires Sub(a, b) == Scale(len, u)
    ensures Sub(Sub(a, Scale(k, u)), Add(b, Scale(k, u))) == Scale(len - 2.0 * k, u)
  {
  }
}
