/**
 * Three-component vectors as the ball controller builds them, and the
 * near-zero test the physics library applies before a force is used.
 */
module Vectors {

  /** A 3-D vector. Components are exact reals: the controller only ever
   *  adds or subtracts one configured speed, so no rounding arises. */
  datatype Vec3 = Vec3(x: real, y: real, z: real)

  /** The vector every force computation starts from. */
  const Zero: Vec3 := Vec3(0.0, 0.0, 0.0)

  /** The precision the physics library's near-zero test uses when it is
   *  called without an argument, as the controller calls it. */
  const Precision: real := 0.000001

  function Abs(r: real): real
  {
    if r < 0.0 then -r else r
  }

  /** A vector is almost zero when no component's magnitude exceeds `eps`. */
  predicate AlmostZero(v: Vec3, eps: real): (b: bool)
    ensures b <==> -eps <= v.x <= eps && -eps <= v.y <= eps && -eps <= v.z <= eps
    ensures b ==> 0.0 <= eps
  {
    Abs(v.x) <= eps && Abs(v.y) <= eps && Abs(v.z) <= eps
  }
}
