/** Vectors, quaternions and scalar interpolation used by the keyframe
    animation core, over the reals (the renderer uses f32). */
module Linalg {

  /** A 3-component vector (translation or scaling of a keyframe). */
  datatype Vector = Vector(x: real, y: real, z: real)

  /** A quaternion: vector part and scalar part. */
  datatype Quaternion = Quaternion(v: Vector, w: real)

  /** The 4-dimensional dot product of two quaternions. */
  function Dot(a: Quaternion, b: Quaternion): real
  {
    a.v.x * b.v.x + a.v.y * b.v.y + a.v.z * b.v.z + a.w * b.w
  }

  /** Unary minus on a quaternion: every component negated. The same rotation. */
  function Negate(q: Quaternion): (r: Quaternion)
    ensures forall p :: Dot(p, r) == -Dot(p, q)
  {
    Quaternion(Vector(-q.v.x, -q.v.y, -q.v.z), -q.w)
  }

  /** Linear interpolation between `a` (at t = 0) and `b` (at t = 1). */
  function Lerp(t: real, a: real, b: real): (r: real)
    ensures t == 0.0 ==> r == a
    ensures t == 1.0 ==> r == b
  {
    a * (1.0 - t) + b * t
  }

  /** Interpolating between a <= b with a weight in [0, 1] stays within [a, b],
      and a larger weight never gives an earlier value. */
  lemma LerpMonotone(s: real, t: real, a: real, b: real)
    requires 0.0 <= s <= t <= 1.0 && a <= b
    ensures a <= Lerp(s, a, b) <= Lerp(t, a, b) <= b
  {
    LerpDifference(0.0, s, a, b);
    LerpDifference(s, t, a, b);
    LerpDifference(t, 1.0, a, b);
  }

  /** Moving the weight forward by a non-negative step never moves the
      interpolated value back. */
  lemma LerpDifference(s: real, t: real, a: real, b: real)
    requires s <= t && a <= b
    ensures Lerp(s, a, b) <= Lerp(t, a, b)
  {
    assert Lerp(t, a, b) - Lerp(s, a, b) == (b - a) * (t - s);
    NonNegativeProduct(b - a, t - s);
  }

  /** Solver hint for LerpDifference: a product of non-negative reals is non-negative. */
  lemma NonNegativeProduct(x: real, y: real)
    requires 0.0 <= x && 0.0 <= y
    ensures 0.0 <= x * y
  {
  }

  /** A 4x4 affine transformation with its inverse; its arithmetic is not
      part of this model, so the type is left abstract. */
  type Transform(!new)
}
