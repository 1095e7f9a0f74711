/** Three-component world vectors and the squared-distance arithmetic the
    agent uses for every threshold test. Unity's `Vector3` works on 32-bit
    floats; here components are exact reals. */
module Geometry {

  datatype Vec3 = Vec3(x: real, y: real, z: real)

  function Add(a: Vec3, b: Vec3): Vec3
  {
    Vec3(a.x + b.x, a.y + b.y, a.z + b.z)
  }

  function Sub(a: Vec3, b: Vec3): Vec3
  {
    Vec3(a.x - b.x, a.y - b.y, a.z - b.z)
  }

  /** `Vector3.SqrMagnitude`. */
  function SqrMagnitude(v: Vec3): (r: real)
    ensures r >= 0.0
  {
    SquareNonNegative(v.x);
    SquareNonNegative(v.y);
    SquareNonNegative(v.z);
    v.x * v.x + v.y * v.y + v.z * v.z
  }

  /** Squared distance between two points; the comparison `Distance(a, b) <=
      Distance(a, c)` of the source is `SqrDistance(a, b) <= SqrDistance(a, c)`
      because the square root is monotone on non-negative reals. */
  function SqrDistance(a: Vec3, b: Vec3): real
  {
    SqrMagnitude(Sub(a, b))
  }

  lemma SquareNonNegative(t: real)
    ensures t * t >= 0.0
  {
  }

  /** The source measures the same distance as `a - b` in one place and as
      `b - a` in another; both give the same value. */
  lemma SqrDistanceSymmetric(a: Vec3, b: Vec3)
    ensures SqrDistance(a, b) == SqrDistance(b, a)
  {
  }

  /** A component bounded by `b` in absolute value has a square of at most b^2. */
  lemma SquareBound(t: real, b: real)
    requires -b <= t <= b
    ensures t * t <= b * b
  {
  }

  /** Triangle-style bound on squared distances: going from `p` to `c` via `b`
      costs at most twice the sum of the two squared legs. */
  lemma SqrDistanceViaBound(p: Vec3, b: Vec3, c: Vec3)
    ensures SqrDistance(p, c) <= 2.0 * SqrDistance(p, b) + 2.0 * SqrDistance(b, c)
  {
    var v, u, w := Sub(p, c), Sub(p, b), Sub(b, c);
    assert SqrDistance(p, c) == v.x * v.x + v.y * v.y + v.z * v.z;
    assert SqrDistance(p, b) == u.x * u.x + u.y * u.y + u.z * u.z;
    assert SqrDistance(b, c) == w.x * w.x + w.y * w.y + w.z * w.z;
    SumOfSquaresViaBound(v.x, v.y, v.z, u.x, u.y, u.z, w.x, w.y, w.z);
  }

  lemma SumOfSquaresViaBound(vx: real, vy: real, vz: real, ux: real, uy: real, uz: real,
                             wx: real, wy: real, wz: real)
    requires vx == ux + wx && vy == uy + wy && vz == uz + wz
    ensures vx * vx + vy * vy + vz * vz
            <= 2.0 * (ux * ux + uy * uy + uz * uz) + 2.0 * (wx * wx + wy * wy + wz * wz)
  {
  }
}
