/** Vectors, colours and axis-aligned boxes over real coordinates.
    The source uses glm::vec3 of 32-bit floats for points, directions and colours;
    here coordinates are exact reals and the transcendental helpers
    (sqrt, normalize, acos, pow) are left abstract in a Numerics record. */
module Geometry {

  datatype Vec3 = Vec3(x: real, y: real, z: real)

  const Zero := Vec3(0.0, 0.0, 0.0)
  const One := Vec3(1.0, 1.0, 1.0)

  function Add(a: Vec3, b: Vec3): Vec3 { Vec3(a.x + b.x, a.y + b.y, a.z + b.z) }

  lemma AddZero(v: Vec3)
    ensures Add(v, Zero) == v
  {
  }

  function Sub(a: Vec3, b: Vec3): Vec3 { Vec3(a.x - b.x, a.y - b.y, a.z - b.z) }
  function Neg(a: Vec3): Vec3 { Vec3(-a.x, -a.y, -a.z) }
  function Scale(k: real, a: Vec3): Vec3 { Vec3(k * a.x, k * a.y, k * a.z) }
  /** Componentwise product, glm's `*` on two vectors. */
  function Mul(a: Vec3, b: Vec3): Vec3 { Vec3(a.x * b.x, a.y * b.y, a.z * b.z) }
  function Dot(a: Vec3, b: Vec3): real { a.x * b.x + a.y * b.y + a.z * b.z }
  function Cross(a: Vec3, b: Vec3): Vec3 {
    Vec3(a.y * b.z - a.z * b.y, a.z * b.x - a.x * b.z, a.x * b.y - a.y * b.x)
  }

  function Min(a: real, b: real): real { if b < a then b else a }
  function Abs(a: real): real { if a < 0.0 then -a else a }
  function Max(a: real, b: real): real { if a < b then b else a }
  function MinV(a: Vec3, b: Vec3): Vec3 { Vec3(Min(a.x, b.x), Min(a.y, b.y), Min(a.z, b.z)) }
  function MaxV(a: Vec3, b: Vec3): Vec3 { Vec3(Max(a.x, b.x), Max(a.y, b.y), Max(a.z, b.z)) }

  /** Coordinate `axis` (0 = x, 1 = y, 2 = z), glm's `v[axis]`. */
  function At(v: Vec3, axis: nat): real
    requires axis < 3
  {
    if axis == 0 then v.x else if axis == 1 then v.y else v.z
  }

  /** Componentwise a <= b. */
  predicate LessEq(a: Vec3, b: Vec3) { a.x <= b.x && a.y <= b.y && a.z <= b.z }

  /** Every channel in [0, 1]. */
  predicate InUnit(c: Vec3) { LessEq(Zero, c) && LessEq(c, One) }

  /** glm::clamp(x, 0, 1) on one channel: min(max(x, 0), 1). */
  function Clamp(x: real): (r: real)
    ensures 0.0 <= r <= 1.0
    ensures 0.0 <= x <= 1.0 ==> r == x
    ensures x < 0.0 ==> r == 0.0
    ensures 1.0 < x ==> r == 1.0
  {
    Min(Max(x, 0.0), 1.0)
  }

  /** glm::clamp(v, 0.0f, 1.0f): every channel clamped to [0, 1]. */
  function Clamp01(v: Vec3): (r: Vec3)
    ensures InUnit(r)
    ensures InUnit(v) ==> r == v
  {
    Vec3(Clamp(v.x), Clamp(v.y), Clamp(v.z))
  }

  /** An axis-aligned box given by its minimum and maximum corners. */
  datatype Box = Box(lo: Vec3, hi: Vec3)

  predicate ContainsBox(outer: Box, inner: Box) {
    LessEq(outer.lo, inner.lo) && LessEq(inner.hi, outer.hi)
  }

  predicate ContainsPoint(b: Box, p: Vec3) {
    LessEq(b.lo, p) && LessEq(p, b.hi)
  }

  /** The floating-point helpers the source takes from <cmath> and glm, kept abstract. */
  datatype Numerics = Numerics(
    sqrt: real -> real,
    normalize: Vec3 -> Vec3,
    acos: real -> real,
    pow: (real, real) -> real)

  /** glm::length(v) = sqrt(v . v). */
  function Length(nm: Numerics, v: Vec3): real { nm.sqrt(Dot(v, v)) }
}
