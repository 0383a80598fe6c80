/**
 The few host-engine value types and `Mathf` helpers the fence builder relies on,
 over unbounded reals: vectors, material handles, raycast hits, and the clamping,
 ceiling and interpolation functions the build loop calls.
 */
module Unity {

  /** A C# reference or query result that may be absent (`null`, a raycast miss). */
  datatype Option<T> = None | Some(value: T)

  datatype Vec2 = Vec2(x: real, y: real)

  datatype Vec3 = Vec3(x: real, y: real, z: real)

  /** An opaque material asset; only its identity matters to the builder. */
  datatype Material = Material(id: nat)

  /** What a successful raycast reports: the point hit and the surface normal there. */
  datatype Hit = Hit(point: Vec3, normal: Vec3)

  const Up: Vec3 := Vec3(0.0, 1.0, 0.0)

  /** `Mathf.Epsilon`, the smallest positive single-precision value. */
  const Epsilon: real := 0.000000000000000000000000000000000000000000001401298

  function Add(a: Vec3, b: Vec3): Vec3 {
    Vec3(a.x + b.x, a.y + b.y, a.z + b.z)
  }

  function Sub(a: Vec3, b: Vec3): Vec3 {
    Vec3(a.x - b.x, a.y - b.y, a.z - b.z)
  }

  function Scale(a: Vec3, k: real): Vec3 {
    Vec3(a.x * k, a.y * k, a.z * k)
  }

  function Max(a: real, b: real): (r: real)
    ensures r >= a && r >= b
    ensures r == a || r == b
  {
    if a >= b then a else b
  }

  function Abs(a: real): (r: real)
    ensures r >= 0.0
    ensures r == a || r == -a
  {
    if a < 0.0 then -a else a
  }

  /** `Mathf.Clamp01`. */
  function Clamp01(t: real): (r: real)
    ensures 0.0 <= r <= 1.0
    ensures 0.0 <= t <= 1.0 ==> r == t
    ensures t > 1.0 ==> r == 1.0
    ensures t < 0.0 ==> r == 0.0
  {
    if t < 0.0 then 0.0 else if t > 1.0 then 1.0 else t
  }

  /** `Vector3.Lerp`, which clamps its parameter into [0, 1] before interpolating. */
  function Lerp(a: Vec3, b: Vec3, t: real): Vec3 {
    Add(a, Scale(Sub(b, a), Clamp01(t)))
  }

  /** `Mathf.CeilToInt`: the least integer not below `x`. */
  function Ceil(x: real): (n: int)
    ensures x <= n as real < x + 1.0
  {
    -((-x).Floor)
  }

  /** `Mathf.Clamp` on integers: the lower bound is compared first, so an empty
      range `min > max` yields `min` for values below it and `max` otherwise. */
  function ClampInt(value: int, min: int, max: int): (r: int)
    ensures min <= max ==> min <= r <= max
    ensures min <= value <= max ==> r == value
    ensures value < min ==> r == min
    ensures value >= min && value > max ==> r == max
  {
    if value < min then min else if value > max then max else value
  }

  /** How many times `for (p = 0; p < bound; p++)` runs. */
  function LoopCount(bound: int): (n: nat)
    ensures bound >= 0 ==> n == bound
    ensures bound < 0 ==> n == 0
  {
    if bound < 0 then 0 else bound
  }

  lemma LerpEndpoints(a: Vec3, b: Vec3, t: real)
    ensures t <= 0.0 ==> Lerp(a, b, t) == a
    ensures t >= 1.0 ==> Lerp(a, b, t) == b
  {
  }

  /** Interpolating between two points shifted by the same offset is the shifted interpolation. */
  lemma LerpTranslate(a: Vec3, b: Vec3, p: Vec3, t: real)
    ensures Sub(Lerp(Add(a, p), Add(b, p), t), p) == Lerp(a, b, t)
  {
  }
}
