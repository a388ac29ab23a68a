/**
 * Exact-arithmetic stand-in for the host's vector library: three- and
 * two-component vectors over `real`, with the handful of operations the
 * painting tool uses (sum, difference, scaling, dot and cross products).
 * Square roots never appear: every place that normalizes a vector only
 * depends on signs or orderings, which positive scaling preserves.
 */
module Vectors {

  datatype Option<T> = None | Some(value: T)

  datatype Vec3 = Vec3(x: real, y: real, z: real)

  datatype Vec2 = Vec2(u: real, v: real)

  const Zero: Vec3 := Vec3(0.0, 0.0, 0.0)

  function Abs(r: real): real { if r < 0.0 then -r else r }

  function Add(a: Vec3, b: Vec3): Vec3 { Vec3(a.x + b.x, a.y + b.y, a.z + b.z) }

  function Sub(a: Vec3, b: Vec3): Vec3 { Vec3(a.x - b.x, a.y - b.y, a.z - b.z) }

  function Scale(a: Vec3, s: real): Vec3 { Vec3(a.x * s, a.y * s, a.z * s) }

  /** Component-wise division by a scalar (the library's `v /= n`). */
  function DivScalar(a: Vec3, s: real): Vec3
    requires s != 0.0
  {
    Vec3(a.x / s, a.y / s, a.z / s)
  }

  function Dot(a: Vec3, b: Vec3): real { a.x * b.x + a.y * b.y + a.z * b.z }

  /** Right-handed cross product, the library's `a.cross(b)`. */
  function Cross(a: Vec3, b: Vec3): Vec3
  {
    Vec3(a.y * b.z - a.z * b.y, a.z * b.x - a.x * b.z, a.x * b.y - a.y * b.x)
  }

  function SqLen(a: Vec3): real { Dot(a, a) }

  function SqDist(a: Vec3, b: Vec3): real { SqLen(Sub(a, b)) }

  predicate IsUnit(a: Vec3) { SqLen(a) == 1.0 }

  /** Two unit vectors at right angles: the shape of a paint frame's right and up axes. */
  predicate Orthonormal(r: Vec3, u: Vec3) { IsUnit(r) && IsUnit(u) && Dot(r, u) == 0.0 }

  lemma SqLenNonNegative(a: Vec3)
    ensures SqLen(a) >= 0.0
  {
    assert a.x * a.x >= 0.0 && a.y * a.y >= 0.0 && a.z * a.z >= 0.0;
  }

  lemma DotAddLeft(a: Vec3, b: Vec3, w: Vec3)
    ensures Dot(Add(a, b), w) == Dot(a, w) + Dot(b, w)
  {
  }

  lemma DotSubLeft(a: Vec3, b: Vec3, w: Vec3)
    ensures Dot(Sub(a, b), w) == Dot(a, w) - Dot(b, w)
  {
  }

  lemma DotScaleLeft(a: Vec3, s: real, w: Vec3)
    ensures Dot(Scale(a, s), w) == s * Dot(a, w)
  {
    calc {
      Dot(Scale(a, s), w);
      (a.x * s) * w.x + (a.y * s) * w.y + (a.z * s) * w.z;
      s * (a.x * w.x) + s * (a.y * w.y) + s * (a.z * w.z);
      s * Dot(a, w);
    }
  }

  /** Reversing either argument negates a dot product. */
  lemma DotNegate(a: Vec3, b: Vec3)
    ensures Dot(Scale(a, -1.0), b) == -Dot(a, b)
    ensures Dot(a, Scale(b, -1.0)) == -Dot(a, b)
    ensures Dot(Scale(a, -1.0), Scale(b, -1.0)) == Dot(a, b)
  {
  }

  lemma DotScaleRight(a: Vec3, b: Vec3, s: real)
    ensures Dot(a, Scale(b, s)) == s * Dot(a, b)
  {
    DotComm(a, Scale(b, s));
    DotScaleLeft(b, s, a);
    DotComm(b, a);
  }

  lemma DotComm(a: Vec3, b: Vec3)
    ensures Dot(a, b) == Dot(b, a)
  {
  }

  /**
   * For unit vectors the dot product never exceeds one, because
   * |a - b|^2 = 2 - 2 a.b is non-negative (the only form of the
   * Cauchy-Schwarz inequality the model needs).
   */
  lemma UnitDotAtMostOne(a: Vec3, b: Vec3)
    requires IsUnit(a) && IsUnit(b)
    ensures Dot(a, b) <= 1.0
  {
    var d := Sub(a, b);
    SqLenNonNegative(d);
    assert SqLen(d) == SqLen(a) - 2.0 * Dot(a, b) + SqLen(b);
  }

  lemma MulLeftMonotone(s: real, p: real, q: real)
    requires s > 0.0
    ensures p <= q ==> s * p <= s * q
    ensures p < q ==> s * p < s * q
  {
    if p <= q {
      assert s * q - s * p == s * (q - p);
    }
  }

  lemma AbsScale(c: real, s: real)
    requires s > 0.0
    ensures Abs(c * s) == s * Abs(c)
  {
    if c < 0.0 {
      MulLeftMonotone(s, c, 0.0);
      assert c * s < 0.0;
    } else {
      MulLeftMonotone(s, 0.0, c);
      assert c * s >= 0.0;
    }
  }

  /** Multiplying by s > 0 keeps the order of absolute values. */
  lemma AbsMono(cb: real, ca: real, s: real)
    requires s > 0.0
    ensures Abs(cb) <= Abs(ca) ==> Abs(cb * s) <= Abs(ca * s)
    ensures Abs(cb) < Abs(ca) ==> Abs(cb * s) < Abs(ca * s)
  {
    AbsScale(cb, s);
    AbsScale(ca, s);
    MulLeftMonotone(s, Abs(cb), Abs(ca));
  }
}
