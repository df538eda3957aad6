/** Optional values: a JavaScript `undefined`/`null` or a present value. */
module Optional {
  datatype Option<+T> = None | Some(value: T)
}

/** Facts about JavaScript arrays of objects. */
module Collections {
  /** No element occurs twice. */
  predicate Distinct<T(==)>(s: seq<T>)
  {
    forall i, j :: 0 <= i < j < |s| ==> s[i] != s[j]
  }
}

/**
 * The vector, box and scalar helpers of three.js that the gameplay code uses
 * (Vector3, Box3, MathUtils), over mathematical reals.
 *
 * Square roots are not computable over the reals, so vector lengths are
 * supplied from outside as a function `len: Vec3 -> real` (the engine's
 * `Math.sqrt` of the sum of squares).  Facts that need the length to be
 * Euclidean carry the hypothesis `IsLengthOf(n, v)` or `Euclidean(len)`.
 */
module Geometry {

  datatype Vec3 = Vec3(x: real, y: real, z: real)

  const Zero := Vec3(0.0, 0.0, 0.0)

  function Add(a: Vec3, b: Vec3): Vec3 { Vec3(a.x + b.x, a.y + b.y, a.z + b.z) }

  function Sub(a: Vec3, b: Vec3): Vec3 { Vec3(a.x - b.x, a.y - b.y, a.z - b.z) }

  function Scale(a: Vec3, k: real): Vec3 { Vec3(a.x * k, a.y * k, a.z * k) }

  function Dot(a: Vec3, b: Vec3): real { a.x * b.x + a.y * b.y + a.z * b.z }

  /** Vector3.crossVectors(a, b). */
  function Cross(a: Vec3, b: Vec3): Vec3
  {
    Vec3(a.y * b.z - a.z * b.y, a.z * b.x - a.x * b.z, a.x * b.y - a.y * b.x)
  }

  /** The horizontal part of `v`: its y set to 0. */
  function Flat(v: Vec3): Vec3 { v.(y := 0.0) }

  /** Vector3.lerp: each component moves the fraction `t` of the way to `b`. */
  function Lerp(a: Vec3, b: Vec3, t: real): Vec3
  {
    Vec3(a.x + (b.x - a.x) * t, a.y + (b.y - a.y) * t, a.z + (b.z - a.z) * t)
  }

  /** `n` is the Euclidean length of `v`. */
  predicate IsLengthOf(n: real, v: Vec3) { n >= 0.0 && n * n == Dot(v, v) }

  /**
   * The supplied length function agrees with the Euclidean length everywhere
   * and, like it, vanishes exactly on the zero vector.
   */
  ghost predicate Euclidean(len: Vec3 -> real)
  {
    forall v :: IsLengthOf(len(v), v) && (len(v) == 0.0 <==> v == Zero)
  }

  /**
   * Vector3.normalize: divide by the length, or by 1 when the length is 0
   * (`divideScalar(this.length() || 1)`), so a zero vector stays zero.
   */
  function Normalize(v: Vec3, n: real): (r: Vec3)
    ensures n == 0.0 ==> r == v
    ensures n != 0.0 ==> r == Scale(v, 1.0 / n)
  {
    Scale(v, 1.0 / if n == 0.0 then 1.0 else n)
  }

  /** Normalising a vector of positive length `n` by `n` gives a unit vector. */
  lemma NormalizeUnit(v: Vec3, n: real)
    requires IsLengthOf(n, v) && n > 0.0
    ensures IsLengthOf(1.0, Normalize(v, n))
  {
    ScaleLength(v, n, 1.0 / n);
    DivMul(1.0, n, n);
    LengthOfEqual(1.0 / n * n, 1.0, Scale(v, 1.0 / n));
  }

  /**
   * `v.clone().normalize()` with the engine's length: a unit vector when the
   * length is positive, `v` itself (the zero vector, for a Euclidean length)
   * when it is zero.
   */
  function Direction(v: Vec3, len: Vec3 -> real): (r: Vec3)
    ensures len(v) == 0.0 ==> r == v
    ensures IsLengthOf(len(v), v) && len(v) > 0.0 ==> IsLengthOf(1.0, r)
  {
    if IsLengthOf(len(v), v) && len(v) > 0.0 then
      NormalizeUnit(v, len(v));
      Normalize(v, len(v))
    else
      Normalize(v, len(v))
  }


  lemma ScaleLength(v: Vec3, n: real, k: real)
    requires IsLengthOf(n, v) && k >= 0.0
    ensures IsLengthOf(k * n, Scale(v, k))
  {
    var s := Scale(v, k);
    assert Dot(s, s) == k * k * Dot(v, v) by {
      assert s.x * s.x == k * k * (v.x * v.x);
      assert s.y * s.y == k * k * (v.y * v.y);
      assert s.z * s.z == k * k * (v.z * v.z);
    }
    assert (k * n) * (k * n) == k * k * (n * n);
    assert k * n >= 0.0;
  }

  /** Scaling a vector of positive length `n` by `w / n` gives it length `w`. */
  lemma ScaleToLength(v: Vec3, n: real, w: real)
    requires IsLengthOf(n, v) && n > 0.0 && w >= 0.0
    ensures w / n >= 0.0 && IsLengthOf(w, Scale(v, w / n))
  {
    ScaleLength(v, n, w / n);
    DivMul(1.0, w, n);
    LengthOfEqual(w / n * n, w, Scale(v, w / n));
  }

  /** Rewrites the length in an `IsLengthOf` fact by an equal value. */
  lemma LengthOfEqual(n: real, m: real, v: Vec3)
    requires IsLengthOf(n, v) && n == m
    ensures IsLengthOf(m, v)
  {
  }

  /**
   * A distance test `|v| < r` (three.js `distanceTo(..) < r`) agrees with the
   * test on squared lengths when `n` is the Euclidean length of `v`.
   */
  lemma {:induction false} WithinRadius(v: Vec3, n: real, r: real)
    requires IsLengthOf(n, v) && r > 0.0
    ensures n < r <==> Dot(v, v) < r * r
  {
    assert Dot(v, v) == n * n;
    var s := r + n;
    if n < r {
      var d := r - n;
      MulPositive(d, s);
      assert d * s == r * r - n * n;
    } else {
      var d := n - r;
      MulNonnegative(d, s);
      assert d * s == n * n - r * r;
    }
  }

  lemma MulPositive(a: real, b: real)
    requires a > 0.0 && b > 0.0
    ensures a * b > 0.0
  {
  }

  lemma MulNonnegative(a: real, b: real)
    requires a >= 0.0 && b >= 0.0
    ensures a * b >= 0.0
  {
  }

  lemma DivSelf(a: real)
    requires a != 0.0
    ensures a / a == 1.0
  {
  }

  lemma DivMul(a: real, b: real, d: real)
    requires d != 0.0
    ensures a / d * b == a * (b / d)
    ensures b / d * d == b
  {
  }

  lemma DivNonnegative(a: real, d: real)
    requires a >= 0.0 && d > 0.0
    ensures a / d >= 0.0
  {
  }

  lemma MulNonzero(a: real, b: real)
    requires a != 0.0 && b != 0.0
    ensures a * b != 0.0
  {
  }

  /** Math.min / Math.max over reals. */
  function Min(a: real, b: real): real { if a < b then a else b }

  /** Math.abs. */
  function Abs(a: real): real { if a < 0.0 then -a else a }

  function Max(a: real, b: real): real { if a > b then a else b }

  /** MathUtils.clamp(value, lo, hi) = Math.max(lo, Math.min(hi, value)). */
  function Clamp(value: real, lo: real, hi: real): (r: real)
    ensures lo <= hi ==> lo <= r <= hi
    ensures lo <= value <= hi ==> r == value
    ensures value <= lo ==> r == lo
    ensures lo <= hi <= value ==> r == hi
  {
    Max(lo, Min(hi, value))
  }

  /** MathUtils.mapLinear: the affine map sending [a1, a2] onto [b1, b2]. */
  function MapLinear(x: real, a1: real, a2: real, b1: real, b2: real): (r: real)
    requires a1 != a2
    ensures x == a1 ==> r == b1
    ensures x == a2 ==> r == b2
    ensures a1 < a2 && a1 <= x <= a2 && b1 <= b2 ==> b1 <= r <= b2
  {
    var t := (x - a1) / (a2 - a1);
    if a1 < a2 && a1 <= x <= a2 && b1 <= b2 then
      assert 0.0 <= t <= 1.0 by {
        assert x - a1 <= a2 - a1;
      }
      UnitFraction(t, b2 - b1);
      assert (x - a1) * (b2 - b1) / (a2 - a1) == t * (b2 - b1);
      b1 + (x - a1) * (b2 - b1) / (a2 - a1)
    else
      b1 + (x - a1) * (b2 - b1) / (a2 - a1)
  }

  lemma UnitFraction(t: real, w: real)
    requires 0.0 <= t <= 1.0 && w >= 0.0
    ensures 0.0 <= t * w <= w
  {
    assert w - t * w == (1.0 - t) * w;
  }

  /** MathUtils.lerp(x, y, t) = (1 - t) * x + t * y. */
  function LerpScalar(x: real, y: real, t: real): real { (1.0 - t) * x + t * y }

  /** An axis-aligned box (three.js Box3) in world coordinates. */
  datatype Box = Box(min: Vec3, max: Vec3)

  /** Box3.intersectsBox: the boxes overlap or touch on every axis. */
  predicate Intersects(a: Box, b: Box)
  {
    && b.max.x >= a.min.x && b.min.x <= a.max.x
    && b.max.y >= a.min.y && b.min.y <= a.max.y
    && b.max.z >= a.min.z && b.min.z <= a.max.z
  }
}
