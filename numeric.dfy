/** Scalar helpers shared by the canvas engines and the scroll handlers:
    linear interpolation, clamping, JavaScript's truncating remainder on
    numbers, and the clamped scroll-progress ratio. Numbers are reals. */
module Numeric {

  function Min(a: real, b: real): real { if a <= b then a else b }
  function Max(a: real, b: real): real { if a >= b then a else b }

  /** `lerp(a, b, t) = a + (b - a) * t` */
  function Lerp(a: real, b: real, t: real): (r: real)
    ensures t == 0.0 ==> r == a
    ensures t == 1.0 ==> r == b
  {
    a + (b - a) * t
  }

  /** For t in [0, 1] the interpolated value lies between the two ends. */
  lemma LerpBetween(a: real, b: real, t: real)
    requires 0.0 <= t <= 1.0
    ensures Min(a, b) <= Lerp(a, b, t) <= Max(a, b)
  {
    if a <= b {
      MulBetween(b - a, t);
    } else {
      MulBetween(a - b, t);
    }
  }

  lemma MulBetween(d: real, t: real)
    requires 0.0 <= d && 0.0 <= t <= 1.0
    ensures 0.0 <= d * t <= d
  {
    assert d - d * t == d * (1.0 - t);
  }

  /** `clamp(v, lo, hi) = Math.max(lo, Math.min(hi, v))` */
  function Clamp(v: real, lo: real, hi: real): (r: real)
    ensures lo <= hi ==> lo <= r <= hi
    ensures lo <= v <= hi ==> r == v
    ensures v < lo ==> r == lo
    ensures lo <= hi && hi < v ==> r == hi
  {
    Max(lo, Min(hi, v))
  }

  /** Truncation toward zero, as JavaScript's `%` uses for its quotient. */
  function Trunc(x: real): (r: int)
    ensures 0.0 <= x ==> 0 <= r && r as real <= x < r as real + 1.0
    ensures x < 0.0 ==> r <= 0 && r as real - 1.0 < x <= r as real
  {
    if x >= 0.0 then x.Floor else -((-x).Floor)
  }

  /** JavaScript's `a % b` on numbers: the remainder takes the sign of the dividend. */
  function JsRem(a: real, b: real): (r: real)
    requires b > 0.0
    ensures 0.0 <= a ==> 0.0 <= r < b
    ensures a < 0.0 ==> -b < r <= 0.0
  {
    QuotientBounds(a, b);
    a - b * Trunc(a / b) as real
  }

  /** The floored remainder: always in [0, b). */
  function FloorRem(a: real, b: real): (r: real)
    requires b > 0.0
    ensures 0.0 <= r < b
  {
    QuotientBounds(a, b);
    a - b * (a / b).Floor as real
  }

  /** The brackets of the floored and the truncated quotient, scaled back by b. */
  lemma QuotientBounds(a: real, b: real)
    requires b > 0.0
    ensures 0.0 <= a - b * (a / b).Floor as real < b
    ensures 0.0 <= a ==> 0.0 <= a - b * Trunc(a / b) as real < b
    ensures a < 0.0 ==> -b < a - b * Trunc(a / b) as real <= 0.0
  {
    var x := a / b;
    Scaled(a, b, x, x.Floor as real);
    if a < 0.0 {
      assert x < 0.0 by { SignOfQuotient(a, b); }
      ScaledDown(a, b, x, Trunc(x) as real);
    } else {
      assert x >= 0.0 by { SignOfQuotient(a, b); }
    }
  }

  lemma SignOfQuotient(a: real, b: real)
    requires b > 0.0
    ensures a < 0.0 ==> a / b < 0.0
    ensures a >= 0.0 ==> a / b >= 0.0
  {
  }

  /** From q <= a / b < q + 1: 0 <= a - b * q < b. */
  lemma Scaled(a: real, b: real, x: real, q: real)
    requires b > 0.0 && x == a / b && q <= x < q + 1.0
    ensures 0.0 <= a - b * q < b
  {
    var d := x - q;
    UnitScale(b, d);
    assert a - b * q == b * d;
  }

  /** From q - 1 < a / b <= q: -b < a - b * q <= 0. */
  lemma ScaledDown(a: real, b: real, x: real, q: real)
    requires b > 0.0 && x == a / b && q - 1.0 < x <= q
    ensures -b < a - b * q <= 0.0
  {
    var d := q - x;
    UnitScale(b, d);
    assert b * q - a == b * d;
  }

  /** 0 <= d < 1 scales to 0 <= b * d < b. */
  lemma UnitScale(b: real, d: real)
    requires b > 0.0 && 0.0 <= d < 1.0
    ensures 0.0 <= b * d < b
  {
    assert b - b * d == b * (1.0 - d);
  }

  /** On a non-negative dividend the two remainders agree. */
  lemma JsRemIsFloorRem(a: real, b: real)
    requires b > 0.0 && 0.0 <= a
    ensures JsRem(a, b) == FloorRem(a, b)
  {
  }

  /** Adding whole periods to a non-negative dividend does not change the remainder. */
  lemma {:induction false} JsRemPeriodic(a: real, b: real, k: nat)
    requires b > 0.0 && 0.0 <= a
    ensures JsRem(a + k as real * b, b) == JsRem(a, b)
  {
    var x := a / b;
    assert (a + k as real * b) / b == x + k as real;
    assert (x + k as real).Floor == x.Floor + k;
  }

  /** The ratio `Math.max(0, Math.min(1, num / height))` of the scroll handlers.
      A zero height makes JavaScript divide by zero: a positive numerator gives
      Infinity (clamped to 1), a negative one -Infinity (clamped to 0) and a zero
      one NaN, which is returned as None. */
  function ScrollProgress(num: real, height: real): (r: Option<real>)
    ensures r.None? <==> height == 0.0 && num == 0.0
    ensures r.Some? ==> 0.0 <= r.value <= 1.0
    ensures height > 0.0 && 0.0 <= num <= height ==> r == Some(num / height)
    ensures height > 0.0 && num <= 0.0 ==> r == Some(0.0)
    ensures height > 0.0 && num >= height ==> r == Some(1.0)
  {
    if height == 0.0 then
      (if num > 0.0 then Some(1.0) else if num < 0.0 then Some(0.0) else None)
    else
      Some(Max(0.0, Min(1.0, num / height)))
  }

  /** Dividing by a positive number keeps the order. */
  lemma DivMonotone(x: real, y: real, z: real)
    requires x <= y && z > 0.0
    ensures x / z <= y / z
  {
  }

  /** A larger numerator never gives a smaller ratio. */
  lemma ScrollProgressMonotone(n1: real, n2: real, height: real)
    requires height > 0.0 && n1 <= n2
    ensures ScrollProgress(n1, height).value <= ScrollProgress(n2, height).value
  {
    DivMonotone(n1, n2, height);
  }

  datatype Option<+T> = None | Some(value: T)
}
