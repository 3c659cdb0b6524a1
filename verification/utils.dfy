/**
  Scalar helpers of the noise library: interpolation, the quintic blend
  curve, affine range remapping and clamping. Every f64 is idealised as a
  `real`; the one place where IEEE-754 behaviour leaks into the results of
  the library, a division by zero, is made explicit by `Value`.
*/
module Utils {

  /** The result of an f64 computation that may divide by zero.
      `NonFinite` stands for the NaN or infinity IEEE-754 yields there. */
  datatype Value = Finite(value: real) | NonFinite

  /** `x` raised to a natural power. */
  function Pow(x: real, n: nat): real
  {
    if n == 0 then 1.0 else x * Pow(x, n - 1)
  }

  lemma {:induction false} PowNonNegative(x: real, n: nat)
    requires x >= 0.0
    ensures Pow(x, n) >= 0.0
  {
    if n > 0 {
      PowNonNegative(x, n - 1);
    }
  }

  lemma {:induction false} PowPositive(x: real, n: nat)
    requires x > 0.0
    ensures Pow(x, n) > 0.0
  {
    if n > 0 {
      PowPositive(x, n - 1);
      MulPositive(x, Pow(x, n - 1));
    }
  }

  lemma MulNonNegative(a: real, b: real)
    requires a >= 0.0 && b >= 0.0
    ensures a * b >= 0.0
  {
  }

  lemma MulPositive(a: real, b: real)
    requires a > 0.0 && b > 0.0
    ensures a * b > 0.0
  {
  }

  lemma MulMonotone(a: real, b: real, c: real)
    requires a <= b && c >= 0.0
    ensures a * c <= b * c
  {
    MulNonNegative(b - a, c);
  }

  /** 0 <= a <= b and 0 <= c <= d give a * c <= b * d. */
  lemma ProductDominated(a: real, b: real, c: real, d: real)
    requires 0.0 <= a <= b && 0.0 <= c <= d
    ensures a * c <= b * d
  {
    MulMonotone(a, b, c);
    MulMonotone(c, d, b);
    assert c * b == b * c;
    assert d * b == b * d;
  }

  function Abs(x: real): (r: real)
    ensures r >= 0.0
    ensures x >= 0.0 ==> r == x
  {
    if x < 0.0 then -x else x
  }

  /** Quotient of two f64 values; dividing by zero gives NaN or infinity. */
  function Div(n: real, d: real): (r: Value)
    ensures r.NonFinite? <==> d == 0.0
    ensures r.Finite? ==> r.value * d == n
  {
    if d == 0.0 then NonFinite else Finite(n / d)
  }

  /** Linear interpolation as the library writes it: `(a - b) * t + a`.
      At `t == 0` it gives `a`; for `t > 0` it moves AWAY from `b`, so it is
      not the textbook interpolation (at `t == 0.5` between 0 and 10 it
      gives -5, not 5). */
  function Lerp(a: real, b: real, t: real): (r: real)
    ensures t == 0.0 ==> r == a
    ensures a == b ==> r == a
    ensures t > 0.0 && a < b ==> r < a
    ensures t > 0.0 && a > b ==> r > a
  {
    (a - b) * t + a
  }

  lemma LerpIsNotMidpoint()
    ensures Lerp(0.0, 10.0, 0.5) == -5.0
  {
  }

  /** The quintic blend weight 6t^5 - 15t^4 + 10t^3. */
  function EaseCurve(t: real): (r: real)
    ensures t == 0.0 ==> r == 0.0
    ensures t == 1.0 ==> r == 1.0
  {
    6.0 * (t * t * t * t * t) - 15.0 * (t * t * t * t) + 10.0 * (t * t * t)
  }

  /** The blend curve is point-symmetric about (1/2, 1/2). */
  lemma EaseCurveSymmetric(t: real)
    ensures EaseCurve(1.0 - t) == 1.0 - EaseCurve(t)
  {
    var u := 1.0 - t;
    assert u * u == 1.0 - 2.0 * t + t * t;
    assert u * u * u == 1.0 - 3.0 * t + 3.0 * t * t - t * t * t;
    assert u * u * u * u == 1.0 - 4.0 * t + 6.0 * t * t - 4.0 * t * t * t + t * t * t * t;
    assert u * u * u * u * u
      == 1.0 - 5.0 * t + 10.0 * t * t - 10.0 * t * t * t + 5.0 * t * t * t * t - t * t * t * t * t;
  }

  lemma EaseCurveNonNegative(t: real)
    requires 0.0 <= t <= 1.0
    ensures EaseCurve(t) >= 0.0
  {
    var q := 6.0 * t * t - 15.0 * t + 10.0;
    assert EaseCurve(t) == (t * t * t) * q;
    assert q >= 1.0 by {
      assert q - 1.0 == (1.0 - t) * (9.0 - 6.0 * t);
      MulNonNegative(1.0 - t, 9.0 - 6.0 * t);
    }
    MulNonNegative(t, t);
    MulNonNegative(t * t, t);
    MulNonNegative(t * t * t, q);
  }

  /** On [0, 1] the blend weight stays in [0, 1]. */
  lemma EaseCurveInUnitRange(t: real)
    requires 0.0 <= t <= 1.0
    ensures 0.0 <= EaseCurve(t) <= 1.0
  {
    EaseCurveNonNegative(t);
    EaseCurveNonNegative(1.0 - t);
    EaseCurveSymmetric(t);
  }

  /** Bilinear blend of four corner values, eased along both axes. */
  function Bilerp(x0y0: real, x0y1: real, x1y0: real, x1y1: real, x: real, y: real): (r: real)
    ensures x0y0 == 0.0 && x0y1 == 0.0 && x1y0 == 0.0 && x1y1 == 0.0 ==> r == 0.0
    ensures x0y1 == x0y0 && x1y0 == x0y0 && x1y1 == x0y0 ==> r == x0y0
    ensures x == 0.0 && y == 0.0 ==> r == x0y0
  {
    var tx := EaseCurve(x);
    var ty := EaseCurve(y);
    var u := Lerp(x0y0, x1y0, tx);
    var v := Lerp(x0y1, x1y1, tx);
    Lerp(u, v, ty)
  }

  /** Trilinear blend of eight corner values (no easing). */
  function Trilerp(v000: real, v100: real, v010: real, v110: real,
                   v001: real, v101: real, v011: real, v111: real,
                   x: real, y: real, z: real): (r: real)
    ensures x == 0.0 && y == 0.0 && z == 0.0 ==> r == v000
    ensures x == 1.0 && y == 0.0 && z == 0.0 ==> r == v100
    ensures x == 0.0 && y == 1.0 && z == 0.0 ==> r == v010
    ensures x == 1.0 && y == 1.0 && z == 0.0 ==> r == v110
    ensures x == 0.0 && y == 0.0 && z == 1.0 ==> r == v001
    ensures x == 1.0 && y == 0.0 && z == 1.0 ==> r == v101
    ensures x == 0.0 && y == 1.0 && z == 1.0 ==> r == v011
    ensures x == 1.0 && y == 1.0 && z == 1.0 ==> r == v111
  {
    var t0 := v000 * (1.0 - x) * (1.0 - y) * (1.0 - z);
    var t1 := v100 * x * (1.0 - y) * (1.0 - z);
    var t2 := v010 * (1.0 - x) * y * (1.0 - z);
    var t3 := v110 * x * y * (1.0 - z);
    var t4 := v001 * (1.0 - x) * (1.0 - y) * z;
    var t5 := v101 * x * (1.0 - y) * z;
    var t6 := v011 * (1.0 - x) * y * z;
    var t7 := v111 * x * y * z;
    t0 + t1 + t2 + t3 + t4 + t5 + t6 + t7
  }

  /** The eight trilinear weights sum to one, so equal corners give that
      value everywhere (and zero corners give zero). */
  lemma TrilerpOfConstant(c: real, x: real, y: real, z: real)
    ensures Trilerp(c, c, c, c, c, c, c, c, x, y, z) == c
  {
    var a, b, d := 1.0 - x, 1.0 - y, 1.0 - z;
    assert a * b * d + x * b * d + a * y * d + x * y * d == b * d + y * d == d;
    assert a * b * z + x * b * z + a * y * z + x * y * z == b * z + y * z == z;
    calc {
      Trilerp(c, c, c, c, c, c, c, c, x, y, z);
      c * (a * b * d + x * b * d + a * y * d + x * y * d)
        + c * (a * b * z + x * b * z + a * y * z + x * y * z);
      c * d + c * z;
      c;
    }
  }

  /** Affine remap of `n` from [oldlow, oldhigh] to [low, high]. The source
      divides by `oldhigh - oldlow` without a check, which is a division by
      zero when the old range is empty. */
  function Bound(n: real, low: real, high: real, oldlow: real, oldhigh: real): (r: Value)
    ensures r.NonFinite? <==> oldhigh == oldlow
    ensures r.Finite? && n == oldlow ==> r.value == low
    ensures r.Finite? && n == oldhigh ==> r.value == high
    ensures r.Finite? && low == oldlow && high == oldhigh ==> r.value == n
  {
    match Div(n - oldlow, oldhigh - oldlow)
    case NonFinite => NonFinite
    case Finite(nn) =>
      RemapFixesEnds(n, low, high, oldlow, oldhigh);
      Finite(nn * (high - low) + low)
  }

  lemma DivSelf(d: real)
    requires d != 0.0
    ensures d / d == 1.0
  {
  }

  /** The affine map behind `Bound` sends the old ends to the new ones, and
      is the identity when the two ranges coincide. */
  lemma RemapFixesEnds(n: real, low: real, high: real, oldlow: real, oldhigh: real)
    requires oldhigh != oldlow
    ensures n == oldlow ==> (n - oldlow) / (oldhigh - oldlow) * (high - low) + low == low
    ensures n == oldhigh ==> (n - oldlow) / (oldhigh - oldlow) * (high - low) + low == high
    ensures low == oldlow && high == oldhigh ==> (n - oldlow) / (oldhigh - oldlow) * (high - low) + low == n
  {
    var d := oldhigh - oldlow;
    var nn := (n - oldlow) / d;
    if n == oldlow {
      assert nn == 0.0;
    }
    if n == oldhigh {
      assert n - oldlow == d;
      DivSelf(d);
    }
    if low == oldlow && high == oldhigh {
      assert nn * d == n - oldlow;
    }
  }

  /** With a non-empty source range, `Bound` is the affine map. */
  lemma BoundValue(n: real, low: real, high: real, oldlow: real, oldhigh: real)
    requires oldhigh != oldlow
    ensures Bound(n, low, high, oldlow, oldhigh)
            == Finite((n - oldlow) / (oldhigh - oldlow) * (high - low) + low)
  {
  }

  /** Remapping a symmetric range onto [-1, 1] is odd: negating the input
      negates the output. */
  lemma BoundSymmetric(n: real, m: real)
    requires m != 0.0
    ensures Bound(-n, -1.0, 1.0, -m, m).Finite? && Bound(n, -1.0, 1.0, -m, m).Finite?
    ensures Bound(-n, -1.0, 1.0, -m, m).value == -Bound(n, -1.0, 1.0, -m, m).value
  {
    BoundValue(n, -1.0, 1.0, -m, m);
    BoundValue(-n, -1.0, 1.0, -m, m);
    var q := (n - -m) / (m - -m);
    var q' := (-n - -m) / (m - -m);
    assert q + q' == ((n - -m) + (-n - -m)) / (m - -m);
    assert q + q' == 1.0;
  }

  /** Remapping a point of a proper source range lands in the target range. */
  lemma BoundInRange(n: real, low: real, high: real, oldlow: real, oldhigh: real)
    requires oldlow < oldhigh && low <= high
    requires oldlow <= n <= oldhigh
    ensures Bound(n, low, high, oldlow, oldhigh).Finite?
    ensures low <= Bound(n, low, high, oldlow, oldhigh).value <= high
  {
    var nn := (n - oldlow) / (oldhigh - oldlow);
    var w := high - low;
    BoundValue(n, low, high, oldlow, oldhigh);
    UnitQuotient(n - oldlow, oldhigh - oldlow);
    UnitScale(nn, w);
  }

  /** A fraction in [0, 1] of a non-negative width lies in [0, width]. */
  lemma UnitScale(t: real, w: real)
    requires 0.0 <= t <= 1.0 && w >= 0.0
    ensures 0.0 <= t * w <= w
  {
    MulNonNegative(t, w);
    MulMonotone(t, 1.0, w);
  }

  /** A quotient 0 <= a / d <= 1 when 0 <= a <= d. */
  lemma UnitQuotient(a: real, d: real)
    requires 0.0 <= a <= d && d > 0.0
    ensures 0.0 <= a / d <= 1.0
  {
  }

  /** `n` limited to [low, high]; the low test comes first. */
  function Clamp(n: real, low: real, high: real): (r: real)
    ensures low <= high ==> low <= r <= high
    ensures low <= n <= high ==> r == n
    ensures r == n || r == low || r == high
  {
    if n < low then low
    else if n > high then high
    else n
  }

  lemma ClampIdempotent(n: real, low: real, high: real)
    requires low <= high
    ensures Clamp(Clamp(n, low, high), low, high) == Clamp(n, low, high)
  {
  }

  /** Clamping is monotone in its argument. */
  lemma ClampMonotone(a: real, b: real, low: real, high: real)
    requires low <= high && a <= b
    ensures Clamp(a, low, high) <= Clamp(b, low, high)
  {
  }

  lemma UtilsExamples()
    ensures Clamp(100.0, -1.0, 1.0) == 1.0
    ensures Clamp(-100.0, -1.0, 1.0) == -1.0
    ensures Clamp(0.0, -1.0, 1.0) == 0.0
    ensures Bound(2.0, 0.0, 1.0, 0.0, 2.0) == Finite(1.0)
    ensures EaseCurve(0.0) == 0.0
  {
  }
}
