/**
 * Exact real arithmetic shared by the statistics modules.
 *
 * The C code calls libm's `sqrt` on single-precision values. The model works
 * over `real` and takes the square root routine as a parameter of every
 * operation that calls it; `IsSqrt` states what is demanded of that routine.
 */
module RealMath {

  /** `sqrt` returns the non-negative square root of every non-negative real. */
  ghost predicate IsSqrt(sqrt: real -> real) {
    forall x :: 0.0 <= x ==> 0.0 <= sqrt(x) && sqrt(x) * sqrt(x) == x
  }

  function Sqr(x: real): real { x * x }

  function Max(x: real, y: real): (r: real)
    ensures r >= x && r >= y && (r == x || r == y)
  {
    if x >= y then x else y
  }

  /** A square is never negative. */
  lemma SqrNonNegative(x: real)
    ensures 0.0 <= x * x
  {
  }

  /** For non-negative reals, comparing squares compares the numbers. */
  lemma SquareMonotone(s: real, b: real)
    requires 0.0 <= s && 0.0 <= b
    requires b * b <= s * s
    ensures b <= s
  {
    if b * b < s * s {
      SquareStrictMonotone(s, b);
    } else if b + s != 0.0 {
      assert (b - s) * (b + s) == 0.0;
      assert b - s == (b - s) * (b + s) / (b + s);
    }
  }

  /** For non-negative reals, a strict comparison of squares is strict. */
  lemma SquareStrictMonotone(s: real, b: real)
    requires 0.0 <= s && 0.0 <= b
    requires b * b < s * s
    ensures b < s
  {
  }

  /** The root of `b*b + a*a` is at least `b`, for positive `b`. */
  lemma RootOfSumAtLeast(sqrt: real -> real, b: real, a: real)
    requires IsSqrt(sqrt)
    requires 0.0 < b
    ensures 0.0 <= b * b + a * a
    ensures b <= sqrt(b * b + a * a)
  {
    SqrNonNegative(a);
    SqrNonNegative(b);
    var s := sqrt(b * b + a * a);
    assert s * s == b * b + a * a;
    SquareMonotone(s, b);
  }

  /** A quotient `s / b` with `b <= s` and `0 < b` is at least one. */
  lemma QuotientAtLeastOne(s: real, b: real)
    requires 0.0 < b <= s
    ensures 1.0 <= s / b
  {
  }

  /** `1/b^2`, which for `b >= 1` lies in (0, 1]. */
  function InvSquare(b: real): (r: real)
    requires 1.0 <= b
    ensures 0.0 < r <= 1.0
    ensures r * (b * b) == 1.0
  {
    1.0 / (b * b)
  }

  /** Scaling a positive number by a factor of at least one does not shrink it. */
  lemma ScaleAtLeast(f: real, x: real)
    requires 1.0 <= f && 0.0 < x
    ensures x <= f * x
  {
  }

  /** `a/s < 1` for `0 < s` and `a < s`. */
  lemma QuotientBelowOne(a: real, s: real)
    requires 0.0 < s && a < s
    ensures a / s < 1.0
  {
  }

  /** `-1 < a/s` for `0 < s` and `-s < a`. */
  lemma QuotientAboveMinusOne(a: real, s: real)
    requires 0.0 < s && -s < a
    ensures -1.0 < a / s
  {
  }

  /** Dividing `num` by the root `s` of `den + num^2`, with `den > 0`, gives a
      number strictly between -1 and 1, of the sign of `num`, whose square is
      `num^2 / (den + num^2)`. */
  lemma QuotientByRoot(num: real, den: real, s: real)
    requires 0.0 < den && 0.0 <= s && s * s == den + num * num
    ensures 0.0 < s
    ensures -1.0 < num / s < 1.0
    ensures (num / s) * (num / s) * (den + num * num) == num * num
    ensures (0.0 < num / s <==> 0.0 < num) && (num / s < 0.0 <==> num < 0.0)
  {
    var m := if num < 0.0 then -num else num;
    assert m * m == num * num;
    SquareStrictMonotone(s, m);
    var q := num / s;
    assert q * s == num;
    assert q * q * (s * s) == (q * s) * (q * s);
    QuotientBelowOne(num, s);
    QuotientAboveMinusOne(num, s);
  }

  /** `q = 1 - e/(e+x)` is `x/(e+x)`: it satisfies `q*(e+x) == x` and lies in [0, 1). */
  lemma OneMinusShare(e: real, x: real)
    requires 0.0 < e && 0.0 <= x
    ensures (1.0 - e / (e + x)) * (e + x) == x
    ensures 0.0 <= 1.0 - e / (e + x) < 1.0
  {
    var d := e + x;
    var q := 1.0 - e / d;
    assert (e / d) * d == e;
    assert q * d == d - (e / d) * d;
    ScaleComparison(q, 0.0, d);
    ScaleComparison(q, 1.0, d);
  }

  /** Multiplying both sides by a positive number keeps a strict comparison. */
  lemma ScaleComparison(a: real, b: real, c: real)
    requires 0.0 < c
    ensures a < b <==> a * c < b * c
  {
    if a < b {
      assert (b - a) * c > 0.0;
    } else {
      assert (a - b) * c >= 0.0;
    }
  }

  /** Equal factors give equal products. */
  lemma SubstituteProduct(x: real, y: real, x2: real, y2: real)
    requires x == x2 && y == y2
    ensures x * y == x2 * y2
  {
  }

  /** `x * k == y * k` with `k != 0` gives `x == y`. */
  lemma Cancel(x: real, y: real, k: real)
    requires k != 0.0 && x * k == y * k
    ensures x == y
  {
    assert (x - y) * k == 0.0;
  }

  /** Multiplying both sides of `a <= b` by `c >= 0`. */
  lemma ScaleMonotone(a: real, b: real, c: real)
    requires a <= b && 0.0 <= c
    ensures a * c <= b * c
  {
    assert (b - a) * c >= 0.0;
  }

  /** `(x*f)/u == x/t` when `f*t == u`: scaling by `u/t` and then dividing
      by `u` is dividing by `t`. */
  lemma QuotientOfScaled(x: real, f: real, t: real, u: real)
    requires t != 0.0 && 0.0 < u && f * t == u
    ensures (x * f) / u == x / t
  {
    var q := x / t;
    assert q * t == x;
    ScaleBoth(q * t, x, f);
    SubstituteProduct(q, f * t, q, u);
    assert q * u == x * f;
    assert (x * f) / u * u == x * f;
    Cancel((x * f) / u, q, u);
  }

  /** Scaling by `u/t` and then dividing by `u` is dividing by `t`. */
  lemma QuotientOfRatioScaled(x: real, t: real, u: real)
    requires t != 0.0 && 0.0 < u
    ensures (x * (u / t)) / u == x / t
  {
    var f := u / t;
    assert f * t == u;
    QuotientOfScaled(x, f, t, u);
  }

  /** Both sides of an equation multiplied by the same factor. */
  lemma ScaleBoth(x: real, y: real, k: real)
    requires x == y
    ensures x * k == y * k
  {
  }

  /** The sum `(p*lr + g*zr) * (p*lc + g*zc) + (zr - a*lr) * (zc - a*lc) * w`
      multiplied out and grouped by `lr*lc`, the cross terms and `zr*zc`. */
  lemma ExpandEnergy(p: real, g: real, a: real, w: real, lr: real, lc: real, zr: real, zc: real,
                     nr: real, nc: real, yr: real, yc: real)
    requires nr == p * lr + g * zr && nc == p * lc + g * zc
    requires yr == zr - a * lr && yc == zc - a * lc
    ensures nr * nc + yr * yc * w
         == (p * p + (a * a) * w) * (lr * lc) + (p * g - a * w) * (lr * zc + zr * lc) + (g * g + w) * (zr * zc)
  {
  }

  /** Zero divided by anything non-zero is zero. */
  lemma ZeroQuotient(x: real, d: real)
    requires x == 0.0 && d != 0.0
    ensures x / d == 0.0
  {
  }

  /** The square root of one is one. */
  lemma SqrtOfOne(sqrt: real -> real)
    requires IsSqrt(sqrt)
    ensures sqrt(1.0) == 1.0
  {
    var x := sqrt(1.0);
    assert x * x == 1.0 * 1.0;
    SquareMonotone(1.0, x);
    SquareMonotone(x, 1.0);
  }

  /** Between non-negative reals, `b < m` exactly when `b^2 < m^2`. */
  lemma BelowIffSquares(m: real, b: real)
    requires 0.0 <= m && 0.0 <= b
    ensures b < m <==> b * b < m * m
  {
    if b * b < m * m {
      SquareStrictMonotone(m, b);
    } else {
      SquareMonotone(b, m);
    }
  }

  /** For `b >= 0`, `b < |a|` exactly when `b^2 < a^2`. */
  lemma BelowAbsIffSquares(a: real, b: real)
    requires 0.0 <= b
    ensures (b < a || b < -a) <==> b * b < a * a
  {
    if a < 0.0 {
      BelowIffSquares(-a, b);
      assert (-a) * (-a) == a * a;
    } else {
      BelowIffSquares(a, b);
    }
  }

  /** A square above a product of non-negative reals is a square of a
      non-zero number. */
  lemma SquareAboveNonNegative(x: real, k: real, d: real)
    requires 0.0 <= k && 0.0 <= d && x * x > k * d
    ensures x != 0.0
  {
    ScaleMonotone(0.0, k, d);
    if x == 0.0 {
      SubstituteProduct(x, x, 0.0, 0.0);
    }
  }
}
