/**
 * The per-voxel formulas of AFNI's partial-correlation read-outs
 * (src/afni_pcor.c). Each read-out loops over the voxels and applies one of
 * these to the voxel's row, whose last two slots are `num` (the projection
 * on the last reference) and `den` (the residual energy).
 */
module PcorFormulas {
  import opened RealMath
  import opened PcorReferences

  /** Energies at or below this are treated as "no signal" by PCOR_get_pcor. */
  const DENEPS: real := 0.00001

  /** `num / sqrt(den + num^2)`: the partial correlation of the voxel with the
      last reference. It is strictly between -1 and 1, has the sign of `num`,
      and its square is the share `num^2 / (den + num^2)` of the energy. */
  function Correlation(num: real, den: real, sqrt: real -> real): (r: real)
    requires IsSqrt(sqrt) && 0.0 < den
    ensures -1.0 < r < 1.0
    ensures r * r * (den + num * num) == num * num
    ensures (0.0 < r <==> 0.0 < num) && (r < 0.0 <==> num < 0.0)
  {
    SqrNonNegative(num);
    QuotientByRoot(num, den, sqrt(den + num * num));
    num / sqrt(den + num * num)
  }

  /** PCOR_get_pcor for one voxel: zero when the energy is at most `DENEPS`,
      the correlation otherwise. */
  function GuardedCorrelation(num: real, den: real, sqrt: real -> real): (r: real)
    requires IsSqrt(sqrt)
    ensures den <= DENEPS ==> r == 0.0
    ensures DENEPS < den ==> r == Correlation(num, den, sqrt)
    ensures -1.0 < r < 1.0
  {
    if den > DENEPS then Correlation(num, den, sqrt) else 0.0
  }

  /** `sum_{i=1..m} row[nr-i]^2`: the energy of the last `m` projections. */
  function SumSq(row: seq<real>, nr: nat, m: nat): (s: real)
    requires m <= nr < |row|
    ensures 0.0 <= s
    decreases m
  {
    if m == 0 then 0.0
    else
      SqrNonNegative(row[nr - m]);
      SumSq(row, nr, m - 1) + Sqr(row[nr - m])
  }

  /** The `switch` of PCOR_get_mcor: cases 1 to 4 written out, the `default`
      case a loop over `ii = 1..m` (which does nothing for `m <= 0`). */
  function UnrolledSumSq(row: seq<real>, nr: nat, m: int): (r: real)
    requires m < nr < |row|
    ensures 0.0 <= r
  {
    if m == 1 then Sqr(row[nr - 1])
    else if m == 2 then Sqr(row[nr - 1]) + Sqr(row[nr - 2])
    else if m == 3 then Sqr(row[nr - 1]) + Sqr(row[nr - 2]) + Sqr(row[nr - 3])
    else if m == 4 then Sqr(row[nr - 1]) + Sqr(row[nr - 2]) + Sqr(row[nr - 3]) + Sqr(row[nr - 4])
    else if m <= 0 then 0.0
    else SumSq(row, nr, m)
  }

  /** The written-out cases agree with the generic sum. */
  lemma UnrolledIsSumSq(row: seq<real>, nr: nat, m: int)
    requires m < nr < |row|
    ensures UnrolledSumSq(row, nr, m) == SumSq(row, nr, if m < 0 then 0 else m)
  {
    if 1 <= m <= 4 {
      assert SumSq(row, nr, 1) == Sqr(row[nr - 1]);
      if 2 <= m {
        assert SumSq(row, nr, 2) == Sqr(row[nr - 1]) + Sqr(row[nr - 2]);
      }
      if 3 <= m {
        assert SumSq(row, nr, 3) == Sqr(row[nr - 1]) + Sqr(row[nr - 2]) + Sqr(row[nr - 3]);
      }
    }
  }

  /** PCOR_get_mcor for one voxel: with `extra` the energy of the last `m`
      projections, `sqrt(1 - den/(den + extra))` when that radicand is
      positive, else 0. The result is the multiple correlation: it lies in
      [0, 1) and its square is the share `extra / (den + extra)`. */
  function MultipleCorrelation(den: real, extra: real, sqrt: real -> real): (r: real)
    requires IsSqrt(sqrt) && 0.0 < den && 0.0 <= extra
    ensures 0.0 <= r < 1.0
    ensures r * r * (den + extra) == extra
  {
    OneMinusShare(den, extra);
    var q := 1.0 - den / (den + extra);
    if q > 0.0 then
      SquareStrictMonotone(1.0, sqrt(q));
      sqrt(q)
    else 0.0
  }

  /** PCOR_get_coef for one voxel: `num` scaled by `1 / L[nr-1][nr-1]`;
      `coef * diag == num`. */
  function Coefficient(num: real, diag: real): (c: real)
    requires 0.0 < diag
    ensures c * diag == num
  {
    (1.0 / diag) * num
  }

  /** PCOR_get_variance for one voxel: the energy over the `nupdate - nref`
      degrees of freedom left. */
  function Variance(den: real, dof: nat): (v: real)
    requires 0 < dof
    ensures v * (dof as real) == den
    ensures 0.0 <= den ==> 0.0 <= v
  {
    (1.0 / (dof as real)) * den
  }

  /** The threshold test of PCOR_get_pcor_and_coef for `pcthresh > 0`:
      `num^2 > thfac*den` with `thfac = t^2/(1-t^2)`. At `t^2 == 1` the C
      divide yields an infinite `thfac`, which no positive energy passes. */
  predicate PassesThreshold(num: real, den: real, t: real): (p: bool)
    ensures t * t == 1.0 ==> !p
    ensures t * t < 1.0 && 0.0 <= den && p ==> num != 0.0
  {
    if t * t == 1.0 then false
    else
      ThresholdTestFacts(num, den, t);
      num * num > (t * t / (1.0 - t * t)) * den
  }

  /** For `t^2 < 1` and non-negative energy `thfac*den` is non-negative, so
      a passing `num` is not zero. */
  lemma ThresholdTestFacts(num: real, den: real, t: real)
    requires t * t != 1.0
    ensures t * t < 1.0 && 0.0 <= den && num * num > (t * t / (1.0 - t * t)) * den ==> num != 0.0
  {
    var k := t * t / (1.0 - t * t);
    if t * t < 1.0 && 0.0 <= den && num * num > k * den {
      ThresholdFactorSign(t);
      SquareAboveNonNegative(num, k, den);
    }
  }

  /** `t^2/(1-t^2)` is non-negative for `t^2 < 1`. */
  lemma ThresholdFactorSign(t: real)
    requires t * t < 1.0
    ensures 0.0 <= t * t / (1.0 - t * t)
  {
    var w := 1.0 - t * t;
    var k := t * t / w;
    assert k * w == t * t;
    SqrNonNegative(t);
    if k < 0.0 {
      ScaleComparison(k, 0.0, w);
      assert false;
    }
  }

  /** For `0 < t < 1` the "fancy threshold test" is exactly `|pcor| > t`:
      it keeps a voxel if and only if its correlation exceeds `t` in size. */
  lemma ThresholdIsCorrelationTest(num: real, den: real, t: real, sqrt: real -> real)
    requires IsSqrt(sqrt) && 0.0 < den && 0.0 < t < 1.0
    ensures PassesThreshold(num, den, t) <==>
      (t < Correlation(num, den, sqrt) || t < -Correlation(num, den, sqrt))
  {
    var r := Correlation(num, den, sqrt);
    var n2 := num * num;
    var t2 := t * t;
    var w := 1.0 - t2;
    SqrNonNegative(num);
    SquareStrictMonotone(1.0, t);
    assert t2 < 1.0 && 0.0 < w;
    var k := t2 / w;
    assert k * w == t2;
    // n2 > k*den  <==>  n2*w > t2*den  <==>  n2 > t2*(den + n2)  <==>  r^2 > t2
    ScaleComparison(k * den, n2, w);
    assert (k * den) * w == t2 * den;
    assert n2 * w == n2 - t2 * n2;
    ScaleComparison(t2, r * r, den + n2);
    assert r * r * (den + n2) == n2;
    assert t2 * (den + n2) == t2 * den + t2 * n2;
    BelowAbsIffSquares(r, t);
  }

  /** For `t >= 1` past the singular point (`t^2 > 1`) `thfac` is negative,
      so every voxel with positive energy passes. */
  lemma ThresholdAboveOnePassesAll(num: real, den: real, t: real)
    requires 0.0 < den && 1.0 < t * t
    ensures PassesThreshold(num, den, t)
  {
    var t2 := t * t;
    var w := 1.0 - t2;
    assert w < 0.0;
    var k := t2 / w;
    assert k * w == t2;
    assert k < 0.0;
    assert k * den < 0.0;
    SqrNonNegative(num);
  }

  /** PCOR_get_pcor_and_coef's correlation for one voxel: computed without
      the `DENEPS` guard when `t <= 0`, and only for voxels passing the test
      otherwise. Whatever is kept with `0 < t < 1` exceeds `t` in size. */
  function ThresholdedCorrelation(num: real, den: real, t: real, sqrt: real -> real): (r: real)
    requires IsSqrt(sqrt) && 0.0 < den
    ensures r == 0.0 || r == Correlation(num, den, sqrt)
    ensures (t <= 0.0 || PassesThreshold(num, den, t)) ==> r == Correlation(num, den, sqrt)
    ensures !(t <= 0.0 || PassesThreshold(num, den, t)) ==> r == 0.0
    ensures 0.0 < t < 1.0 && r != 0.0 ==> t < r || t < -r
  {
    if t <= 0.0 || PassesThreshold(num, den, t) then
      if 0.0 < t < 1.0 then
        ThresholdIsCorrelationTest(num, den, t, sqrt);
        Correlation(num, den, sqrt)
      else Correlation(num, den, sqrt)
    else 0.0
  }

  /** ... and its coefficient, computed under the same test. */
  function ThresholdedCoefficient(num: real, den: real, t: real, diag: real): (c: real)
    requires 0.0 < den && 0.0 < diag
    ensures c == 0.0 || c == Coefficient(num, diag)
    ensures (t <= 0.0 || PassesThreshold(num, den, t)) ==> c == Coefficient(num, diag)
    ensures !(t <= 0.0 || PassesThreshold(num, den, t)) ==> c == 0.0
  {
    if t <= 0.0 || PassesThreshold(num, den, t) then Coefficient(num, diag) else 0.0
  }

  /** A voxel's correlation and coefficient are zeroed together: the
      coefficient is computed for exactly the voxels whose correlation is. */
  lemma ZeroedTogether(num: real, den: real, t: real, diag: real, sqrt: real -> real)
    requires IsSqrt(sqrt) && 0.0 < den && 0.0 < diag
    ensures ThresholdedCorrelation(num, den, t, sqrt) == 0.0 <==> ThresholdedCoefficient(num, den, t, diag) == 0.0
  {
    if t <= 0.0 || PassesThreshold(num, den, t) {
      var c := Coefficient(num, diag);
      assert c * diag == num;
      assert c == 0.0 <==> num == 0.0;
    }
  }

  // ---------------------------------------------------------------------
  // Back-substitution (PCOR_get_lsqfit)

  /** `y` is a valid right-hand side for the `n` x `n` factor `L`. */
  ghost predicate Triangular(L: Matrix, n: nat, row: seq<real>) {
    Square(L, n) && PositiveDiagonal(L, n) && n <= |row|
  }

  /** Coefficient `k` of the fit: `(row[k] - sum_{i>k} fit[i]*L[i][k]) / L[k][k]`,
      the value the backward loop of PCOR_get_lsqfit leaves in `ff[k]`. */
  function FitCoef(L: Matrix, row: seq<real>, n: nat, k: nat): (y: real)
    requires Triangular(L, n, row) && k < n
    ensures y * L[k][k] + Partial(L, row, n, k, n) == row[k]
    decreases n - k, 1, 0
  {
    (row[k] - Partial(L, row, n, k, n)) / L[k][k]
  }

  /** `sum_{i=j+1..c-1} FitCoef(i) * L[i][j]`, accumulated in increasing `i`
      as the `kk` loop does. */
  function Partial(L: Matrix, row: seq<real>, n: nat, j: nat, c: nat): real
    requires Triangular(L, n, row) && j < c <= n
    decreases n - j, 0, c
  {
    if c == j + 1 then 0.0
    else Partial(L, row, n, j, c - 1) + FitCoef(L, row, n, c - 1) * L[c - 1][j]
  }

  /** All `n` fit coefficients. */
  function Fit(L: Matrix, row: seq<real>, n: nat): (y: seq<real>)
    requires Triangular(L, n, row)
    ensures |y| == n
    ensures forall k :: 0 <= k < n ==> y[k] == FitCoef(L, row, n, k)
  {
    seq(n, k requires 0 <= k < n => FitCoef(L, row, n, k))
  }

  /** `sum_{i=j..c-1} y[i] * L[i][j]`: entry `j` of `L^T y`, summed to `c`. */
  function TDot(L: Matrix, y: seq<real>, n: nat, j: nat, c: nat): real
    requires Square(L, n) && |y| == n && j <= c <= n
    decreases c
  {
    if c == j then 0.0 else TDot(L, y, n, j, c - 1) + y[c - 1] * L[c - 1][j]
  }

  /** A `y` that agrees with the fit past `j` has its column-`j` dot product
      split into the diagonal term and the back-substitution partial sum. */
  lemma {:induction false} TDotSplit(L: Matrix, row: seq<real>, n: nat, y: seq<real>, j: nat, c: nat)
    requires Triangular(L, n, row) && |y| == n && j < c <= n
    requires forall i :: j < i < c ==> y[i] == FitCoef(L, row, n, i)
    ensures TDot(L, y, n, j, c) == y[j] * L[j][j] + Partial(L, row, n, j, c)
    decreases c
  {
    if c > j + 1 {
      TDotSplit(L, row, n, y, j, c - 1);
    }
  }

  /** The fit solves the triangular system: `sum_{i>=j} fit[i]*L[i][j] == row[j]`
      for every `j`, i.e. `L^T fit == row`. */
  lemma FitSolves(L: Matrix, row: seq<real>, n: nat)
    requires Triangular(L, n, row)
    ensures forall j :: 0 <= j < n ==> TDot(L, Fit(L, row, n), n, j, n) == row[j]
  {
    var y := Fit(L, row, n);
    forall j | 0 <= j < n
      ensures TDot(L, y, n, j, n) == row[j]
    {
      TDotSplit(L, row, n, y, j, n);
      DivideThenScale(row[j] - Partial(L, row, n, j, n), L[j][j]);
    }
  }

  /** ... and it is the only solution: any `y` with `L^T y == row` is the fit. */
  lemma FitUnique(L: Matrix, row: seq<real>, n: nat, y: seq<real>)
    requires Triangular(L, n, row) && |y| == n
    requires forall j :: 0 <= j < n ==> TDot(L, y, n, j, n) == row[j]
    ensures y == Fit(L, row, n)
  {
    AgreesFrom(L, row, n, y, 0);
  }

  lemma {:induction false} AgreesFrom(L: Matrix, row: seq<real>, n: nat, y: seq<real>, k: nat)
    requires Triangular(L, n, row) && |y| == n && k <= n
    requires forall j :: 0 <= j < n ==> TDot(L, y, n, j, n) == row[j]
    ensures forall i :: k <= i < n ==> y[i] == FitCoef(L, row, n, i)
    decreases n - k
  {
    if k < n {
      AgreesFrom(L, row, n, y, k + 1);
      TDotSplit(L, row, n, y, k, n);
      ScaleThenDivide(y[k], L[k][k], row[k] - Partial(L, row, n, k, n));
    }
  }

  /** `(a/d)*d == a` for `d > 0`. */
  lemma DivideThenScale(a: real, d: real)
    requires 0.0 < d
    ensures (a / d) * d == a
  {
  }

  /** `y*d == a` with `d > 0` forces `y == a/d`. */
  lemma ScaleThenDivide(y: real, d: real, a: real)
    requires 0.0 < d && y * d == a
    ensures y == a / d
  {
  }

  /** PCOR_get_coef's value is the last coefficient of the full fit. */
  lemma CoefficientIsLastFit(L: Matrix, row: seq<real>, n: nat)
    requires Triangular(L, n, row) && 1 <= n
    ensures Coefficient(row[n - 1], L[n - 1][n - 1]) == FitCoef(L, row, n, n - 1)
  {
    ScaleThenDivide(Coefficient(row[n - 1], L[n - 1][n - 1]), L[n - 1][n - 1], row[n - 1]);
  }
}
