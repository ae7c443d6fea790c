/**
 * The reference side of AFNI's incremental partial-correlation engine
 * (src/afni_pcor.c): a lower-triangular Cholesky factor of the reference
 * design, updated one time point at a time by Carlson's square-root
 * algorithm (N. A. Carlson, "Fast triangular formulation of the square root
 * filter", AIAA Journal, 1973).
 *
 * The C code keeps row `ii` of the factor as a separate array of `ii+1`
 * floats. Here the factor is one `nref` x `nref` array whose strict upper
 * triangle plays no part: it is never read, and `Update` never writes it.
 */
module PcorReferences {
  import opened RealMath

  /** Diagonal seed of a fresh factor. The C constant lives in afni_pcor.h,
      which is not part of this model; here it is an arbitrary positive
      constant, 1e-7, and the proofs use only its being positive. */
  const REF_EPS: real := 0.0000001

  type Matrix = seq<seq<real>>

  ghost predicate Square(L: Matrix, n: nat) {
    |L| == n && forall i :: 0 <= i < n ==> |L[i]| == n
  }

  ghost predicate PositiveDiagonal(L: Matrix, n: nat)
    requires Square(L, n)
  {
    forall i :: 0 <= i < n ==> L[i][i] > 0.0
  }

  /** The working state of one Carlson sweep: the factor being rewritten, the
      copy `zz` of the reference vector, the running `bold`, and the
      per-column scalars saved so far. */
  datatype Sweep = Sweep(L: Matrix, z: seq<real>, bold: real,
                         alp: seq<real>, ff: seq<real>, gg: seq<real>)

  /** The new `beta`: `sqrt(bold^2 + a^2)`, never below `bold`. */
  function Beta(sqrt: real -> real, bold: real, a: real): (b: real)
    requires IsSqrt(sqrt) && 0.0 < bold
    ensures bold <= b
  {
    RootOfSumAtLeast(sqrt, bold, a);
    sqrt(bold * bold + a * a)
  }

  /** The per-column scalars of the sweep: `alpha = zz[j]/L[j][j]`,
      `f = bnew/bold` and `g = alpha/(bnew*bold)`. */
  function Alpha(zj: real, ljj: real): (a: real)
    requires ljj > 0.0
    ensures zj - a * ljj == 0.0
  {
    zj / ljj
  }

  function Fac(bnew: real, bold: real): (f: real)
    requires bold > 0.0
    ensures f * bold == bnew
    ensures bold <= bnew ==> 1.0 <= f
  {
    bnew / bold
  }

  function Gain(a: real, bnew: real, bold: real): (g: real)
    requires bnew > 0.0 && bold > 0.0
    ensures g * (bnew * bold) == a
    ensures (0.0 < g <==> 0.0 < a) && (g < 0.0 <==> a < 0.0)
  {
    a / (bnew * bold)
  }

  /** `zz` after the subtractions of column `j`: `zz[k] - a*L[k][j]` for `k >= j`. */
  function Eliminate(z: seq<real>, L: Matrix, j: nat, n: nat, a: real): (z': seq<real>)
    requires Square(L, n) && |z| == n && j < n
    ensures |z'| == n
    ensures forall k :: 0 <= k < n ==> z'[k] == (if j <= k then z[k] - a * L[k][j] else z[k])
  {
    seq(n, k requires 0 <= k < n => if j <= k then z[k] - a * L[k][j] else z[k])
  }

  /** The factor after column `j` is rewritten: `f*L[k][j] + g*z'[k]` for `k >= j`. */
  function Rotate(L: Matrix, z': seq<real>, j: nat, n: nat, f: real, g: real): (L': Matrix)
    requires Square(L, n) && |z'| == n && j < n
    ensures Square(L', n)
    ensures forall k, c :: 0 <= k < n && 0 <= c < n ==>
      L'[k][c] == (if j <= k && c == j then f * L[k][j] + g * z'[k] else L[k][c])
  {
    seq(n, k requires 0 <= k < n => if j <= k then L[k][j := f * L[k][j] + g * z'[k]] else L[k])
  }

  /** Column `j` of the sweep (one pass of the `jj` loop): `a = z[j]/L[j][j]`,
      the new beta, `f = bnew/bold`, `g = a/(bnew*bold)`, and for every row
      `k >= j` first `z[k] -= a*L[k][j]`, then `L[k][j] = f*L[k][j] + g*z[k]`. */
  ghost function Column(s: Sweep, j: nat, n: nat, sqrt: real -> real): (r: Sweep)
    requires IsSqrt(sqrt)
    requires Square(s.L, n) && |s.z| == n && j < n
    requires s.L[j][j] > 0.0 && s.bold > 0.0
    ensures Square(r.L, n) && |r.z| == n
    ensures |r.alp| == |s.alp| + 1 && |r.ff| == |s.ff| + 1 && |r.gg| == |s.gg| + 1
    ensures r.alp[|s.alp|] * s.L[j][j] == s.z[j]
    ensures r.bold * r.bold == s.bold * s.bold + r.alp[|s.alp|] * r.alp[|s.alp|]
    ensures r.ff[|s.ff|] * s.bold == r.bold && r.gg[|s.gg|] * (r.bold * s.bold) == r.alp[|s.alp|]
  {
    var a := Alpha(s.z[j], s.L[j][j]);
    var bnew := Beta(sqrt, s.bold, a);
    var f := Fac(bnew, s.bold);
    var g := Gain(a, bnew, s.bold);
    var z' := Eliminate(s.z, s.L, j, n, a);
    Sweep(Rotate(s.L, z', j, n, f, g), z', bnew, s.alp + [a], s.ff + [f], s.gg + [g])
  }

  /** What one column does to the facts the sweep relies on: `bold` does not
      shrink, `f >= 1`, `z[j]` becomes zero, the diagonal entry `j` is scaled
      by `f`, and nothing outside rows `k >= j` of column `j` changes. */
  lemma ColumnFacts(s: Sweep, j: nat, n: nat, sqrt: real -> real)
    requires IsSqrt(sqrt)
    requires Square(s.L, n) && |s.z| == n && j < n
    requires s.L[j][j] > 0.0 && s.bold > 0.0
    ensures s.bold <= Column(s, j, n, sqrt).bold
    ensures Column(s, j, n, sqrt).alp[..|s.alp|] == s.alp
    ensures Column(s, j, n, sqrt).ff[..|s.ff|] == s.ff
    ensures Column(s, j, n, sqrt).gg[..|s.gg|] == s.gg
    ensures 1.0 <= Column(s, j, n, sqrt).ff[|s.ff|]
    ensures Column(s, j, n, sqrt).z[j] == 0.0
    ensures Column(s, j, n, sqrt).L[j][j] == Column(s, j, n, sqrt).ff[|s.ff|] * s.L[j][j]
    ensures s.L[j][j] <= Column(s, j, n, sqrt).L[j][j]
    ensures forall k :: 0 <= k < j ==> Column(s, j, n, sqrt).z[k] == s.z[k]
    ensures forall k, c :: 0 <= k < n && 0 <= c < n && (k < j || c != j) ==>
      Column(s, j, n, sqrt).L[k][c] == s.L[k][c]
  {
    var r := Column(s, j, n, sqrt);
    var a := Alpha(s.z[j], s.L[j][j]);
    assert r.bold == Beta(sqrt, s.bold, a);
    QuotientAtLeastOne(r.bold, s.bold);
    ScaleAtLeast(r.ff[|s.ff|], s.L[j][j]);
    assert r.z[j] == s.z[j] - a * s.L[j][j] == 0.0;
  }

  /** The sweep after columns `0 .. j-1`, started from factor `L0`, reference
      vector `vec` and `bold == 1`; `Carlson(L0, vec, n, sqrt, n)` is one whole
      call of update_PCOR_references. Along the way `bold` stays at least 1 and
      the diagonal entries not yet reached keep their (positive) values. */
  ghost function Carlson(L0: Matrix, vec: seq<real>, n: nat, sqrt: real -> real, j: nat): (s: Sweep)
    requires IsSqrt(sqrt)
    requires Square(L0, n) && PositiveDiagonal(L0, n) && |vec| == n && j <= n
    ensures Square(s.L, n) && |s.z| == n
    ensures |s.alp| == j && |s.ff| == j && |s.gg| == j
    ensures 1.0 <= s.bold
    ensures forall i :: j <= i < n ==> s.L[i][i] == L0[i][i]
    decreases j
  {
    if j == 0 then Sweep(L0, vec, 1.0, [], [], [])
    else
      var p := Carlson(L0, vec, n, sqrt, j - 1);
      ColumnFacts(p, j - 1, n, sqrt);
      Column(p, j - 1, n, sqrt)
  }

  /** Every `f` factor a sweep saves is at least 1. */
  lemma {:induction false} CarlsonFactorsAtLeastOne(L0: Matrix, vec: seq<real>, n: nat, sqrt: real -> real, j: nat)
    requires IsSqrt(sqrt)
    requires Square(L0, n) && PositiveDiagonal(L0, n) && |vec| == n && j <= n
    ensures forall i :: 0 <= i < j ==> 1.0 <= Carlson(L0, vec, n, sqrt, j).ff[i]
    decreases j
  {
    if j > 0 {
      CarlsonFactorsAtLeastOne(L0, vec, n, sqrt, j - 1);
      var p := Carlson(L0, vec, n, sqrt, j - 1);
      ColumnFacts(p, j - 1, n, sqrt);
      var s := Carlson(L0, vec, n, sqrt, j);
      assert s == Column(p, j - 1, n, sqrt);
      forall i | 0 <= i < j - 1
        ensures 1.0 <= s.ff[i]
      {
        assert s.ff[i] == s.ff[..j - 1][i] == p.ff[i];
      }
    }
  }

  /** The sweep never shrinks a diagonal entry: each processed one is scaled
      by its column's `f >= 1`, and the others are untouched. */
  lemma {:induction false} DiagonalNeverShrinks(L0: Matrix, vec: seq<real>, n: nat, sqrt: real -> real, j: nat)
    requires IsSqrt(sqrt)
    requires Square(L0, n) && PositiveDiagonal(L0, n) && |vec| == n && j <= n
    ensures forall i :: 0 <= i < n ==> L0[i][i] <= Carlson(L0, vec, n, sqrt, j).L[i][i]
    decreases j
  {
    if j > 0 {
      DiagonalNeverShrinks(L0, vec, n, sqrt, j - 1);
      var p := Carlson(L0, vec, n, sqrt, j - 1);
      ColumnFacts(p, j - 1, n, sqrt);
      var s := Carlson(L0, vec, n, sqrt, j);
      assert s == Column(p, j - 1, n, sqrt);
      forall i | 0 <= i < n
        ensures L0[i][i] <= s.L[i][i]
      {
        if i != j - 1 {
          assert s.L[i][i] == p.L[i][i];
        }
      }
    }
  }

  /** The sweep zeroes the copy `zz` in every processed slot: at `k == j` the
      subtraction removes `alpha * L[j][j] == zz[j]`. */
  lemma {:induction false} CarlsonZeroesProcessed(L0: Matrix, vec: seq<real>, n: nat, sqrt: real -> real, j: nat)
    requires IsSqrt(sqrt)
    requires Square(L0, n) && PositiveDiagonal(L0, n) && |vec| == n && j <= n
    ensures forall i :: 0 <= i < j ==> Carlson(L0, vec, n, sqrt, j).z[i] == 0.0
    decreases j
  {
    if j > 0 {
      CarlsonZeroesProcessed(L0, vec, n, sqrt, j - 1);
      var p := Carlson(L0, vec, n, sqrt, j - 1);
      ColumnFacts(p, j - 1, n, sqrt);
      var s := Carlson(L0, vec, n, sqrt, j);
      assert s == Column(p, j - 1, n, sqrt);
      forall i | 0 <= i < j
        ensures s.z[i] == 0.0
      {
        if i < j - 1 {
          assert s.z[i] == p.z[i];
        }
      }
    }
  }

  /** Only entries on or below the diagonal, in columns already processed,
      are changed by the sweep. */
  lemma {:induction false} CarlsonLowerOnly(L0: Matrix, vec: seq<real>, n: nat, sqrt: real -> real, j: nat)
    requires IsSqrt(sqrt)
    requires Square(L0, n) && PositiveDiagonal(L0, n) && |vec| == n && j <= n
    ensures forall r, c :: 0 <= r < n && 0 <= c < n && (r < c || j <= c) ==>
      Carlson(L0, vec, n, sqrt, j).L[r][c] == L0[r][c]
    decreases j
  {
    if j > 0 {
      CarlsonLowerOnly(L0, vec, n, sqrt, j - 1);
      var p := Carlson(L0, vec, n, sqrt, j - 1);
      ColumnFacts(p, j - 1, n, sqrt);
      var s := Carlson(L0, vec, n, sqrt, j);
      assert s == Column(p, j - 1, n, sqrt);
      forall r, c | 0 <= r < n && 0 <= c < n && (r < c || j <= c)
        ensures s.L[r][c] == L0[r][c]
      {
        assert s.L[r][c] == p.L[r][c];
      }
    }
  }

  // ---------------------------------------------------------------------
  // The meaning of the sweep: a rank-one update of the factor's product

  /** `sum_{k<m} L[r][k] * L[c][k]`. */
  ghost function Dot(L: Matrix, n: nat, r: nat, c: nat, m: nat): real
    requires Square(L, n) && r < n && c < n && m <= n
    decreases m
  {
    if m == 0 then 0.0 else Dot(L, n, r, c, m - 1) + L[r][m - 1] * L[c][m - 1]
  }

  /** Entry `(r, c)` of `L * L^T` for the lower triangle of `L`: the
      cumulative covariance of the references the factor stands for. */
  ghost function Gram(L: Matrix, n: nat, r: nat, c: nat): real
    requires Square(L, n) && r < n && c < n
  {
    Dot(L, n, r, c, (if r < c then r else c) + 1)
  }

  /** Two rows that agree outside column `j` have dot products that differ
      only by the column-`j` terms (when column `j` is summed at all). */
  lemma {:induction false} DotColumnChange(A: Matrix, B: Matrix, n: nat, r: nat, c: nat, m: nat, j: nat)
    requires Square(A, n) && Square(B, n) && r < n && c < n && m <= n && j < n
    requires forall k :: 0 <= k < n && k != j ==> A[r][k] == B[r][k] && A[c][k] == B[c][k]
    ensures Dot(B, n, r, c, m) ==
      Dot(A, n, r, c, m) + (if j < m then B[r][j] * B[c][j] - A[r][j] * A[c][j] else 0.0)
    decreases m
  {
    if 0 < m {
      DotColumnChange(A, B, n, r, c, m - 1, j);
    }
  }

  /** The quantity one sweep keeps constant: the product of the factor plus
      the remaining part of the reference vector, weighted by `1/bold^2`. */
  ghost function Energy(s: Sweep, n: nat, r: nat, c: nat): real
    requires Square(s.L, n) && |s.z| == n && 1.0 <= s.bold && r < n && c < n
  {
    Gram(s.L, n, r, c) + Weighted(s, n, r, c)
  }

  /** The scalar heart of the sweep: with `bnew^2 == bold^2 + a^2`, the new
      column entries `f*l + g*(z - a*l)` and the reduced `z - a*l` carry the
      same weighted energy as the old entries `l` and `z`. */
  lemma ColumnEntryIdentity(lr: real, lc: real, zr: real, zc: real, a: real, b: real, b2: real,
                            nr: real, nc: real, yr: real, yc: real)
    requires 1.0 <= b && 1.0 <= b2 && b2 * b2 == b * b + a * a
    requires yr == zr - a * lr && yc == zc - a * lc
    requires nr == Fac(b2, b) * lr + Gain(a, b2, b) * yr
    requires nc == Fac(b2, b) * lc + Gain(a, b2, b) * yc
    ensures nr * nc + yr * yc * InvSquare(b2) == lr * lc + zr * zc * InvSquare(b)
  {
    var f, g := Fac(b2, b), Gain(a, b2, b);
    var p := b / b2;
    CoefficientIdentities(a, b, b2);
    EntryAsCombination(f, g, a, p, lr, zr, yr, nr);
    EntryAsCombination(f, g, a, p, lc, zc, yc, nc);
    EnergyAlgebra(p, g, a, InvSquare(b), InvSquare(b2), lr, lc, zr, zc, nr, nc, yr, yc);
  }

  /** The scalars of one column with `p = bold/bnew` and `w = 1/bold^2`:
      `f - g*a == p`, `p^2 + a^2 w' == 1`, `g^2 + w' == w` and `p g == a w'`. */
  lemma CoefficientIdentities(a: real, b: real, b2: real)
    requires 1.0 <= b && 1.0 <= b2 && b2 * b2 == b * b + a * a
    ensures Fac(b2, b) - Gain(a, b2, b) * a == b / b2
    ensures (b / b2) * (b / b2) + (a * a) * InvSquare(b2) == 1.0
    ensures Gain(a, b2, b) * Gain(a, b2, b) + InvSquare(b2) == InvSquare(b)
    ensures (b / b2) * Gain(a, b2, b) == a * InvSquare(b2)
  {
    var f, g := Fac(b2, b), Gain(a, b2, b);
    var w, w2 := InvSquare(b), InvSquare(b2);
    var p := b / b2;
    assert f * b == b2;
    assert g * (b2 * b) == a;
    assert p * b2 == b;
    FacGainIdentity(a, b, b2, f, g, p);
    RetainIdentity(a, b, b2, p, w2);
    WeightIdentity(a, b, b2, g, w, w2);
    CrossIdentity(a, b, b2, g, p, w2);
  }

  lemma FacGainIdentity(a: real, b: real, b2: real, f: real, g: real, p: real)
    requires 0.0 < b && 0.0 < b2 && b2 * b2 == b * b + a * a
    requires f * b == b2 && g * (b2 * b) == a && p * b2 == b
    ensures f - g * a == p
  {
    ScaleBoth(f * b, b2, b2);
    ScaleBoth(g * (b2 * b), a, a);
    ScaleBoth(p * b2, b, b);
    Cancel(f - g * a, p, b * b2);
  }

  lemma RetainIdentity(a: real, b: real, b2: real, p: real, w2: real)
    requires 0.0 < b2 && b2 * b2 == b * b + a * a
    requires p * b2 == b && w2 * (b2 * b2) == 1.0
    ensures p * p + (a * a) * w2 == 1.0
  {
    SubstituteProduct(p * b2, p * b2, b, b);
    ScaleBoth(w2 * (b2 * b2), 1.0, a * a);
    Cancel(p * p + (a * a) * w2, 1.0, b2 * b2);
  }

  lemma WeightIdentity(a: real, b: real, b2: real, g: real, w: real, w2: real)
    requires 0.0 < b && 0.0 < b2 && b2 * b2 == b * b + a * a
    requires g * (b2 * b) == a && w * (b * b) == 1.0 && w2 * (b2 * b2) == 1.0
    ensures g * g + w2 == w
  {
    SubstituteProduct(g * (b2 * b), g * (b2 * b), a, a);
    ScaleBoth(w2 * (b2 * b2), 1.0, b * b);
    ScaleBoth(w * (b * b), 1.0, b2 * b2);
    Cancel(g * g + w2, w, (b * b) * (b2 * b2));
  }

  lemma CrossIdentity(a: real, b: real, b2: real, g: real, p: real, w2: real)
    requires 0.0 < b2
    requires g * (b2 * b) == a && p * b2 == b && w2 * (b2 * b2) == 1.0
    ensures p * g == a * w2
  {
    SubstituteProduct(p * b2, g * b2, b, g * b2);
    ScaleBoth(w2 * (b2 * b2), 1.0, a);
    Cancel(p * g, a * w2, b2 * b2);
  }

  /** A rotated entry `f*l + g*(z - a*l)` is `p*l + g*z` when `f - g*a == p`. */
  lemma EntryAsCombination(f: real, g: real, a: real, p: real, l: real, z: real, y: real, e: real)
    requires y == z - a * l && e == f * l + g * y && f - g * a == p
    ensures e == p * l + g * z
  {
    ScaleBoth(y, z - a * l, g);
    ScaleBoth(f - g * a, p, l);
  }

  /** The regrouping behind ColumnEntryIdentity, with the three coefficient
      identities `p^2 + a^2 w2 == 1`, `g^2 + w2 == w` and `p g == a w2`. */
  lemma EnergyAlgebra(p: real, g: real, a: real, w: real, w2: real,
                      lr: real, lc: real, zr: real, zc: real,
                      nr: real, nc: real, yr: real, yc: real)
    requires p * p + (a * a) * w2 == 1.0 && g * g + w2 == w && p * g == a * w2
    requires nr == p * lr + g * zr && nc == p * lc + g * zc
    requires yr == zr - a * lr && yc == zc - a * lc
    ensures nr * nc + yr * yc * w2 == lr * lc + zr * zc * w
  {
    ExpandEnergy(p, g, a, w2, lr, lc, zr, zc, nr, nc, yr, yc);
    Collect(p * p + (a * a) * w2, p * g - a * w2, g * g + w2, w, lr * lc, lr * zc + zr * lc, zr * zc);
  }

  /** Substituting the three coefficient identities into the grouped
      expansion of ExpandEnergy. */
  lemma Collect(u: real, v: real, t: real, w: real, x: real, y: real, z: real)
    requires u == 1.0 && v == 0.0 && t == w
    ensures u * x + v * y + t * z == x + z * w
  {
  }

  /** The weighted `z` part of the energy of entry `(r, c)`. */
  ghost function Weighted(s: Sweep, n: nat, r: nat, c: nat): real
    requires |s.z| == n && 1.0 <= s.bold && r < n && c < n
  {
    s.z[r] * s.z[c] * InvSquare(s.bold)
  }

  /** One column step at rows `r, c >= j`: `z` reduced by `a*L[.][j]` and
      the column-`j` entries rotated; the products of those entries gain
      exactly the weighted `z` part which is lost. */
  lemma RowsKeepEnergy(s: Sweep, t: Sweep, j: nat, n: nat, r: nat, c: nat, a: real)
    requires Square(s.L, n) && Square(t.L, n) && |s.z| == n && |t.z| == n
    requires j <= r < n && j <= c < n
    requires 1.0 <= s.bold && 1.0 <= t.bold && t.bold * t.bold == s.bold * s.bold + a * a
    requires t.z[r] == s.z[r] - a * s.L[r][j] && t.z[c] == s.z[c] - a * s.L[c][j]
    requires t.L[r][j] == Fac(t.bold, s.bold) * s.L[r][j] + Gain(a, t.bold, s.bold) * t.z[r]
    requires t.L[c][j] == Fac(t.bold, s.bold) * s.L[c][j] + Gain(a, t.bold, s.bold) * t.z[c]
    ensures t.L[r][j] * t.L[c][j] + Weighted(t, n, r, c) == s.L[r][j] * s.L[c][j] + Weighted(s, n, r, c)
  {
    ColumnEntryIdentity(s.L[r][j], s.L[c][j], s.z[r], s.z[c], a, s.bold, t.bold,
                        t.L[r][j], t.L[c][j], t.z[r], t.z[c]);
  }

  /** One column step seen only through the Gram entry `(r, c)`: outside
      column `j` rows `r` and `c` are unchanged; when both reach column `j`
      the column-`j` products trade against the weighted `z` part, and
      otherwise one of them has `z` already zero. Then the energy is kept. */
  lemma StepKeepsEnergy(s: Sweep, t: Sweep, j: nat, n: nat, r: nat, c: nat)
    requires Square(s.L, n) && Square(t.L, n) && |s.z| == n && |t.z| == n
    requires j < n && r < n && c < n && 1.0 <= s.bold && 1.0 <= t.bold
    requires forall k :: 0 <= k < n && k != j ==> s.L[r][k] == t.L[r][k] && s.L[c][k] == t.L[c][k]
    requires j <= r && j <= c ==>
      t.L[r][j] * t.L[c][j] + Weighted(t, n, r, c) == s.L[r][j] * s.L[c][j] + Weighted(s, n, r, c)
    requires r < j ==> s.z[r] == 0.0 && t.z[r] == 0.0
    requires c < j ==> s.z[c] == 0.0 && t.z[c] == 0.0
    ensures Energy(t, n, r, c) == Energy(s, n, r, c)
  {
    var m := (if r < c then r else c) + 1;
    DotColumnChange(s.L, t.L, n, r, c, m, j);
    var ds, dt := Dot(s.L, n, r, c, m), Dot(t.L, n, r, c, m);
    assert Energy(s, n, r, c) == ds + Weighted(s, n, r, c);
    assert Energy(t, n, r, c) == dt + Weighted(t, n, r, c);
    if j < m {
      Rebalance(ds, dt, s.L[r][j] * s.L[c][j], t.L[r][j] * t.L[c][j],
                Weighted(s, n, r, c), Weighted(t, n, r, c), Energy(s, n, r, c), Energy(t, n, r, c));
    } else {
      assert Weighted(s, n, r, c) == 0.0 && Weighted(t, n, r, c) == 0.0;
    }
  }

  /** The bookkeeping of StepKeepsEnergy: the Gram part gains exactly what
      the weighted `z` part loses. */
  lemma Rebalance(ds: real, dt: real, ps: real, pt: real, qs: real, qt: real, es: real, et: real)
    requires dt == ds + (pt - ps) && pt + qt == ps + qs
    requires es == ds + qs && et == dt + qt
    ensures et == es
  {
  }

  /** Row `k >= j` of one Column step: `z[k]` reduced by `a*L[k][j]`, then
      `L[k][j]` rotated with the new `z[k]`; `bnew^2 == bold^2 + a^2`. */
  lemma ColumnRow(s: Sweep, j: nat, n: nat, sqrt: real -> real, t: Sweep, a: real, k: nat)
    requires IsSqrt(sqrt)
    requires Square(s.L, n) && |s.z| == n && j <= k < n
    requires s.L[j][j] > 0.0 && 1.0 <= s.bold
    requires t == Column(s, j, n, sqrt) && a == Alpha(s.z[j], s.L[j][j])
    ensures 1.0 <= t.bold && t.bold * t.bold == s.bold * s.bold + a * a
    ensures t.z[k] == s.z[k] - a * s.L[k][j]
    ensures t.L[k][j] == Fac(t.bold, s.bold) * s.L[k][j] + Gain(a, t.bold, s.bold) * t.z[k]
  {
    RootOfSumAtLeast(sqrt, s.bold, a);
  }

  /** One column of the sweep keeps the energy of every entry, provided the
      already processed slots of `zz` are zero. */
  lemma ColumnKeepsEnergy(s: Sweep, j: nat, n: nat, sqrt: real -> real, r: nat, c: nat)
    requires IsSqrt(sqrt)
    requires Square(s.L, n) && |s.z| == n && j < n && r < n && c < n
    requires s.L[j][j] > 0.0 && 1.0 <= s.bold
    requires forall k :: 0 <= k < j ==> s.z[k] == 0.0
    ensures 1.0 <= Column(s, j, n, sqrt).bold
    ensures Energy(Column(s, j, n, sqrt), n, r, c) == Energy(s, n, r, c)
  {
    ColumnFacts(s, j, n, sqrt);
    var t := Column(s, j, n, sqrt);
    if j <= r && j <= c {
      var a := Alpha(s.z[j], s.L[j][j]);
      ColumnRow(s, j, n, sqrt, t, a, r);
      ColumnRow(s, j, n, sqrt, t, a, c);
      RowsKeepEnergy(s, t, j, n, r, c, a);
    }
    StepKeepsEnergy(s, t, j, n, r, c);
  }

  /** One more column of the sweep is one more Column step. */
  lemma CarlsonStep(L0: Matrix, vec: seq<real>, n: nat, sqrt: real -> real, j: nat)
    requires IsSqrt(sqrt)
    requires Square(L0, n) && PositiveDiagonal(L0, n) && |vec| == n && 0 < j <= n
    ensures Carlson(L0, vec, n, sqrt, j - 1).L[j - 1][j - 1] > 0.0
    ensures Carlson(L0, vec, n, sqrt, j) == Column(Carlson(L0, vec, n, sqrt, j - 1), j - 1, n, sqrt)
  {
  }

  /** Sweep state `s` carries the energy of `L0 L0^T + vec vec^T` in every entry. */
  ghost predicate Conserved(s: Sweep, L0: Matrix, vec: seq<real>, n: nat)
    requires Square(s.L, n) && |s.z| == n && 1.0 <= s.bold && Square(L0, n) && |vec| == n
  {
    forall r, c :: 0 <= r < n && 0 <= c < n ==> Energy(s, n, r, c) == Gram(L0, n, r, c) + vec[r] * vec[c]
  }

  /** Every prefix of the sweep keeps `Gram(L) + z z^T / bold^2` at its
      starting value `Gram(L0) + vec vec^T`. */
  lemma {:induction false} CarlsonKeepsEnergy(L0: Matrix, vec: seq<real>, n: nat, sqrt: real -> real, j: nat)
    requires IsSqrt(sqrt)
    requires Square(L0, n) && PositiveDiagonal(L0, n) && |vec| == n && j <= n
    ensures Conserved(Carlson(L0, vec, n, sqrt, j), L0, vec, n)
    decreases j
  {
    if j == 0 {
      assert InvSquare(1.0) == 1.0;
    } else {
      CarlsonKeepsEnergy(L0, vec, n, sqrt, j - 1);
      var t := Carlson(L0, vec, n, sqrt, j);
      forall r, c | 0 <= r < n && 0 <= c < n
        ensures Energy(t, n, r, c) == Gram(L0, n, r, c) + vec[r] * vec[c]
      {
        CarlsonEntryStep(L0, vec, n, sqrt, j, r, c);
      }
    }
  }

  /** The induction step of CarlsonKeepsEnergy for one entry `(r, c)`. */
  lemma CarlsonEntryStep(L0: Matrix, vec: seq<real>, n: nat, sqrt: real -> real, j: nat, r: nat, c: nat)
    requires IsSqrt(sqrt)
    requires Square(L0, n) && PositiveDiagonal(L0, n) && |vec| == n && 0 < j <= n && r < n && c < n
    requires Conserved(Carlson(L0, vec, n, sqrt, j - 1), L0, vec, n)
    ensures Energy(Carlson(L0, vec, n, sqrt, j), n, r, c) == Gram(L0, n, r, c) + vec[r] * vec[c]
  {
    CarlsonZeroesProcessed(L0, vec, n, sqrt, j - 1);
    CarlsonStep(L0, vec, n, sqrt, j);
    var p := Carlson(L0, vec, n, sqrt, j - 1);
    ColumnKeepsEnergy(p, j - 1, n, sqrt, r, c);
    assert Energy(p, n, r, c) == Gram(L0, n, r, c) + vec[r] * vec[c];
  }

  /** `L L^T == L0 L0^T + vec vec^T`, comparing lower triangles. */
  ghost predicate RankOneUpdated(L: Matrix, L0: Matrix, vec: seq<real>, n: nat)
    requires Square(L, n) && Square(L0, n) && |vec| == n
  {
    forall r, c :: 0 <= r < n && 0 <= c < n ==> Gram(L, n, r, c) == Gram(L0, n, r, c) + vec[r] * vec[c]
  }

  /** A whole call of update_PCOR_references turns the factor of the
      covariance `L0 L0^T` into a factor of `L0 L0^T + vec vec^T`. */
  lemma CarlsonRankOneUpdate(L0: Matrix, vec: seq<real>, n: nat, sqrt: real -> real)
    requires IsSqrt(sqrt)
    requires Square(L0, n) && PositiveDiagonal(L0, n) && |vec| == n
    ensures RankOneUpdated(Carlson(L0, vec, n, sqrt, n).L, L0, vec, n)
  {
    CarlsonKeepsEnergy(L0, vec, n, sqrt, n);
    CarlsonZeroesProcessed(L0, vec, n, sqrt, n);
    var s := Carlson(L0, vec, n, sqrt, n);
    forall r, c | 0 <= r < n && 0 <= c < n
      ensures Gram(s.L, n, r, c) == Gram(L0, n, r, c) + vec[r] * vec[c]
    {
      assert s.z[r] == 0.0;
      assert Energy(s, n, r, c) == Gram(s.L, n, r, c);
    }
  }

  /** A rotation with `f == 1` and `g == 0` leaves the factor as it is. */
  lemma RotateIdentity(L: Matrix, z: seq<real>, j: nat, n: nat)
    requires Square(L, n) && |z| == n && j < n
    ensures Rotate(L, z, j, n, 1.0, 0.0) == L
  {
    SameMatrix(Rotate(L, z, j, n, 1.0, 0.0), L, n);
  }

  /** An elimination with `a == 0` leaves the work copy as it is. */
  lemma EliminateIdentity(z: seq<real>, L: Matrix, j: nat, n: nat)
    requires Square(L, n) && |z| == n && j < n
    ensures Eliminate(z, L, j, n, 0.0) == z
  {
  }

  /** Absorbing an all-zero reference vector changes nothing: every `alpha`
      is 0, every `f` is 1 and every `g` is 0, so the factor, the work copy
      and `bold == 1` all stay as they were. */
  lemma {:induction false} ZeroSweep(L0: Matrix, vec: seq<real>, n: nat, sqrt: real -> real, j: nat)
    requires IsSqrt(sqrt)
    requires Square(L0, n) && PositiveDiagonal(L0, n) && |vec| == n && j <= n
    requires forall i :: 0 <= i < n ==> vec[i] == 0.0
    ensures Carlson(L0, vec, n, sqrt, j).L == L0
    ensures Carlson(L0, vec, n, sqrt, j).z == vec
    ensures Carlson(L0, vec, n, sqrt, j).bold == 1.0
    decreases j
  {
    if 0 < j {
      ZeroSweep(L0, vec, n, sqrt, j - 1);
      CarlsonStep(L0, vec, n, sqrt, j);
      var p := Carlson(L0, vec, n, sqrt, j - 1);
      var t := Column(p, j - 1, n, sqrt);
      var a := Alpha(p.z[j - 1], p.L[j - 1][j - 1]);
      assert p.z[j - 1] == 0.0;
      ZeroQuotient(p.z[j - 1], p.L[j - 1][j - 1]);
      SqrtOfOne(sqrt);
      assert Beta(sqrt, 1.0, a) == 1.0;
      assert Fac(1.0, 1.0) == 1.0 && Gain(a, 1.0, 1.0) == 0.0;
      EliminateIdentity(vec, L0, j - 1, n);
      RotateIdentity(L0, vec, j - 1, n);
    }
  }

  /** What one whole call of update_PCOR_references does, in the terms the
      class states it: every `f >= 1`, no diagonal entry shrinks, the strict
      upper triangle is untouched, the product of the factor takes the
      rank-one update, and an all-zero reference vector changes nothing. */
  lemma SweepOutcome(L0: Matrix, vec: seq<real>, n: nat, sqrt: real -> real)
    requires IsSqrt(sqrt)
    requires Square(L0, n) && PositiveDiagonal(L0, n) && |vec| == n
    ensures forall i :: 0 <= i < n ==> 1.0 <= Carlson(L0, vec, n, sqrt, n).ff[i]
    ensures forall i :: 0 <= i < n ==> L0[i][i] <= Carlson(L0, vec, n, sqrt, n).L[i][i]
    ensures forall r, c :: 0 <= r < c < n ==> Carlson(L0, vec, n, sqrt, n).L[r][c] == L0[r][c]
    ensures RankOneUpdated(Carlson(L0, vec, n, sqrt, n).L, L0, vec, n)
    ensures (forall i :: 0 <= i < n ==> vec[i] == 0.0) ==>
      Carlson(L0, vec, n, sqrt, n).L == L0 && Carlson(L0, vec, n, sqrt, n).bold == 1.0
  {
    CarlsonFactorsAtLeastOne(L0, vec, n, sqrt, n);
    DiagonalNeverShrinks(L0, vec, n, sqrt, n);
    CarlsonLowerOnly(L0, vec, n, sqrt, n);
    CarlsonRankOneUpdate(L0, vec, n, sqrt);
    if forall i :: 0 <= i < n ==> vec[i] == 0.0 {
      ZeroSweep(L0, vec, n, sqrt, n);
    }
  }

  class References {
    const nref: nat
    /** `chol[i, j]` for `j <= i` is row `i`, column `j` of the factor. */
    const chol: array2<real>
    const alp: array<real>
    const ff: array<real>
    const gg: array<real>
    var betasq: real
    var nupdate: int

    ghost predicate Valid()
      reads this, chol
    {
      && 1 <= nref
      && chol.Length0 == nref && chol.Length1 == nref
      && alp.Length == nref && ff.Length == nref && gg.Length == nref
      && alp != ff && ff != gg && alp != gg
      && 0 <= nupdate
      && forall i :: 0 <= i < nref ==> REF_EPS <= chol[i, i]
    }

    /** The factor as a value. */
    ghost function Factor(): (L: Matrix)
      reads chol
      ensures |L| == chol.Length0
      ensures forall i :: 0 <= i < chol.Length0 ==> |L[i]| == chol.Length1
      ensures forall i, j :: 0 <= i < chol.Length0 && 0 <= j < chol.Length1 ==> L[i][j] == chol[i, j]
    {
      seq(chol.Length0, i requires 0 <= i < chol.Length0 reads chol =>
        seq(chol.Length1, j requires 0 <= j < chol.Length1 reads chol => chol[i, j]))
    }

    /** new_PCOR_references for `numref >= 1`: a factor with `REF_EPS` on the
        diagonal and zeros below it, and no update absorbed yet. */
    constructor (numref: nat)
      requires 1 <= numref
      ensures Valid() && nref == numref && nupdate == 0
      ensures fresh(chol) && fresh(alp) && fresh(ff) && fresh(gg)
      ensures forall i, j :: 0 <= j <= i < nref ==> chol[i, j] == (if i == j then REF_EPS else 0.0)
    {
      nref := numref;
      nupdate := 0;
      chol := new real[numref, numref];
      alp := new real[numref];
      ff := new real[numref];
      gg := new real[numref];
      new;
      var ii := 0;
      while ii < numref
        modifies chol
        invariant 0 <= ii <= numref
        invariant forall i, j :: 0 <= j <= i < ii ==> chol[i, j] == (if i == j then REF_EPS else 0.0)
      {
        var jj := 0;
        while jj < ii
          modifies chol
          invariant 0 <= jj <= ii
          invariant forall i, j :: 0 <= j <= i < ii ==> chol[i, j] == (if i == j then REF_EPS else 0.0)
          invariant forall j :: 0 <= j < jj ==> chol[ii, j] == 0.0
        {
          chol[ii, jj] := 0.0;
          jj := jj + 1;
        }
        chol[ii, ii] := REF_EPS;
        ii := ii + 1;
      }
    }

    /** update_PCOR_references: absorb the reference vector of one time point.
        The factor, `alp`, `ff`, `gg` and `betasq` become what the Carlson sweep
        over all `nref` columns yields; `vec` is only read, through the copy `zz`. */
    method Update(vec: array<real>, sqrt: real -> real)
      requires Valid() && IsSqrt(sqrt)
      requires vec.Length == nref && vec != alp && vec != ff && vec != gg
      modifies chol, alp, ff, gg, this`betasq, this`nupdate
      ensures Valid()
      ensures Square(old(Factor()), nref) && PositiveDiagonal(old(Factor()), nref)
      ensures Factor() == Carlson(old(Factor()), old(vec[..]), nref, sqrt, nref).L
      ensures alp[..] == Carlson(old(Factor()), old(vec[..]), nref, sqrt, nref).alp
      ensures ff[..] == Carlson(old(Factor()), old(vec[..]), nref, sqrt, nref).ff
      ensures gg[..] == Carlson(old(Factor()), old(vec[..]), nref, sqrt, nref).gg
      ensures betasq == InvSquare(Carlson(old(Factor()), old(vec[..]), nref, sqrt, nref).bold)
      ensures nupdate == old(nupdate) + 1
      ensures vec[..] == old(vec[..])
      ensures 0.0 < betasq <= 1.0
      ensures forall i :: 0 <= i < nref ==> 1.0 <= ff[i]
      ensures forall i :: 0 <= i < nref ==> old(Factor())[i][i] <= Factor()[i][i]
      ensures forall r, c :: 0 <= r < c < nref ==> Factor()[r][c] == old(Factor())[r][c]
      ensures RankOneUpdated(Factor(), old(Factor()), old(vec[..]), nref)
      ensures (forall i :: 0 <= i < nref ==> old(vec[..])[i] == 0.0) ==>
        Factor() == old(Factor()) && betasq == 1.0
    {
      var nr := nref;
      ghost var L0 := Factor();
      assert Square(L0, nr) && PositiveDiagonal(L0, nr);
      var zz := CopyOf(vec);
      ghost var v0 := zz[..];

      var bold := SweepAll(zz, sqrt);
      ghost var s := Carlson(L0, v0, nr, sqrt, nr);
      assert Factor() == s.L;
      SweepOutcome(L0, v0, nr, sqrt);
      forall i | 0 <= i < nr
        ensures REF_EPS <= chol[i, i]
      {
        assert chol[i, i] == Factor()[i][i];
        assert L0[i][i] <= s.L[i][i];
      }
      assert ff[..] == s.ff;
      betasq := InvSquare(bold);
      nupdate := nupdate + 1;
    }

    /** The arrays and `bold` hold sweep state `s` after `j` columns. */
    ghost predicate Tracks(s: Sweep, j: nat, zz: array<real>, bold: real)
      reads this, chol, zz, alp, ff, gg
    {
      && j <= alp.Length && j <= ff.Length && j <= gg.Length
      && Factor() == s.L && zz[..] == s.z && bold == s.bold
      && alp[..j] == s.alp && ff[..j] == s.ff && gg[..j] == s.gg
    }

    /** The `jj` loop of update_PCOR_references: all `nref` columns of the
        Carlson sweep, from `bold == 1`, with `zz` as the work vector. */
    method SweepAll(zz: array<real>, sqrt: real -> real) returns (bold: real)
      requires Valid() && IsSqrt(sqrt)
      requires zz.Length == nref && zz != alp && zz != ff && zz != gg
      modifies chol, zz, alp, ff, gg
      ensures Square(old(Factor()), nref) && PositiveDiagonal(old(Factor()), nref)
      ensures Factor() == Carlson(old(Factor()), old(zz[..]), nref, sqrt, nref).L
      ensures alp[..] == Carlson(old(Factor()), old(zz[..]), nref, sqrt, nref).alp
      ensures ff[..] == Carlson(old(Factor()), old(zz[..]), nref, sqrt, nref).ff
      ensures gg[..] == Carlson(old(Factor()), old(zz[..]), nref, sqrt, nref).gg
      ensures bold == Carlson(old(Factor()), old(zz[..]), nref, sqrt, nref).bold
    {
      var nr := nref;
      ghost var L0 := Factor();
      ghost var v0 := zz[..];
      assert Square(L0, nr) && PositiveDiagonal(L0, nr);
      bold := 1.0;
      var jj := 0;
      ghost var s := Carlson(L0, v0, nr, sqrt, 0);
      while jj < nr
        invariant 0 <= jj <= nr
        invariant s == Carlson(L0, v0, nr, sqrt, jj)
        invariant Tracks(s, jj, zz, bold)
      {
        assert s.L[jj][jj] == L0[jj][jj];
        bold := AbsorbColumn(jj, zz, bold, sqrt, s);
        s := Column(s, jj, nr, sqrt);
        jj := jj + 1;
      }
      assert alp[..] == alp[..nr] && ff[..] == ff[..nr] && gg[..] == gg[..nr];
    }

    /** One pass of the `jj` loop of update_PCOR_references: compute and save
        the column's `alpha`, `f` and `g`, then sweep the column; the result
        is one `Column` step of the sweep from state `s`. */
    method AbsorbColumn(jj: nat, zz: array<real>, bold: real, sqrt: real -> real, ghost s: Sweep)
      returns (bnew: real)
      requires IsSqrt(sqrt)
      requires chol.Length0 == chol.Length1 == zz.Length == alp.Length == ff.Length == gg.Length
      requires alp != ff && ff != gg && alp != gg && alp != zz && ff != zz && gg != zz
      requires jj < zz.Length
      requires Square(s.L, zz.Length) && |s.z| == zz.Length && s.L[jj][jj] > 0.0 && s.bold > 0.0
      requires Tracks(s, jj, zz, bold)
      modifies chol, zz, alp, ff, gg
      ensures Tracks(Column(s, jj, zz.Length, sqrt), jj + 1, zz, bnew)
    {
      ghost var n := zz.Length;
      assert chol[jj, jj] == s.L[jj][jj] && zz[jj] == s.z[jj];
      var aaa := Alpha(zz[jj], chol[jj, jj]);
      bnew := Beta(sqrt, bold, aaa);
      var fff := Fac(bnew, bold);
      var ggg := Gain(aaa, bnew, bold);
      alp[jj] := aaa;
      ff[jj] := fff;
      gg[jj] := ggg;
      assert Factor() == s.L && zz[..] == s.z;
      SweepColumn(jj, zz, aaa, fff, ggg);
      ghost var t := Column(s, jj, n, sqrt);
      assert t.z == Eliminate(s.z, s.L, jj, n, aaa) == zz[..];
      assert t.L == Rotate(s.L, t.z, jj, n, fff, ggg) == Factor();
      assert alp[..jj + 1] == s.alp + [aaa];
      assert ff[..jj + 1] == s.ff + [fff];
      assert gg[..jj + 1] == s.gg + [ggg];
    }

    /** The `kk` loop of update_PCOR_references for column `jj`: every row
        `k >= jj` first has `aaa` times its column-`jj` entry subtracted from
        `zz[k]`, then gets `fff*chol[k, jj] + ggg*zz[k]` as that entry. */
    method SweepColumn(jj: nat, zz: array<real>, aaa: real, fff: real, ggg: real)
      requires chol.Length0 == chol.Length1 == zz.Length && jj < zz.Length
      modifies chol, zz
      ensures zz[..] == Eliminate(old(zz[..]), old(Factor()), jj, zz.Length, aaa)
      ensures Factor() == Rotate(old(Factor()), zz[..], jj, zz.Length, fff, ggg)
    {
      ghost var n := zz.Length;
      ghost var L := Factor();
      ghost var z' := Eliminate(zz[..], L, jj, n, aaa);
      var kk := jj;
      while kk < zz.Length
        invariant jj <= kk <= zz.Length
        invariant forall k :: 0 <= k < n ==> zz[k] == (if kk <= k then old(zz[k]) else z'[k])
        invariant forall k, c :: 0 <= k < n && 0 <= c < n ==>
          chol[k, c] == (if jj <= k < kk && c == jj then fff * L[k][jj] + ggg * z'[k] else L[k][c])
      {
        zz[kk] := zz[kk] - aaa * chol[kk, jj];
        chol[kk, jj] := fff * chol[kk, jj] + ggg * zz[kk];
        kk := kk + 1;
      }
      assert zz[..] == z';
      SameMatrix(Factor(), Rotate(L, z', jj, n, fff, ggg), n);
    }
  }

  /** A fresh copy of `vec` (the `zz` work array). */
  method CopyOf(vec: array<real>) returns (zz: array<real>)
    ensures fresh(zz) && zz[..] == vec[..]
  {
    zz := new real[vec.Length];
    var k := 0;
    while k < vec.Length
      invariant 0 <= k <= vec.Length
      invariant forall i :: 0 <= i < k ==> zz[i] == vec[i]
    {
      zz[k] := vec[k];
      k := k + 1;
    }
  }

  /** Two square matrices that agree entry by entry are equal. */
  lemma SameMatrix(A: Matrix, B: Matrix, n: nat)
    requires Square(A, n) && Square(B, n)
    requires forall r, c :: 0 <= r < n && 0 <= c < n ==> A[r][c] == B[r][c]
    ensures A == B
  {
    forall r | 0 <= r < n
      ensures A[r] == B[r]
    {
    }
  }

  /** new_PCOR_references: no structure (NULL) for `numref < 1`, otherwise a
      fresh one as the constructor describes. */
  method NewReferences(numref: int) returns (ref: References?)
    ensures numref < 1 <==> ref == null
    ensures ref != null ==>
      && fresh(ref) && fresh(ref.chol) && ref.Valid()
      && ref.nref == numref && ref.nupdate == 0
      && forall i, j :: 0 <= j <= i < numref ==> ref.chol[i, j] == (if i == j then REF_EPS else 0.0)
  {
    if numref < 1 {
      return null;
    }
    ref := new References(numref);
  }
}
