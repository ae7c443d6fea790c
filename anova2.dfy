/**
 * Parts of AFNI's two-factor ANOVA program (src/3dANOVA2.c): the design
 * validation, the temporary-file count, the `-dset` tally with its
 * equal-cell-size rule, the summation ranges of `calculate_sum`, and the
 * clamped differences that produce the sums of squares. The volumes the C
 * code stages on disk are passed in as sequences of voxel values.
 */
module Anova2 {

  /** The options the checks look at; `model` is 1 (fixed), 2 (random) or
      3 (mixed effects), and the `num*`/`n*` fields count the requests of
      each output kind. */
  datatype Options = Options(
    a: int, b: int, n: int, model: int,
    nftr: int, nfab: int, nfa: int, nfb: int,
    numAmeans: int, numBmeans: int, numAdiffs: int, numBdiffs: int,
    numAcontr: int, numBcontr: int)

  datatype Verdict = Accept | Reject(msg: string)

  // ---------------------------------------------------------------------
  // check_for_valid_inputs

  /** check_for_valid_inputs: the first rule broken, in the order the C
      code tests them, or `Accept`. */
  function CheckForValidInputs(o: Options): (v: Verdict)
    ensures v == Accept <==> ValidDesign(o)
  {
    if o.a < 2 then Reject("must specify number of factor A levels (a>1)")
    else if o.b < 2 then Reject("must specify number of factor B levels (b>1)")
    else if o.n < 1 then Reject("sample size is too small")
    else if o.model == 1 then
      if o.n == 1 then Reject("sample size is too small for fixed effects model") else Accept
    else if o.model == 2 then RandomModelCheck(o)
    else if o.model == 3 then MixedModelCheck(o)
    else Accept
  }

  /** The random-effects case of check_for_valid_inputs. */
  function RandomModelCheck(o: Options): (v: Verdict)
    ensures v == Accept <==>
      o.nftr <= 0 && NoAEstimates(o) && NoBEstimates(o) && (o.n == 1 ==> o.nfab <= 0)
  {
    if o.nftr > 0 then Reject("-ftr is inappropriate for random effects model")
    else if o.numAmeans > 0 then Reject("-amean is inappropriate for random effects model")
    else if o.numBmeans > 0 then Reject("-bmean is inappropriate for random effects model")
    else if o.numAdiffs > 0 then Reject("-adiff is inappropriate for random effects model")
    else if o.numBdiffs > 0 then Reject("-bdiff is inappropriate for random effects model")
    else if o.numAcontr > 0 then Reject("-acontr is inappropriate for random effects model")
    else if o.numBcontr > 0 then Reject("-bcontr is inappropriate for random effects model")
    else if o.n == 1 && o.nfab > 0 then Reject("sample size too small to calculate F-interaction")
    else Accept
  }

  /** The mixed-effects case of check_for_valid_inputs. */
  function MixedModelCheck(o: Options): (v: Verdict)
    ensures v == Accept <==>
      o.nftr <= 0 && NoBEstimates(o) && (o.n == 1 ==> o.nfab <= 0 && o.nfb <= 0)
  {
    if o.nftr > 0 then Reject("-ftr is inappropriate for mixed effects model")
    else if o.numBmeans > 0 then Reject("-bmean is inappropriate for mixed effects model")
    else if o.numBdiffs > 0 then Reject("-bdiff is inappropriate for mixed effects model")
    else if o.numBcontr > 0 then Reject("-bcontr is inappropriate for mixed effects model")
    else if o.n == 1 && o.nfab > 0 then Reject("sample size too small to calculate F-interaction")
    else if o.n == 1 && o.nfb > 0 then Reject("sample size too small to calculate F for B effect")
    else Accept
  }

  /** No per-level estimate of factor A is requested (means, differences,
      contrasts). */
  predicate NoAEstimates(o: Options) {
    o.numAmeans <= 0 && o.numAdiffs <= 0 && o.numAcontr <= 0
  }

  predicate NoBEstimates(o: Options) {
    o.numBmeans <= 0 && o.numBdiffs <= 0 && o.numBcontr <= 0
  }

  /** The designs the program accepts: at least two levels of each factor,
      a positive cell size; the fixed model needs replication; the random
      model allows no treatment F-test and no level estimates of either
      factor, the mixed model none for the random factor B; with one
      observation per cell no interaction F-test (nor, for the mixed model,
      F-test for B) can be formed. */
  predicate ValidDesign(o: Options) {
    && 2 <= o.a && 2 <= o.b && 1 <= o.n
    && (o.model == 1 ==> 2 <= o.n)
    && (o.model == 2 ==> o.nftr <= 0 && NoAEstimates(o) && NoBEstimates(o))
    && (o.model == 3 ==> o.nftr <= 0 && NoBEstimates(o))
    && ((o.model == 2 || o.model == 3) && o.n == 1 ==> o.nfab <= 0)
    && (o.model == 3 && o.n == 1 ==> o.nfb <= 0)
  }

  // ---------------------------------------------------------------------
  // required_data_files

  /** All requested outputs, each of which is one more file at the end. */
  function TotalRequests(o: Options): int {
    o.nftr + o.nfab + o.nfa + o.nfb + o.numAmeans + o.numBmeans
      + o.numAdiffs + o.numBdiffs + o.numAcontr + o.numBcontr
  }

  /** required_data_files: the larger of the files alive at the end (five
      plus one per requested output) and the peak during the sums of
      squares (six, or five without replication). */
  function RequiredDataFiles(o: Options): (r: int)
    ensures 5 + TotalRequests(o) <= r
    ensures (if o.n != 1 then 6 else 5) <= r
    ensures r == 5 + TotalRequests(o) || r == (if o.n != 1 then 6 else 5)
  {
    var nmax := if o.n != 1 then 6 else 5;
    var now := 5 + TotalRequests(o);
    if now >= nmax then now else nmax
  }

  /** Every accepted fixed-effects design keeps at least six files on disk. */
  lemma FixedDesignNeedsSixFiles(o: Options)
    requires CheckForValidInputs(o) == Accept && o.model == 1
    ensures 6 <= RequiredDataFiles(o)
  {
  }

  // ---------------------------------------------------------------------
  // get_options: the -dset tally and the equal-cell-size rule

  /** A `-dset i j` pair names an existing cell (levels are 1-based). */
  predicate Legal(p: (int, int), a: int, b: int): (ok: bool)
    ensures ok <==> 0 <= p.0 - 1 < a && 0 <= p.1 - 1 < b
  {
    1 <= p.0 <= a && 1 <= p.1 <= b
  }

  /** How many of the pairs name cell `c`. */
  function CountOf(ds: seq<(int, int)>, c: (int, int)): (k: nat)
    ensures k <= |ds|
  {
    if |ds| == 0 then 0
    else CountOf(ds[..|ds| - 1], c) + (if ds[|ds| - 1] == c then 1 else 0)
  }

  /** A cell's count is 0 exactly when no pair names it. */
  lemma {:induction false} CountOfZero(ds: seq<(int, int)>, c: (int, int))
    ensures CountOf(ds, c) == 0 <==> forall i :: 0 <= i < |ds| ==> ds[i] != c
  {
    if |ds| != 0 {
      var init := ds[..|ds| - 1];
      CountOfZero(init, c);
      assert forall i :: 0 <= i < |init| ==> init[i] == ds[i];
    }
  }

  /** A cell's count is the number of pairs exactly when every pair names it. */
  lemma {:induction false} CountOfAll(ds: seq<(int, int)>, c: (int, int))
    ensures CountOf(ds, c) == |ds| <==> forall i :: 0 <= i < |ds| ==> ds[i] == c
  {
    if |ds| != 0 {
      var init := ds[..|ds| - 1];
      CountOfAll(init, c);
      assert forall i :: 0 <= i < |init| ==> init[i] == ds[i];
    }
  }

  /** Pairs `0 .. k-1` passed both checks: their levels are legal and no
      cell had more than `maxObs` files once they were counted. */
  ghost predicate CleanBefore(ds: seq<(int, int)>, k: nat, a: int, b: int, maxObs: int)
    requires k <= |ds|
  {
    forall t :: 0 <= t < k ==> Legal(ds[t], a, b) && CountOf(ds[..t + 1], ds[t]) <= maxObs
  }

  datatype Tally = EqualCells(n: int) | IllegalLevel(at: nat) | TooManyFiles(at: nat) | UnequalCells

  /** The `-dset` handling of get_options over the pairs in order, followed
      by the equal-sample-size check; `a` and `b` are the level counts in
      force and `maxObs` is MAX_OBSERVATIONS. */
  method TallyDsets(a: nat, b: nat, maxObs: int, ds: seq<(int, int)>) returns (res: Tally)
    ensures res.IllegalLevel? ==>
      res.at < |ds| && CleanBefore(ds, res.at, a, b, maxObs) && !Legal(ds[res.at], a, b)
    ensures res.TooManyFiles? ==>
      && res.at < |ds| && CleanBefore(ds, res.at, a, b, maxObs)
      && Legal(ds[res.at], a, b) && maxObs < CountOf(ds[..res.at + 1], ds[res.at])
    ensures res.EqualCells? || res.UnequalCells? ==> CleanBefore(ds, |ds|, a, b, maxObs)
    ensures res.EqualCells? ==>
      && res.n == CountOf(ds, (1, 1))
      && forall i, j :: 1 <= i <= a && 1 <= j <= b ==> CountOf(ds, (i, j)) == res.n
    ensures res.UnequalCells? ==>
      exists i, j :: 1 <= i <= a && 1 <= j <= b && CountOf(ds, (i, j)) != CountOf(ds, (1, 1))
  {
    var cnt := new int[a, b]((i, j) => 0);
    var k := 0;
    while k < |ds|
      invariant 0 <= k <= |ds|
      invariant CleanBefore(ds, k, a, b, maxObs)
      invariant forall i, j {:trigger cnt[i, j]} :: 0 <= i < a && 0 <= j < b ==> cnt[i, j] == CountOf(ds[..k], (i + 1, j + 1))
    {
      var (ival, jval) := ds[k];
      if ival <= 0 || ival > a || jval <= 0 || jval > b {
        return IllegalLevel(k);
      }
      CountStep(ds, k);
      cnt[ival - 1, jval - 1] := cnt[ival - 1, jval - 1] + 1;
      if cnt[ival - 1, jval - 1] > maxObs {
        return TooManyFiles(k);
      }
      CleanExtend(ds, k, a, b, maxObs);
      k := k + 1;
    }
    assert ds[..k] == ds;
    res := CompareCounts(ds, a, b, cnt);
  }

  /** A pair that passes both checks extends the clean prefix. */
  lemma CleanExtend(ds: seq<(int, int)>, k: nat, a: int, b: int, maxObs: int)
    requires k < |ds| && CleanBefore(ds, k, a, b, maxObs)
    requires Legal(ds[k], a, b) && CountOf(ds[..k + 1], ds[k]) <= maxObs
    ensures CleanBefore(ds, k + 1, a, b, maxObs)
  {
  }

  /** Counting one more pair adds one to its own cell only. */
  lemma CountStep(ds: seq<(int, int)>, k: nat)
    requires k < |ds|
    ensures forall c :: CountOf(ds[..k + 1], c) == CountOf(ds[..k], c) + (if ds[k] == c then 1 else 0)
  {
    assert ds[..k + 1][..k] == ds[..k];
  }

  /** The equal-sample-size check on the final counts of legal pairs: every
      cell must hold as many files as cell (1, 1). */
  method CompareCounts(ds: seq<(int, int)>, a: nat, b: nat, cnt: array2<int>) returns (res: Tally)
    requires cnt.Length0 == a && cnt.Length1 == b
    requires forall t :: 0 <= t < |ds| ==> Legal(ds[t], a, b)
    requires forall i, j :: 0 <= i < a && 0 <= j < b ==> cnt[i, j] == CountOf(ds, (i + 1, j + 1))
    ensures res.EqualCells? || res.UnequalCells?
    ensures res.EqualCells? ==>
      && res.n == CountOf(ds, (1, 1))
      && forall i, j :: 1 <= i <= a && 1 <= j <= b ==> CountOf(ds, (i, j)) == res.n
    ensures res.UnequalCells? ==>
      exists i, j :: 1 <= i <= a && 1 <= j <= b && CountOf(ds, (i, j)) != CountOf(ds, (1, 1))
  {
    if a == 0 || b == 0 {
      assert |ds| == 0 by {
        assert 0 < |ds| ==> Legal(ds[0], a, b);
      }
    }
    var n0 := if a > 0 && b > 0 then cnt[0, 0] else 0;
    assert n0 == CountOf(ds, (1, 1));
    res := CheckEqualCells(cnt, n0);
    if res.EqualCells? {
      forall i, j | 1 <= i <= a && 1 <= j <= b
        ensures CountOf(ds, (i, j)) == res.n
      {
        assert cnt[i - 1, j - 1] == n0;
      }
    }
    if res.UnequalCells? {
      var i, j :| 0 <= i < a && 0 <= j < b && cnt[i, j] != n0;
      assert CountOf(ds, (i + 1, j + 1)) != CountOf(ds, (1, 1));
    }
  }

  method CheckEqualCells(cnt: array2<int>, n0: int) returns (res: Tally)
    ensures res == EqualCells(n0) || res == UnequalCells
    ensures res == EqualCells(n0) <==>
      forall i, j :: 0 <= i < cnt.Length0 && 0 <= j < cnt.Length1 ==> cnt[i, j] == n0
  {
    var i := 0;
    while i < cnt.Length0
      invariant 0 <= i <= cnt.Length0
      invariant forall r, c :: 0 <= r < i && 0 <= c < cnt.Length1 ==> cnt[r, c] == n0
    {
      var j := 0;
      while j < cnt.Length1
        invariant 0 <= j <= cnt.Length1
        invariant forall c :: 0 <= c < j ==> cnt[i, c] == n0
      {
        if cnt[i, j] != n0 {
          return UnequalCells;
        }
        j := j + 1;
      }
      i := i + 1;
    }
    return EqualCells(n0);
  }

  /** Counting never goes down as more pairs are read. */
  lemma {:induction false} CountGrows(ds: seq<(int, int)>, k: nat, c: (int, int))
    requires k <= |ds|
    ensures CountOf(ds[..k], c) <= CountOf(ds, c)
    decreases |ds| - k
  {
    if k < |ds| {
      CountGrows(ds, k + 1, c);
      assert ds[..k + 1][..k] == ds[..k];
    } else {
      assert ds[..k] == ds;
    }
  }

  /** Checking the limit after every pair, as the C code does, is the same
      as checking the final counts: all pairs pass exactly when every level
      is legal and no cell ends with more than `maxObs` files. */
  lemma CleanIffFinalCountsBounded(ds: seq<(int, int)>, a: int, b: int, maxObs: int)
    ensures CleanBefore(ds, |ds|, a, b, maxObs) <==>
      forall t :: 0 <= t < |ds| ==> Legal(ds[t], a, b) && CountOf(ds, ds[t]) <= maxObs
  {
    if CleanBefore(ds, |ds|, a, b, maxObs) {
      CleanBoundsFinalCounts(ds, a, b, maxObs);
    }
    if forall t :: 0 <= t < |ds| ==> Legal(ds[t], a, b) && CountOf(ds, ds[t]) <= maxObs {
      FinalCountsBoundClean(ds, a, b, maxObs);
    }
  }

  lemma CleanBoundsFinalCounts(ds: seq<(int, int)>, a: int, b: int, maxObs: int)
    requires CleanBefore(ds, |ds|, a, b, maxObs)
    ensures forall t :: 0 <= t < |ds| ==> Legal(ds[t], a, b) && CountOf(ds, ds[t]) <= maxObs
  {
    forall t | 0 <= t < |ds|
      ensures CountOf(ds, ds[t]) <= maxObs
    {
      var u := LastOccurrence(ds, ds[t], t);
      CountAfterLast(ds, ds[t], u);
      assert CountOf(ds[..u + 1], ds[u]) <= maxObs;
    }
  }

  lemma FinalCountsBoundClean(ds: seq<(int, int)>, a: int, b: int, maxObs: int)
    requires forall t :: 0 <= t < |ds| ==> Legal(ds[t], a, b) && CountOf(ds, ds[t]) <= maxObs
    ensures CleanBefore(ds, |ds|, a, b, maxObs)
  {
    forall t | 0 <= t < |ds|
      ensures CountOf(ds[..t + 1], ds[t]) <= maxObs
    {
      CountGrows(ds, t + 1, ds[t]);
    }
  }

  /** The last position at or after `t` holding the pair `ds[t]`. */
  function LastOccurrence(ds: seq<(int, int)>, c: (int, int), t: nat): (u: nat)
    requires t < |ds| && ds[t] == c
    ensures t <= u < |ds| && ds[u] == c
    ensures forall s :: u < s < |ds| ==> ds[s] != c
    decreases |ds| - t
  {
    if exists s :: t < s < |ds| && ds[s] == c then
      var s :| t < s < |ds| && ds[s] == c;
      LastOccurrence(ds, c, s)
    else t
  }

  /** No occurrence of `c` after `u` adds to its count. */
  lemma {:induction false} CountAfterLast(ds: seq<(int, int)>, c: (int, int), u: nat)
    requires u < |ds|
    requires forall s :: u < s < |ds| ==> ds[s] != c
    ensures CountOf(ds, c) == CountOf(ds[..u + 1], c)
    decreases |ds| - u
  {
    if u + 1 < |ds| {
      var m := |ds| - 1;
      assert ds[..m][..u + 1] == ds[..u + 1];
      CountAfterLast(ds[..m], c, u);
    } else {
      assert ds[..u + 1] == ds;
    }
  }

  // ---------------------------------------------------------------------
  // calculate_sum

  /** The level range a `calculate_sum` index selects: all levels
      `[0, levels)` for a negative index, otherwise that level alone. */
  function Range(idx: int, levels: nat): (r: (int, int))
    ensures idx < 0 ==> r == (0, levels)
    ensures 0 <= idx ==> r == (idx, idx + 1)
  {
    if idx < 0 then (0, levels) else (idx, idx + 1)
  }

  /** The observations: `obs[i][j][m]` is volume `m` of cell (i, j). */
  ghost predicate Shaped(obs: seq<seq<seq<seq<real>>>>, a: nat, b: nat, n: nat, nxyz: nat) {
    && |obs| == a
    && (forall i :: 0 <= i < a ==> |obs[i]| == b)
    && (forall i, j :: 0 <= i < a && 0 <= j < b ==> |obs[i][j]| == n)
    && (forall i, j, m :: 0 <= i < a && 0 <= j < b && 0 <= m < n ==> |obs[i][j][m]| == nxyz)
  }

  /** Voxel `x` summed over the first `m` volumes of cell (i, j). */
  ghost function CellSum(obs: seq<seq<seq<seq<real>>>>, a: nat, b: nat, n: nat, nxyz: nat,
                         i: nat, j: nat, m: nat, x: nat): real
    requires Shaped(obs, a, b, n, nxyz) && i < a && j < b && m <= n && x < nxyz
  {
    if m == 0 then 0.0 else CellSum(obs, a, b, n, nxyz, i, j, m - 1, x) + obs[i][j][m - 1][x]
  }

  /** ... over the cells `(i, jbot .. jtop-1)`. */
  ghost function RowSum(obs: seq<seq<seq<seq<real>>>>, a: nat, b: nat, n: nat, nxyz: nat,
                        i: nat, jbot: nat, jtop: nat, x: nat): real
    requires Shaped(obs, a, b, n, nxyz) && i < a && jbot <= jtop <= b && x < nxyz
    decreases jtop - jbot
  {
    if jtop == jbot then 0.0
    else RowSum(obs, a, b, n, nxyz, i, jbot, jtop - 1, x) + CellSum(obs, a, b, n, nxyz, i, jtop - 1, n, x)
  }

  /** ... over the cells `(ibot .. itop-1, jbot .. jtop-1)`. */
  ghost function BlockSum(obs: seq<seq<seq<seq<real>>>>, a: nat, b: nat, n: nat, nxyz: nat,
                          ibot: nat, itop: nat, jbot: nat, jtop: nat, x: nat): real
    requires Shaped(obs, a, b, n, nxyz) && ibot <= itop <= a && jbot <= jtop <= b && x < nxyz
    decreases itop - ibot
  {
    if itop == ibot then 0.0
    else
      BlockSum(obs, a, b, n, nxyz, ibot, itop - 1, jbot, jtop, x)
        + RowSum(obs, a, b, n, nxyz, itop - 1, jbot, jtop, x)
  }

  /** A single selected cell sums just that cell's volumes. */
  lemma SingleCell(obs: seq<seq<seq<seq<real>>>>, a: nat, b: nat, n: nat, nxyz: nat, i: nat, j: nat, x: nat)
    requires Shaped(obs, a, b, n, nxyz) && i < a && j < b && x < nxyz
    ensures BlockSum(obs, a, b, n, nxyz, i, i + 1, j, j + 1, x) == CellSum(obs, a, b, n, nxyz, i, j, n, x)
  {
    assert BlockSum(obs, a, b, n, nxyz, i, i, j, j + 1, x) == 0.0;
    assert RowSum(obs, a, b, n, nxyz, i, j, j, x) == 0.0;
  }

  /** calculate_sum: `ysum` is zeroed, then receives, voxel by voxel, the
      sum of every observation in the cells the two indices select. */
  method CalculateSum(obs: seq<seq<seq<seq<real>>>>, a: nat, b: nat, n: nat, nxyz: nat,
                      ii: int, jj: int, ysum: array<real>)
    requires Shaped(obs, a, b, n, nxyz) && ii < a && jj < b && ysum.Length == nxyz
    modifies ysum
    ensures forall x :: 0 <= x < nxyz ==>
      ysum[x] == BlockSum(obs, a, b, n, nxyz, Range(ii, a).0, Range(ii, a).1,
                          Range(jj, b).0, Range(jj, b).1, x)
  {
    var (ibot, itop) := Range(ii, a);
    var (jbot, jtop) := Range(jj, b);
    VolumeZero(ysum);
    var i := ibot;
    while i < itop
      invariant ibot <= i <= itop
      invariant forall x :: 0 <= x < nxyz ==> ysum[x] == BlockSum(obs, a, b, n, nxyz, ibot, i, jbot, jtop, x)
    {
      var j := jbot;
      while j < jtop
        invariant jbot <= j <= jtop
        invariant forall x :: 0 <= x < nxyz ==>
          ysum[x] == BlockSum(obs, a, b, n, nxyz, ibot, i, jbot, jtop, x)
                   + RowSum(obs, a, b, n, nxyz, i, jbot, j, x)
      {
        AddCell(obs, a, b, n, nxyz, i, j, ysum);
        j := j + 1;
      }
      i := i + 1;
    }
  }

  /** The `m` loop of calculate_sum: add the volumes of cell (i, j). */
  method AddCell(obs: seq<seq<seq<seq<real>>>>, a: nat, b: nat, n: nat, nxyz: nat,
                 i: nat, j: nat, ysum: array<real>)
    requires Shaped(obs, a, b, n, nxyz) && i < a && j < b && ysum.Length == nxyz
    modifies ysum
    ensures forall x :: 0 <= x < nxyz ==> ysum[x] == old(ysum[x]) + CellSum(obs, a, b, n, nxyz, i, j, n, x)
  {
    var m := 0;
    while m < n
      invariant 0 <= m <= n
      invariant forall x :: 0 <= x < nxyz ==> ysum[x] == old(ysum[x]) + CellSum(obs, a, b, n, nxyz, i, j, m, x)
    {
      AddVolume(ysum, obs[i][j][m]);
      m := m + 1;
    }
  }

  /** volume_zero. */
  method VolumeZero(v: array<real>)
    modifies v
    ensures forall x :: 0 <= x < v.Length ==> v[x] == 0.0
  {
    var x := 0;
    while x < v.Length
      invariant 0 <= x <= v.Length
      invariant forall k :: 0 <= k < x ==> v[k] == 0.0
    {
      v[x] := 0.0;
      x := x + 1;
    }
  }

  /** `ysum[ixyz] += y[ixyz]` over the volume. */
  method AddVolume(v: array<real>, y: seq<real>)
    requires |y| == v.Length
    modifies v
    ensures forall x :: 0 <= x < v.Length ==> v[x] == old(v[x]) + y[x]
  {
    var x := 0;
    while x < v.Length
      invariant 0 <= x <= v.Length
      invariant forall k :: 0 <= k < v.Length ==> v[k] == old(v[k]) + (if k < x then y[k] else 0.0)
    {
      v[x] := v[x] + y[x];
      x := x + 1;
    }
  }

  // ---------------------------------------------------------------------
  // calculate_sse, _sstr, _ssa, _ssb, _ssab

  /** Voxel-wise difference of two volumes. */
  function Diff(u: seq<real>, w: seq<real>): (r: seq<real>)
    requires |u| == |w|
    ensures |r| == |u|
    ensures forall x :: 0 <= x < |r| ==> r[x] == u[x] - w[x]
    decreases |u|
  {
    if |u| == 0 then [] else Diff(u[..|u| - 1], w[..|u| - 1]) + [u[|u| - 1] - w[|u| - 1]]
  }

  /** The round-off protection: negative voxels become 0, the rest stay. */
  function Clamped(u: seq<real>): (r: seq<real>)
    ensures |r| == |u|
    ensures forall x :: 0 <= x < |r| ==> 0.0 <= r[x]
    ensures forall x :: 0 <= x < |r| ==> (if u[x] < 0.0 then r[x] == 0.0 else r[x] == u[x])
    decreases |u|
  {
    if |u| == 0 then [] else Clamped(u[..|u| - 1]) + [if u[|u| - 1] < 0.0 then 0.0 else u[|u| - 1]]
  }

  /** Clamping twice is clamping once. */
  lemma {:induction false} ClampedIdempotent(u: seq<real>)
    ensures Clamped(Clamped(u)) == Clamped(u)
  {
    var once := Clamped(u);
    var twice := Clamped(once);
    forall x | 0 <= x < |once|
      ensures twice[x] == once[x]
    {
    }
  }

  /** `acc[ixyz] -= y[ixyz]` over the volume. */
  method SubtractVolume(acc: array<real>, y: seq<real>)
    requires |y| == acc.Length
    modifies acc
    ensures acc[..] == Diff(old(acc[..]), y)
  {
    var x := 0;
    while x < acc.Length
      invariant 0 <= x <= acc.Length
      invariant forall k :: 0 <= k < acc.Length ==> acc[k] == old(acc[k]) - (if k < x then y[k] else 0.0)
    {
      acc[x] := acc[x] - y[x];
      x := x + 1;
    }
  }

  /** `if (acc[ixyz] < 0.0) acc[ixyz] = 0.0` over the volume. */
  method ClampVolume(acc: array<real>)
    modifies acc
    ensures acc[..] == Clamped(old(acc[..]))
  {
    var x := 0;
    while x < acc.Length
      invariant 0 <= x <= acc.Length
      invariant forall k :: 0 <= k < acc.Length ==>
        acc[k] == (if k < x && old(acc[k]) < 0.0 then 0.0 else old(acc[k]))
    {
      if acc[x] < 0.0 {
        acc[x] := 0.0;
      }
      x := x + 1;
    }
  }

  /** A fresh buffer holding a volume (a volume_read). */
  method VolumeRead(vol: seq<real>) returns (buf: array<real>)
    ensures fresh(buf) && buf[..] == vol
  {
    buf := new real[|vol|](x requires 0 <= x < |vol| => vol[x]);
  }

  /** The shared shape of calculate_sse/_sstr/_ssa/_ssb: read the minuend,
      subtract the subtrahend, clamp below at 0. SSE = SSIJK - SSIJ,
      SSTR = SSIJ - SS0, SSA = SSI - SS0, SSB = SSJ - SS0. */
  method ClampedDifference(minuend: seq<real>, subtrahend: seq<real>) returns (ss: array<real>)
    requires |minuend| == |subtrahend|
    ensures fresh(ss)
    ensures ss[..] == Clamped(Diff(minuend, subtrahend))
  {
    ss := VolumeRead(minuend);
    SubtractVolume(ss, subtrahend);
    ClampVolume(ss);
  }

  /** calculate_ssab: SSAB = SSTR - SSA - SSB, clamped below at 0. */
  method CalculateSsab(sstr: seq<real>, ssa: seq<real>, ssb: seq<real>) returns (ssab: array<real>)
    requires |sstr| == |ssa| == |ssb|
    ensures fresh(ssab)
    ensures ssab[..] == Clamped(Diff(Diff(sstr, ssa), ssb))
  {
    ssab := VolumeRead(sstr);
    SubtractVolume(ssab, ssa);
    SubtractVolume(ssab, ssb);
    ClampVolume(ssab);
  }

  /** Every sum of squares produced this way is non-negative, and equals the
      raw difference wherever that difference is. */
  lemma ClampedDifferenceFacts(u: seq<real>, w: seq<real>)
    requires |u| == |w|
    ensures forall x :: 0 <= x < |u| ==> 0.0 <= Clamped(Diff(u, w))[x]
    ensures forall x :: 0 <= x < |u| && w[x] <= u[x] ==> Clamped(Diff(u, w))[x] == u[x] - w[x]
    ensures forall x :: 0 <= x < |u| && u[x] < w[x] ==> Clamped(Diff(u, w))[x] == 0.0
  {
  }
}
