/**
 * The read-out routines of src/afni_pcor.c. Each one checks that the voxel
 * structure was built for as many references as the reference structure,
 * then fills a caller-supplied output array voxel by voxel with one of the
 * formulas of PcorFormulas.
 *
 * Where the C code prints a message and calls exit(1), the model returns a
 * status and leaves the outputs alone.
 */
module PcorStats {
  import opened RealMath
  import opened PcorReferences
  import opened PcorVoxels
  import opened PcorFormulas

  datatype Status =
    | Ok
    | RefSizeMismatch  // vc->nref != ref->nref: fatal in C
    | OrderTooLarge    // PCOR_get_mcor with m >= nref: fatal in C
    | NoOutput         // PCOR_get_lsqfit with every fit[j] NULL
    | NotEnoughData    // PCOR_get_variance with nupdate <= nref

  /** The reference and voxel structures a read-out may use. */
  ghost predicate Ready(ref: References, vc: VoxelCorr)
    reads ref, ref.chol, vc, vc.chrow
  {
    ref.Valid() && vc.Valid()
  }

  /** The last-reference projection and the energy of voxel `v`. */
  function Num(vc: VoxelCorr, v: nat): (x: real)
    reads vc, vc.chrow
    requires vc.Valid() && 1 <= vc.nref && v < vc.nvox
    ensures Slot(v, vc.nref - 1, vc.nref) < vc.chrow.Length
    ensures x == vc.chrow[Slot(v, vc.nref - 1, vc.nref)]
  {
    SlotInBuffer(v, vc.nref - 1, vc.nvox, vc.nref);
    vc.VCH(v, vc.nref - 1)
  }

  function Den(vc: VoxelCorr, v: nat): (d: real)
    reads vc, vc.chrow
    requires vc.Valid() && v < vc.nvox
    ensures 0.0 < d
    ensures Slot(v, vc.nref, vc.nref) < vc.chrow.Length
    ensures d == vc.chrow[Slot(v, vc.nref, vc.nref)]
  {
    SlotInBuffer(v, vc.nref, vc.nvox, vc.nref);
    vc.VCH(v, vc.nref)
  }

  /** PCOR_get_pcor. */
  method GetPcor(ref: References, vc: VoxelCorr, pcor: array<real>, sqrt: real -> real)
    returns (st: Status)
    requires Ready(ref, vc) && IsSqrt(sqrt)
    requires vc.nvox <= pcor.Length && pcor != vc.chrow
    modifies pcor
    ensures st == (if vc.nref == ref.nref then Ok else RefSizeMismatch)
    ensures st == Ok ==> forall v :: 0 <= v < vc.nvox ==>
      pcor[v] == GuardedCorrelation(Num(vc, v), Den(vc, v), sqrt)
    ensures forall v :: 0 <= v < pcor.Length && (st != Ok || vc.nvox <= v) ==> pcor[v] == old(pcor[v])
  {
    if vc.nref != ref.nref {
      return RefSizeMismatch;
    }
    var nr := vc.nref;
    var vox := 0;
    while vox < vc.nvox
      invariant 0 <= vox <= vc.nvox
      invariant forall v :: 0 <= v < vox ==> pcor[v] == GuardedCorrelation(Num(vc, v), Den(vc, v), sqrt)
      invariant forall v :: vox <= v < pcor.Length ==> pcor[v] == old(pcor[v])
    {
      pcor[vox] := PcorVoxel(vc, vox, sqrt);
      vox := vox + 1;
    }
    return Ok;
  }

  /** One voxel of PCOR_get_pcor: `num/sqrt(den + num^2)` when the energy
      exceeds DENEPS, else 0. */
  method PcorVoxel(vc: VoxelCorr, vox: nat, sqrt: real -> real) returns (p: real)
    requires vc.Valid() && 1 <= vc.nref && IsSqrt(sqrt) && vox < vc.nvox
    ensures p == GuardedCorrelation(Num(vc, vox), Den(vc, vox), sqrt)
  {
    var nr := vc.nref;
    var den := vc.VCH(vox, nr);
    var num := vc.VCH(vox, nr - 1);
    if den > DENEPS {
      p := num / sqrt(den + Sqr(num));
      assert p == Correlation(num, den, sqrt);
    } else {
      p := 0.0;
    }
  }

  /** PCOR_get_mcor: the multiple correlation with the last `m` references. */
  method GetMcor(ref: References, vc: VoxelCorr, m: int, pcor: array<real>, sqrt: real -> real)
    returns (st: Status)
    requires Ready(ref, vc) && IsSqrt(sqrt)
    requires vc.nvox <= pcor.Length && pcor != vc.chrow
    modifies pcor
    ensures st == (if vc.nref != ref.nref then RefSizeMismatch
                   else if m >= vc.nref then OrderTooLarge
                   else Ok)
    ensures st == Ok ==> forall v :: 0 <= v < vc.nvox ==>
      pcor[v] == MultipleCorrelation(Den(vc, v), SumSq(vc.Row(v), vc.nref, if m < 0 then 0 else m), sqrt)
    ensures forall v :: 0 <= v < pcor.Length && (st != Ok || vc.nvox <= v) ==> pcor[v] == old(pcor[v])
  {
    if vc.nref != ref.nref {
      return RefSizeMismatch;
    }
    var nr := vc.nref;
    if m >= nr {
      return OrderTooLarge;
    }
    var vox := 0;
    while vox < vc.nvox
      invariant 0 <= vox <= vc.nvox
      invariant forall v :: 0 <= v < vox ==>
        pcor[v] == MultipleCorrelation(Den(vc, v), SumSq(vc.Row(v), nr, if m < 0 then 0 else m), sqrt)
      invariant forall v :: vox <= v < pcor.Length ==> pcor[v] == old(pcor[v])
    {
      pcor[vox] := McorVoxel(vc, vox, m, sqrt);
      vox := vox + 1;
    }
    return Ok;
  }

  /** One voxel of PCOR_get_mcor: the energy plus the squares of the last
      `m` projections (the `switch`), then `sqrt(1 - energy/den)` or 0. */
  method McorVoxel(vc: VoxelCorr, vox: nat, m: int, sqrt: real -> real) returns (p: real)
    requires vc.Valid() && IsSqrt(sqrt) && vox < vc.nvox && m < vc.nref
    ensures p == MultipleCorrelation(Den(vc, vox), SumSq(vc.Row(vox), vc.nref, if m < 0 then 0 else m), sqrt)
  {
    var nr := vc.nref;
    ghost var row := vc.Row(vox);
    var e := vc.VCH(vox, nr);
    var den := e;
    if m == 1 {
      den := den + Sqr(vc.VCH(vox, nr - 1));
    } else if m == 2 {
      den := den + (Sqr(vc.VCH(vox, nr - 1)) + Sqr(vc.VCH(vox, nr - 2)));
    } else if m == 3 {
      den := den + (Sqr(vc.VCH(vox, nr - 1)) + Sqr(vc.VCH(vox, nr - 2)) + Sqr(vc.VCH(vox, nr - 3)));
    } else if m == 4 {
      den := den + (Sqr(vc.VCH(vox, nr - 1)) + Sqr(vc.VCH(vox, nr - 2))
                    + Sqr(vc.VCH(vox, nr - 3)) + Sqr(vc.VCH(vox, nr - 4)));
    } else {
      var ii := 1;
      while ii <= m
        invariant 1 <= ii <= (if m < 1 then 1 else m + 1)
        invariant den == e + SumSq(row, nr, ii - 1)
      {
        den := den + Sqr(vc.VCH(vox, nr - ii));
        ii := ii + 1;
      }
      assert m >= 1 ==> ii == m + 1;
    }
    assert den == e + UnrolledSumSq(row, nr, m);
    UnrolledIsSumSq(row, nr, m);
    ghost var extra := den - e;
    den := 1.0 - e / den;
    p := if den > 0.0 then sqrt(den) else 0.0;
    assert p == MultipleCorrelation(e, extra, sqrt);
  }

  /** PCOR_get_coef: the coefficient of the last reference. */
  method GetCoef(ref: References, vc: VoxelCorr, coef: array<real>) returns (st: Status)
    requires Ready(ref, vc)
    requires vc.nvox <= coef.Length && coef != vc.chrow
    modifies coef
    ensures st == (if vc.nref == ref.nref then Ok else RefSizeMismatch)
    ensures st == Ok ==> forall v :: 0 <= v < vc.nvox ==>
      coef[v] == Coefficient(Num(vc, v), ref.chol[ref.nref - 1, ref.nref - 1])
    ensures forall v :: 0 <= v < coef.Length && (st != Ok || vc.nvox <= v) ==> coef[v] == old(coef[v])
  {
    if vc.nref != ref.nref {
      return RefSizeMismatch;
    }
    var nr := vc.nref;
    var scale := 1.0 / ref.chol[nr - 1, nr - 1];
    var vox := 0;
    while vox < vc.nvox
      invariant 0 <= vox <= vc.nvox
      invariant forall v :: 0 <= v < vox ==> coef[v] == Coefficient(Num(vc, v), ref.chol[nr - 1, nr - 1])
      invariant forall v :: vox <= v < coef.Length ==> coef[v] == old(coef[v])
    {
      coef[vox] := scale * vc.VCH(vox, nr - 1);
      vox := vox + 1;
    }
    return Ok;
  }

  /** PCOR_get_variance: the residual variance, or zeros while there are no
      more updates than references. */
  method GetVariance(vc: VoxelCorr, variance: array<real>) returns (st: Status)
    requires vc.Valid()
    requires vc.nvox <= variance.Length && variance != vc.chrow
    modifies variance
    ensures st == (if vc.nupdate <= vc.nref then NotEnoughData else Ok)
    ensures forall v :: 0 <= v < vc.nvox ==>
      variance[v] == (if st == Ok then Variance(Den(vc, v), vc.nupdate - vc.nref) else 0.0)
    ensures forall v :: vc.nvox <= v < variance.Length ==> variance[v] == old(variance[v])
  {
    var nr := vc.nref;
    var nup := vc.nupdate;
    if nup <= nr {
      var vox := 0;
      while vox < vc.nvox
        invariant 0 <= vox <= vc.nvox
        invariant forall v :: 0 <= v < vox ==> variance[v] == 0.0
        invariant forall v :: vox <= v < variance.Length ==> variance[v] == old(variance[v])
      {
        variance[vox] := 0.0;
        vox := vox + 1;
      }
      return NotEnoughData;
    }
    var scale := 1.0 / ((nup - nr) as real);
    var vox := 0;
    while vox < vc.nvox
      invariant 0 <= vox <= vc.nvox
      invariant forall v :: 0 <= v < vox ==> variance[v] == Variance(Den(vc, v), nup - nr)
      invariant forall v :: vox <= v < variance.Length ==> variance[v] == old(variance[v])
    {
      variance[vox] := scale * vc.VCH(vox, nr);
      vox := vox + 1;
    }
    return Ok;
  }

  /** PCOR_get_pcor_and_coef: correlation and coefficient together, both
      zeroed for voxels that fail the threshold when `pcthresh > 0`. */
  method GetPcorAndCoef(ref: References, vc: VoxelCorr, pcthresh: real,
                        pcor: array<real>, coef: array<real>, sqrt: real -> real)
    returns (st: Status)
    requires Ready(ref, vc) && IsSqrt(sqrt)
    requires vc.nvox <= pcor.Length && vc.nvox <= coef.Length
    requires pcor != coef && pcor != vc.chrow && coef != vc.chrow
    modifies pcor, coef
    ensures st == (if vc.nref == ref.nref then Ok else RefSizeMismatch)
    ensures st == Ok ==> forall v :: 0 <= v < vc.nvox ==>
      && pcor[v] == ThresholdedCorrelation(Num(vc, v), Den(vc, v), pcthresh, sqrt)
      && coef[v] == ThresholdedCoefficient(Num(vc, v), Den(vc, v), pcthresh, ref.chol[ref.nref - 1, ref.nref - 1])
    ensures forall v :: 0 <= v < pcor.Length && (st != Ok || vc.nvox <= v) ==> pcor[v] == old(pcor[v])
    ensures forall v :: 0 <= v < coef.Length && (st != Ok || vc.nvox <= v) ==> coef[v] == old(coef[v])
  {
    if vc.nref != ref.nref {
      return RefSizeMismatch;
    }
    var nr := vc.nref;
    var diag := ref.chol[nr - 1, nr - 1];
    var vox := 0;
    while vox < vc.nvox
      invariant 0 <= vox <= vc.nvox
      invariant forall v :: 0 <= v < vox ==>
        && pcor[v] == ThresholdedCorrelation(Num(vc, v), Den(vc, v), pcthresh, sqrt)
        && coef[v] == ThresholdedCoefficient(Num(vc, v), Den(vc, v), pcthresh, diag)
      invariant forall v :: vox <= v < pcor.Length ==> pcor[v] == old(pcor[v])
      invariant forall v :: vox <= v < coef.Length ==> coef[v] == old(coef[v])
    {
      var den := vc.VCH(vox, nr);
      var num := vc.VCH(vox, nr - 1);
      pcor[vox] := ThresholdedCorrelation(num, den, pcthresh, sqrt);
      coef[vox] := ThresholdedCoefficient(num, den, pcthresh, diag);
      vox := vox + 1;
    }
    return Ok;
  }

  /** PCOR_get_lsqfit: the full least-squares fit, written for the requested
      references only (`requested[j]` stands for `fit[j] != NULL`); row `j`
      of `fit` is the C array `fit[j]`. */
  method GetLsqfit(ref: References, vc: VoxelCorr, fit: array2<real>, requested: seq<bool>)
    returns (st: Status)
    requires Ready(ref, vc)
    requires |requested| == fit.Length0 == vc.nref && vc.nvox <= fit.Length1
    requires fit != ref.chol
    modifies fit
    ensures st == (if vc.nref != ref.nref then RefSizeMismatch
                   else if forall j :: 0 <= j < |requested| ==> !requested[j] then NoOutput
                   else Ok)
    ensures forall j, v :: 0 <= j < fit.Length0 && 0 <= v < fit.Length1 ==>
      fit[j, v] == (if st == Ok && requested[j] && v < vc.nvox
                    then Fit(ref.Factor(), vc.Row(v), ref.nref)[j] else old(fit[j, v]))
  {
    ghost var L := ref.Factor();
    assert Square(L, ref.nref) && PositiveDiagonal(L, ref.nref);
    if vc.nref != ref.nref {
      return RefSizeMismatch;
    }
    var nr := vc.nref;
    var kk := 0;
    var jj := 0;
    while jj < nr
      invariant 0 <= jj <= nr
      invariant kk == Requested(requested[..jj])
    {
      assert requested[..jj + 1] == requested[..jj] + [requested[jj]];
      kk := kk + (if requested[jj] then 1 else 0);
      jj := jj + 1;
    }
    assert requested[..nr] == requested;
    RequestedCountsTrue(requested);
    if kk == 0 {
      return NoOutput;
    }
    var ff := new real[nr];
    var vox := 0;
    while vox < vc.nvox
      invariant 0 <= vox <= vc.nvox
      invariant forall j, v :: 0 <= j < nr && 0 <= v < fit.Length1 ==>
        fit[j, v] == (if requested[j] && v < vox then Fit(L, vc.Row(v), nr)[j] else old(fit[j, v]))
    {
      BackSubstitute(ref, vc, vox, ff);
      StoreFit(fit, vox, ff, requested);
      vox := vox + 1;
    }
    return Ok;
  }

  /** The store loop of PCOR_get_lsqfit for voxel `vox`: `fit[j][vox] = ff[j]`
      for every requested `j`; nothing else in `fit` changes. */
  method StoreFit(fit: array2<real>, vox: nat, ff: array<real>, requested: seq<bool>)
    requires |requested| == fit.Length0 == ff.Length && vox < fit.Length1
    modifies fit
    ensures forall j, v :: 0 <= j < fit.Length0 && 0 <= v < fit.Length1 ==>
      fit[j, v] == (if requested[j] && v == vox then ff[j] else old(fit[j, v]))
  {
    var jj := 0;
    while jj < fit.Length0
      invariant 0 <= jj <= fit.Length0
      invariant forall j, v :: 0 <= j < fit.Length0 && 0 <= v < fit.Length1 ==>
        fit[j, v] == (if requested[j] && v == vox && j < jj then ff[j] else old(fit[j, v]))
    {
      if requested[jj] {
        fit[jj, vox] := ff[jj];
      }
      jj := jj + 1;
    }
  }

  /** The number of `true` entries (the count `kk` of non-NULL `fit[j]`). */
  function Requested(r: seq<bool>): (k: nat)
    ensures k <= |r|
  {
    if r == [] then 0 else Requested(r[..|r| - 1]) + (if r[|r| - 1] then 1 else 0)
  }

  /** The count is zero exactly when nothing is requested. */
  lemma {:induction false} RequestedCountsTrue(r: seq<bool>)
    ensures Requested(r) == 0 <==> forall j :: 0 <= j < |r| ==> !r[j]
  {
    if r != [] {
      RequestedCountsTrue(r[..|r| - 1]);
      assert forall j :: 0 <= j < |r| - 1 ==> r[..|r| - 1][j] == r[j];
    }
  }

  /** The backward `jj` loop of PCOR_get_lsqfit for voxel `vox`: the
      workspace `ff` receives the fit coefficients of the voxel's row. */
  method BackSubstitute(ref: References, vc: VoxelCorr, vox: nat, ff: array<real>)
    requires Ready(ref, vc) && vc.nref == ref.nref && vox < vc.nvox
    requires ff.Length == ref.nref && ff != vc.chrow
    modifies ff
    ensures Triangular(ref.Factor(), ref.nref, vc.Row(vox))
    ensures ff[..] == Fit(ref.Factor(), vc.Row(vox), ref.nref)
  {
    var nr := vc.nref;
    ghost var L := ref.Factor();
    ghost var row := vc.Row(vox);
    assert Triangular(L, nr, row);
    var jj := nr;
    while jj > 0
      invariant 0 <= jj <= nr
      invariant forall k :: jj <= k < nr ==> ff[k] == FitCoef(L, row, nr, k)
    {
      jj := jj - 1;
      var sum := Residual(ref, vc, vox, jj, ff);
      var d := ref.chol[jj, jj];
      assert d == L[jj][jj];
      ff[jj] := sum / d;
      assert ff[jj] == FitCoef(L, row, nr, jj);
    }
    assert ff[..] == Fit(L, row, nr);
  }

  /** The `kk` loop of PCOR_get_lsqfit: `row[jj]` minus the already known
      coefficients `ff[kk]`, `kk > jj`, weighted by column `jj` of the factor. */
  method Residual(ref: References, vc: VoxelCorr, vox: nat, jj: nat, ff: array<real>) returns (sum: real)
    requires Ready(ref, vc) && vc.nref == ref.nref && vox < vc.nvox && jj < ref.nref
    requires ff.Length == ref.nref
    requires Triangular(ref.Factor(), ref.nref, vc.Row(vox))
    requires forall k :: jj < k < ref.nref ==> ff[k] == FitCoef(ref.Factor(), vc.Row(vox), ref.nref, k)
    ensures sum == vc.Row(vox)[jj] - Partial(ref.Factor(), vc.Row(vox), ref.nref, jj, ref.nref)
  {
    var nr := vc.nref;
    ghost var L := ref.Factor();
    ghost var row := vc.Row(vox);
    sum := vc.VCH(vox, jj);
    var kk := jj + 1;
    while kk < nr
      invariant jj + 1 <= kk <= nr
      invariant sum == row[jj] - Partial(L, row, nr, jj, kk)
    {
      assert ref.chol[kk, jj] == L[kk][jj];
      sum := sum - ff[kk] * ref.chol[kk, jj];
      kk := kk + 1;
    }
  }
}
