# AFNI statistics cores in Dafny

This project models six pieces of the AFNI neuroimaging suite and proves
properties of them.

- **Partial-correlation engine** (`src/afni_pcor.c`). This is the main core.
  - A reference structure keeps a lower-triangular Cholesky factor of the
    reference design. Each call absorbs one time point's reference vector by
    Carlson's square-root update.
  - A voxel structure keeps, for every voxel, the last row of the augmented
    factor: its projections on the references, then its residual energy.
  - Read-outs compute, voxel by voxel:
    - the partial correlation with the last reference;
    - the multiple correlation with the last `m` references;
    - the last coefficient;
    - the residual variance;
    - the full least-squares fit, by back-substitution;
    - a thresholded correlation/coefficient pair.
- **`mri_threshold`** (`src/mri_thresh.c`). Zeroes, in place, the pixels of
  an image whose pixel in a threshold image lies strictly between two bounds.
- **Two-factor ANOVA** (`src/3dANOVA2.c`). The design checks, the count of
  temporary files, the `-dset` tally and its equal-cell-size rule, the
  summation ranges of `calculate_sum`, and the sums of squares clamped at 0.
- **`3drefit`** (`src/3drefit.c`). The `-orient` parser, the checks on
  numeric arguments, the `-TR` unit suffix, the `-statpar` list, and the
  block that applies the edits to a dataset header.
- **`1dREMLfit`** (`src/1dREMLfit.c`). The parameter clamps, and the `tau`
  time index built from `GoodList` and `RunStart` by a cursor over run
  starts.
- **`build_afni.py`** (`src/python_scripts/scripts/build_afni.py`). The tcsh-like
  path splitters, and the history bookkeeping of `run_command`.

Code that updates state in place is modelled as classes and arrays with
`modifies` clauses: the factor, the voxel rows, image buffers, sums, dataset
headers and the command history. Each such method is tied to a pure
specification function, and the properties are proved as lemmas about that
function. All arithmetic is exact, over `real`.

The square root is a parameter `sqrt` of every operation that calls it. The
contract `IsSqrt` asks only that, for `x >= 0`, `sqrt(x) >= 0` and
`sqrt(x)*sqrt(x) == x`.

One file per core: `pcor_references.dfy`, `pcor_voxels.dfy`,
`pcor_formulas.dfy` and `pcor_stats.dfy` (the engine), `mri_thresh.dfy`,
`anova2.dfy`, `refit.dfy`, `reml_fit.dfy` and `build_afni.dfy`. Two files are
shared: `real_math.dfy` (real-arithmetic lemmas) and `c_numeric.dfy` (C's
conversion from floating point to integer).

## Model

| member | source | states |
|---|---|---|
| `PcorReferences.Alpha` | src/afni_pcor.c:115 | `alpha = zz[jj]/chol[jj][jj]` is the multiplier that makes `zz[jj] - alpha*chol[jj][jj]` zero |
| `PcorReferences.Beta` | src/afni_pcor.c:116 | the new beta `sqrt(bold^2 + a^2)` is never below `bold` |
| `PcorReferences.Fac` | src/afni_pcor.c:117 | `f*bold == bnew`, and `f >= 1` whenever `bnew >= bold` |
| `PcorReferences.Gain` | src/afni_pcor.c:118 | `g*(bnew*bold) == alpha`, and `g` has the sign of `alpha` |
| `PcorReferences.Eliminate` | src/afni_pcor.c:125-126 | `zz[kk] - alpha*chol[kk][jj]` for every row `kk >= jj`; the rows above keep their values |
| `PcorReferences.Rotate` | src/afni_pcor.c:125-127 | `f*chol[kk][jj] + g*zz[kk]` in column `jj` for every row `kk >= jj`; every other entry kept |
| `PcorReferences.Column` | src/afni_pcor.c:113-128 | one pass of the `jj` loop: one more saved `alp`/`ff`/`gg`; `alpha*chol[jj][jj] == zz[jj]`; `bnew^2 == bold^2 + alpha^2`; `f*bold == bnew` and `g*(bnew*bold) == alpha` |
| `PcorReferences.ColumnFacts` | src/afni_pcor.c:115-128 | one column of the sweep: `bold` does not shrink; the new `f` is at least 1; `zz[j]` becomes 0; the diagonal entry is scaled by `f` and does not shrink; nothing outside rows `k >= j` of column `j` changes; earlier `alp`/`ff`/`gg` are kept |
| `PcorReferences.Carlson` | src/afni_pcor.c:111-129 | the sweep after `j` columns: one saved `alp`/`ff`/`gg` per column, `bold >= 1`, and diagonal entries not yet reached keep their values |
| `PcorReferences.CarlsonFactorsAtLeastOne` | src/afni_pcor.c:117-122 | every saved `ff[i]` is at least 1 |
| `PcorReferences.DiagonalNeverShrinks` | src/afni_pcor.c:125-128 | no diagonal entry of the factor shrinks during a sweep |
| `PcorReferences.CarlsonZeroesProcessed` | src/afni_pcor.c:115-126 | the work copy `zz` is zero in every processed slot |
| `PcorReferences.CarlsonLowerOnly` | src/afni_pcor.c:125-128 | only entries on or below the diagonal, in processed columns, change |
| `PcorReferences.SweepOutcome` | src/afni_pcor.c:113-129 | a full sweep: every `f >= 1`, no diagonal entry shrinks, the strict upper triangle is untouched, the factor's product gains `vec vec^T`, and a zero `vec` leaves the factor and `bold == 1` |
| `PcorReferences.Gram` | src/afni_pcor.c:82 | entry `(r, c)` of `L L^T` for a lower-triangular `L`: the sum of `L[r][k]*L[c][k]` over `k <= min(r, c)` |
| `PcorReferences.DotColumnChange` | src/afni_pcor.c:125-128 | changing one column of the factor changes each row dot product by that column's product difference only |
| `PcorReferences.ColumnRow` | src/afni_pcor.c:115-127 | row `k >= j` of one column step: the new `bold^2 = bold^2 + a^2`, `zz[k] -= a*L[k][j]`, then `L[k][j] = f*L[k][j] + g*zz[k]` with the new `zz[k]` |
| `PcorReferences.ColumnEntryIdentity` | src/afni_pcor.c:115-127 | for one pair of rows, the rotated entries and the eliminated `zz` keep `L[r][j]*L[c][j] + zz[r]*zz[c]/bold^2` |
| `PcorReferences.ColumnKeepsEnergy` | src/afni_pcor.c:115-128 | one column step keeps `Gram(L) + zz zz^T/bold^2` entry by entry, once the earlier `zz` slots are 0 |
| `PcorReferences.CarlsonKeepsEnergy` | src/afni_pcor.c:107-129 | after every number of columns, `Gram(L) + zz zz^T/bold^2 == Gram(L0) + vec vec^T` (at the start `zz == vec`, `bold == 1`) |
| `PcorReferences.CarlsonRankOneUpdate` | src/afni_pcor.c:82 | the full Carlson sweep is a rank-one update: `L' L'^T == L L^T + vec vec^T` |
| `PcorReferences.ZeroSweep` | src/afni_pcor.c:111-129 | with a zero `vec` every column has `a == 0`, `f == 1`, `g == 0`: the factor, `zz` and `bold == 1` never change |
| `PcorReferences.References.constructor` | src/afni_pcor.c:31-32 | fresh factor with `REF_EPS` on the diagonal and 0 below it, `nupdate == 0`, and the invariant established |
| `PcorReferences.NewReferences` | src/afni_pcor.c:19-22 | null exactly when `numref < 1`; otherwise a fresh structure with the constructor's contents |
| `PcorReferences.References.Update` | src/afni_pcor.c:82-134 | factor, `alp`, `ff`, `gg` and `betasq = 1/bold^2` are the full Carlson sweep of the old factor and `vec`; the new factor's product is the old one's plus `vec vec^T`; a zero `vec` leaves the factor unchanged with `betasq == 1`; `nupdate` grows by 1; `vec` is unchanged; `0 < betasq <= 1`; every `ff[i] >= 1`; no diagonal entry shrinks; the upper triangle is unchanged; the invariant (diagonal >= `REF_EPS`) is kept |
| `PcorReferences.References.SweepAll` | src/afni_pcor.c:111-129 | the `jj` loop computes exactly the Carlson sweep over all columns, from `bold == 1` |
| `PcorReferences.References.AbsorbColumn` | src/afni_pcor.c:115-128 | one pass of the `jj` loop performs one `Column` step and saves its scalars |
| `PcorReferences.References.SweepColumn` | src/afni_pcor.c:125-128 | the `kk` loop: `zz` becomes `Eliminate` and the factor becomes `Rotate` of the old values |
| `PcorReferences.CopyOf` | src/afni_pcor.c:107 | `zz` is a fresh copy of `vec` |
| `PcorVoxels.SlotOrder` | src/afni_pcor.c:174 | flat-buffer slots `v*(nref+1)+j` are ordered by voxel, then by slot |
| `PcorVoxels.SlotInBuffer` | src/afni_pcor.c:174 | every slot of every voxel lies inside the `nvox*(nref+1)` buffer |
| `PcorVoxels.VoxelCorr.constructor` | src/afni_pcor.c:182-185 | every voxel row is 0 in slots `0..nref-1` and `REF_EPS` in slot `nref`; `nupdate == 0` |
| `PcorVoxels.NewVoxelCorr` | src/afni_pcor.c:153-156 | null exactly when `numvox < 1`; otherwise a fresh structure with the constructor's contents |
| `PcorFormulas.Correlation` | src/afni_pcor.c:252-253 | `num/sqrt(den+num^2)` lies strictly between -1 and 1, has the sign of `num`, and its square is the share `num^2/(den+num^2)` |
| `PcorFormulas.GuardedCorrelation` | src/afni_pcor.c:250-256 | 0 when `den <= 1e-5`, the correlation otherwise; always in (-1, 1) |
| `PcorFormulas.SumSq` | src/afni_pcor.c:285-286 | the sum of the last `m` squared projections `VCH(vc,vox,nr-ii)`, `ii = 1..m`, is non-negative |
| `PcorFormulas.UnrolledSumSq` | src/afni_pcor.c:284-301 | the `switch` on `m` (cases 1 to 4 written out, `default` loop) adds a non-negative amount to the energy |
| `PcorFormulas.UnrolledIsSumSq` | src/afni_pcor.c:285-303 | the written-out cases `m = 1..4` and the `default` loop all equal the sum of the last `m` squared projections |
| `PcorFormulas.MultipleCorrelation` | src/afni_pcor.c:305-306 | `sqrt(1 - e/den)` or 0 lies in [0, 1), and its square is the share `extra/(e+extra)` of the energy |
| `PcorFormulas.Coefficient` | src/afni_pcor.c:331-334 | `coef * chol[nr-1][nr-1] == num` |
| `PcorFormulas.Variance` | src/afni_pcor.c:359-362 | `var * (nupdate - nref) == energy`, and it is non-negative for non-negative energy |
| `PcorFormulas.PassesThreshold` | src/afni_pcor.c:443-459 | no voxel passes at `t^2 == 1`; for `t^2 < 1` and non-negative energy a passing voxel has `num != 0` |
| `PcorFormulas.ThresholdIsCorrelationTest` | src/afni_pcor.c:443-459 | for `0 < t < 1` the test `num^2 > thfac*den` holds exactly when the correlation exceeds `t` in absolute value |
| `PcorFormulas.ThresholdAboveOnePassesAll` | src/afni_pcor.c:443-459 | for `t^2 > 1`, `thfac` is negative and every voxel passes |
| `PcorFormulas.ThresholdedCorrelation` | src/afni_pcor.c:447-464 | the correlation when `t <= 0` or the test passes, and 0 for every other voxel; a kept value with `0 < t < 1` exceeds `t` in size |
| `PcorFormulas.ThresholdedCoefficient` | src/afni_pcor.c:447-464 | the coefficient when `t <= 0` or the test passes, and 0 for every other voxel |
| `PcorFormulas.ZeroedTogether` | src/afni_pcor.c:459-463 | the thresholded correlation is 0 exactly when the thresholded coefficient is |
| `PcorFormulas.FitCoef` | src/afni_pcor.c:405-408 | coefficient `jj` solves its own equation: `ff[jj]*L[jj][jj] + sum_{kk>jj} ff[kk]*L[kk][jj] == row[jj]` |
| `PcorFormulas.Fit` | src/afni_pcor.c:405-409 | the `nr` coefficients, coefficient `k` being `FitCoef` of the rows after it (solving and uniqueness are `FitSolves` and `FitUnique`) |
| `PcorFormulas.FitSolves` | src/afni_pcor.c:405-409 | the back-substituted fit solves `L^T fit == row`: `sum_{k>=j} fit[k]*L[k][j] == row[j]` for every `j` |
| `PcorFormulas.FitUnique` | src/afni_pcor.c:405-409 | any solution of `L^T y == row` is the fit |
| `PcorFormulas.CoefficientIsLastFit` | src/afni_pcor.c:331-334 | the coefficient read-out equals the last coefficient of the full fit |
| `PcorStats.Num` | src/afni_pcor.c:252-253 | `VCH(vc,vox,nr-1)`, read from slot `vox*(nref+1) + nref-1` of the flat buffer, which lies inside it |
| `PcorStats.Den` | src/afni_pcor.c:250 | `VCH(vc,vox,nr)`, read from slot `vox*(nref+1) + nref`, inside the buffer; it is positive |
| `PcorStats.GetPcor` | src/afni_pcor.c:241-258 | status `Ok` iff the `nref` sizes agree; then every voxel gets `GuardedCorrelation`; nothing else written |
| `PcorStats.PcorVoxel` | src/afni_pcor.c:250-256 | one voxel of the `pcor` loop yields `GuardedCorrelation` of its last projection and its energy |
| `PcorStats.GetMcor` | src/afni_pcor.c:272-307 | size mismatch, then `m >= nref`, are errors that write nothing; otherwise every voxel gets the multiple correlation of its last `m` projections |
| `PcorStats.McorVoxel` | src/afni_pcor.c:284-306 | one voxel of the `mcor` loop yields `MultipleCorrelation` of its energy and its last `m` squared projections |
| `PcorStats.GetCoef` | src/afni_pcor.c:324-335 | on matching sizes every voxel gets `num / chol[nr-1][nr-1]`; nothing else written |
| `PcorStats.GetVariance` | src/afni_pcor.c:351-364 | all zeros and `NotEnoughData` when `nupdate <= nref`; otherwise energy/(nupdate-nref) per voxel |
| `PcorStats.GetPcorAndCoef` | src/afni_pcor.c:437-466 | on matching sizes each voxel gets the thresholded correlation and coefficient; nothing else written |
| `PcorStats.GetLsqfit` | src/afni_pcor.c:383-413 | mismatch or no requested output means nothing is written; otherwise exactly the requested `fit[j][v]` receive coefficient `j` of the voxel's fit |
| `PcorStats.StoreFit` | src/afni_pcor.c:411-412 | only the requested `fit[j][vox]` are written, with `ff[j]` |
| `PcorStats.RequestedCountsTrue` | src/afni_pcor.c:388-390 | the count `kk` of non-NULL outputs is 0 exactly when none is requested |
| `PcorStats.BackSubstitute` | src/afni_pcor.c:405-409 | the backward loop leaves the voxel's fit coefficients in `ff` |
| `PcorStats.Residual` | src/afni_pcor.c:406-407 | the `kk` loop leaves `row[jj]` minus the partial sum of known coefficients |
| `CNumeric.Trunc` | src/mri_thresh.c:26 | conversion to an integer type truncates toward zero |
| `CNumeric.TruncMonotone` | src/mri_thresh.c:26 | truncation keeps order |
| `MriThresh.ThresholdKind` | src/mri_thresh.c:19-23 | the threshold image kinds with a case, short and float (the float case is line 76); each is also a data kind |
| `MriThresh.DataKind` | src/mri_thresh.c:30-67 | the six data kinds with a case: byte, short, int, float, double and complex (the same six at lines 83-120) |
| `MriThresh.Applies` | src/mri_thresh.c:14-15 | the early returns at lines 14-15, 21, 30 and 83: when all guards pass, the sizes agree, `thbot < thtop`, the kinds have cases, and the converted bounds satisfy `th1 <= th2` |
| `MriThresh.Bound` | src/mri_thresh.c:23-26 | the compared bound (`th1` from `thbot`, `th2` from `thtop`): for a short threshold image the value truncated toward zero, a whole number within 1 of it on the side of 0; for a float one (line 79) the value as given |
| `MriThresh.BoundsOrdered` | src/mri_thresh.c:24-26 | with `thbot < thtop` the bounds as converted to short stay ordered |
| `MriThresh.Masked` | src/mri_thresh.c:34-35 | entry `i` is 0 when `lo < thar[i] < hi`, else unchanged |
| `MriThresh.MaskedIdempotent` | src/mri_thresh.c:87-88 | masking twice by the same threshold values equals masking once |
| `MriThresh.SelfMaskedIdempotent` | src/mri_thresh.c:34-35 | when the image is its own threshold image, a second call changes nothing |
| `MriThresh.Threshold` | src/mri_thresh.c:10-132 | no change on a failed guard (null image, size mismatch, `thbot >= thtop`, unknown kind); otherwise real parts masked, imaginary parts masked together for complex and untouched otherwise, and a distinct threshold image unchanged |
| `Anova2.CheckForValidInputs` | src/3dANOVA2.c:596-639 | accepts exactly the valid designs: both factors with at least two levels, `n >= 1`, and the model-specific rules |
| `Anova2.RandomModelCheck` | src/3dANOVA2.c:607-624 | random model: rejects `-ftr`, any A or B means, differences or contrasts, and `-fab` with `n == 1` |
| `Anova2.MixedModelCheck` | src/3dANOVA2.c:625-638 | mixed model: rejects `-ftr`, B means, differences and contrasts, and `-fab` or `-fb` with `n == 1` |
| `Anova2.RequiredDataFiles` | src/3dANOVA2.c:656-673 | the result is at least `5 + requests` and at least `nmax` (6, or 5 when `n == 1`), and equals one of the two |
| `Anova2.FixedDesignNeedsSixFiles` | src/3dANOVA2.c:603-606 | an accepted fixed-effects design needs at least six files |
| `Anova2.TallyDsets` | src/3dANOVA2.c:253-264 | the first illegal level or overfull cell is reported with all earlier pairs clean; otherwise every cell count equals `n[0][0]`, or some cell differs |
| `Anova2.Legal` | src/3dANOVA2.c:253-259 | a `-dset i j` pair is accepted iff `n[i-1][j-1]` lies inside the `a` by `b` counter array |
| `Anova2.CountOf` | src/3dANOVA2.c:261 | the count `n[i][j]` of a cell after reading some pairs never exceeds the number of pairs |
| `Anova2.CountOfZero` | src/3dANOVA2.c:261 | a cell's count is 0 exactly when no pair names it |
| `Anova2.CountOfAll` | src/3dANOVA2.c:261 | a cell's count is the number of pairs exactly when every pair names it |
| `Anova2.CountStep` | src/3dANOVA2.c:261 | reading one more pair raises the count of its own cell by one and leaves every other cell's count alone |
| `Anova2.CompareCounts` | src/3dANOVA2.c:502-506 | on the final counts of legal pairs: equal cells with `n == n[0][0]` exactly when every cell holds as many files as cell (1, 1), otherwise a differing cell exists |
| `Anova2.CheckEqualCells` | src/3dANOVA2.c:502-506 | equal cells exactly when every count equals `n[0][0]` |
| `Anova2.CleanIffFinalCountsBounded` | src/3dANOVA2.c:261-264 | checking the limit after each file is the same as checking the final counts |
| `Anova2.CleanBoundsFinalCounts` | src/3dANOVA2.c:261-264 | pairs that passed every check leave no cell above the limit |
| `Anova2.FinalCountsBoundClean` | src/3dANOVA2.c:261-264 | final counts within the limit mean no intermediate check fails |
| `Anova2.Range` | src/3dANOVA2.c:765-773 | a negative index selects all levels, otherwise that level only |
| `Anova2.SingleCell` | src/3dANOVA2.c:765-773 | two non-negative indices sum just that cell |
| `Anova2.CalculateSum` | src/3dANOVA2.c:765-796 | `ysum[x]` is the sum of voxel `x` over all observations of the selected cells |
| `Anova2.AddCell` | src/3dANOVA2.c:785-794 | adds every volume of one cell |
| `Anova2.VolumeZero` | src/3dANOVA2.c:776 | `ysum` is zeroed |
| `Anova2.AddVolume` | src/3dANOVA2.c:792-793 | voxel-wise `ysum += y` |
| `Anova2.Clamped` | src/3dANOVA2.c:1167-1168 | negative voxels become 0, the rest stay; the result is non-negative |
| `Anova2.ClampedIdempotent` | src/3dANOVA2.c:1167-1168 | clamping twice equals clamping once |
| `Anova2.SubtractVolume` | src/3dANOVA2.c:1162-1163 | voxel-wise `acc -= y` |
| `Anova2.ClampVolume` | src/3dANOVA2.c:1167-1168 | in-place clamp equals `Clamped` of the old contents |
| `Anova2.VolumeRead` | src/3dANOVA2.c:1159 | a fresh buffer holding the volume |
| `Anova2.ClampedDifference` | src/3dANOVA2.c:1159-1168 | SSE, SSTR, SSA and SSB are the voxel-wise difference clamped at 0 |
| `Anova2.CalculateSsab` | src/3dANOVA2.c:1355-1368 | SSAB is `SSTR - SSA - SSB` clamped at 0 |
| `Anova2.ClampedDifferenceFacts` | src/3dANOVA2.c:1162-1168 | every clamped sum of squares is non-negative; it equals the difference where that is non-negative, and is 0 elsewhere |
| `Refit.ToUpper` | src/3drefit.c:148-150 | ASCII upper-casing of letters, other characters kept |
| `Refit.Strncpy4` | src/3drefit.c:145 | at most three characters are kept, as a prefix |
| `Refit.ParseOrientAsWritten` | src/3drefit.c:145-153 | illegal iff shorter than 3; accepted iff the first three letters' `ORCODE`s are all non-negative and pass `OR3OK`, and then those are the codes |
| `Refit.ParseOrient` | src/3drefit.c:145-153 | corrected test: accepted iff at least 3 characters and the three upper-cased letters name three different axes |
| `Refit.OrCode` | src/3drefit.c:133-136 | a letter naming no direction gets `ILLEGAL_TYPE`; with the standard codes the others get a non-negative code whose half is their axis, even exactly for R, P and I |
| `Refit.Or3Ok` | src/3drefit.c:138 | on codes 0..5, `OR3OK` is the test that the three axes (`code/2`) add up to 3 |
| `Refit.Mask6` | src/3drefit.c:138 | `x & 6` is bits 1 and 2 of `x`: `x mod 8` with bit 0 cleared, one of 0, 2, 4 or 6 |
| `Refit.MaskIsAxis` | src/3drefit.c:133-138 | with the standard codes, `code & 6` is twice the letter's axis |
| `Refit.Or3OkAcceptsAnteriorPosteriorTriples` | src/3drefit.c:138 | `OR3OK` accepts exactly the proper orientations plus every triple of P/A letters |
| `Refit.PapIsAccepted` | src/3drefit.c:152-153 | "PAP" is accepted as written and refused by the corrected test |
| `Refit.AsWrittenAcceptsAnteriorPosteriorTriples` | src/3drefit.c:145-153 | every argument whose first three letters are all P or A is accepted as written and refused by the corrected test |
| `Refit.LongArgumentTruncated` | src/3drefit.c:145-146 | a longer argument is judged by its first three characters |
| `Refit.PositiveArgument` | src/3drefit.c:187-209 | `-xdel`/`-ydel`/`-zdel`/`-TR` values are accepted iff positive |
| `Refit.TrUnits` | src/3drefit.c:219-225 | "ms"/"msec", "s"/"sec" and "Hz"/"Hertz" select their units; anything else selects none |
| `Refit.StatparCount` | src/3drefit.c:247-253 | the as-written loop takes every consecutive number, with no bound |
| `Refit.StatparOverruns` | src/3drefit.c:245-253 | `MAX_STAT_AUX + 1` numbers make the as-written loop store past the buffer |
| `Refit.ReadStatpar` | src/3drefit.c:243-255 | buffer cleared, then the consecutive numbers stored up to its length; no number is an error |
| `Refit.AxisDistance` | src/3drefit.c:325-336 | the given distance, the old origin's size, or `0.5*(n-1)*del` for `cen` |
| `Refit.AxisDelta` | src/3drefit.c:330-332 | the new voxel size when one is given, otherwise the old step's size |
| `Refit.SignedOrigin` | src/3drefit.c:338-345 | keeps the distance's size; a positive distance becomes a negative origin, and a negative distance a positive one, exactly on '+' axes |
| `Refit.SignedDelta` | src/3drefit.c:347-354 | keeps the voxel size; a positive size becomes a positive step exactly on '+' axes |
| `Refit.NewOrg` | src/3drefit.c:325-345 | an axis origin without edit or new orientation is kept; otherwise its size is the distance chosen (given, `cen`, or the old origin's size), so a reorientation alone keeps the origin's size; a rewritten origin is negative for a positive distance, and positive for a negative one, exactly on '+' axes |
| `Refit.NewDel` | src/3drefit.c:347-354 | an axis step without edit or new orientation is kept; otherwise it keeps its size (a given positive `del` or the old size) and is positive exactly on '+' axes |
| `Refit.TypeChangeAllowed` | src/3drefit.c:382-393 | a type change applies exactly when one was asked for and, with a time axis, the new type has at most one value, or, without one, its value count equals the sub-brick count |
| `Refit.ApplyEdits` | src/3drefit.c:319-399 | the header after the block: orientation, origins and steps under the new signs, time axis, type (only when allowed), stat_aux |
| `Refit.SetGeometry` | src/3drefit.c:319-354 | orientation, then each axis's origin and step as `NewOrg`/`NewDel` |
| `Refit.Retime` | src/3drefit.c:356-378 | TR, units and slice offsets scaled by `TR/ttdel`; `zorg_sl`/`dz_sl` follow the new z axis when there are slices |
| `Refit.Scaled` | src/3drefit.c:366-367 | every entry multiplied by `frac` |
| `Refit.ScaledKeepsFractions` | src/3drefit.c:360-367 | each slice offset stays the same fraction of the repetition time |
| `Refit.ScaleOffsets` | src/3drefit.c:365-368 | in-place scaling equals `Scaled` of the old offsets |
| `Refit.CopyInto` | src/3drefit.c:395-399 | stat_aux receives the collected values |
| `RemlFit.ClampRhoMax` | src/1dREMLfit.c:36-38 | the result is in [0.3, 0.9]; in-range values are kept; others go to the nearer end |
| `RemlFit.ClampGridSize` | src/1dREMLfit.c:42-50 | the truncated value clamped into [2, 20] |
| `RemlFit.Advance` | src/1dREMLfit.c:109 | the inner scan only moves forward, stays a valid run, stops, when it moved, at a run starting at or before `jj`, and stops at the last run or before the next start |
| `RemlFit.Cursor` | src/1dREMLfit.c:106-109 | after each scan, `rnum+1 == Nruns` or `goodlist[ii] < runs[rnum+1]` |
| `RemlFit.RunTable` | src/1dREMLfit.c:98-105 | the decoded `RunStart` list, or the single run `[0]` when the attribute is absent |
| `RemlFit.CursorBelowRuns` | src/1dREMLfit.c:106-109 | `rnum < Nruns` (0 with no run table) at every time point |
| `RemlFit.CursorMonotone` | src/1dREMLfit.c:106-109 | `rnum` never decreases across time points |
| `RemlFit.CursorFindsRun` | src/1dREMLfit.c:106-110 | for increasing time points, `rnum` is the run that contains the point |
| `RemlFit.InRunIsRunOf` | src/1dREMLfit.c:109 | with strictly increasing run starts, a point lies in exactly one run, counted by lookup |
| `RemlFit.CursorIsRunOf` | src/1dREMLfit.c:106-110 | the cursor equals the run-table lookup of the time point |
| `RemlFit.SingleRunCursor` | src/1dREMLfit.c:103-104 | with one run the cursor stays 0 |
| `RemlFit.ComputeTau` | src/1dREMLfit.c:106-111 | `tau[ii] = goodlist[ii] + 10000*rnum` for every time point |
| `RemlFit.TauAt` | src/1dREMLfit.c:110 | `tau = jj + 10000*rnum`: for a point below 10000, `tau / 10000` is its run and `tau % 10000` the point |
| `RemlFit.ScanRuns` | src/1dREMLfit.c:109 | the inner `for` computes `Advance` |
| `RemlFit.PrepareTau` | src/1dREMLfit.c:86-111 | length mismatch, missing GoodList (no tau), bad GoodList and bad RunStart, each exactly in its case and in the C order; otherwise the tau values |
| `RemlFit.NoRunStartKeepsGoodList` | src/1dREMLfit.c:103-110 | without RunStart, tau equals the good list |
| `BuildAfni.RFind` | src/python_scripts/scripts/build_afni.py:117 | the last index of the character, or -1 when absent |
| `BuildAfni.PathHead` | src/python_scripts/scripts/build_afni.py:114-122 | the whole path without '/', otherwise the prefix before the last '/' |
| `BuildAfni.PathTail` | src/python_scripts/scripts/build_afni.py:124-132 | the whole path without '/', otherwise the suffix after the last '/'; never contains '/' |
| `BuildAfni.HeadSlashTail` | src/python_scripts/scripts/build_afni.py:114-132 | `path_head(p) + '/' + path_tail(p) == p` when `p` contains '/' |
| `BuildAfni.TailIdempotent` | src/python_scripts/scripts/build_afni.py:124-132 | the tail of a tail is the tail |
| `BuildAfni.ParamText` | src/python_scripts/scripts/build_afni.py:537-544 | a string is its own text, a list is joined, another type has no text |
| `BuildAfni.Join` | src/python_scripts/scripts/build_afni.py:541 | `', '.join`: empty for no item, the item itself for one, and otherwise starting with the first item and ending with the last |
| `BuildAfni.MoveOperands` | src/python_scripts/scripts/build_afni.py:566 | `params[0]` and `params[1]` exist exactly for lists of two or more items and strings of two or more characters |
| `BuildAfni.HistoryEntry` | src/python_scripts/scripts/build_afni.py:537-580 | the recorded line: none for a bad param type; `cmd` or `cmd pstr` for system commands; for Python commands only the four known names, `mv` only with two operands |
| `BuildAfni.PythonEntriesAreLibraryCalls` | src/python_scripts/scripts/build_afni.py:557-577 | every recorded Python command is an `os.` or `shutil.` call |
| `BuildAfni.SystemEntryStartsWithCommand` | src/python_scripts/scripts/build_afni.py:550-552 | a recorded system command starts with the command |
| `BuildAfni.Interface.constructor` | src/python_scripts/scripts/build_afni.py:184 | the history starts empty |
| `BuildAfni.Interface.RunCommand` | src/python_scripts/scripts/build_afni.py:536-589 | no entry means status 1, empty text and history unchanged; otherwise exactly one entry is appended and the status is the shell's, or 1 when `eval` raised, else 0 |

## Left out

- The voxel update routine of the correlation engine, and the `RCH`/`VCH`
  macros and `REF_EPS`, live in afni_pcor.h, which is not part of this model.
  - `chrow` is the flat buffer its allocation describes.
  - `REF_EPS` is an arbitrary positive constant, here 1e-7; only its
    positivity is used.
  - `VoxelCorr.Valid` assumes what that routine maintains: every energy slot
    is positive. The unguarded divisions in `pcor_and_coef` rely on it.
- Floating point: single-precision rounding, NaN and infinity, and libm's
  `sqrt` are out of the model. Arithmetic is exact over `real`, and `sqrt` is
  a parameter.
  - At `pcthresh^2 == 1` the C `thfac` is infinite. `PassesThreshold` treats
    that as "no voxel passes".
  - A float threshold image compares against `thbot`/`thtop` rounded to
    float. The model compares against the values as given.
  - The `short` conversion of the bounds is modelled as truncation. An
    out-of-range value (undefined behaviour in C) is not modelled.
- Fatal errors (`exit(1)`, `ANOVA_error`, `Syntax`, `ERROR_exit`) become
  status or outcome values that leave the outputs untouched. Messages are
  kept only where they identify the rule (`Anova2.CheckForValidInputs`).
- `PcorVoxels.NewVoxelCorr` takes a non-negative `numref`, whereas the C
  parameter is a plain `int` that it does not check. A negative `numref`
  would make the allocation size `numvox*(numref+1)` zero or negative.
- `malloc` failures, the `free_*` routines, and the static scratch buffer `zz`
  are out of the model. `zz` is a fresh local copy.
- `PcorStats.GetLsqfit`: the `fit[]` array of output arrays is a two-dimensional
  output with a "requested" mask. Aliasing between different `fit[j]` arrays
  is not modelled.
- `PcorReferences.References.Update` requires `vec` to be none of the
  structure's own `alp`/`ff`/`gg` arrays.
- `PcorStats.GetMcor` follows the code: only `m >= nref` is rejected, and
  `m <= 0` adds nothing to the energy.
- The source's comment says `|pcor| >= pcthresh`. The code tests strictly,
  and `PcorFormulas.ThresholdIsCorrelationTest` proves the strict
  `|pcor| > pcthresh`.
- ANOVA:
  - All disk staging and volume I/O (`volume_read`/`volume_write`,
    `read_afni_data`, disk-space checks) becomes sequences of voxel values.
  - Printing, the F- and t-statistics, and the `sscanf` option scanning are
    out of the model.
  - `MAX_LEVELS` is the size of the counter array.
  - `MAX_OBSERVATIONS` is the parameter `maxObs`.
  - `TallyDsets` checks every `-dset` against one pair `a`, `b`. In the
    program, each `-dset` is checked against the level counts in force when
    it is parsed.
- 3drefit:
  - Option dispatch and prefix matching, `strtod`, and the parsing of
    `-xorigin cen` are out of the model. Values arrive already parsed in
    `Edits` and `Arg`.
    - The empty-string argument that `strtod` accepts as 0 in `-statpar` is
      not distinguished.
    - "No options given" is not modelled.
  - Dataset open/write, `-newid` (`MCW_new_idcode`), `-markers`, and the
    anatomy/function prefix tables are out of the model.
  - The `ORI_*` codes, `ILLEGAL_TYPE` and `ORIENT_sign` come from 3ddata.h,
    which is not part of this model; they are parameters.
  - `MAX_STAT_AUX` is the length of the `stataux` buffer.
  - `Refit.Retime`: a stored `ttdel` of 0 is excluded. The C quotient
    `TR / ttdel` at src/3drefit.c:360 is then infinite in floating point.
    Every non-zero `ttdel`, negative ones included, is modelled.
- 1dREMLfit:
  - NIML/1D reading, the attribute decoding of `NI_decode_int_list`, matrix
    filling, `REML_setup` and CPU timing are out of the model. The attributes
    arrive as `Attr` values.
  - `RemlFit.ClampGridSize`: `(int)strtod(...)` at src/1dREMLfit.c:41 and
    47 is undefined behaviour in C when the value lies outside the `int`
    range. On x86, `-Nrho 1e20` yields `INT_MIN`, which the code clamps to
    2; the model truncates exactly and gives 20.
  - `RemlFit.ComputeTau`: `jj + 10000*rnum` at src/1dREMLfit.c:110 is an
    `int` sum that can overflow for large points or run numbers; the model
    computes it exactly.
  - The option defaults (`rhomax = 0.7`, `rhonum = 7`, `delnum = 10`, at
    src/1dREMLfit.c:9) are not modelled; the clamps are applied only to
    values given on the command line.
  - A missing `GoodList` is not an error in the code: the tau block is
    skipped and no time index is built. The model follows the code
    (`NoTau`).
- build_afni.py:
  - `exec_tcsh_command`, `eval` and `os.path.isfile` are parameters of
    `RunCommand`.
  - `execute`, `prepare_root`, `clean_old_root` and `check_progs`
    (filesystem and `which` lookups) are out of the model.
  - A list holding non-string items makes `', '.join` raise, which the model
    cannot express (`Param` lists hold strings).
- `src/mri_to_mri.c` is only dispatch to conversion routines that are not
  part of this model. `neuro_deconvolve.py` only generates script text
  through library modules that are not part of this model. Neither is
  modelled.

## Findings

| source | as written | input that shows it | evidently intended | confidence | as-written member | corrected member |
|---|---|---|---|---|---|---|
| src/3drefit.c:138 | `OR3OK` adds `code & 6` of the three letters and compares the sum with 6 | `-orient PAP` (codes 2, 3, 2; masked 2+2+2 = 6) is accepted, and so is any triple of P/A letters | accept only codes naming three different axes | not executed | `Refit.AsWrittenAcceptsAnteriorPosteriorTriples` | `Refit.ParseOrient` |
| src/3drefit.c:247-253 | the `-statpar` loop stores `stataux[ii++]` for every numeric argument, with no bound on `ii` | `MAX_STAT_AUX + 1` numbers after `-statpar` write `stataux[MAX_STAT_AUX]`, past the buffer | stop at `MAX_STAT_AUX` numbers | not executed | `Refit.StatparOverruns` | `Refit.ReadStatpar` |
