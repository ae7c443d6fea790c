/**
 * Parts of AFNI's 1dREMLfit (src/1dREMLfit.c): the clamping of the
 * `-MAXrho`, `-Nrho` and `-Ndel` parameters, and the construction of the
 * time index `tau` from the matrix attributes `GoodList` (the time points
 * kept) and `RunStart` (where each imaging run begins). Each kept time
 * point is tagged with its run through `tau = point + 10000*run`.
 */
module RemlFit {
  import opened CNumeric

  /** `-MAXrho`: the value clamped into [0.3, 0.9]. */
  function ClampRhoMax(r: real): (c: real)
    ensures 0.3 <= c <= 0.9
    ensures 0.3 <= r <= 0.9 ==> c == r
    ensures r < 0.3 ==> c == 0.3
    ensures 0.9 < r ==> c == 0.9
  {
    if r < 0.3 then 0.3 else if r > 0.9 then 0.9 else r
  }

  /** `-Nrho` and `-Ndel`: the value cast to `int`, then clamped into
      [2, 20]. */
  function ClampGridSize(v: real): (n: int)
    ensures 2 <= n <= 20
    ensures 2 <= Trunc(v) <= 20 ==> n == Trunc(v)
    ensures Trunc(v) < 2 ==> n == 2
    ensures 20 < Trunc(v) ==> n == 20
  {
    var k := Trunc(v);
    if k < 2 then 2 else if k > 20 then 20 else k
  }

  // ---------------------------------------------------------------------
  // The run cursor

  /** The inner `for` of the tau loop: advance the run number `r` while a
      later run exists and `jj` lies at or past its start. */
  function Advance(runs: seq<int>, jj: int, r: nat): (s: nat)
    ensures r <= s
    ensures r < |runs| ==> s < |runs|
    ensures s < r + 1 || s + 1 <= |runs|
    ensures s + 1 >= |runs| || jj < runs[s + 1]
    ensures r < s ==> runs[s] <= jj
    decreases |runs| - r
  {
    if r + 1 < |runs| && jj >= runs[r + 1] then Advance(runs, jj, r + 1) else r
  }

  /** The run number after time point `ii` of the good list: the last run,
      or one whose successor starts after the point. */
  function Cursor(good: seq<int>, runs: seq<int>, ii: nat): (r: nat)
    requires ii < |good|
    ensures r + 1 >= |runs| || good[ii] < runs[r + 1]
    decreases ii
  {
    Advance(runs, good[ii], if ii == 0 then 0 else Cursor(good, runs, ii - 1))
  }

  /** The cursor always names a valid run (run 0 when there is no run table
      at all). */
  lemma {:induction false} CursorBelowRuns(good: seq<int>, runs: seq<int>, j: nat)
    requires j < |good|
    ensures Cursor(good, runs, j) < (if |runs| == 0 then 1 else |runs|)
    decreases j
  {
    if 0 < j {
      CursorBelowRuns(good, runs, j - 1);
    }
  }

  /** The cursor never decreases from one time point to a later one. */
  lemma {:induction false} CursorMonotone(good: seq<int>, runs: seq<int>, i: nat, j: nat)
    requires i <= j < |good|
    ensures Cursor(good, runs, i) <= Cursor(good, runs, j)
    decreases j
  {
    if i < j {
      CursorMonotone(good, runs, i, j - 1);
    }
  }

  /** Run `r` contains time point `jj`: `jj` is at or past the start of run
      `r` (every point belongs to run 0 or later) and before the next one. */
  predicate InRun(runs: seq<int>, jj: int, r: nat) {
    (r == 0 || (r < |runs| && runs[r] <= jj)) && (r + 1 >= |runs| || jj < runs[r + 1])
  }

  /** With the time points in increasing order the cursor finds the run of
      every time point. */
  lemma {:induction false} CursorFindsRun(good: seq<int>, runs: seq<int>, ii: nat)
    requires ii < |good|
    requires forall i, j :: 0 <= i < j < |good| ==> good[i] <= good[j]
    ensures InRun(runs, good[ii], Cursor(good, runs, ii))
    decreases ii
  {
    var r := Cursor(good, runs, ii);
    var start := if ii == 0 then 0 else Cursor(good, runs, ii - 1);
    if r == start && 0 < ii {
      CursorFindsRun(good, runs, ii - 1);
      assert good[ii - 1] <= good[ii];
    }
  }

  /** How many run starts after the first, among `runs[1 .. k-1]`, lie at
      or before `jj`: the run table lookup for `jj`. */
  function Starts(runs: seq<int>, jj: int, k: nat): (n: nat)
    requires k <= |runs|
    ensures n < (if k == 0 then 1 else k)
  {
    if k <= 1 then 0 else Starts(runs, jj, k - 1) + (if runs[k - 1] <= jj then 1 else 0)
  }

  function RunOf(runs: seq<int>, jj: int): nat {
    Starts(runs, jj, |runs|)
  }

  /** With strictly increasing run starts, a run containing `jj` is the one
      the lookup names; so a time point lies in one run only. */
  lemma InRunIsRunOf(runs: seq<int>, jj: int, r: nat)
    requires forall i, j :: 0 <= i < j < |runs| ==> runs[i] < runs[j]
    requires InRun(runs, jj, r)
    ensures r == RunOf(runs, jj)
  {
    if |runs| == 0 {
    } else {
      StartsBelow(runs, jj, r, |runs|);
    }
  }

  lemma {:induction false} StartsBelow(runs: seq<int>, jj: int, r: nat, k: nat)
    requires forall i, j :: 0 <= i < j < |runs| ==> runs[i] < runs[j]
    requires InRun(runs, jj, r) && 1 <= k <= |runs|
    ensures Starts(runs, jj, k) == (if k - 1 < r then k - 1 else r)
    decreases k
  {
    if 1 < k {
      StartsBelow(runs, jj, r, k - 1);
      if k - 1 < r {
        assert runs[k - 1] < runs[r];
      } else if k - 1 > r {
        assert runs[r + 1] <= runs[k - 1];
      }
    }
  }

  /** The cursor computes the run table lookup, for increasing time points
      and strictly increasing run starts. */
  lemma CursorIsRunOf(good: seq<int>, runs: seq<int>, ii: nat)
    requires ii < |good|
    requires forall i, j :: 0 <= i < j < |good| ==> good[i] <= good[j]
    requires forall i, j :: 0 <= i < j < |runs| ==> runs[i] < runs[j]
    ensures Cursor(good, runs, ii) == RunOf(runs, good[ii])
  {
    CursorFindsRun(good, runs, ii);
    InRunIsRunOf(runs, good[ii], Cursor(good, runs, ii));
  }

  /** With a single run (no RunStart attribute) the cursor stays at 0. */
  lemma SingleRunCursor(good: seq<int>, runs: seq<int>, ii: nat)
    requires ii < |good| && |runs| <= 1
    ensures Cursor(good, runs, ii) == 0
  {
    CursorBelowRuns(good, runs, ii);
  }

  /** The `for ii` loop: `tau[ii] = goodlist[ii] + 10000*rnum`, the cursor
      `rnum` advanced over the run starts before each point. */
  method ComputeTau(good: seq<int>, runs: seq<int>, ntime: nat) returns (tau: array<int>)
    requires ntime <= |good|
    ensures fresh(tau) && tau.Length == ntime
    ensures forall k :: 0 <= k < ntime ==> tau[k] == TauAt(good, runs, k)
  {
    tau := new int[ntime];
    var rnum: nat := 0;
    var ii := 0;
    while ii < ntime
      invariant 0 <= ii <= ntime
      invariant rnum == (if ii == 0 then 0 else Cursor(good, runs, ii - 1))
      invariant forall k :: 0 <= k < ii ==> tau[k] == TauAt(good, runs, k)
    {
      var jj := good[ii];
      rnum := ScanRuns(runs, jj, rnum);
      assert rnum == Cursor(good, runs, ii);
      tau[ii] := jj + 10000 * rnum;
      assert tau[ii] == TauAt(good, runs, ii);
      ii := ii + 1;
    }
  }

  /** The time index of point `k`: the point tagged with its run. A point
      below 10000 and its run are read back by division and remainder. */
  function TauAt(good: seq<int>, runs: seq<int>, k: nat): (t: int)
    requires k < |good|
    ensures 0 <= good[k] < 10000 ==> t / 10000 == Cursor(good, runs, k) && t % 10000 == good[k]
  {
    good[k] + 10000 * Cursor(good, runs, k)
  }

  /** `for( ; rnum+1 < Nruns && jj >= runs[rnum+1] ; rnum++ )`. */
  method ScanRuns(runs: seq<int>, jj: int, r: nat) returns (rnum: nat)
    ensures rnum == Advance(runs, jj, r)
  {
    rnum := r;
    while rnum + 1 < |runs| && jj >= runs[rnum + 1]
      invariant r <= rnum
      invariant Advance(runs, jj, rnum) == Advance(runs, jj, r)
      decreases |runs| - rnum
    {
      rnum := rnum + 1;
    }
  }

  // ---------------------------------------------------------------------
  // The GoodList / RunStart block of main

  /** A matrix attribute: missing, present but not a list of integers, or
      decoded. */
  datatype Attr = Absent | Malformed | Ints(vals: seq<int>)

  datatype TauOutcome =
    | NoTau                // no GoodList: REML_setup gets no time index
    | Tau(tau: seq<int>)
    | LengthMismatch       // matrix length differs from the 1D file length
    | BadGoodList          // GoodList malformed or shorter than the matrix
    | BadRunStart          // RunStart malformed

  /** The run table used: the decoded RunStart, or the single run [0]. */
  function RunTable(rs: Attr): (t: seq<int>)
    requires rs != Malformed
    ensures rs.Ints? ==> t == rs.vals
    ensures rs == Absent ==> |t| == 1 && t[0] == 0
  {
    if rs.Ints? then rs.vals else [0]
  }

  /** The checks and the tau construction of main, in the C order. */
  method PrepareTau(ntime: nat, nx: nat, gl: Attr, rs: Attr) returns (r: TauOutcome)
    ensures ntime != nx <==> r == LengthMismatch
    ensures ntime == nx ==>
      && (gl == Absent <==> r == NoTau)
      && (r == BadGoodList <==> gl == Malformed || (gl.Ints? && |gl.vals| < ntime))
      && (r == BadRunStart <==> gl.Ints? && ntime <= |gl.vals| && rs == Malformed)
    ensures r.Tau? ==>
      && gl.Ints? && rs != Malformed && |r.tau| == ntime
      && forall ii :: 0 <= ii < ntime ==>
           r.tau[ii] == gl.vals[ii] + 10000 * Cursor(gl.vals, RunTable(rs), ii)
  {
    if ntime != nx {
      return LengthMismatch;
    }
    if gl == Absent {
      return NoTau;
    }
    if gl == Malformed || |gl.vals| < ntime {
      return BadGoodList;
    }
    if rs == Malformed {
      return BadRunStart;
    }
    var t := ComputeTau(gl.vals, RunTable(rs), ntime);
    return Tau(t[..]);
  }

  /** Without RunStart every time point is its own tau. */
  lemma NoRunStartKeepsGoodList(good: seq<int>, ii: nat)
    requires ii < |good|
    ensures good[ii] + 10000 * Cursor(good, RunTable(Absent), ii) == good[ii]
  {
    SingleRunCursor(good, RunTable(Absent), ii);
  }
}
