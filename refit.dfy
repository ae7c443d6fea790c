/**
 * Parts of AFNI's header editor 3drefit (src/3drefit.c): the `-orient`
 * letter-code parser, the checks on the numeric option arguments and the
 * `-TR` unit suffix, the `-statpar` number list, and the per-dataset block
 * that applies the collected edits to a dataset header.
 *
 * The orientation codes `ORI_*_TYPE`, `ILLEGAL_TYPE` and the table
 * `ORIENT_sign` come from 3ddata.h, which is not part of this model; they
 * are parameters here.
 */
module Refit {
  import RealMath

  datatype Option<T> = None | Some(value: T)

  // ---------------------------------------------------------------------
  // -orient

  /** The values of ORI_R2L_TYPE .. ORI_S2I_TYPE and ILLEGAL_TYPE. */
  datatype OriCodes = OriCodes(r2l: int, l2r: int, p2a: int, a2p: int, i2s: int, s2i: int, illegal: int)

  /** The values 3ddata.h gives: R2L..S2I are 0..5, the two directions of
      each axis adjacent, and ILLEGAL_TYPE is negative. */
  predicate StandardCodes(c: OriCodes) {
    c.r2l == 0 && c.l2r == 1 && c.p2a == 2 && c.a2p == 3 && c.i2s == 4 && c.s2i == 5 && c.illegal < 0
  }

  /** C's toupper on ASCII letters. */
  function ToUpper(ch: char): (u: char)
    ensures 'a' <= ch <= 'z' ==> u as int == ch as int - 32
    ensures !('a' <= ch <= 'z') ==> u == ch
  {
    if 'a' <= ch <= 'z' then (ch as int - 32) as char else ch
  }

  /** The ORCODE macro: a letter that names no direction gets ILLEGAL_TYPE;
      with the standard codes the others get a code whose half is their
      axis and which is even for R, P and I (the "to" directions L, A, S are
      odd). */
  function OrCode(c: OriCodes, ch: char): (r: int)
    ensures LetterAxis(ch) < 0 ==> r == c.illegal
    ensures StandardCodes(c) ==> (0 <= r <==> 0 <= LetterAxis(ch))
    ensures StandardCodes(c) && 0 <= r ==> r / 2 == LetterAxis(ch) && (r % 2 == 0 <==> ch in "RPI")
  {
    if ch == 'R' then c.r2l else if ch == 'L' then c.l2r
    else if ch == 'P' then c.p2a else if ch == 'A' then c.a2p
    else if ch == 'I' then c.i2s else if ch == 'S' then c.s2i
    else c.illegal
  }

  /** `x & 6` for a non-negative `x`: bits 1 and 2. */
  function Mask6(x: nat): (m: nat)
    ensures m == 0 || m == 2 || m == 4 || m == 6
    ensures m == x % 8 - x % 2
  {
    (x / 2 % 4) * 2
  }

  /** The OR3OK macro, as written: on codes 0..5 it tests that the three
      axes (code / 2) add up to 3. */
  predicate Or3Ok(x: nat, y: nat, z: nat): (ok: bool)
    ensures x <= 5 && y <= 5 && z <= 5 ==> (ok <==> x / 2 + y / 2 + z / 2 == 3)
  {
    Mask6(x) + Mask6(y) + Mask6(z) == 6
  }

  /** MCW_strncpy(dst, src, 4): at most three characters are kept. */
  function Strncpy4(s: string): (t: string)
    ensures |t| <= 3 && |t| <= |s| && t == s[..|t|]
    ensures |s| <= 3 ==> t == s
    ensures 3 <= |s| ==> |t| == 3
  {
    if |s| <= 3 then s else s[..3]
  }

  datatype Orient = Orient(x: int, y: int, z: int) | IllegalCode | UnusableCode

  /** The `-orient` argument handling as written: too short is "Illegal",
      an unknown letter or a failed OR3OK is "Unusable". */
  function ParseOrientAsWritten(c: OriCodes, arg: string): (r: Orient)
    ensures r == IllegalCode <==> |arg| < 3
    ensures r.Orient? ==>
      && r.x == OrCode(c, ToUpper(arg[0])) && r.y == OrCode(c, ToUpper(arg[1]))
      && r.z == OrCode(c, ToUpper(arg[2]))
      && 0 <= r.x && 0 <= r.y && 0 <= r.z && Or3Ok(r.x, r.y, r.z)
    ensures r.Orient? <==>
      && 3 <= |arg|
      && 0 <= OrCode(c, ToUpper(arg[0])) && 0 <= OrCode(c, ToUpper(arg[1])) && 0 <= OrCode(c, ToUpper(arg[2]))
      && Or3Ok(OrCode(c, ToUpper(arg[0])), OrCode(c, ToUpper(arg[1])), OrCode(c, ToUpper(arg[2])))
  {
    var code := Strncpy4(arg);
    if |code| != 3 then IllegalCode
    else
      var x := OrCode(c, ToUpper(code[0]));
      var y := OrCode(c, ToUpper(code[1]));
      var z := OrCode(c, ToUpper(code[2]));
      if x < 0 || y < 0 || z < 0 || !Or3Ok(x, y, z) then UnusableCode
      else Orient(x, y, z)
  }

  /** The anatomical axis a letter names: 0 for R/L, 1 for P/A, 2 for I/S. */
  function LetterAxis(ch: char): int {
    if ch == 'R' || ch == 'L' then 0
    else if ch == 'P' || ch == 'A' then 1
    else if ch == 'I' || ch == 'S' then 2
    else -1
  }

  /** Three letters name orientations along three different axes. */
  predicate DistinctAxes(u: char, v: char, w: char) {
    0 <= LetterAxis(u) && 0 <= LetterAxis(v) && 0 <= LetterAxis(w)
    && LetterAxis(u) != LetterAxis(v) && LetterAxis(v) != LetterAxis(w) && LetterAxis(u) != LetterAxis(w)
  }

  /** The `-orient` handling with the intended test: one letter per axis. */
  function ParseOrient(c: OriCodes, arg: string): (r: Orient)
    ensures r == IllegalCode <==> |arg| < 3
    ensures r.Orient? <==> 3 <= |arg| && DistinctAxes(ToUpper(arg[0]), ToUpper(arg[1]), ToUpper(arg[2]))
    ensures r.Orient? ==>
      r.x == OrCode(c, ToUpper(arg[0])) && r.y == OrCode(c, ToUpper(arg[1])) && r.z == OrCode(c, ToUpper(arg[2]))
  {
    var code := Strncpy4(arg);
    if |code| != 3 then IllegalCode
    else
      var u, v, w := ToUpper(code[0]), ToUpper(code[1]), ToUpper(code[2]);
      if !DistinctAxes(u, v, w) then UnusableCode
      else Orient(OrCode(c, u), OrCode(c, v), OrCode(c, w))
  }

  /** With the standard codes, a letter's code masked by 6 is twice its axis. */
  lemma MaskIsAxis(c: OriCodes, ch: char)
    requires StandardCodes(c) && 0 <= OrCode(c, ch)
    ensures 0 <= LetterAxis(ch) && Mask6(OrCode(c, ch)) == 2 * LetterAxis(ch)
  {
  }

  /** Three axes in 0..2 sum to 3 exactly when they are all different or
      all the middle one. */
  lemma AxisSumThree(p: int, q: int, r: int)
    requires 0 <= p <= 2 && 0 <= q <= 2 && 0 <= r <= 2
    ensures p + q + r == 3 <==> (p != q && q != r && p != r) || (p == 1 && q == 1 && r == 1)
  {
  }

  /** With the standard codes OR3OK accepts every proper orientation, and
      besides them exactly the triples of letters from the P/A axis. */
  lemma Or3OkAcceptsAnteriorPosteriorTriples(c: OriCodes, u: char, v: char, w: char)
    requires StandardCodes(c)
    requires 0 <= OrCode(c, u) && 0 <= OrCode(c, v) && 0 <= OrCode(c, w)
    ensures Or3Ok(OrCode(c, u), OrCode(c, v), OrCode(c, w)) <==>
      DistinctAxes(u, v, w) || (LetterAxis(u) == 1 && LetterAxis(v) == 1 && LetterAxis(w) == 1)
  {
    MaskIsAxis(c, u);
    MaskIsAxis(c, v);
    MaskIsAxis(c, w);
    AxisSumThree(LetterAxis(u), LetterAxis(v), LetterAxis(w));
  }

  /** "PAP" names the anterior-posterior axis three times, yet the check as
      written accepts it; the intended test refuses it. */
  lemma PapIsAccepted(c: OriCodes)
    requires StandardCodes(c)
    ensures ParseOrientAsWritten(c, "PAP") == Orient(2, 3, 2)
    ensures ParseOrient(c, "PAP") == UnusableCode
  {
    assert Strncpy4("PAP") == "PAP";
    assert Mask6(2) == 2 && Mask6(3) == 2;
  }

  /** As written, every argument whose first three letters are all P or A
      (in either case) is accepted, although it names one axis three times. */
  lemma AsWrittenAcceptsAnteriorPosteriorTriples(c: OriCodes, arg: string)
    requires StandardCodes(c) && 3 <= |arg|
    requires LetterAxis(ToUpper(arg[0])) == 1 && LetterAxis(ToUpper(arg[1])) == 1 && LetterAxis(ToUpper(arg[2])) == 1
    ensures ParseOrientAsWritten(c, arg).Orient?
    ensures ParseOrient(c, arg) == UnusableCode
  {
    Or3OkAcceptsAnteriorPosteriorTriples(c, ToUpper(arg[0]), ToUpper(arg[1]), ToUpper(arg[2]));
  }

  /** Only the first three characters count: a longer argument is judged by
      its prefix. */
  lemma LongArgumentTruncated(c: OriCodes, arg: string)
    requires 3 <= |arg|
    ensures ParseOrient(c, arg) == ParseOrient(c, arg[..3])
  {
  }

  // ---------------------------------------------------------------------
  // -xdel / -ydel / -zdel / -TR / -statpar

  /** `-?del` and `-TR` take a positive value (after strtod). */
  function PositiveArgument(v: real): (r: Option<real>)
    ensures r.Some? <==> 0.0 < v
    ensures r.Some? ==> r.value == v
  {
    if v <= 0.0 then None else Some(v)
  }

  datatype Units = Msec | Sec | Hz

  /** The unit named by the text strtod left after the `-TR` number. */
  function TrUnits(suffix: string): (u: Option<Units>)
    ensures u == Some(Msec) <==> suffix == "ms" || suffix == "msec"
    ensures u == Some(Sec) <==> suffix == "s" || suffix == "sec"
    ensures u == Some(Hz) <==> suffix == "Hz" || suffix == "Hertz"
  {
    if suffix == "ms" || suffix == "msec" then Some(Msec)
    else if suffix == "s" || suffix == "sec" then Some(Sec)
    else if suffix == "Hz" || suffix == "Hertz" then Some(Hz)
    else None
  }

  /** An argument after `-statpar`: one strtod consumes whole, or not. */
  datatype Arg = Number(v: real) | Word

  /** The `-statpar` loop as written: it counts (and stores) consecutive
      numeric arguments with no limit. */
  function StatparCount(args: seq<Arg>, from: nat): (k: nat)
    requires from <= |args|
    ensures from + k <= |args|
    ensures forall t :: from <= t < from + k ==> args[t].Number?
    ensures from + k == |args| || args[from + k] == Word
    decreases |args| - from
  {
    if from == |args| || args[from] == Word then 0 else 1 + StatparCount(args, from + 1)
  }

  /** MAX_STAT_AUX + 1 numbers after `-statpar` make the loop as written
      store into `stataux[MAX_STAT_AUX]`, one past the end of the buffer. */
  lemma StatparOverruns(maxAux: nat)
    ensures var args := seq(maxAux + 1, _ => Number(1.0));
      StatparCount(args, 0) == maxAux + 1 && maxAux < StatparCount(args, 0)
  {
    var args := seq(maxAux + 1, _ => Number(1.0));
    assert forall t :: 0 <= t < |args| ==> args[t] != Word;
  }

  datatype Statpar = Statpar(count: nat, next: nat) | NoNumbers

  /** The `-statpar` loop with the bound it needs: `stataux` is cleared,
      then receives the consecutive numbers from `args[iarg]` on, stopping
      at a non-number or when the buffer is full. No number at all is an
      error. */
  method ReadStatpar(args: seq<Arg>, iarg: nat, stataux: array<real>) returns (r: Statpar)
    requires iarg < |args|
    modifies stataux
    ensures var k := if StatparCount(args, iarg) < stataux.Length then StatparCount(args, iarg) else stataux.Length;
      && (r == NoNumbers <==> k == 0)
      && (r.Statpar? ==> r.count == k && r.next == iarg + k)
      && forall i :: 0 <= i < stataux.Length ==> stataux[i] == (if i < k then args[iarg + i].v else 0.0)
  {
    var ii := 0;
    while ii < stataux.Length
      invariant 0 <= ii <= stataux.Length
      invariant forall i :: 0 <= i < ii ==> stataux[i] == 0.0
    {
      stataux[ii] := 0.0;
      ii := ii + 1;
    }
    ghost var want := StatparCount(args, iarg);
    var at := iarg;
    ii := 0;
    while at < |args| && ii < stataux.Length && args[at].Number?
      invariant 0 <= ii <= stataux.Length && at == iarg + ii
      invariant ii <= want
      invariant forall i :: 0 <= i < stataux.Length ==> stataux[i] == (if i < ii then args[iarg + i].v else 0.0)
    {
      stataux[ii] := args[at].v;
      ii := ii + 1;
      at := at + 1;
    }
    if ii == 0 {
      return NoNumbers;
    }
    return Statpar(ii, at);
  }

  // ---------------------------------------------------------------------
  // The per-dataset update block

  /** How the origin of one axis is to change. */
  datatype OrgEdit = KeepOrg | Dist(d: real) | Center

  /** The edits gathered from the options. Axes are 0 (x), 1 (y), 2 (z). */
  datatype Edits = Edits(
    orient: Option<seq<int>>,
    org: seq<OrgEdit>,
    del: seq<Option<real>>,
    tr: Option<real>,
    tunits: Option<Units>,
    newType: Option<(int, int, int)>,  // (type, func_type, nvals)
    stataux: Option<seq<real>>)

  class TimeAxis {
    var ttdel: real
    var units: Units
    /** the slice time offsets; `nsl` is their number */
    const toffSl: array<real>
    var zorgSl: real
    var dzSl: real

    constructor (tt: real, offsets: seq<real>)
      ensures ttdel == tt && toffSl[..] == offsets && fresh(toffSl)
    {
      ttdel := tt;
      units := Sec;
      toffSl := new real[|offsets|](i requires 0 <= i < |offsets| => offsets[i]);
      zorgSl := 0.0;
      dzSl := 0.0;
    }
  }

  class Dataset {
    /** xxorient, yyorient, zzorient */
    var orient: seq<int>
    /** xxorg, yyorg, zzorg */
    var org: seq<real>
    /** xxdel, yydel, zzdel */
    var del: seq<real>
    /** nxx, nyy, nzz */
    const dims: seq<int>
    const taxis: TimeAxis?
    var dtype: int
    var funcType: int
    /** the number of sub-bricks (dblk->nvals) */
    const nvals: int
    const statAux: array<real>

    /** Three axes, each oriented by a code that indexes ORIENT_sign; a time
        axis with a non-zero step (the `TR / ttdel` quotient needs it) and its own
        offset buffer. */
    ghost predicate Valid(signs: seq<char>)
      reads this, taxis
    {
      && |orient| == 3 && |org| == 3 && |del| == 3 && |dims| == 3
      && (forall k :: 0 <= k < 3 ==> 0 <= orient[k] < |signs|)
      && (taxis != null ==> taxis.ttdel != 0.0 && taxis.toffSl != statAux)
    }

    constructor (o: seq<int>, g: seq<real>, d: seq<real>, n: seq<int>, t: TimeAxis?, nv: int, aux: nat)
      requires |o| == 3 && |g| == 3 && |d| == 3 && |n| == 3
      ensures orient == o && org == g && del == d && dims == n && taxis == t && nvals == nv
      ensures statAux.Length == aux && fresh(statAux)
    {
      orient := o;
      org := g;
      del := d;
      dims := n;
      taxis := t;
      dtype := 0;
      funcType := 0;
      nvals := nv;
      statAux := new real[aux];
    }
  }

  function Abs(x: real): (r: real)
    ensures 0.0 <= r && (r == x || r == -x)
  {
    if x < 0.0 then -x else x
  }

  /** The voxel size used for axis `k`: the new one, or the old one's size. */
  function AxisDelta(edit: Option<real>, oldDel: real): (d: real)
    ensures edit.Some? ==> d == edit.value
    ensures edit.None? ==> 0.0 <= d && Abs(d) == Abs(oldDel)
  {
    if edit.Some? then edit.value else Abs(oldDel)
  }

  /** The distance of the axis origin: the given one, the centre of `n`
      voxels of size `delta` for `cen`, or the old origin's size. */
  function AxisDistance(edit: OrgEdit, oldOrg: real, n: int, delta: real): (dist: real)
    ensures edit == Center ==> dist == 0.5 * ((n - 1) as real) * delta
    ensures edit.Dist? ==> dist == edit.d
    ensures edit == KeepOrg ==> dist == Abs(oldOrg)
  {
    match edit
    case KeepOrg => Abs(oldOrg)
    case Dist(d) => d
    case Center => 0.5 * ((n - 1) as real) * delta
  }

  /** The stored origin and step of an axis whose orientation sign is `sgn`:
      the origin lies on the negative side for '+', and the step has the
      orientation's sign. */
  function SignedOrigin(sgn: char, dist: real): (o: real)
    ensures Abs(o) == Abs(dist)
    ensures 0.0 < dist ==> (o < 0.0 <==> sgn == '+')
    ensures dist < 0.0 ==> (0.0 < o <==> sgn == '+')
  {
    if sgn == '+' then -dist else dist
  }

  function SignedDelta(sgn: char, delta: real): (d: real)
    ensures Abs(d) == Abs(delta)
    ensures 0.0 < delta ==> (0.0 < d <==> sgn == '+')
  {
    if sgn == '+' then delta else -delta
  }

  /** The new origin and step of axis `k` (0..2) after the edits. */
  function NewOrg(e: Edits, orient: seq<int>, org: seq<real>, del: seq<real>, dims: seq<int>,
                  signs: seq<char>, k: nat): (r: real)
    requires |e.org| == 3 && |e.del| == 3 && |orient| == 3 && |org| == 3 && |del| == 3 && |dims| == 3 && k < 3
    requires forall j :: 0 <= j < 3 ==> 0 <= orient[j] < |signs|
    ensures e.org[k] == KeepOrg && e.orient.None? ==> r == org[k]
    ensures e.org[k] != KeepOrg || e.orient.Some? ==>
      Abs(r) == Abs(AxisDistance(e.org[k], org[k], dims[k], AxisDelta(e.del[k], del[k])))
    ensures e.org[k] == KeepOrg ==> Abs(r) == Abs(org[k])
    ensures (e.org[k] != KeepOrg || e.orient.Some?) &&
            0.0 < AxisDistance(e.org[k], org[k], dims[k], AxisDelta(e.del[k], del[k])) ==>
      (r < 0.0 <==> signs[orient[k]] == '+')
    ensures (e.org[k] != KeepOrg || e.orient.Some?) &&
            AxisDistance(e.org[k], org[k], dims[k], AxisDelta(e.del[k], del[k])) < 0.0 ==>
      (0.0 < r <==> signs[orient[k]] == '+')
  {
    if e.org[k] != KeepOrg || e.orient.Some? then
      SignedOrigin(signs[orient[k]], AxisDistance(e.org[k], org[k], dims[k], AxisDelta(e.del[k], del[k])))
    else org[k]
  }

  function NewDel(e: Edits, orient: seq<int>, del: seq<real>, signs: seq<char>, k: nat): (r: real)
    requires |e.del| == 3 && |orient| == 3 && |del| == 3 && k < 3
    requires forall j :: 0 <= j < 3 ==> 0 <= orient[j] < |signs|
    ensures e.del[k].None? && e.orient.None? ==> r == del[k]
    ensures e.del[k].None? ==> Abs(r) == Abs(del[k])
    ensures e.del[k].Some? && 0.0 < e.del[k].value ==>
      Abs(r) == e.del[k].value && (0.0 < r <==> signs[orient[k]] == '+')
    ensures e.del[k].None? && e.orient.Some? && del[k] != 0.0 ==> (0.0 < r <==> signs[orient[k]] == '+')
  {
    if e.del[k].Some? || e.orient.Some? then SignedDelta(signs[orient[k]], AxisDelta(e.del[k], del[k]))
    else del[k]
  }

  /** The edits are well formed: three axes, orientation codes that index
      ORIENT_sign, positive voxel sizes and TR (which the option checks
      guarantee), and a stat_aux list of the buffer's length. */
  predicate WellFormed(e: Edits, signs: seq<char>, auxLen: nat) {
    && |e.org| == 3 && |e.del| == 3
    && (e.orient.Some? ==> |e.orient.value| == 3 && forall k :: 0 <= k < 3 ==> 0 <= e.orient.value[k] < |signs|)
    && (forall k :: 0 <= k < 3 && e.del[k].Some? ==> 0.0 < e.del[k].value)
    && (e.tr.Some? ==> 0.0 < e.tr.value)
    && (e.stataux.Some? ==> |e.stataux.value| == auxLen)
  }

  /** The per-dataset block of 3drefit's main: orientation first, then the
      origins and steps under the (new) orientation signs, then the time
      axis, the type and the statistical parameters. */
  method ApplyEdits(ds: Dataset, e: Edits, signs: seq<char>)
    requires ds.Valid(signs) && WellFormed(e, signs, ds.statAux.Length)
    modifies ds, ds.taxis, if ds.taxis != null then {ds.taxis.toffSl} else {}, ds.statAux
    ensures ds.Valid(signs)
    ensures ds.orient == (if e.orient.Some? then e.orient.value else old(ds.orient))
    ensures forall k :: 0 <= k < 3 ==>
      && ds.org[k] == NewOrg(e, ds.orient, old(ds.org), old(ds.del), ds.dims, signs, k)
      && ds.del[k] == NewDel(e, ds.orient, old(ds.del), signs, k)
    ensures TypeChangeAllowed(e, ds.taxis != null, ds.nvals) ==>
      ds.dtype == e.newType.value.0 && ds.funcType == e.newType.value.1
    ensures !TypeChangeAllowed(e, ds.taxis != null, ds.nvals) ==>
      ds.dtype == old(ds.dtype) && ds.funcType == old(ds.funcType)
    ensures ds.statAux[..] == (if e.stataux.Some? then e.stataux.value else old(ds.statAux[..]))
    ensures ds.taxis != null ==>
      && ds.taxis.ttdel == (if e.tr.Some? then e.tr.value else old(ds.taxis.ttdel))
      && ds.taxis.units == (if e.tr.Some? && e.tunits.Some? then e.tunits.value else old(ds.taxis.units))
      && ds.taxis.toffSl[..] == (if e.tr.Some? then Scaled(old(ds.taxis.toffSl[..]), e.tr.value / old(ds.taxis.ttdel))
                                 else old(ds.taxis.toffSl[..]))
      && ds.taxis.zorgSl == (if (e.orient.Some? || e.org[2] != KeepOrg) && 0 < ds.taxis.toffSl.Length
                             then ds.org[2] else old(ds.taxis.zorgSl))
      && ds.taxis.dzSl == (if (e.orient.Some? || e.del[2].Some?) && 0 < ds.taxis.toffSl.Length
                           then ds.del[2] else old(ds.taxis.dzSl))
  {
    SetGeometry(ds, e, signs);
    if ds.taxis != null {
      Retime(ds.taxis, e, ds.org[2], ds.del[2]);
    }
    if TypeChangeAllowed(e, ds.taxis != null, ds.nvals) {
      ds.dtype := e.newType.value.0;
      ds.funcType := e.newType.value.1;
    }
    if e.stataux.Some? {
      CopyInto(ds.statAux, e.stataux.value);
    }
  }

  /** The orientation, origin and step part of the block. */
  method SetGeometry(ds: Dataset, e: Edits, signs: seq<char>)
    requires ds.Valid(signs) && WellFormed(e, signs, ds.statAux.Length)
    modifies ds`orient, ds`org, ds`del
    ensures ds.Valid(signs)
    ensures ds.orient == (if e.orient.Some? then e.orient.value else old(ds.orient))
    ensures forall k :: 0 <= k < 3 ==>
      && ds.org[k] == NewOrg(e, ds.orient, old(ds.org), old(ds.del), ds.dims, signs, k)
      && ds.del[k] == NewDel(e, ds.orient, old(ds.del), signs, k)
  {
    if e.orient.Some? {
      ds.orient := e.orient.value;
    }
    var o := ds.orient;
    var g := ds.org;
    var d := ds.del;
    ds.org := [NewOrg(e, o, g, d, ds.dims, signs, 0), NewOrg(e, o, g, d, ds.dims, signs, 1),
               NewOrg(e, o, g, d, ds.dims, signs, 2)];
    ds.del := [NewDel(e, o, d, signs, 0), NewDel(e, o, d, signs, 1), NewDel(e, o, d, signs, 2)];
  }

  /** The time-axis part of the block, given the new z origin and step. */
  method Retime(t: TimeAxis, e: Edits, zorg: real, dz: real)
    requires t.ttdel != 0.0 && |e.org| == 3 && |e.del| == 3 && (e.tr.Some? ==> 0.0 < e.tr.value)
    modifies t, t.toffSl
    ensures t.ttdel != 0.0
    ensures t.ttdel == (if e.tr.Some? then e.tr.value else old(t.ttdel))
    ensures t.units == (if e.tr.Some? && e.tunits.Some? then e.tunits.value else old(t.units))
    ensures t.toffSl[..] == (if e.tr.Some? then Scaled(old(t.toffSl[..]), e.tr.value / old(t.ttdel))
                             else old(t.toffSl[..]))
    ensures t.zorgSl == (if (e.orient.Some? || e.org[2] != KeepOrg) && 0 < t.toffSl.Length
                         then zorg else old(t.zorgSl))
    ensures t.dzSl == (if (e.orient.Some? || e.del[2].Some?) && 0 < t.toffSl.Length
                       then dz else old(t.dzSl))
  {
    if e.tr.Some? {
      var frac := e.tr.value / t.ttdel;
      t.ttdel := e.tr.value;
      if e.tunits.Some? {
        t.units := e.tunits.value;
      }
      ScaleOffsets(t.toffSl, frac);
    }
    if (e.orient.Some? || e.org[2] != KeepOrg) && 0 < t.toffSl.Length {
      t.zorgSl := zorg;
    }
    if (e.orient.Some? || e.del[2].Some?) && 0 < t.toffSl.Length {
      t.dzSl := dz;
    }
  }

  /** A type change goes ahead unless the new type has several values per
      voxel on a 3D+time dataset, or (without a time axis) its value count
      differs from the dataset's sub-brick count. */
  predicate TypeChangeAllowed(e: Edits, hasTime: bool, nvals: int): (ok: bool)
    ensures ok <==> e.newType.Some? && (if hasTime then e.newType.value.2 <= 1 else e.newType.value.2 == nvals)
  {
    e.newType.Some? &&
      var nv := e.newType.value.2;
      !(nv > 1 && hasTime) && !(!hasTime && nv != nvals)
  }

  /** Every entry multiplied by `f`. */
  function Scaled(s: seq<real>, f: real): (r: seq<real>)
    ensures |r| == |s|
    ensures forall i :: 0 <= i < |s| ==> r[i] == s[i] * f
    decreases |s|
  {
    if |s| == 0 then [] else Scaled(s[..|s| - 1], f) + [s[|s| - 1] * f]
  }

  /** Rescaling by `TR / ttdel` keeps every slice offset at the same
      fraction of the repetition time. */
  lemma {:induction false} ScaledKeepsFractions(s: seq<real>, oldTr: real, newTr: real)
    requires oldTr != 0.0 && 0.0 < newTr
    ensures forall i :: 0 <= i < |s| ==> Scaled(s, newTr / oldTr)[i] / newTr == s[i] / oldTr
  {
    forall i | 0 <= i < |s|
      ensures Scaled(s, newTr / oldTr)[i] / newTr == s[i] / oldTr
    {
      assert Scaled(s, newTr / oldTr)[i] == s[i] * (newTr / oldTr);
      RealMath.QuotientOfRatioScaled(s[i], oldTr, newTr);
    }
  }

  /** `toff_sl[ii] *= frac` over the slices. */
  method ScaleOffsets(a: array<real>, f: real)
    modifies a
    ensures a[..] == Scaled(old(a[..]), f)
  {
    ghost var a0 := a[..];
    var i := 0;
    while i < a.Length
      invariant 0 <= i <= a.Length
      invariant forall k :: 0 <= k < i ==> a[k] == Scaled(a0, f)[k]
      invariant forall k :: i <= k < a.Length ==> a[k] == a0[k]
    {
      var x := a[i];
      a[i] := x * f;
      i := i + 1;
    }
  }

  /** `stat_aux[ii] = stataux[ii]` over the buffer. */
  method CopyInto(a: array<real>, s: seq<real>)
    requires |s| == a.Length
    modifies a
    ensures a[..] == s
  {
    var i := 0;
    while i < a.Length
      invariant 0 <= i <= a.Length
      invariant forall k :: 0 <= k < i ==> a[k] == s[k]
    {
      a[i] := s[i];
      i := i + 1;
    }
  }
}
