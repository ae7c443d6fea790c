/**
 * mri_threshold (src/mri_thresh.c): zero, in place, every pixel of an image
 * whose pixel in a second "threshold" image lies strictly between two
 * bounds. All numeric pixel kinds are collapsed into one buffer of reals;
 * a complex image keeps its imaginary parts in a second buffer.
 */
module MriThresh {
  import opened CNumeric

  /** The pixel kinds of an MRI_IMAGE; `OtherKind` stands for every kind the
      routine does not handle (rgb, rgba, ...). */
  datatype Kind = Byte | Short | Int | Float | Double | Complex | OtherKind

  class Image {
    const kind: Kind
    const nvox: nat
    /** The pixel values (for a complex image, the real parts). */
    const re: array<real>
    /** The imaginary parts of a complex image; unused by other kinds. */
    const im: array<real>

    ghost predicate Valid()
      reads this
    {
      re.Length == nvox && im != re && (kind == Complex ==> im.Length == nvox)
    }

    constructor (k: Kind, values: seq<real>, imag: seq<real>)
      requires k == Complex ==> |imag| == |values|
      ensures Valid() && kind == k && nvox == |values|
      ensures re[..] == values && im[..] == imag
      ensures fresh(re) && fresh(im)
    {
      kind := k;
      nvox := |values|;
      re := new real[|values|] (i requires 0 <= i < |values| => values[i]);
      im := new real[|imag|] (i requires 0 <= i < |imag| => imag[i]);
    }
  }

  /** The threshold image kinds the routine knows. */
  predicate ThresholdKind(k: Kind): (ok: bool)
    ensures ok <==> k in {Short, Float}
    ensures ok ==> DataKind(k)
  {
    k == Short || k == Float
  }

  /** The data image kinds the routine knows. */
  predicate DataKind(k: Kind): (ok: bool)
    ensures ok <==> k in {Byte, Short, Int, Float, Double, Complex}
  {
    k != OtherKind
  }

  /** A bound as actually compared against (`th1` from `thbot`, `th2` from
      `thtop`): converted to `short` for a short threshold image, kept as
      given for a float one. */
  function Bound(th: real, k: Kind): (b: real)
    ensures k != Short ==> b == th
    ensures k == Short ==> b.Floor as real == b
    ensures k == Short && 0.0 <= th ==> 0.0 <= b <= th < b + 1.0
    ensures k == Short && th < 0.0 ==> b - 1.0 < th <= b <= 0.0
  {
    if k == Short then Trunc(th) as real else th
  }

  /** With `thbot < thtop` the compared bounds are still ordered, though with
      a short threshold image they may coincide (and then nothing is zeroed). */
  lemma BoundsOrdered(thbot: real, thtop: real, k: Kind)
    requires thbot < thtop
    ensures Bound(thbot, k) <= Bound(thtop, k)
  {
    TruncMonotone(thbot, thtop);
  }

  /** `vals` with every entry whose threshold `thar[i]` lies in the open
      interval (lo, hi) replaced by 0. */
  function Masked(vals: seq<real>, thar: seq<real>, lo: real, hi: real): (r: seq<real>)
    requires |vals| == |thar|
    ensures |r| == |vals|
    ensures forall i :: 0 <= i < |r| ==> r[i] == (if lo < thar[i] < hi then 0.0 else vals[i])
    decreases |vals|
  {
    if |vals| == 0 then []
    else
      var n := |vals| - 1;
      Masked(vals[..n], thar[..n], lo, hi) + [if lo < thar[n] < hi then 0.0 else vals[n]]
  }

  /** Masking twice by the same threshold values is masking once. */
  lemma {:induction false} MaskedIdempotent(vals: seq<real>, thar: seq<real>, lo: real, hi: real)
    requires |vals| == |thar|
    ensures Masked(Masked(vals, thar, lo, hi), thar, lo, hi) == Masked(vals, thar, lo, hi)
  {
    var once := Masked(vals, thar, lo, hi);
    var twice := Masked(once, thar, lo, hi);
    assert |twice| == |once|;
    forall i | 0 <= i < |once|
      ensures twice[i] == once[i]
    {
    }
  }

  /** When the image is its own threshold image (for real data), a second
      call tests the already masked values; the result still does not change,
      because a zeroed pixel is zeroed again and a kept pixel is still
      outside the interval. */
  lemma {:induction false} SelfMaskedIdempotent(vals: seq<real>, lo: real, hi: real)
    ensures Masked(Masked(vals, vals, lo, hi), Masked(vals, vals, lo, hi), lo, hi)
         == Masked(vals, vals, lo, hi)
  {
    var once := Masked(vals, vals, lo, hi);
    var twice := Masked(once, once, lo, hi);
    forall i | 0 <= i < |once|
      ensures twice[i] == once[i]
    {
      if lo < vals[i] < hi {
        assert once[i] == 0.0;
      } else {
        assert once[i] == vals[i];
      }
    }
  }

  /** The guards before any pixel is touched: both images present, of equal
      size, `thbot < thtop`, and kinds the routine knows. */
  predicate Applies(thbot: real, thtop: real, thrKind: Kind, thrNvox: nat, imKind: Kind, imNvox: nat): (ok: bool)
    ensures ok ==> thrNvox == imNvox && thbot < thtop && thrKind in {Short, Float} && imKind != OtherKind
    ensures ok ==> Bound(thbot, thrKind) <= Bound(thtop, thrKind)
  {
    if thbot < thtop then
      BoundsOrdered(thbot, thtop, thrKind);
      thrNvox == imNvox && ThresholdKind(thrKind) && DataKind(imKind)
    else false
  }

  /** mri_threshold. The threshold image may be the data image itself. */
  method Threshold(thbot: real, thtop: real, thrim: Image?, img: Image?)
    requires thrim != null ==> thrim.Valid()
    requires img != null ==> img.Valid()
    modifies if img == null then {} else {img.re, img.im}
    ensures thrim == null || img == null ||
            !Applies(thbot, thtop, thrim.kind, thrim.nvox, img.kind, img.nvox) ==>
      && (img != null ==> img.re[..] == old(img.re[..]) && img.im[..] == old(img.im[..]))
    ensures thrim != null && img != null &&
            Applies(thbot, thtop, thrim.kind, thrim.nvox, img.kind, img.nvox) ==>
      && img.re[..] == Masked(old(img.re[..]), old(thrim.re[..]),
                              Bound(thbot, thrim.kind), Bound(thtop, thrim.kind))
      && img.im[..] == (if img.kind == Complex
                        then Masked(old(img.im[..]), old(thrim.re[..]),
                                    Bound(thbot, thrim.kind), Bound(thtop, thrim.kind))
                        else old(img.im[..]))
    ensures thrim != null && img != null && thrim.re != img.re && thrim.re != img.im ==>
      thrim.re[..] == old(thrim.re[..])
  {
    if thrim == null || img == null || thrim.nvox != img.nvox || thbot >= thtop {
      return;
    }
    if !ThresholdKind(thrim.kind) || !DataKind(img.kind) {
      return;
    }
    var th1 := Bound(thbot, thrim.kind);
    var th2 := Bound(thtop, thrim.kind);
    var cplx := img.kind == Complex;
    ghost var re0 := img.re[..];
    ghost var im0 := img.im[..];
    ghost var th0 := thrim.re[..];
    var npix := img.nvox;
    var ii := 0;
    while ii < npix
      invariant 0 <= ii <= npix
      invariant forall k :: ii <= k < npix ==> thrim.re[k] == th0[k]
      invariant forall k :: 0 <= k < npix ==>
        img.re[k] == (if k < ii && th1 < th0[k] < th2 then 0.0 else re0[k])
      invariant forall k :: 0 <= k < img.im.Length ==>
        img.im[k] == (if cplx && k < ii && th1 < th0[k] < th2 then 0.0 else im0[k])
    {
      if th1 < thrim.re[ii] < th2 {
        img.re[ii] := 0.0;
        if cplx {
          img.im[ii] := 0.0;
        }
      }
      ii := ii + 1;
    }
  }
}
