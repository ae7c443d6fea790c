/**
 * The voxel side of AFNI's partial-correlation engine (src/afni_pcor.c):
 * for every voxel, the "last row" of the Cholesky factor of the augmented
 * design [references | voxel time series]. Row `v` holds `nref+1` numbers:
 * slots `0 .. nref-1` are the voxel's projections on the references, slot
 * `nref` is the residual energy left after fitting them.
 *
 * The C code keeps all rows in one flat buffer of `nvox*(nref+1)` floats,
 * row `v` starting at `v*(nref+1)`; so does the model.
 */
module PcorVoxels {
  import opened PcorReferences

  /** Position of slot `j` of voxel `v` in the flat buffer (the VCH macro). */
  function Slot(v: nat, j: nat, nref: nat): nat {
    v * (nref + 1) + j
  }

  /** Slots of the voxels before `w`, and of `w` before slot `k`, come first;
      in particular every slot of every voxel lies inside the buffer. */
  lemma SlotOrder(v: nat, j: nat, w: nat, k: nat, nref: nat)
    requires j <= nref
    requires v < w || (v == w && j < k)
    ensures Slot(v, j, nref) < Slot(w, k, nref)
  {
    if v < w {
      assert (w - (v + 1)) * (nref + 1) >= 0;
      assert (v + 1) * (nref + 1) <= w * (nref + 1);
    }
  }

  lemma SlotInBuffer(v: nat, j: nat, nvox: nat, nref: nat)
    requires v < nvox && j <= nref
    ensures Slot(v, j, nref) < nvox * (nref + 1)
  {
    SlotOrder(v, j, nvox, 0, nref);
  }

  class VoxelCorr {
    const nvox: nat
    const nref: nat
    var nupdate: int
    const chrow: array<real>

    /** The shape the constructor gives, plus the energy slot of every voxel
        being positive: it starts at `REF_EPS` and the voxel update only
        ever adds squares to it. */
    ghost predicate Valid()
      reads this, chrow
    {
      && 1 <= nvox
      && chrow.Length == nvox * (nref + 1)
      && 0 <= nupdate
      && forall v :: 0 <= v < nvox ==> Slot(v, nref, nref) < chrow.Length && chrow[Slot(v, nref, nref)] > 0.0
    }

    /** Slot `j` of voxel `v` (the VCH macro). */
    function VCH(v: nat, j: nat): real
      reads this, chrow
      requires 1 <= nvox && chrow.Length == nvox * (nref + 1)
      requires v < nvox && j <= nref
    {
      SlotInBuffer(v, j, nvox, nref);
      chrow[Slot(v, j, nref)]
    }

    /** The whole row of voxel `v`: its `nref` projections, then its energy. */
    ghost function Row(v: nat): (row: seq<real>)
      reads this, chrow
      requires 1 <= nvox && chrow.Length == nvox * (nref + 1)
      requires v < nvox
      ensures |row| == nref + 1
      ensures forall j :: 0 <= j <= nref ==> row[j] == VCH(v, j)
    {
      seq(nref + 1, j requires 0 <= j <= nref reads this, chrow => VCH(v, j))
    }

    /** new_PCOR_voxel_corr for `numvox >= 1`: every voxel row is zero in the
        reference slots and `REF_EPS` in the energy slot; no update yet. */
    constructor (numvox: nat, numref: nat)
      requires 1 <= numvox
      ensures Valid() && nvox == numvox && nref == numref && nupdate == 0
      ensures fresh(chrow)
      ensures forall v, j :: 0 <= v < nvox && 0 <= j <= nref ==>
        VCH(v, j) == (if j == nref then REF_EPS else 0.0)
    {
      nvox := numvox;
      nref := numref;
      nupdate := 0;
      chrow := new real[numvox * (numref + 1)];
      new;
      var vox := 0;
      while vox < numvox
        modifies chrow
        invariant 0 <= vox <= numvox
        invariant forall v, j :: 0 <= v < vox && 0 <= j <= numref ==>
          Slot(v, j, numref) < chrow.Length &&
          chrow[Slot(v, j, numref)] == (if j == numref then REF_EPS else 0.0)
      {
        var jj := 0;
        while jj < numref
          modifies chrow
          invariant 0 <= jj <= numref
          invariant forall v, j :: 0 <= v < vox && 0 <= j <= numref ==>
            Slot(v, j, numref) < chrow.Length &&
            chrow[Slot(v, j, numref)] == (if j == numref then REF_EPS else 0.0)
          invariant forall j :: 0 <= j < jj ==>
            Slot(vox, j, numref) < chrow.Length && chrow[Slot(vox, j, numref)] == 0.0
        {
          SlotInBuffer(vox, jj, numvox, numref);
          forall v, j | 0 <= v < vox && 0 <= j <= numref {
            SlotOrder(v, j, vox, jj, numref);
          }
          forall j | 0 <= j < jj {
            SlotOrder(vox, j, vox, jj, numref);
          }
          chrow[Slot(vox, jj, numref)] := 0.0;
          jj := jj + 1;
        }
        SlotInBuffer(vox, numref, numvox, numref);
        forall v, j | 0 <= v < vox && 0 <= j <= numref {
          SlotOrder(v, j, vox, numref, numref);
        }
        forall j | 0 <= j < numref {
          SlotOrder(vox, j, vox, numref, numref);
        }
        chrow[Slot(vox, numref, numref)] := REF_EPS;
        vox := vox + 1;
      }
    }
  }

  /** new_PCOR_voxel_corr: no structure (NULL) for `numvox < 1`, otherwise a
      fresh one as the constructor describes. */
  method NewVoxelCorr(numvox: int, numref: nat) returns (vc: VoxelCorr?)
    ensures numvox < 1 <==> vc == null
    ensures vc != null ==>
      && fresh(vc) && fresh(vc.chrow) && vc.Valid()
      && vc.nvox == numvox && vc.nref == numref && vc.nupdate == 0
      && forall v, j :: 0 <= v < numvox && 0 <= j <= numref ==>
           vc.VCH(v, j) == (if j == numref then REF_EPS else 0.0)
  {
    if numvox < 1 {
      return null;
    }
    vc := new VoxelCorr(numvox, numref);
  }
}
