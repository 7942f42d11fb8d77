/** The uniform-bin slicer: every particle is placed in a bunch of a bunch
    train and in a slice of that bunch by its longitudinal position, and its
    weight is added to the cell of that slice in the slicer's buffer. Slice
    centres are z_min, z_min + dzeta, ..., shifted by one bunch spacing per
    bunch. */
module Slicer {
  import opened Common

  /** Where a particle falls in the bunch train: whether it may be put in a
      slice, its bunch and the lower edge of that bunch's first slice. */
  datatype Placement = Placement(assignable: bool, bunch: int, edge: real)

  class UniformBinSlicer {
    const numSlices: int
    const zMin: real
    const dzeta: real
    const numBunches: int
    const iBunch0: int
    const bunchSpacingZeta: real
    const particlesPerSlice: array<real>

    /** The buffer holds one cell per slice of every bunch (of the single
        bunch when there is no train), and the steps divide without fault. */
    predicate Valid() {
      && dzeta != 0.0
      && (numBunches > 0 ==> bunchSpacingZeta != 0.0 && iBunch0 >= 0)
      && particlesPerSlice.Length >= Cells()
    }

    /** The number of cells the slicing writes to. */
    function Cells(): int {
      if numBunches > 0 then numSlices * numBunches else numSlices
    }

    constructor (numSlices: nat, zMin: real, dzeta: real, numBunches: int, iBunch0: nat, bunchSpacingZeta: real)
      requires dzeta != 0.0 && (numBunches > 0 ==> bunchSpacingZeta != 0.0)
      ensures Valid() && fresh(particlesPerSlice)
      ensures this.numSlices == numSlices && this.zMin == zMin && this.dzeta == dzeta
      ensures this.numBunches == numBunches && this.iBunch0 == iBunch0 && this.bunchSpacingZeta == bunchSpacingZeta
      ensures forall c :: 0 <= c < particlesPerSlice.Length ==> particlesPerSlice[c] == 0.0
    {
      this.numSlices := numSlices;
      this.zMin := zMin;
      this.dzeta := dzeta;
      this.numBunches := numBunches;
      this.iBunch0 := iBunch0;
      this.bunchSpacingZeta := bunchSpacingZeta;
      var cells := if numBunches > 0 then numSlices * numBunches else numSlices;
      particlesPerSlice := new real[cells](_ => 0.0);
    }

    /** The lower edge of the first slice: z_min is the first slice's centre. */
    function ZMinEdge(): real {
      zMin - 0.5 * dzeta
    }

    /** The bunch a particle at zeta falls in. Without a train every particle
        belongs to bunch 0; in a train, a bunch outside i_bunch_0 ..
        num_bunches - 1 makes the particle unassignable. */
    function PlacementOf(zeta: real): Placement
      requires Valid()
    {
      if numBunches <= 0 then Placement(true, 0, ZMinEdge())
      else
        var b := ((zeta - ZMinEdge()) / bunchSpacingZeta).Floor;
        if iBunch0 <= b < numBunches then Placement(true, b, ZMinEdge() + b as real * bunchSpacingZeta)
        else Placement(false, b, ZMinEdge())
    }

    /** The slice recorded for a particle at zeta: its slice within its bunch,
        or -1 when it is not in any slice. */
    function SliceOf(zeta: real): (s: int)
      requires Valid()
      ensures s == -1 || 0 <= s < numSlices
    {
      var pl := PlacementOf(zeta);
      var s := ((zeta - pl.edge) / dzeta).Floor;
      if pl.assignable && 0 <= s < numSlices then s else -1
    }

    /** The bunch recorded for a particle at zeta in a train. */
    function BunchLabelOf(zeta: real): (b: int)
      requires Valid() && numBunches > 0
      ensures b == -1 || iBunch0 <= b < numBunches
    {
      var pl := PlacementOf(zeta);
      if pl.assignable then pl.bunch else -1
    }

    /** The buffer cell that receives the weight of a sliced particle. */
    function CellOf(zeta: real): (c: int)
      requires Valid() && SliceOf(zeta) >= 0
      ensures 0 <= c < Cells() <= particlesPerSlice.Length
    {
      var b := PlacementOf(zeta).bunch;
      var s := SliceOf(zeta);
      assert 0 <= b && (numBunches > 0 ==> b < numBunches) && (numBunches <= 0 ==> b == 0);
      CellBound(s, b, numSlices, if numBunches > 0 then numBunches else 1);
      s + b * numSlices
    }

    /** The buffer after one particle at zeta with the given weight. */
    function DepositOne(buffer: seq<real>, zeta: real, weight: real): (r: seq<real>)
      requires Valid() && |buffer| >= Cells()
      ensures |r| == |buffer|
    {
      if SliceOf(zeta) >= 0 then
        var c := CellOf(zeta);
        buffer[c := buffer[c] + weight]
      else buffer
    }

    /** The buffer after the first k particles have been deposited. */
    function Deposit(buffer: seq<real>, zetas: seq<real>, weights: seq<real>, k: nat): (r: seq<real>)
      requires Valid() && |buffer| >= Cells() && k <= |zetas| && k <= |weights|
      ensures |r| == |buffer|
    {
      if k == 0 then buffer
      else DepositOne(Deposit(buffer, zetas, weights, k - 1), zetas[k - 1], weights[k - 1])
    }

    /** The total weight of the first k particles that land in a slice. */
    function SlicedWeight(zetas: seq<real>, weights: seq<real>, k: nat): real
      requires Valid() && k <= |zetas| && k <= |weights|
    {
      if k == 0 then 0.0
      else SlicedWeight(zetas, weights, k - 1) + (if SliceOf(zetas[k - 1]) >= 0 then weights[k - 1] else 0.0)
    }

    /** The per-particle block: the bunch, then the slice, then the deposit
        of one particle. */
    method SliceParticle(ipart: nat, zeta: array<real>, weight: array<real>, iSlicePart: array<int>, iBunchPart: array<int>)
      requires Valid()
      requires ipart < zeta.Length && ipart < weight.Length && ipart < iSlicePart.Length && ipart < iBunchPart.Length
      requires iSlicePart != iBunchPart && particlesPerSlice != zeta && particlesPerSlice != weight
      modifies particlesPerSlice, iSlicePart, iBunchPart
      ensures particlesPerSlice[..] == DepositOne(old(particlesPerSlice[..]), zeta[ipart], weight[ipart])
      ensures iSlicePart[..] == old(iSlicePart[..])[ipart := SliceOf(zeta[ipart])]
      ensures iBunchPart[..] == if numBunches > 0 then old(iBunchPart[..])[ipart := BunchLabelOf(zeta[ipart])]
                                else old(iBunchPart[..])
    {
      var zMinEdge := zMin - 0.5 * dzeta;
      var z := zeta[ipart];
      var w := weight[ipart];
      var iBunch: int;
      var zMinEdgeBunch := zMinEdge;
      var canBeAssigned: bool;
      if numBunches <= 0 {
        iBunch := 0;
        canBeAssigned := true;
      } else {
        iBunch := ((z - zMinEdge) / bunchSpacingZeta).Floor;
        if iBunch >= iBunch0 && iBunch < numBunches {
          iBunchPart[ipart] := iBunch;
          zMinEdgeBunch := zMinEdge + iBunch as real * bunchSpacingZeta;
          canBeAssigned := true;
        } else {
          iBunchPart[ipart] := -1;
          canBeAssigned := false;
        }
      }
      assert PlacementOf(z) == Placement(canBeAssigned, iBunch, zMinEdgeBunch);
      var iSlice := ((z - zMinEdgeBunch) / dzeta).Floor;
      if canBeAssigned && iSlice >= 0 && iSlice < numSlices {
        iSlicePart[ipart] := iSlice;
        var c := CellOf(z);
        particlesPerSlice[c] := particlesPerSlice[c] + w;
      } else {
        iSlicePart[ipart] := -1;
      }
    }

    /** Slice every particle and accumulate the weights, one particle at a
        time. Only a particle in a train gets a bunch label; without a train
        the bunch labels are not written. */
    method Slice(zeta: array<real>, weight: array<real>, iSlicePart: array<int>, iBunchPart: array<int>)
      requires Valid()
      requires zeta.Length == weight.Length && zeta.Length <= iSlicePart.Length && zeta.Length <= iBunchPart.Length
      requires iSlicePart != iBunchPart && particlesPerSlice != zeta && particlesPerSlice != weight
      modifies particlesPerSlice, iSlicePart, iBunchPart
      ensures particlesPerSlice[..] == Deposit(old(particlesPerSlice[..]), zeta[..], weight[..], zeta.Length)
      ensures forall k :: 0 <= k < iSlicePart.Length ==>
        iSlicePart[k] == if k < zeta.Length then SliceOf(zeta[k]) else old(iSlicePart[k])
      ensures forall k :: 0 <= k < iBunchPart.Length ==>
        iBunchPart[k] == if k < zeta.Length && numBunches > 0 then BunchLabelOf(zeta[k]) else old(iBunchPart[k])
    {
      for ipart := 0 to zeta.Length
        invariant particlesPerSlice[..] == Deposit(old(particlesPerSlice[..]), zeta[..], weight[..], ipart)
        invariant forall k :: 0 <= k < iSlicePart.Length ==>
          iSlicePart[k] == if k < ipart then SliceOf(zeta[k]) else old(iSlicePart[k])
        invariant forall k :: 0 <= k < iBunchPart.Length ==>
          iBunchPart[k] == if k < ipart && numBunches > 0 then BunchLabelOf(zeta[k]) else old(iBunchPart[k])
      {
        SliceParticle(ipart, zeta, weight, iSlicePart, iBunchPart);
      }
    }

    /** Tracking through the slicer itself does nothing: the particles and
        the buffer are as they were. */
    method TrackLocalParticle(zeta: array<real>, weight: array<real>)
      ensures zeta[..] == old(zeta[..]) && weight[..] == old(weight[..])
      ensures particlesPerSlice[..] == old(particlesPerSlice[..])
    {
    }

    /** A sliced particle lies within half a slice width of its slice centre,
        z_min + bunch * spacing + slice * dzeta (closed below, open above). */
    lemma SliceContains(zeta: real)
      requires Valid() && dzeta > 0.0 && SliceOf(zeta) >= 0
      ensures var centre := zMin + PlacementOf(zeta).bunch as real * bunchSpacingZeta + SliceOf(zeta) as real * dzeta;
        centre - 0.5 * dzeta <= zeta < centre + 0.5 * dzeta
    {
      var pl := PlacementOf(zeta);
      var s := SliceOf(zeta);
      assert pl.edge == ZMinEdge() + pl.bunch as real * bunchSpacingZeta by {
        if numBunches <= 0 {
          assert pl.bunch == 0;
        }
      }
      FloorBracket(zeta - pl.edge, dzeta, s);
    }

    /** In a train, a particle is given bunch b exactly when it lies in the
        b-th spacing window after the first slice's lower edge, for b from
        i_bunch_0 to num_bunches - 1; -1 marks every other particle. */
    lemma BunchWindow(zeta: real, b: int)
      requires Valid() && numBunches > 0 && bunchSpacingZeta > 0.0 && b != -1
      ensures BunchLabelOf(zeta) == b <==>
        && iBunch0 <= b < numBunches
        && ZMinEdge() + b as real * bunchSpacingZeta <= zeta < ZMinEdge() + (b + 1) as real * bunchSpacingZeta
    {
      var f := ((zeta - ZMinEdge()) / bunchSpacingZeta).Floor;
      FloorBracket(zeta - ZMinEdge(), bunchSpacingZeta, f);
      FloorUnique(zeta - ZMinEdge(), bunchSpacingZeta, b);
    }

    /** Depositing adds to the buffer's total exactly the weight of the
        particles that land in a slice. */
    lemma {:induction false} DepositTotal(buffer: seq<real>, zetas: seq<real>, weights: seq<real>, k: nat)
      requires Valid() && |buffer| >= Cells() && k <= |zetas| && k <= |weights|
      ensures Sum(Deposit(buffer, zetas, weights, k)) == Sum(buffer) + SlicedWeight(zetas, weights, k)
    {
      if k > 0 {
        DepositTotal(buffer, zetas, weights, k - 1);
        var before := Deposit(buffer, zetas, weights, k - 1);
        if SliceOf(zetas[k - 1]) >= 0 {
          var c := CellOf(zetas[k - 1]);
          SumUpdate(before, c, before[c] + weights[k - 1]);
        }
      }
    }

    /** Two sliced particles share a cell exactly when they share a bunch and
        a slice: the cells of different slices never overlap. */
    lemma CellsSeparate(z1: real, z2: real)
      requires Valid() && SliceOf(z1) >= 0 && SliceOf(z2) >= 0
      ensures CellOf(z1) == CellOf(z2) <==>
        SliceOf(z1) == SliceOf(z2) && PlacementOf(z1).bunch == PlacementOf(z2).bunch
    {
      var b1, b2 := PlacementOf(z1).bunch, PlacementOf(z2).bunch;
      var s1, s2 := SliceOf(z1), SliceOf(z2);
      if b1 < b2 {
        OffsetApart(s1, s2, b1, b2, numSlices);
      } else if b2 < b1 {
        OffsetApart(s2, s1, b2, b1, numSlices);
      }
    }
  }

  /** The cell of slice s in bunch b lies inside a buffer of nb bunches. */
  lemma CellBound(s: int, b: int, n: int, nb: int)
    requires 0 <= s < n && 0 <= b < nb
    ensures 0 <= s + b * n < n * nb
  {
    assert b * n <= (nb - 1) * n by {
      assert (nb - 1 - b) * n >= 0;
    }
  }

  /** Cells of different bunches are at least one bunch of slices apart. */
  lemma OffsetApart(s1: int, s2: int, b1: int, b2: int, n: int)
    requires 0 <= s1 < n && 0 <= s2 < n && b1 < b2
    ensures s1 + b1 * n < s2 + b2 * n
  {
    var g := b2 - b1 - 1;
    assert g * n >= 0;
    assert b2 * n == b1 * n + n + g * n;
  }

  /** The floor of x / d brackets x between consecutive multiples of d. */
  lemma FloorBracket(x: real, d: real, f: int)
    requires d > 0.0 && f == (x / d).Floor
    ensures f as real * d <= x < (f + 1) as real * d
  {
    var q := x / d;
    var fr := f as real;
    assert q * d == x;
    assert fr <= q < fr + 1.0;
    MulMonotone(fr, q, d);
    MulStrict(q, fr + 1.0, d);
    assert (f + 1) as real == fr + 1.0;
    assert x < (fr + 1.0) * d;
    assert x < (f + 1) as real * d;
  }

  /** Only one integer b brackets x between b * d and (b + 1) * d. */
  lemma FloorUnique(x: real, d: real, b: int)
    requires d > 0.0
    ensures b == (x / d).Floor <==> b as real * d <= x < (b + 1) as real * d
  {
    var q := x / d;
    var br := b as real;
    assert q * d == x;
    assert (b + 1) as real == br + 1.0;
    if br * d <= x < (br + 1.0) * d {
      if q < br {
        MulStrict(q, br, d);
      }
      if q >= br + 1.0 {
        MulMonotone(br + 1.0, q, d);
      }
      assert br <= q < br + 1.0;
    } else if b == q.Floor {
      FloorBracket(x, d, b);
    }
  }

  lemma MulMonotone(a: real, b: real, d: real)
    requires a <= b && d > 0.0
    ensures a * d <= b * d
  {
    assert b * d - a * d == (b - a) * d;
  }

  lemma MulStrict(a: real, b: real, d: real)
    requires a < b && d > 0.0
    ensures a * d < b * d
  {
    assert b * d - a * d == (b - a) * d;
  }

  /** Changing one entry changes the sum by the difference. */
  lemma {:induction false} SumUpdate(s: seq<real>, i: int, v: real)
    requires 0 <= i < |s|
    ensures Sum(s[i := v]) == Sum(s) - s[i] + v
  {
    var n := |s|;
    if i == n - 1 {
      assert s[i := v][..n - 1] == s[..n - 1];
    } else {
      assert s[i := v][..n - 1] == s[..n - 1][i := v];
      SumUpdate(s[..n - 1], i, v);
    }
  }
}
