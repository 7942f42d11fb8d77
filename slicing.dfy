/** Constant-charge slicing of a Gaussian longitudinal bunch profile into N
    head-on slices: the N-1 cut positions, the N centroids and the equal charge
    of each slice. The values of erfinv, exp and sqrt are left uninterpreted;
    what is proved is the structure: the sizes, that the charges add up to the
    total, that the centroids add up to zero (the formulas telescope), and that
    an odd erfinv makes the centroids antisymmetric. */
module Slicing {
  import opened Common

  datatype Slices = Slices(centroids: seq<real>, cuts: seq<real>, charges: seq<real>)

  /** Interior cut t (0 <= t < n - 1) at the cumulative probability (t + 1) / n. */
  function Cut(m: Math, sigmaz: real, n: nat, t: nat): real
    requires n > 0
  {
    m.sqrt(2.0) * sigmaz * m.erfinv(2.0 * ((t + 1) as real / n as real) - 1.0)
  }

  function Cuts(m: Math, sigmaz: real, n: nat): (cuts: seq<real>)
    requires n > 1
    ensures |cuts| == n - 1
    ensures forall t :: 0 <= t < n - 1 ==> cuts[t] == Cut(m, sigmaz, n, t)
  {
    seq(n - 1, t requires 0 <= t => Cut(m, sigmaz, n, t))
  }

  /** The exponential factor exp(-z^2 / (2 sigmaz^2)) of the Gaussian at z. */
  function Density(m: Math, sigmaz: real, z: real): real
    requires sigmaz != 0.0
  {
    m.exp(-(z * z) / (2.0 * sigmaz * sigmaz))
  }

  /** The prefactor sigmaz / sqrt(2 pi). */
  function Scale(m: Math, sigmaz: real): real
    requires m.sqrt(2.0 * m.pi) != 0.0
  {
    sigmaz / m.sqrt(2.0 * m.pi)
  }

  predicate Admissible(m: Math, sigmaz: real) {
    sigmaz != 0.0 && m.sqrt(2.0 * m.pi) != 0.0
  }

  /** The Gaussian factor at each cut. */
  function Densities(m: Math, sigmaz: real, cuts: seq<real>): (ds: seq<real>)
    requires sigmaz != 0.0
    ensures |ds| == |cuts|
    ensures forall t :: 0 <= t < |cuts| ==> ds[t] == Density(m, sigmaz, cuts[t])
  {
    seq(|cuts|, t requires 0 <= t < |cuts| => Density(m, sigmaz, cuts[t]))
  }

  /** Centroid i of n > 1 slices, from the prefactor k and the Gaussian factors
      ds at the n - 1 cuts: the first and last come from the outermost cut, each
      interior one from the difference at its two cuts; each is multiplied by n
      because it is divided by the slice charge 1/n. */
  function Centroid(k: real, ds: seq<real>, n: nat, i: nat): real
    requires n > 1 && |ds| == n - 1 && i < n
  {
    if i == 0 then -k * ds[0] * n as real
    else if i < n - 1 then -k * (ds[i] - ds[i - 1]) * n as real
    else k * ds[n - 2] * n as real
  }

  function CentroidsOf(k: real, ds: seq<real>, n: nat): (cs: seq<real>)
    requires n > 1 && |ds| == n - 1
    ensures |cs| == n
    ensures forall i :: 0 <= i < n ==> cs[i] == Centroid(k, ds, n, i)
  {
    seq(n, i requires 0 <= i < n => Centroid(k, ds, n, i))
  }

  function Centroids(m: Math, sigmaz: real, n: nat): (cs: seq<real>)
    requires Admissible(m, sigmaz) && n > 1
    ensures |cs| == n
  {
    CentroidsOf(Scale(m, sigmaz), Densities(m, sigmaz, Cuts(m, sigmaz, n)), n)
  }

  /** What the slicer returns for a total charge, an RMS length and a slice
      count: an error below one slice, the whole charge at the origin for one
      slice, and n equal-charge slices otherwise. */
  function ChargeSlices(m: Math, total: real, sigmaz: real, n: int): (r: Result<Slices>)
    requires n > 1 ==> Admissible(m, sigmaz)
    ensures r.Failure? <==> n < 1
    ensures r.Failure? ==> r.error == InvalidSliceCount
    ensures n == 1 ==> r == Success(Slices([0.0], [], [total]))
    ensures n > 1 ==> && |r.value.centroids| == n && |r.value.cuts| == n - 1
                      && |r.value.charges| == n
                      && forall i :: 0 <= i < n ==> r.value.charges[i] == total / n as real
  {
    if n > 1 then
      Success(Slices(Centroids(m, sigmaz, n), Cuts(m, sigmaz, n), seq(n, _ => total / n as real)))
    else if n == 1 then Success(Slices([0.0], [], [total]))
    else Failure(InvalidSliceCount)
  }

  /** The centroid loop of the slicer: the first centroid, the interior ones
      appended one by one, then the last. */
  method ComputeCentroids(k: real, ds: seq<real>, n: nat) returns (centroids: seq<real>)
    requires n > 1 && |ds| == n - 1
    ensures centroids == CentroidsOf(k, ds, n)
  {
    ghost var all := CentroidsOf(k, ds, n);
    centroids := [-k * ds[0] * n as real];
    assert all[..1] == [Centroid(k, ds, n, 0)];
    var ii := 0;
    while ii < n - 2
      invariant 0 <= ii <= n - 2
      invariant centroids == all[..ii + 1]
    {
      assert all[ii + 1] == Centroid(k, ds, n, ii + 1) == -k * (ds[ii + 1] - ds[ii]) * n as real;
      assert all[..ii + 2] == all[..ii + 1] + [all[ii + 1]];
      centroids := centroids + [-k * (ds[ii + 1] - ds[ii]) * n as real];
      ii := ii + 1;
    }
    assert all[n - 1] == Centroid(k, ds, n, n - 1) == k * ds[n - 2] * n as real;
    assert all == all[..n - 1] + [all[n - 1]];
    centroids := centroids + [k * ds[n - 2] * n as real];
  }

  /** The slicer as the source writes it: an error below one slice, the whole
      charge at the origin for one slice, otherwise the cuts, the centroids and
      the equal charges. */
  method ConstantChargeSlicingGaussian(m: Math, total: real, sigmaz: real, n: int)
    returns (r: Result<Slices>)
    requires n > 1 ==> Admissible(m, sigmaz)
    ensures r == ChargeSlices(m, total, sigmaz, n)
  {
    if n > 1 {
      var cuts := Cuts(m, sigmaz, n);
      var centroids := ComputeCentroids(Scale(m, sigmaz), Densities(m, sigmaz, cuts), n);
      var charges := seq(n, _ => total / n as real);
      r := Success(Slices(centroids, cuts, charges));
    } else if n == 1 {
      r := Success(Slices([0.0], [], [total]));
    } else {
      r := Failure(InvalidSliceCount);
    }
  }

  lemma {:induction false} SumOfConstant(n: nat, c: real)
    ensures Sum(seq(n, _ => c)) == n as real * c
  {
    if n > 0 {
      var s := seq(n, _ => c);
      assert s[..n - 1] == seq(n - 1, _ => c);
      SumOfConstant(n - 1, c);
    }
  }

  /** The slice charges add up to the bunch charge. */
  lemma ChargesAddUp(m: Math, total: real, sigmaz: real, n: int)
    requires (n > 1 ==> Admissible(m, sigmaz)) && n >= 1
    ensures Sum(ChargeSlices(m, total, sigmaz, n).value.charges) == total
  {
    if n > 1 {
      SumOfConstant(n, total / n as real);
      assert n as real * (total / n as real) == total;
    } else {
      assert Sum([total]) == Sum([]) + total;
    }
  }

  lemma Telescope(k: real, a: real, b: real, nr: real)
    ensures -k * b * nr + -k * (a - b) * nr == -k * a * nr
  {
  }

  /** The first j + 1 centroids telescope to the term of cut j. */
  lemma {:induction false} CentroidPrefix(k: real, ds: seq<real>, n: nat, j: nat)
    requires n > 1 && |ds| == n - 1 && j < n - 1
    ensures Sum(CentroidsOf(k, ds, n)[..j + 1]) == -k * ds[j] * n as real
  {
    var cs := CentroidsOf(k, ds, n);
    assert cs[..j + 1][..j] == cs[..j];
    assert Sum(cs[..j + 1]) == Sum(cs[..j]) + cs[j];
    if j == 0 {
      assert cs[..0] == [];
    } else {
      CentroidPrefix(k, ds, n, j - 1);
      Telescope(k, ds[j], ds[j - 1], n as real);
    }
  }

  lemma CentroidsOfSumToZero(k: real, ds: seq<real>, n: nat)
    requires n > 1 && |ds| == n - 1
    ensures Sum(CentroidsOf(k, ds, n)) == 0.0
  {
    var cs := CentroidsOf(k, ds, n);
    CentroidPrefix(k, ds, n, n - 2);
    assert cs[..n - 1] == cs[..n][..n - 1];
    assert cs[..n] == cs;
    assert Sum(cs) == Sum(cs[..n - 1]) + cs[n - 1];
  }

  /** The charge-weighted centroids sum to zero: the bunch's centre of charge
      stays at the origin whatever erfinv and exp return. */
  lemma CentroidsSumToZero(m: Math, total: real, sigmaz: real, n: int)
    requires (n > 1 ==> Admissible(m, sigmaz)) && n >= 1
    ensures Sum(ChargeSlices(m, total, sigmaz, n).value.centroids) == 0.0
  {
    if n > 1 {
      CentroidsOfSumToZero(Scale(m, sigmaz), Densities(m, sigmaz, Cuts(m, sigmaz, n)), n);
    } else {
      assert Sum([0.0]) == Sum([]) + 0.0;
    }
  }

  ghost predicate Odd(f: real -> real) {
    forall u :: f(-u) == -f(u)
  }

  lemma CutsAntisymmetric(m: Math, sigmaz: real, n: nat, t: nat)
    requires Odd(m.erfinv) && n > 1 && t < n - 1
    ensures Cut(m, sigmaz, n, t) == -Cut(m, sigmaz, n, n - 2 - t)
  {
    var nr := n as real;
    var q := (t + 1) as real / nr;
    var q' := (n - 2 - t + 1) as real / nr;
    assert q' == 1.0 - q by {
      assert (n - 2 - t + 1) as real == nr - (t + 1) as real;
      Complement(nr, (t + 1) as real);
    }
    assert 2.0 * q' - 1.0 == -(2.0 * q - 1.0);
    assert m.erfinv(2.0 * q' - 1.0) == -m.erfinv(2.0 * q - 1.0);
  }

  /** (d - a)/d and a/d add up to one. */
  lemma Complement(d: real, a: real)
    requires d > 0.0
    ensures (d - a) / d == 1.0 - a / d
  {
    var x := a / d;
    var y := (d - a) / d;
    assert x * d == a;
    assert y * d == d - a;
    var r := y - (1.0 - x);
    assert r * d == 0.0;
    if r > 0.0 {
      assert false;
    } else if r < 0.0 {
      assert false;
    }
  }

  /** The Gaussian factor is even in z. */
  lemma DensityEven(m: Math, sigmaz: real, x: real, y: real)
    requires sigmaz != 0.0 && x == -y
    ensures Density(m, sigmaz, x) == Density(m, sigmaz, y)
  {
    assert x * x == y * y;
  }

  /** Factors that read the same from both ends give antisymmetric centroids. */
  lemma CentroidsOfAntisymmetric(k: real, ds: seq<real>, n: nat, i: nat)
    requires n > 1 && |ds| == n - 1 && i < n
    requires forall t :: 0 <= t < n - 1 ==> ds[t] == ds[n - 2 - t]
    ensures CentroidsOf(k, ds, n)[i] == -CentroidsOf(k, ds, n)[n - 1 - i]
  {
    if 0 < i < n - 1 {
      assert ds[i] == ds[n - 2 - i] && ds[i - 1] == ds[n - 1 - i];
    } else {
      assert ds[0] == ds[n - 2];
    }
  }

  /** With an odd erfinv (as scipy's is) the cuts and the centroids are
      antisymmetric about the bunch centre. */
  lemma CentroidsAntisymmetric(m: Math, total: real, sigmaz: real, n: int, i: nat)
    requires Admissible(m, sigmaz) && Odd(m.erfinv) && n > 1 && i < n
    ensures var s := ChargeSlices(m, total, sigmaz, n).value;
      s.centroids[i] == -s.centroids[n - 1 - i]
  {
    var cuts := Cuts(m, sigmaz, n);
    var ds := Densities(m, sigmaz, cuts);
    forall t | 0 <= t < n - 1
      ensures ds[t] == ds[n - 2 - t]
    {
      CutsAntisymmetric(m, sigmaz, n, t);
      DensityEven(m, sigmaz, cuts[t], cuts[n - 2 - t]);
    }
    CentroidsOfAntisymmetric(Scale(m, sigmaz), ds, n, i);
  }
}
