/** Separations of the two beams at each encounter, seen in the weak beam's
    local frame. Lab positions are records with a point and three axes; norms
    are compared through their squares, so no square root is needed. */
module Geometry {
  import opened Common
  import Naming

  datatype Vec3 = Vec3(x: real, y: real, z: real)

  function Sub(a: Vec3, b: Vec3): Vec3 { Vec3(a.x - b.x, a.y - b.y, a.z - b.z) }

  function Add(a: Vec3, b: Vec3): Vec3 { Vec3(a.x + b.x, a.y + b.y, a.z + b.z) }

  function Scale(t: real, a: Vec3): Vec3 { Vec3(t * a.x, t * a.y, t * a.z) }

  function Dot(a: Vec3, b: Vec3): real { a.x * b.x + a.y * b.y + a.z * b.z }

  /** The squared Euclidean norm. */
  function NormSq(a: Vec3): (r: real)
    ensures r >= 0.0
  {
    a.x * a.x + a.y * a.y + a.z * a.z
  }

  /** A point of the lab frame with the local axes at that point and the
      closed orbit's angles there. */
  datatype LabPoint = LabPoint(p: Vec3, ex: Vec3, ey: Vec3, ez: Vec3, tpx: real, tpy: real)

  /** Squares of the two tolerances: each axis difference below 1e-10, the
      combined deviation below 5e-3. */
  const ParallelSq: real := 0.00000000000000000001
  const DeviationSqLimit: real := 0.000025

  /** Every axis difference is below the strict tolerance. */
  predicate Parallel(w: LabPoint, s: LabPoint) {
    && NormSq(Sub(w.ex, s.ex)) < ParallelSq
    && NormSq(Sub(w.ey, s.ey)) < ParallelSq
    && NormSq(Sub(w.ez, s.ez)) < ParallelSq
  }

  /** The square of the combined deviation of the two frames. */
  function DeviationSq(w: LabPoint, s: LabPoint): real {
    NormSq(Sub(w.ex, s.ex)) + NormSq(Sub(w.ey, s.ey)) + NormSq(Sub(w.ez, s.ez))
  }

  /** The frames pass the strict check, or fail it with a tolerated deviation. */
  predicate Tolerated(w: LabPoint, s: LabPoint) {
    Parallel(w, s) || DeviationSq(w, s) < DeviationSqLimit
  }

  /** Strong minus weak position, projected on the weak beam's axes. */
  function SeparationX(w: LabPoint, s: LabPoint): real { Dot(Sub(s.p, w.p), w.ex) }

  function SeparationY(w: LabPoint, s: LabPoint): real { Dot(Sub(s.p, w.p), w.ey) }

  datatype Separations = Separations(x: seq<real>, y: seq<real>)

  /** The names used when the caller gives none: bb_0, bb_1, ... */
  function DefaultNames(n: nat): (names: seq<string>)
    ensures |names| == n
  {
    seq(n, i requires 0 <= i < n => "bb_" + Naming.Decimal(i))
  }

  /** The first `upto` encounters have both points and tolerated frames. */
  predicate Accepts(weak: seq<LabPoint>, strong: seq<LabPoint>, upto: nat) {
    forall i :: 0 <= i < upto ==> i < |weak| && i < |strong| && Tolerated(weak[i], strong[i])
  }

  /** Why encounter i is refused. */
  function Rejection(weak: seq<LabPoint>, strong: seq<LabPoint>, name: string, i: nat): Error {
    if i >= |weak| || i >= |strong| then MissingPoint(name) else FramesNotParallel(name)
  }

  /** The separation loop: one pair of separations per name, in order; the
      first encounter with a missing point or intolerable frames stops it. */
  method FindBBSeparations(weak: seq<LabPoint>, strong: seq<LabPoint>, given: Option<seq<string>>)
    returns (r: Result<Separations>)
    ensures var names := if given.Some? then given.value else DefaultNames(|weak|);
      && (r.Success? <==> Accepts(weak, strong, |names|))
      && (r.Success? ==>
            && |r.value.x| == |names| && |r.value.y| == |names|
            && forall i :: 0 <= i < |names| ==>
                 r.value.x[i] == SeparationX(weak[i], strong[i]) && r.value.y[i] == SeparationY(weak[i], strong[i]))
      && (r.Failure? ==>
            exists i :: 0 <= i < |names| && Accepts(weak, strong, i) && !Accepts(weak, strong, i + 1)
                     && r.error == Rejection(weak, strong, names[i], i))
  {
    var names := if given.Some? then given.value else DefaultNames(|weak|);
    var sepX: seq<real> := [];
    var sepY: seq<real> := [];
    for i := 0 to |names|
      invariant |sepX| == i && |sepY| == i
      invariant Accepts(weak, strong, i)
      invariant forall j :: 0 <= j < i ==>
        && j < |weak| && j < |strong|
        && sepX[j] == SeparationX(weak[j], strong[j]) && sepY[j] == SeparationY(weak[j], strong[j])
    {
      if i >= |weak| || i >= |strong| || !Tolerated(weak[i], strong[i]) {
        r := Failure(Rejection(weak, strong, names[i], i));
        assert !Accepts(weak, strong, i + 1);
        return;
      }
      sepX := sepX + [SeparationX(weak[i], strong[i])];
      sepY := sepY + [SeparationY(weak[i], strong[i])];
    }
    r := Success(Separations(sepX, sepY));
  }

  /** The strict check is redundant for the outcome: frames are refused
      exactly when the combined deviation reaches 5e-3. */
  lemma ToleratedExactly(w: LabPoint, s: LabPoint)
    ensures Tolerated(w, s) <==> DeviationSq(w, s) < DeviationSqLimit
  {
    if Parallel(w, s) {
      assert DeviationSq(w, s) < 3.0 * ParallelSq;
    }
  }

  /** Moving the strong point along the weak beam's longitudinal axis, which
      is orthogonal to its transverse axes, changes neither separation. */
  lemma LongitudinalShiftInvisible(w: LabPoint, s: LabPoint, t: real)
    requires Dot(w.ez, w.ex) == 0.0 && Dot(w.ez, w.ey) == 0.0
    ensures var shifted := s.(p := Add(s.p, Scale(t, w.ez)));
      && SeparationX(w, shifted) == SeparationX(w, s)
      && SeparationY(w, shifted) == SeparationY(w, s)
      && (Tolerated(w, shifted) <==> Tolerated(w, s))
  {
    var d := Sub(s.p, w.p);
    var ez := w.ez;
    var shifted := s.(p := Add(s.p, Scale(t, ez)));
    assert Sub(shifted.p, w.p) == Add(d, Scale(t, ez));
    DotLinear(d, ez, t, w.ex);
    DotLinear(d, ez, t, w.ey);
  }

  lemma DotLinear(d: Vec3, e: Vec3, t: real, a: Vec3)
    ensures Dot(Add(d, Scale(t, e)), a) == Dot(d, a) + t * Dot(e, a)
  {
    calc {
      Dot(Add(d, Scale(t, e)), a);
      (d.x + t * e.x) * a.x + (d.y + t * e.y) * a.y + (d.z + t * e.z) * a.z;
      d.x * a.x + d.y * a.y + d.z * a.z + t * (e.x * a.x + e.y * a.y + e.z * a.z);
    }
  }

  /** With identical axes, exchanging the roles of the beams negates both
      separations. */
  lemma SwappedSeparation(w: LabPoint, s: LabPoint)
    requires w.ex == s.ex && w.ey == s.ey
    ensures SeparationX(s, w) == -SeparationX(w, s)
    ensures SeparationY(s, w) == -SeparationY(w, s)
  {
  }
}
