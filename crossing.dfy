/** The local crossing angle and crossing plane of an encounter, from the
    difference of the two beams' transverse angles. The eight octants of the
    (dpx, dpy) plane choose the sign of phi and the arctangent form of alpha. */
module Crossing {
  import opened Common

  /** alpha: crossing plane angle; phi: half crossing angle. */
  datatype Crossing = Crossing(alpha: real, phi: real)

  /** Below this half angle the crossing is treated as head-on. */
  const Tiny: real := 0.00000000000000000001

  /** The magnitude of the half crossing angle. */
  function AbsPhi(m: Math, dpx: real, dpy: real): real {
    m.sqrt(dpx * dpx + dpy * dpy) / 2.0
  }

  function RealAbs(x: real): real { if x < 0.0 then -x else x }

  /** The octants in which alpha is written as pi/2 - arctan(dpx/dpy) rather
      than arctan(dpy/dpx): those where |dpy| exceeds |dpx|, plus the diagonal
      boundary of the seventh octant. */
  predicate Steep(dpx: real, dpy: real) {
    RealAbs(dpx) < RealAbs(dpy) || (RealAbs(dpx) == RealAbs(dpy) && dpy < 0.0 && dpx > 0.0)
  }

  /** The octant table. Taking a square root of zero gives zero, so outside
      the small branch (dpx, dpy) is not the origin and every divisor used is
      nonzero. Outside the small branch phi is negative exactly when
      dpx + dpy <= 0, which is the union of octants four to seven with the
      table's boundaries. */
  function FindAlphaAndPhi(m: Math, dpx: real, dpy: real): (r: Crossing)
    requires m.sqrt(0.0) == 0.0
    ensures r.phi == AbsPhi(m, dpx, dpy) || r.phi == -AbsPhi(m, dpx, dpy)
    ensures AbsPhi(m, dpx, dpy) < Tiny ==> r == Crossing(0.0, AbsPhi(m, dpx, dpy))
    ensures AbsPhi(m, dpx, dpy) >= Tiny ==>
      r.phi == (if dpx + dpy <= 0.0 then -AbsPhi(m, dpx, dpy) else AbsPhi(m, dpx, dpy))
  {
    var absphi := AbsPhi(m, dpx, dpy);
    if absphi < Tiny then Crossing(0.0, absphi)
    else if dpy >= 0.0 then
      if dpx >= 0.0 then
        if RealAbs(dpx) >= RealAbs(dpy) then Crossing(m.arctan(dpy / dpx), absphi)            // first octant
        else Crossing(0.5 * m.pi - m.arctan(dpx / dpy), absphi)                               // second octant
      else
        if RealAbs(dpx) < RealAbs(dpy) then Crossing(0.5 * m.pi - m.arctan(dpx / dpy), absphi) // third octant
        else Crossing(m.arctan(dpy / dpx), -absphi)                                           // fourth octant
    else
      if dpx <= 0.0 then
        if RealAbs(dpx) >= RealAbs(dpy) then Crossing(m.arctan(dpy / dpx), -absphi)           // fifth octant
        else Crossing(0.5 * m.pi - m.arctan(dpx / dpy), -absphi)                              // sixth octant
      else
        if RealAbs(dpx) <= RealAbs(dpy) then Crossing(0.5 * m.pi - m.arctan(dpx / dpy), -absphi) // seventh octant
        else Crossing(m.arctan(dpy / dpx), absphi)                                            // eighth octant
  }

  /** Outside the small branch the crossing is not at the origin, the divisor
      of the form chosen is nonzero, and alpha is that form. */
  lemma AlphaForm(m: Math, dpx: real, dpy: real)
    requires m.sqrt(0.0) == 0.0 && AbsPhi(m, dpx, dpy) >= Tiny
    ensures dpx != 0.0 || dpy != 0.0
    ensures Steep(dpx, dpy) ==> dpy != 0.0 && FindAlphaAndPhi(m, dpx, dpy).alpha == 0.5 * m.pi - m.arctan(dpx / dpy)
    ensures !Steep(dpx, dpy) ==> dpx != 0.0 && FindAlphaAndPhi(m, dpx, dpy).alpha == m.arctan(dpy / dpx)
  {
    if dpx == 0.0 && dpy == 0.0 {
      assert false;
    }
  }

  /** phi is not odd on the anti-diagonal: (-a, a) falls in the fourth octant
      and (a, -a) in the seventh, and both give a negative phi. */
  lemma AntiDiagonal(m: Math, a: real)
    requires m.sqrt(0.0) == 0.0 && AbsPhi(m, -a, a) >= Tiny && AbsPhi(m, a, -a) >= Tiny
    ensures FindAlphaAndPhi(m, -a, a).phi < 0.0 && FindAlphaAndPhi(m, a, -a).phi < 0.0
    ensures FindAlphaAndPhi(m, -a, a).phi == FindAlphaAndPhi(m, a, -a).phi
  {
    assert (-a) * (-a) + a * a == a * a + (-a) * (-a);
  }

  /** Mirroring either angle difference leaves the magnitude unchanged. */
  lemma AbsPhiMirror(m: Math, dpx: real, dpy: real)
    ensures AbsPhi(m, -dpx, dpy) == AbsPhi(m, dpx, dpy) == AbsPhi(m, dpx, -dpy)
  {
    assert (-dpx) * (-dpx) + dpy * dpy == dpx * dpx + dpy * dpy == dpx * dpx + (-dpy) * (-dpy);
  }
}
