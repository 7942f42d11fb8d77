/** The table of the counter-rotating beam: the anticlockwise beam's
    encounters seen in the clockwise frame, where x and s change sign. Each
    column is multiplied by -1 once per factor x, px (= dx/ds) or s-derivative
    it carries; the crossing angle and plane are then recomputed. */
module CounterRotation {
  import opened Common
  import opened Crossing
  import opened Partners
  import opened Resolve

  /** The sigma entries under the change of frame, one factor -1 per x, per
      derivative d/ds and per px. */
  function MirrorSigma(s: Sigma): Sigma {
    Sigma(
      s.s11 * (-1.0) * (-1.0),
      s.s12 * (-1.0) * (-1.0) * (-1.0),
      s.s13 * (-1.0),
      s.s14 * (-1.0) * (-1.0),
      s.s22 * (-1.0) * (-1.0) * (-1.0) * (-1.0),
      s.s23 * (-1.0) * (-1.0),
      s.s24 * (-1.0) * (-1.0) * (-1.0),
      s.s33,
      s.s34 * (-1.0),
      s.s44 * (-1.0) * (-1.0))
  }

  /** Entries 12, 13, 24 and 34 change sign, the other six do not. */
  predicate SigmaMirrored(c: Sigma, s: Sigma) {
    && c.s12 == -s.s12 && c.s13 == -s.s13 && c.s24 == -s.s24 && c.s34 == -s.s34
    && c.s11 == s.s11 && c.s14 == s.s14 && c.s22 == s.s22 && c.s23 == s.s23
    && c.s33 == s.s33 && c.s44 == s.s44
  }

  /** The columns the counter-rotated table copies, with their signs; alpha
      and phi are still the old ones until the crossing-angle pass runs. */
  function MirrorColumns(r: CrossingRow): CrossingRow {
    r.(atPosition := r.atPosition * (-1.0),
       selfSigma := MirrorSigma(r.selfSigma),
       otherSigma := MirrorSigma(r.otherSigma),
       separationX := r.separationX * (-1.0),
       dpx := r.dpx * (-1.0) * (-1.0),
       dpy := r.dpy * (-1.0))
  }

  /** c is r seen from the other direction: position, horizontal separation,
      dpy and four sigma entries of each beam change sign; names, beams,
      populations, charges, velocity, vertical separation, dpx and the other
      sigma entries are copied. */
  predicate Mirrored(c: CrossingRow, r: CrossingRow) {
    && c.beam == r.beam && c.otherBeam == r.otherBeam && c.ipName == r.ipName
    && c.kind == r.kind && c.identifier == r.identifier
    && c.elementName == r.elementName && c.otherElementName == r.otherElementName
    && c.selfNumParticles == r.selfNumParticles && c.otherNumParticles == r.otherNumParticles
    && c.selfParticleCharge == r.selfParticleCharge && c.otherParticleCharge == r.otherParticleCharge
    && c.otherRelativisticBeta == r.otherRelativisticBeta
    && c.atPosition == -r.atPosition
    && SigmaMirrored(c.selfSigma, r.selfSigma) && SigmaMirrored(c.otherSigma, r.otherSigma)
    && c.separationX == -r.separationX && c.separationY == r.separationY
    && c.dpx == r.dpx && c.dpy == -r.dpy
  }

  /** One counter-rotated row: the mirrored columns, and alpha and phi
      recomputed from the new dpx and dpy rather than copied. */
  function CounterRotated(m: Math, r: CrossingRow): (c: CrossingRow)
    requires m.sqrt(0.0) == 0.0
    ensures Mirrored(c, r) && Consistent(m, c)
  {
    var mirrored := MirrorColumns(r);
    var crossing := FindAlphaAndPhi(m, mirrored.dpx, mirrored.dpy);
    mirrored.(alpha := crossing.alpha, phi := crossing.phi)
  }

  /** The counter-rotated table: built column by column on the same index,
      then given the crossing-angle pass. */
  method GetCounterRotating(m: Math, t: Table<CrossingRow>) returns (c: Table<CrossingRow>)
    requires m.sqrt(0.0) == 0.0 && t.WellFormed()
    ensures c.WellFormed() && c.index == t.index
    ensures forall n :: n in c.rows <==> n in t.rows
    ensures forall n :: n in c.rows ==> c.rows[n] == CounterRotated(m, t.rows[n])
  {
    var columns := Table(t.index, map n | n in t.rows :: MirrorColumns(t.rows[n]));
    c := ComputeLocalCrossingAngleAndPlane(m, columns);
  }

  /** Mirroring a row that is consistent twice gives the row back. */
  lemma CounterRotatedTwice(m: Math, r: CrossingRow)
    requires m.sqrt(0.0) == 0.0 && Consistent(m, r)
    ensures CounterRotated(m, CounterRotated(m, r)) == r
  {
    var c := CounterRotated(m, r);
    var cc := CounterRotated(m, c);
    assert cc.dpx == r.dpx && cc.dpy == r.dpy;
    assert cc.selfSigma == r.selfSigma && cc.otherSigma == r.otherSigma;
  }

  /** The magnitude of the half crossing angle survives the counter-rotation. */
  lemma CounterRotatedKeepsAbsPhi(m: Math, r: CrossingRow)
    requires m.sqrt(0.0) == 0.0 && Consistent(m, r)
    ensures var c := CounterRotated(m, r);
      (c.phi == r.phi || c.phi == -r.phi) && AbsPhi(m, c.dpx, c.dpy) == AbsPhi(m, r.dpx, r.dpy)
  {
    var c := CounterRotated(m, r);
    assert c.dpx == r.dpx && c.dpy == -r.dpy;
    AbsPhiMirror(m, r.dpx, r.dpy);
    var fr := FindAlphaAndPhi(m, r.dpx, r.dpy);
    assert r.phi == fr.phi;
  }
}
