/** The last per-beam passes of the configuration: separations in the weak
    beam's frame, the angle differences dpx and dpy (weak minus strong), the
    crossing angle and plane, and, with crabbed strong beams, the crab
    offsets added to the separations. The result has exactly the columns the
    lens setup and the counter-rotation read. */
module Resolve {
  import opened Common
  import opened Encounters
  import opened Geometry
  import opened Crossing
  import opened Partners

  datatype CrossingRow = CrossingRow(
    beam: string,
    otherBeam: string,
    ipName: string,
    kind: Label,
    identifier: int,
    elementName: string,
    otherElementName: string,
    selfNumParticles: real,
    otherNumParticles: real,
    selfParticleCharge: real,
    otherParticleCharge: real,
    otherRelativisticBeta: real,
    atPosition: real,
    selfSigma: Sigma,
    otherSigma: Sigma,
    separationX: real,
    separationY: real,
    dpx: real,
    dpy: real,
    alpha: real,
    phi: real)

  /** alpha and phi are the ones the octant table gives for dpx and dpy. */
  predicate Consistent(m: Math, r: CrossingRow)
    requires m.sqrt(0.0) == 0.0
  {
    var c := FindAlphaAndPhi(m, r.dpx, r.dpy);
    r.alpha == c.alpha && r.phi == c.phi
  }

  /** The row before the crossing-angle pass: separations (plus the partner's
      crab offsets when the strong beam is crabbed) and the angle differences;
      alpha and phi are not yet computed and hold 0. */
  function Uncrossed(j: Joined, sepX: real, sepY: real, crabStrongBeam: bool): CrossingRow {
    var e := j.self.enc;
    CrossingRow(e.beam, e.otherBeam, e.ipName, e.kind, e.identifier, e.elementName, e.otherElementName,
      j.self.selfNumParticles, j.otherNumParticles, e.selfParticleCharge, j.otherParticleCharge,
      j.otherRelativisticBeta, e.atPosition, j.self.selfSigma, j.otherSigma,
      if crabStrongBeam then sepX + j.otherCrab.x else sepX,
      if crabStrongBeam then sepY + j.otherCrab.y else sepY,
      j.self.selfLabPosition.tpx - j.otherLabPosition.tpx,
      j.self.selfLabPosition.tpy - j.otherLabPosition.tpy,
      0.0, 0.0)
  }

  /** What the passes promise of a finished row built from j. */
  predicate ResolvedFrom(m: Math, r: CrossingRow, j: Joined, crabStrongBeam: bool)
    requires m.sqrt(0.0) == 0.0
  {
    var e := j.self.enc;
    var w := j.self.selfLabPosition;
    var s := j.otherLabPosition;
    && r.elementName == e.elementName && r.otherElementName == e.otherElementName
    && r.beam == e.beam && r.otherBeam == e.otherBeam && r.ipName == e.ipName
    && r.kind == e.kind && r.identifier == e.identifier && r.atPosition == e.atPosition
    && r.selfNumParticles == j.self.selfNumParticles && r.otherNumParticles == j.otherNumParticles
    && r.selfParticleCharge == e.selfParticleCharge && r.otherParticleCharge == j.otherParticleCharge
    && r.otherRelativisticBeta == j.otherRelativisticBeta
    && r.selfSigma == j.self.selfSigma && r.otherSigma == j.otherSigma
    && r.separationX == SeparationX(w, s) + (if crabStrongBeam then j.otherCrab.x else 0.0)
    && r.separationY == SeparationY(w, s) + (if crabStrongBeam then j.otherCrab.y else 0.0)
    && r.dpx == w.tpx - s.tpx && r.dpy == w.tpy - s.tpy
    && Consistent(m, r)
  }

  /** The finished row the passes build from j. */
  function ResolvedRow(m: Math, j: Joined, crabStrongBeam: bool): (r: CrossingRow)
    requires m.sqrt(0.0) == 0.0
    ensures ResolvedFrom(m, r, j, crabStrongBeam)
  {
    var u := Uncrossed(j, RowSeparations(j).0, RowSeparations(j).1, crabStrongBeam);
    var c := FindAlphaAndPhi(m, u.dpx, u.dpy);
    u.(alpha := c.alpha, phi := c.phi)
  }

  /** ResolvedFrom pins down every column: it has exactly one solution. */
  lemma ResolvedFromUnique(m: Math, r: CrossingRow, j: Joined, crabStrongBeam: bool)
    requires m.sqrt(0.0) == 0.0 && ResolvedFrom(m, r, j, crabStrongBeam)
    ensures r == ResolvedRow(m, j, crabStrongBeam)
  {
    var q := ResolvedRow(m, j, crabStrongBeam);
    assert r.dpx == q.dpx && r.dpy == q.dpy;
  }

  /** u is r with alpha and phi recomputed from r's dpx and dpy. */
  predicate Recrossed(m: Math, u: CrossingRow, r: CrossingRow)
    requires m.sqrt(0.0) == 0.0
  {
    Consistent(m, u) && u == r.(alpha := u.alpha, phi := u.phi)
  }

  /** The crossing-angle pass: every row gets alpha and phi from its own dpx
      and dpy; nothing else changes. */
  method ComputeLocalCrossingAngleAndPlane(m: Math, t: Table<CrossingRow>) returns (u: Table<CrossingRow>)
    requires m.sqrt(0.0) == 0.0 && t.WellFormed()
    ensures u.WellFormed() && u.index == t.index
    ensures forall n :: n in u.rows ==> n in t.rows && Recrossed(m, u.rows[n], t.rows[n])
  {
    var rows: map<string, CrossingRow> := map[];
    for i := 0 to |t.index|
      invariant forall n :: n in rows <==> n in t.index[..i]
      invariant forall n :: n in rows ==> n in t.rows && Recrossed(m, rows[n], t.rows[n])
    {
      var name := t.index[i];
      var c := FindAlphaAndPhi(m, t.rows[name].dpx, t.rows[name].dpy);
      assert t.index[..i + 1] == t.index[..i] + [name];
      rows := rows[name := t.rows[name].(alpha := c.alpha, phi := c.phi)];
    }
    assert t.index[..|t.index|] == t.index;
    u := Table(t.index, rows);
  }

  /** The lab points the separation pass reads, in index order. */
  function WeakPoints(t: Table<Joined>): (ps: seq<LabPoint>)
    requires t.WellFormed()
    ensures |ps| == |t.index|
  {
    seq(|t.index|, i requires 0 <= i < |t.index| => t.rows[t.index[i]].self.selfLabPosition)
  }

  function StrongPoints(t: Table<Joined>): (ps: seq<LabPoint>)
    requires t.WellFormed()
    ensures |ps| == |t.index|
  {
    seq(|t.index|, i requires 0 <= i < |t.index| => t.rows[t.index[i]].otherLabPosition)
  }

  /** The separations a joined row gets from the separation pass. */
  function RowSeparations(j: Joined): (real, real) {
    (SeparationX(j.self.selfLabPosition, j.otherLabPosition), SeparationY(j.self.selfLabPosition, j.otherLabPosition))
  }

  /** The angle-difference pass together with the crab correction, given the
      separations in index order. */
  method UncrossedRows(t: Table<Joined>, seps: Separations, crabStrongBeam: bool)
    returns (rows: map<string, CrossingRow>)
    requires t.WellFormed() && |seps.x| == |t.index| && |seps.y| == |t.index|
    requires forall i :: 0 <= i < |t.index| ==> (seps.x[i], seps.y[i]) == RowSeparations(t.rows[t.index[i]])
    ensures forall n :: n in rows <==> n in t.rows
    ensures forall n :: n in rows ==>
      rows[n] == Uncrossed(t.rows[n], RowSeparations(t.rows[n]).0, RowSeparations(t.rows[n]).1, crabStrongBeam)
  {
    rows := map[];
    for i := 0 to |t.index|
      invariant forall n :: n in rows <==> n in t.index[..i]
      invariant forall n :: n in rows ==>
        && n in t.rows
        && rows[n] == Uncrossed(t.rows[n], RowSeparations(t.rows[n]).0, RowSeparations(t.rows[n]).1, crabStrongBeam)
    {
      var name := t.index[i];
      assert t.index[..i + 1] == t.index[..i] + [name];
      rows := rows[name := Uncrossed(t.rows[name], seps.x[i], seps.y[i], crabStrongBeam)];
    }
    assert t.index[..|t.index|] == t.index;
  }

  /** The separation, angle-difference, crossing-angle and crab passes of one
      beam's joined table. Only the separation pass can fail. */
  method ResolveBeam(m: Math, t: Table<Joined>, crabStrongBeam: bool) returns (r: Result<Table<CrossingRow>>)
    requires m.sqrt(0.0) == 0.0 && t.WellFormed()
    ensures r.Success? <==> Accepts(WeakPoints(t), StrongPoints(t), |t.index|)
    ensures r.Failure? ==> r.error.MissingPoint? || r.error.FramesNotParallel?
    ensures r.Failure? ==>
      exists i :: 0 <= i < |t.index| && Accepts(WeakPoints(t), StrongPoints(t), i)
               && !Accepts(WeakPoints(t), StrongPoints(t), i + 1)
               && r.error == Rejection(WeakPoints(t), StrongPoints(t), t.index[i], i)
    ensures r.Success? ==>
      && r.value.WellFormed() && r.value.index == t.index
      && forall n :: n in r.value.rows ==> n in t.rows && ResolvedFrom(m, r.value.rows[n], t.rows[n], crabStrongBeam)
  {
    var weak := WeakPoints(t);
    var strong := StrongPoints(t);
    var seps :- FindBBSeparations(weak, strong, Some(t.index));
    assert forall i :: 0 <= i < |t.index| ==> (seps.x[i], seps.y[i]) == RowSeparations(t.rows[t.index[i]]) by {
      forall i | 0 <= i < |t.index|
        ensures (seps.x[i], seps.y[i]) == RowSeparations(t.rows[t.index[i]])
      {
        assert weak[i] == t.rows[t.index[i]].self.selfLabPosition;
        assert strong[i] == t.rows[t.index[i]].otherLabPosition;
      }
    }
    var rows := UncrossedRows(t, seps, crabStrongBeam);
    var crossed := ComputeLocalCrossingAngleAndPlane(m, Table(t.index, rows));
    forall n | n in crossed.rows
      ensures n in t.rows && ResolvedFrom(m, crossed.rows[n], t.rows[n], crabStrongBeam)
    {
      UncrossedResolves(m, crossed.rows[n], t.rows[n], crabStrongBeam);
    }
    r := Success(crossed);
  }

  /** Recomputing the crossing of the row the earlier passes build gives the
      row resolved from the joined one. */
  lemma UncrossedResolves(m: Math, u: CrossingRow, j: Joined, crabStrongBeam: bool)
    requires m.sqrt(0.0) == 0.0
    requires Recrossed(m, u, Uncrossed(j, RowSeparations(j).0, RowSeparations(j).1, crabStrongBeam))
    ensures ResolvedFrom(m, u, j, crabStrongBeam)
  {
  }
}
