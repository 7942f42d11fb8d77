/** The partner join: every encounter of a beam reads, from the other beam's
    table, the row named by its other element name and copies that row's own
    position, beam sizes, charge and velocity into its "other" columns. */
module Partners {
  import opened Common
  import opened Encounters
  import opened Geometry

  /** The ten independent entries of a beam's 4x4 transverse sigma matrix. */
  datatype Sigma = Sigma(
    s11: real, s12: real, s13: real, s14: real, s22: real,
    s23: real, s24: real, s33: real, s34: real, s44: real)

  /** An encounter after the optics stage: its bunch population, its position
      in the lab and its beam sizes. */
  datatype Located = Located(
    enc: Encounter,
    selfNumParticles: real,
    selfLabPosition: LabPoint,
    selfSigma: Sigma)

  /** An encounter that also knows its partner. */
  datatype Joined = Joined(
    self: Located,
    otherNumParticles: real,
    otherParticleCharge: real,
    otherRelativisticBeta: real,
    otherLabPosition: LabPoint,
    otherSigma: Sigma,
    otherCrab: Crab)

  /** The other beam's row for l: the other beam must be b1 or b2 and must
      have a row under l's other element name. */
  function PartnerOf(l: Located, b1: Table<Located>, b2: Table<Located>): (r: Result<Located>)
    ensures r.Success? <==>
      (l.enc.otherBeam == "b1" && l.enc.otherElementName in b1.rows)
      || (l.enc.otherBeam == "b2" && l.enc.otherElementName in b2.rows)
    ensures r.Success? ==>
      r.value == (if l.enc.otherBeam == "b1" then b1 else b2).rows[l.enc.otherElementName]
    ensures r.Failure? ==>
      r.error == (if l.enc.otherBeam in {"b1", "b2"} then MissingPartner(l.enc.otherElementName)
                  else UnknownBeam(l.enc.otherBeam))
  {
    var name := l.enc.otherElementName;
    if l.enc.otherBeam == "b1" then
      if name in b1.rows then Success(b1.rows[name]) else Failure(MissingPartner(name))
    else if l.enc.otherBeam == "b2" then
      if name in b2.rows then Success(b2.rows[name]) else Failure(MissingPartner(name))
    else Failure(UnknownBeam(l.enc.otherBeam))
  }

  /** j is l joined with its partner p: l unchanged, every "other" column the
      partner's own value; the partner's crab offsets only when the strong beam
      is crabbed, otherwise l's own (zero) ones. */
  predicate JoinedWith(j: Joined, l: Located, p: Located, crabStrongBeam: bool) {
    && j.self == l
    && j.otherNumParticles == p.selfNumParticles
    && j.otherParticleCharge == p.enc.selfParticleCharge
    && j.otherRelativisticBeta == p.enc.selfRelativisticBeta
    && j.otherLabPosition == p.selfLabPosition
    && j.otherSigma == p.selfSigma
    && j.otherCrab == (if crabStrongBeam then p.enc.selfCrab else l.enc.otherCrab)
  }

  /** The row the join writes for l and its partner p. */
  function JoinRow(l: Located, p: Located, crabStrongBeam: bool): (j: Joined)
    ensures JoinedWith(j, l, p, crabStrongBeam)
  {
    Joined(l, p.selfNumParticles, p.enc.selfParticleCharge, p.enc.selfRelativisticBeta,
      p.selfLabPosition, p.selfSigma, if crabStrongBeam then p.enc.selfCrab else l.enc.otherCrab)
  }

  /** Every row of the first `upto` of the index finds its partner. */
  predicate PartnersFound(t: Table<Located>, b1: Table<Located>, b2: Table<Located>, upto: nat)
    requires t.WellFormed() && upto <= |t.index|
  {
    forall i :: 0 <= i < upto ==> PartnerOf(t.rows[t.index[i]], b1, b2).Success?
  }

  /** The lookup for the row at position i of the index fails with e. */
  predicate FailedAt(t: Table<Located>, b1: Table<Located>, b2: Table<Located>, i: nat, e: Error)
    requires t.WellFormed() && i < |t.index|
  {
    PartnerOf(t.rows[t.index[i]], b1, b2) == Failure(e)
  }

  /** One beam's pass of the join, row by row in index order; the first row
      whose partner cannot be found stops it with that lookup's error. */
  method JoinBeam(t: Table<Located>, b1: Table<Located>, b2: Table<Located>, crabStrongBeam: bool)
    returns (r: Result<Table<Joined>>)
    requires t.WellFormed()
    ensures r.Success? <==> PartnersFound(t, b1, b2, |t.index|)
    ensures r.Success? ==>
      && r.value.WellFormed() && r.value.index == t.index
      && forall n :: n in r.value.rows ==>
           var p := PartnerOf(t.rows[n], b1, b2);
           p.Success? && JoinedWith(r.value.rows[n], t.rows[n], p.value, crabStrongBeam)
    ensures r.Failure? ==>
      exists i :: 0 <= i < |t.index| && PartnersFound(t, b1, b2, i)
        && FailedAt(t, b1, b2, i, r.error)
  {
    var rows: map<string, Joined> := map[];
    for i := 0 to |t.index|
      invariant PartnersFound(t, b1, b2, i)
      invariant forall n :: n in rows <==> n in t.index[..i]
      invariant forall n :: n in rows ==>
        var p := PartnerOf(t.rows[n], b1, b2);
        p.Success? && JoinedWith(rows[n], t.rows[n], p.value, crabStrongBeam)
    {
      var name := t.index[i];
      var p := PartnerOf(t.rows[name], b1, b2);
      if p.Failure? {
        assert FailedAt(t, b1, b2, i, p.error);
        return Failure(p.error);
      }
      assert t.index[..i + 1] == t.index[..i] + [name];
      rows := rows[name := JoinRow(t.rows[name], p.value, crabStrongBeam)];
    }
    assert t.index[..|t.index|] == t.index;
    assert forall n :: n in rows <==> n in t.rows;
    r := Success(Table(t.index, rows));
  }

  /** Both passes: beam b1 against the two tables, then beam b2. The first
      pass writes only "other" columns, so the second reads the same "self"
      columns of b1 as the first saw. */
  method GetPartnerPositionAndOptics(b1: Table<Located>, b2: Table<Located>, crabStrongBeam: bool)
    returns (r: Result<(Table<Joined>, Table<Joined>)>)
    requires b1.WellFormed() && b2.WellFormed()
    ensures r.Success? <==> PartnersFound(b1, b1, b2, |b1.index|) && PartnersFound(b2, b1, b2, |b2.index|)
    ensures r.Success? ==>
      && r.value.0.WellFormed() && r.value.1.WellFormed()
      && r.value.0.index == b1.index && r.value.1.index == b2.index
      && (forall n :: n in r.value.0.rows ==>
            n in b1.rows && PartnerOf(b1.rows[n], b1, b2).Success? && JoinedWith(r.value.0.rows[n], b1.rows[n], PartnerOf(b1.rows[n], b1, b2).value, crabStrongBeam))
      && (forall n :: n in r.value.1.rows ==>
            n in b2.rows && PartnerOf(b2.rows[n], b1, b2).Success? && JoinedWith(r.value.1.rows[n], b2.rows[n], PartnerOf(b2.rows[n], b1, b2).value, crabStrongBeam))
    ensures r.Failure? ==>
      if !PartnersFound(b1, b1, b2, |b1.index|) then
        exists i :: 0 <= i < |b1.index| && PartnersFound(b1, b1, b2, i) && FailedAt(b1, b1, b2, i, r.error)
      else
        exists i :: 0 <= i < |b2.index| && PartnersFound(b2, b1, b2, i) && FailedAt(b2, b1, b2, i, r.error)
  {
    var j1 :- JoinBeam(b1, b1, b2, crabStrongBeam);
    var j2 :- JoinBeam(b2, b1, b2, crabStrongBeam);
    r := Success((j1, j2));
  }

  /** When two encounters name each other across the beams, each one's
      "other" columns hold the other's "self" values: the join is symmetric. */
  lemma MutualPartners(b1: Table<Located>, b2: Table<Located>, n1: string, n2: string, crabStrongBeam: bool)
    requires n1 in b1.rows && n2 in b2.rows
    requires b1.rows[n1].enc.otherBeam == "b2" && b1.rows[n1].enc.otherElementName == n2
    requires b2.rows[n2].enc.otherBeam == "b1" && b2.rows[n2].enc.otherElementName == n1
    ensures PartnerOf(b1.rows[n1], b1, b2) == Success(b2.rows[n2])
    ensures PartnerOf(b2.rows[n2], b1, b2) == Success(b1.rows[n1])
    ensures var j1 := JoinRow(b1.rows[n1], b2.rows[n2], crabStrongBeam);
      var j2 := JoinRow(b2.rows[n2], b1.rows[n1], crabStrongBeam);
      && j1.otherLabPosition == j2.self.selfLabPosition && j2.otherLabPosition == j1.self.selfLabPosition
      && j1.otherSigma == j2.self.selfSigma && j2.otherSigma == j1.self.selfSigma
      && j1.otherNumParticles == j2.self.selfNumParticles && j2.otherNumParticles == j1.self.selfNumParticles
  {
  }
}
