/** The two-beam configuration of the beam-beam tables: the mode check, the
    bunch population of each encounter, the partner join, the per-beam
    separation and crossing passes, and the counter-rotated table of the
    anticlockwise beam. Twiss, survey and crab measurements are inputs. */
module Configure {
  import opened Common
  import opened Encounters
  import opened Geometry
  import opened Crossing
  import opened Partners
  import opened Resolve
  import opened CounterRotation
  import Slicing

  datatype Mode = TwoBeams | Antisymmetry

  /** Antisymmetry is for exactly the case where a line is missing; with two
      lines the two-beam mode is required. */
  function CheckMode(hasClockwise: bool, hasAnticlockwise: bool, useAntisymmetry: bool): (r: Result<Mode>)
    ensures r.Success? <==> (useAntisymmetry <==> !(hasClockwise && hasAnticlockwise))
    ensures r.Success? ==> (r.value == Antisymmetry <==> useAntisymmetry)
    ensures r.Failure? ==> r.error == (if hasClockwise && hasAnticlockwise then OneBeamOnly else BothBeamsNeeded)
  {
    if !hasClockwise || !hasAnticlockwise then
      if useAntisymmetry then Success(Antisymmetry) else Failure(BothBeamsNeeded)
    else
      if useAntisymmetry then Failure(OneBeamOnly) else Success(TwoBeams)
  }

  /** What the optics stage finds at one element: its lab position, its beam
      sizes and, when measured, its crab offsets. */
  datatype Optics = Optics(labPosition: LabPoint, sigma: Sigma, crab: Crab)

  /** An encounter with its share of the bunch population and its optics; the
      crab offsets are measured only for a crabbed strong beam. */
  function LocateRow(e: Encounter, numParticles: real, o: Optics, crabStrongBeam: bool): Located {
    Located(if crabStrongBeam then e.(selfCrab := o.crab) else e,
      numParticles * e.selfFracOfBunch, o.labPosition, o.sigma)
  }

  /** The optics stage over a whole table. */
  function Locate(t: Table<Encounter>, numParticles: real, optics: map<string, Optics>, crabStrongBeam: bool): (l: Table<Located>)
    requires t.WellFormed() && forall n :: n in t.rows ==> n in optics
    ensures l.WellFormed() && l.index == t.index
    ensures forall n :: n in l.rows <==> n in t.rows
  {
    Table(t.index, map n | n in t.rows :: LocateRow(t.rows[n], numParticles, optics[n], crabStrongBeam))
  }

  /** The bunch populations of the rows named, in order. */
  function Populations(l: Table<Located>, names: seq<string>): (ps: seq<real>)
    requires forall j :: 0 <= j < |names| ==> names[j] in l.rows
    ensures |ps| == |names|
    ensures forall j :: 0 <= j < |names| ==> ps[j] == l.rows[names[j]].selfNumParticles
  {
    seq(|names|, j requires 0 <= j < |names| => l.rows[names[j]].selfNumParticles)
  }

  /** The element name of the head-on slice with identifier id at the IP in
      position ii. */
  function SliceName(c: Config, ii: nat, id: int): string
    requires ii < |c.ipNames|
  {
    Naming.ElementName(HeadOn.Name(), Naming.StripIp(c.ipNames[ii]), c.beamName, id)
  }

  function SliceNames(c: Config, ii: nat): (names: seq<string>)
    requires ii < |c.ipNames| && c.numberOfHOSlices >= 1
    ensures |names| == 2 * SlicesPerSide(c.numberOfHOSlices) + 1
    ensures forall j :: 0 <= j < |names| ==> names[j] == SliceName(c, ii, j - SlicesPerSide(c.numberOfHOSlices))
  {
    var k := SlicesPerSide(c.numberOfHOSlices);
    seq(2 * k + 1, j requires 0 <= j < 2 * k + 1 => SliceName(c, ii, j - k))
  }

  /** The head-on row of the IP at position ii with identifier id in a
      generated table: stored under its element name, with 1/N of the bunch. */
  lemma HeadOnSliceRow(c: Config, m: Math, ii: nat, id: int) returns (name: string)
    requires (c.numberOfHOSlices > 1 ==> Slicing.Admissible(m, c.sigt / 2.0)) && Generate(c, m).Success?
    requires ii < |c.ipNames| && c.numberOfHOSlices >= 1
    requires var k := SlicesPerSide(c.numberOfHOSlices); -k <= id <= k
    ensures name == SliceName(c, ii, id)
    ensures var t := Generate(c, m).value;
      && name in t.rows && t.rows[name].kind == HeadOn
      && t.rows[name].ipName == c.ipNames[ii] && t.rows[name].identifier == id
      && t.rows[name].selfFracOfBunch == 1.0 / c.numberOfHOSlices as real
  {
    var t := Generate(c, m).value;
    HeadOnIdentifiersExactly(c, m, ii, id);
    GeneratedTable(c, m);
    name :| name in t.rows && t.rows[name].kind == HeadOn
      && t.rows[name].ipName == c.ipNames[ii] && t.rows[name].identifier == id;
    assert SharedColumns(c, t.rows[name]);
    assert HeadOnColumns(c, Slicing.ChargeSlices(m, 1.0, c.sigt / 2.0, c.numberOfHOSlices).value.centroids, t.rows[name]);
  }

  /** The head-on slices of the IP at position ii of a generated table are
      N = 2k + 1 distinct rows with identifiers -k..k, each with 1/N of the
      bunch, and no other head-on row belongs to that IP. */
  lemma HeadOnBlock(c: Config, m: Math, ii: nat) returns (names: seq<string>)
    requires (c.numberOfHOSlices > 1 ==> Slicing.Admissible(m, c.sigt / 2.0)) && Generate(c, m).Success? && ii < |c.ipNames|
    ensures c.numberOfHOSlices >= 1
    ensures var t := Generate(c, m).value;
      var k := SlicesPerSide(c.numberOfHOSlices);
      && |names| == c.numberOfHOSlices == 2 * k + 1
      && (forall j :: 0 <= j < |names| ==>
            && names[j] in t.rows && t.rows[names[j]].kind == HeadOn
            && t.rows[names[j]].ipName == c.ipNames[ii] && t.rows[names[j]].identifier == j - k
            && t.rows[names[j]].selfFracOfBunch == 1.0 / c.numberOfHOSlices as real)
      && (forall name :: name in t.rows && t.rows[name].kind == HeadOn && t.rows[name].ipName == c.ipNames[ii]
            ==> name in names)
  {
    var t := Generate(c, m).value;
    GeneratedShape(c, m);
    assert Reaches(c) by { GeneratedTable(c, m); }
    var n := c.numberOfHOSlices;
    var k := SlicesPerSide(n);
    names := SliceNames(c, ii);
    forall j | 0 <= j < n
      ensures && names[j] in t.rows && t.rows[names[j]].kind == HeadOn
              && t.rows[names[j]].ipName == c.ipNames[ii] && t.rows[names[j]].identifier == j - k
              && t.rows[names[j]].selfFracOfBunch == 1.0 / n as real
    {
      var name := HeadOnSliceRow(c, m, ii, j - k);
      assert name == names[j];
    }
    forall name | name in t.rows && t.rows[name].kind == HeadOn && t.rows[name].ipName == c.ipNames[ii]
      ensures name in names
    {
      var id := HeadOnRowName(c, m, ii, name);
      assert names[id + k] == name;
    }
  }

  /** A head-on row of the IP at position ii in a generated table is stored
      under the element name of its identifier, which lies in -k..k. */
  lemma HeadOnRowName(c: Config, m: Math, ii: nat, name: string) returns (id: int)
    requires (c.numberOfHOSlices > 1 ==> Slicing.Admissible(m, c.sigt / 2.0)) && Generate(c, m).Success? && ii < |c.ipNames|
    requires var t := Generate(c, m).value;
      name in t.rows && t.rows[name].kind == HeadOn && t.rows[name].ipName == c.ipNames[ii]
    ensures c.numberOfHOSlices >= 1
    ensures var k := SlicesPerSide(c.numberOfHOSlices);
      && -k <= id <= k && id == Generate(c, m).value.rows[name].identifier
      && name == SliceName(c, ii, id)
  {
    var t := Generate(c, m).value;
    GeneratedTable(c, m);
    var centroids := Slicing.ChargeSlices(m, 1.0, c.sigt / 2.0, c.numberOfHOSlices).value.centroids;
    var e := t.rows[name];
    assert SharedColumns(c, e);
    assert HeadOnColumns(c, centroids, e);
    id := e.identifier;
  }

  /** Locating keeps each row's kind, IP and identifier, and gives it the bunch
      population times its fraction of the bunch. */
  lemma LocatedRow(t: Table<Encounter>, numParticles: real, optics: map<string, Optics>, crabStrongBeam: bool, name: string)
    requires t.WellFormed() && (forall n :: n in t.rows ==> n in optics) && name in t.rows
    ensures var l := Locate(t, numParticles, optics, crabStrongBeam).rows[name];
      && l.enc.kind == t.rows[name].kind && l.enc.ipName == t.rows[name].ipName
      && l.enc.identifier == t.rows[name].identifier
      && l.selfNumParticles == numParticles * t.rows[name].selfFracOfBunch
  {
  }

  /** Rows that each carry 1/N of the bunch, N of them, carry the whole bunch
      once located. */
  lemma BlockCarriesBunch(t: Table<Encounter>, names: seq<string>, numParticles: real,
                            optics: map<string, Optics>, crabStrongBeam: bool)
    requires t.WellFormed() && (forall n :: n in t.rows ==> n in optics) && |names| >= 1
    requires forall j :: 0 <= j < |names| ==>
      names[j] in t.rows && t.rows[names[j]].selfFracOfBunch == 1.0 / |names| as real
    ensures Sum(Populations(Locate(t, numParticles, optics, crabStrongBeam), names)) == numParticles
  {
    var n := |names|;
    var share := numParticles * (1.0 / n as real);
    var ps := Populations(Locate(t, numParticles, optics, crabStrongBeam), names);
    forall j | 0 <= j < n
      ensures ps[j] == share
    {
      LocatedRow(t, numParticles, optics, crabStrongBeam, names[j]);
    }
    assert ps == seq(n, _ => share);
    SharesAddUp(n, numParticles);
  }

  lemma SharesAddUp(n: nat, numParticles: real)
    requires n >= 1
    ensures Sum(seq(n, _ => numParticles * (1.0 / n as real))) == numParticles
  {
    Slicing.SumOfConstant(n, numParticles * (1.0 / n as real));
    ShareOfSlices(numParticles, n as real);
  }

  /** The head-on slices of the IP at position ii of a generated table are
      N = 2k + 1 distinct rows with identifiers -k..k, and no other head-on row
      belongs to that IP; once located with a bunch population, their
      populations add up to that population. */
  lemma SlicesShareBunch(c: Config, m: Math, ii: nat, numParticles: real, optics: map<string, Optics>, crabStrongBeam: bool)
    returns (names: seq<string>)
    requires (c.numberOfHOSlices > 1 ==> Slicing.Admissible(m, c.sigt / 2.0)) && Generate(c, m).Success? && ii < |c.ipNames|
    requires forall n :: n in Generate(c, m).value.rows ==> n in optics
    ensures Generate(c, m).value.WellFormed() && c.numberOfHOSlices >= 1
    ensures var l := Locate(Generate(c, m).value, numParticles, optics, crabStrongBeam);
      var k := SlicesPerSide(c.numberOfHOSlices);
      && |names| == c.numberOfHOSlices == 2 * k + 1
      && Distinct(names)
      && (forall j :: 0 <= j < |names| ==>
            && names[j] in l.rows && l.rows[names[j]].enc.kind == HeadOn
            && l.rows[names[j]].enc.ipName == c.ipNames[ii] && l.rows[names[j]].enc.identifier == j - k)
      && (forall name :: name in l.rows && l.rows[name].enc.kind == HeadOn && l.rows[name].enc.ipName == c.ipNames[ii]
            ==> name in names)
      && Sum(Populations(l, names)) == numParticles
  {
    var t := Generate(c, m).value;
    GeneratedTable(c, m);
    names := HeadOnBlock(c, m, ii);
    forall name | name in t.rows
      ensures var e := Locate(t, numParticles, optics, crabStrongBeam).rows[name].enc;
        e.kind == t.rows[name].kind && e.ipName == t.rows[name].ipName && e.identifier == t.rows[name].identifier
    {
      LocatedRow(t, numParticles, optics, crabStrongBeam, name);
    }
    BlockCarriesBunch(t, names, numParticles, optics, crabStrongBeam);
  }

  lemma ShareOfSlices(numParticles: real, n: real)
    requires n != 0.0
    ensures numParticles * (1.0 / n) == numParticles / n
    ensures n * (numParticles / n) == numParticles
  {
  }

  /** The joined row of the encounter named n. */
  function JoinedRowOf(t: Table<Located>, b1: Table<Located>, b2: Table<Located>, n: string, crabStrongBeam: bool): Joined
    requires n in t.rows && PartnerOf(t.rows[n], b1, b2).Success?
  {
    JoinRow(t.rows[n], PartnerOf(t.rows[n], b1, b2).value, crabStrongBeam)
  }

  /** The separation and crossing passes of one beam's joined table, stated
      against the located tables the join read. */
  method ResolveJoined(m: Math, l: Table<Located>, l1: Table<Located>, l2: Table<Located>, j: Table<Joined>, crabStrongBeam: bool)
    returns (r: Result<Table<CrossingRow>>)
    requires m.sqrt(0.0) == 0.0 && j.WellFormed()
    requires forall n :: n in j.rows ==>
      n in l.rows && PartnerOf(l.rows[n], l1, l2).Success?
      && JoinedWith(j.rows[n], l.rows[n], PartnerOf(l.rows[n], l1, l2).value, crabStrongBeam)
    ensures r.Failure? ==> r.error.MissingPoint? || r.error.FramesNotParallel?
    ensures r.Success? ==>
      && r.value.WellFormed() && r.value.index == j.index
      && forall n :: n in r.value.rows ==>
           && n in l.rows && PartnerOf(l.rows[n], l1, l2).Success?
           && r.value.rows[n] == ResolvedRow(m, JoinedRowOf(l, l1, l2, n, crabStrongBeam), crabStrongBeam)
  {
    var resolved :- ResolveBeam(m, j, crabStrongBeam);
    forall n | n in resolved.rows
      ensures resolved.rows[n] == ResolvedRow(m, JoinedRowOf(l, l1, l2, n, crabStrongBeam), crabStrongBeam)
    {
      ResolvedFromUnique(m, resolved.rows[n], j.rows[n], crabStrongBeam);
    }
    r := Success(resolved);
  }

  /** What a successful configuration returns for the located tables l1 and
      l2: two well-formed tables over their index, with beam 1's rows resolved
      from their joins and beam 2's rows resolved and counter-rotated. */
  ghost predicate Configured(m: Math, l1: Table<Located>, l2: Table<Located>, crabStrongBeam: bool,
                             t1: Table<CrossingRow>, t2: Table<CrossingRow>)
    requires m.sqrt(0.0) == 0.0
  {
    && t1.WellFormed() && t2.WellFormed()
    && t1.index == l1.index && t2.index == l2.index
    && (forall n :: n in t1.rows <==> n in l1.rows)
    && (forall n :: n in t2.rows <==> n in l2.rows)
    && (forall n :: n in t1.rows ==>
          && n in l1.rows && PartnerOf(l1.rows[n], l1, l2).Success?
          && t1.rows[n] == ResolvedRow(m, JoinedRowOf(l1, l1, l2, n, crabStrongBeam), crabStrongBeam))
    && (forall n :: n in t2.rows ==>
          && n in l2.rows && PartnerOf(l2.rows[n], l1, l2).Success?
          && t2.rows[n] == CounterRotated(m, ResolvedRow(m, JoinedRowOf(l2, l1, l2, n, crabStrongBeam), crabStrongBeam)))
  }

  /** The stages' own results give a configured pair of tables. */
  lemma ConfiguredFromStages(m: Math, l1: Table<Located>, l2: Table<Located>, crabStrongBeam: bool,
                             r1: Table<CrossingRow>, r2: Table<CrossingRow>, r4: Table<CrossingRow>)
    requires m.sqrt(0.0) == 0.0 && l1.WellFormed() && l2.WellFormed()
    requires r1.WellFormed() && r1.index == l1.index
    requires forall n :: n in r1.rows ==>
      && n in l1.rows && PartnerOf(l1.rows[n], l1, l2).Success?
      && r1.rows[n] == ResolvedRow(m, JoinedRowOf(l1, l1, l2, n, crabStrongBeam), crabStrongBeam)
    requires r2.WellFormed() && r2.index == l2.index
    requires forall n :: n in r2.rows ==>
      && n in l2.rows && PartnerOf(l2.rows[n], l1, l2).Success?
      && r2.rows[n] == ResolvedRow(m, JoinedRowOf(l2, l1, l2, n, crabStrongBeam), crabStrongBeam)
    requires r4.WellFormed() && r4.index == r2.index
    requires forall n :: n in r4.rows <==> n in r2.rows
    requires forall n :: n in r4.rows ==> r4.rows[n] == CounterRotated(m, r2.rows[n])
    ensures Configured(m, l1, l2, crabStrongBeam, r1, r4)
  {
  }

  /** The configuration of both beams' tables: mode check, optics, join,
      separations and crossing, and the counter-rotated table of beam 2, in
      the source's order. */
  method ConfigureBeamBeamTables(
    m: Math, b1: Table<Encounter>, b2: Table<Encounter>, useAntisymmetry: bool, numParticles: real,
    optics1: map<string, Optics>, optics2: map<string, Optics>, crabStrongBeam: bool)
    returns (r: Result<(Table<CrossingRow>, Table<CrossingRow>)>)
    requires m.sqrt(0.0) == 0.0 && b1.WellFormed() && b2.WellFormed()
    requires forall n :: n in b1.rows ==> n in optics1
    requires forall n :: n in b2.rows ==> n in optics2
    ensures useAntisymmetry ==> r == Failure(OneBeamOnly)
    ensures r.Failure? ==> r.error.OneBeamOnly? || r.error.UnknownBeam? || r.error.MissingPartner?
                           || r.error.MissingPoint? || r.error.FramesNotParallel?
    ensures r.Success? ==>
      && r.value.0.index == b1.index && r.value.1.index == b2.index
      && Configured(m, Locate(b1, numParticles, optics1, crabStrongBeam), Locate(b2, numParticles, optics2, crabStrongBeam),
                    crabStrongBeam, r.value.0, r.value.1)
  {
    var mode :- CheckMode(true, true, useAntisymmetry);
    var l1 := Locate(b1, numParticles, optics1, crabStrongBeam);
    var l2 := Locate(b2, numParticles, optics2, crabStrongBeam);
    var joined :- GetPartnerPositionAndOptics(l1, l2, crabStrongBeam);
    var r1 :- ResolveJoined(m, l1, l1, l2, joined.0, crabStrongBeam);
    var r2 :- ResolveJoined(m, l2, l1, l2, joined.1, crabStrongBeam);
    var r4 := GetCounterRotating(m, r2);
    ConfiguredFromStages(m, l1, l2, crabStrongBeam, r1, r2, r4);
    r := Success((r1, r4));
  }
}
