/** The lattice side of the configuration: the beam-beam lenses of a line and
    the transfer of the finished table's columns into their parameters. A
    lens is an object whose parameters are updated in place. */
module Line {
  import opened Common
  import opened Partners
  import opened Resolve

  /** What an isinstance test on the element finds: a 4D lens, a 6D lens, or
      any other element. */
  datatype Kind = Lens2DKind | Lens3DKind | OtherKind

  /** Phase-space coordinates of one particle. For a lens' reference shift and
      post-kick subtraction the last entry is pzeta, which the synchronizer
      takes equal to delta. */
  datatype Coords = Coords(x: real, px: real, y: real, py: real, zeta: real, delta: real)

  /** The strong-beam parameters of a 4D lens. */
  datatype Lens2D = Lens2D(
    otherBeamNumParticles: real,
    otherBeamQ0: real,
    otherBeamSigma11: real,
    otherBeamSigma33: real,
    otherBeamBeta0: real,
    otherBeamShiftX: real,
    otherBeamShiftY: real)

  /** The constructor parameters of a 6D lens: one strong-beam slice, given as
      sequences of one entry each. */
  datatype Lens3D = Lens3D(
    phi: real,
    alpha: real,
    otherBeamShiftX: real,
    otherBeamShiftY: real,
    slicesOtherBeamNumParticles: seq<real>,
    otherBeamQ0: real,
    slicesOtherBeamZetaCenter: seq<real>,
    slicesOtherBeamSigma: seq<Sigma>)

  /** Every parameter of a lens the configuration writes. */
  datatype LensState = LensState(
    lens2D: Lens2D,
    lens3D: Lens3D,
    meanX: real,
    meanY: real,
    dPx: real,
    dPy: real,
    refShift: Coords,
    postSubtract: Coords)

  /** An element of the line. Its class name and what isinstance finds are
      fixed; the parameters change in place. */
  class Element {
    const className: string
    const kind: Kind
    var lens2D: Lens2D
    var lens3D: Lens3D
    var meanX: real
    var meanY: real
    var dPx: real
    var dPy: real
    var refShift: Coords
    var postSubtract: Coords

    constructor (className: string, kind: Kind, s: LensState)
      ensures this.className == className && this.kind == kind && State() == s
    {
      this.className := className;
      this.kind := kind;
      lens2D := s.lens2D;
      lens3D := s.lens3D;
      meanX := s.meanX;
      meanY := s.meanY;
      dPx := s.dPx;
      dPy := s.dPy;
      refShift := s.refShift;
      postSubtract := s.postSubtract;
    }

    function State(): LensState
      reads this
    {
      LensState(lens2D, lens3D, meanX, meanY, dPx, dPy, refShift, postSubtract)
    }
  }

  /** The 4D lens parameters read from a finished row. */
  function Lens2DParams(r: CrossingRow): Lens2D {
    Lens2D(r.otherNumParticles, r.otherParticleCharge, r.otherSigma.s11, r.otherSigma.s33,
      r.otherRelativisticBeta, r.separationX, r.separationY)
  }

  /** The strong beam's sigma matrix with the transverse coupling entries 13,
      14, 23 and 24 set to zero, as the setup does without coupling. */
  function Uncoupled(s: Sigma): Sigma {
    s.(s13 := 0.0, s14 := 0.0, s23 := 0.0, s24 := 0.0)
  }

  /** The 6D lens parameters read from a finished row: one slice centred at
      zeta = 0 carrying the whole partner population. */
  function Lens3DParams(r: CrossingRow): Lens3D {
    Lens3D(r.phi, r.alpha, r.separationX, r.separationY, [r.otherNumParticles],
      r.otherParticleCharge, [0.0], [Uncoupled(r.otherSigma)])
  }

  /** The two kinds of lens built from one row describe the same strong beam:
      same population, charge, offsets and uncoupled sizes. */
  lemma LensesAgree(r: CrossingRow)
    ensures var l2 := Lens2DParams(r);
      var l3 := Lens3DParams(r);
      && |l3.slicesOtherBeamNumParticles| == 1 && |l3.slicesOtherBeamSigma| == 1
      && l3.slicesOtherBeamNumParticles[0] == l2.otherBeamNumParticles
      && l3.otherBeamQ0 == l2.otherBeamQ0
      && l3.otherBeamShiftX == l2.otherBeamShiftX && l3.otherBeamShiftY == l2.otherBeamShiftY
      && l3.slicesOtherBeamSigma[0].s11 == l2.otherBeamSigma11
      && l3.slicesOtherBeamSigma[0].s33 == l2.otherBeamSigma33
  {
  }

  /** The 6D lens does not see the coupling entries of the table: two rows
      that differ only there give the same lens, and every other entry is
      passed through. */
  lemma Lens3DIgnoresCoupling(r: CrossingRow, s: Sigma)
    requires s.s11 == r.otherSigma.s11 && s.s12 == r.otherSigma.s12 && s.s22 == r.otherSigma.s22
    requires s.s33 == r.otherSigma.s33 && s.s34 == r.otherSigma.s34 && s.s44 == r.otherSigma.s44
    ensures Lens3DParams(r.(otherSigma := s)) == Lens3DParams(r)
    ensures var u := Lens3DParams(r).slicesOtherBeamSigma[0];
      u.s13 == 0.0 && u.s14 == 0.0 && u.s23 == 0.0 && u.s24 == 0.0
      && u.s11 == r.otherSigma.s11 && u.s12 == r.otherSigma.s12 && u.s22 == r.otherSigma.s22
      && u.s33 == r.otherSigma.s33 && u.s34 == r.otherSigma.s34 && u.s44 == r.otherSigma.s44
  {
  }

  /** A lens' parameters after the setup has visited it with the table t. */
  function SetUp(s: LensState, kind: Kind, name: string, t: Table<CrossingRow>): LensState
    requires kind != OtherKind ==> name in t.rows
  {
    match kind
    case Lens2DKind => s.(lens2D := Lens2DParams(t.rows[name]))
    case Lens3DKind => s.(lens3D := Lens3DParams(t.rows[name]))
    case OtherKind => s
  }

  /** The elements and names the setup walks through together. */
  function Walked(elements: seq<Element>, names: seq<string>): (n: nat)
    ensures n <= |elements| && n <= |names|
    ensures n == |elements| || n == |names|
  {
    if |elements| <= |names| then |elements| else |names|
  }

  /** Every lens among the first `upto` walked elements has a row. */
  predicate RowsFound(elements: seq<Element>, names: seq<string>, t: Table<CrossingRow>, upto: nat)
    requires upto <= Walked(elements, names)
  {
    forall j :: 0 <= j < upto ==> elements[j].kind != OtherKind ==> names[j] in t.rows
  }

  /** How far the setup gets from position i on: the first lens without a row,
      or the end of the walk. */
  function Reach(elements: seq<Element>, names: seq<string>, t: Table<CrossingRow>, i: nat): (k: nat)
    requires i <= Walked(elements, names) && RowsFound(elements, names, t, i)
    ensures i <= k <= Walked(elements, names) && RowsFound(elements, names, t, k)
    ensures k < Walked(elements, names) ==> elements[k].kind != OtherKind && names[k] !in t.rows
    decreases Walked(elements, names) - i
  {
    if i == Walked(elements, names) then i
    else if elements[i].kind != OtherKind && names[i] !in t.rows then i
    else Reach(elements, names, t, i + 1)
  }

  /** The elements visited are those before the first lens without a row. */
  lemma ReachIsFirstMissing(elements: seq<Element>, names: seq<string>, t: Table<CrossingRow>, k: nat)
    requires k <= Walked(elements, names) && RowsFound(elements, names, t, k)
    requires k < Walked(elements, names) ==> elements[k].kind != OtherKind && names[k] !in t.rows
    ensures Reach(elements, names, t, 0) == k
  {
  }

  /** Write the table's columns into every lens of the line, in line order.
      Coupling is not implemented; a lens whose name has no row stops the
      walk, after the lenses before it have been written. */
  method SetupBeamBeamInLine(elements: seq<Element>, names: seq<string>, t: Table<CrossingRow>, coupling: bool)
    returns (r: Result<()>)
    requires Distinct(elements)
    modifies elements
    ensures coupling ==> r == Failure(CouplingNotImplemented) && forall e :: e in elements ==> e.State() == old(e.State())
    ensures !coupling ==>
      var k := Reach(elements, names, t, 0);
      && (r.Success? <==> k == Walked(elements, names))
      && (r.Failure? ==> r.error == MissingLensRow(names[k]))
      && forall j :: 0 <= j < |elements| ==>
           elements[j].State() == if j < k then SetUp(old(elements[j].State()), elements[j].kind, names[j], t)
                                  else old(elements[j].State())
  {
    if coupling {
      return Failure(CouplingNotImplemented);
    }
    var n := Walked(elements, names);
    for i := 0 to n
      invariant RowsFound(elements, names, t, i)
      invariant forall j :: 0 <= j < |elements| ==>
        elements[j].State() == if j < i then SetUp(old(elements[j].State()), elements[j].kind, names[j], t)
                               else old(elements[j].State())
    {
      var e := elements[i];
      var name := names[i];
      if e.kind != OtherKind && name !in t.rows {
        ReachIsFirstMissing(elements, names, t, i);
        return Failure(MissingLensRow(name));
      }
      if e.kind == Lens2DKind {
        e.lens2D := Lens2DParams(t.rows[name]);
      }
      if e.kind == Lens3DKind {
        e.lens3D := Lens3DParams(t.rows[name]);
      }
    }
    ReachIsFirstMissing(elements, names, t, n);
    r := Success(());
  }
}
