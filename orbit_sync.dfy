/** The orbit-dependent parameters of the beam-beam lenses. A copy of the
    closed-orbit particle is carried through the line; each lens records
    where that particle meets it and what kick it gives the particle, so that
    the lens can subtract its own kick on the closed orbit. Element tracking
    is a parameter: the model says only which state each element sees when it
    tracks. */
module OrbitSync {
  import opened Common
  import opened Line

  /** Tracking the particle through element i with the parameters s. */
  type Tracker = (nat, LensState, Coords) -> Coords

  const Name2D := "BeamBeamBiGaussian2D"
  const Name3D := "BeamBeamBiGaussian3D"

  /** Componentwise difference of two points. */
  function Minus(a: Coords, b: Coords): Coords {
    Coords(a.x - b.x, a.px - b.px, a.y - b.y, a.py - b.py, a.zeta - b.zeta, a.delta - b.delta)
  }

  /** One element's turn: its new parameters and the particle it hands on.
      The class name is compared exactly, so a subclass of a lens is tracked
      like any other element. */
  function Step(className: string, s: LensState, i: nat, p: Coords, track: Tracker): (LensState, Coords) {
    if className == Name2D then
      var shifted := s.(meanX := s.meanX + p.x, meanY := s.meanY + p.y);
      var q := track(i, shifted, p);
      var kicked := shifted.(dPx := q.px - p.px, dPy := q.py - p.py);
      (kicked, q.(px := q.px - kicked.dPx, py := q.py - kicked.dPy))
    else if className == Name3D then
      var shifted := s.(refShift := p);
      var q := track(i, shifted, p);
      (shifted.(postSubtract := Minus(q, shifted.refShift)), shifted.refShift)
    else
      (s, track(i, s, p))
  }

  /** The first k elements' new parameters and the particle leaving element
      k - 1, starting from the closed-orbit particle p. */
  function Run(names: seq<string>, states: seq<LensState>, k: nat, p: Coords, track: Tracker): (r: (seq<LensState>, Coords))
    requires k <= |names| && k <= |states|
    ensures |r.0| == k
  {
    if k == 0 then ([], p)
    else
      var before := Run(names, states, k - 1, p, track);
      var step := Step(names[k - 1], states[k - 1], k - 1, before.1, track);
      (before.0 + [step.0], step.1)
  }

  /** Plain tracking through the first k elements with their parameters
      unchanged: the reference the synchronizer is compared with. */
  function Track(states: seq<LensState>, k: nat, p: Coords, track: Tracker): Coords
    requires k <= |states|
  {
    if k == 0 then p else track(k - 1, states[k - 1], Track(states, k - 1, p, track))
  }

  /** A 4D lens is moved onto the closed orbit, records the kick it gives the
      closed-orbit particle, and hands on a particle tracked through it whose
      angles are put back to the incoming ones. */
  lemma Step2D(s: LensState, i: nat, p: Coords, track: Tracker)
    ensures var shifted := s.(meanX := s.meanX + p.x, meanY := s.meanY + p.y);
      var q := track(i, shifted, p);
      var out := Step(Name2D, s, i, p, track);
      && out.0.meanX == s.meanX + p.x && out.0.meanY == s.meanY + p.y
      && out.0.dPx == q.px - p.px && out.0.dPy == q.py - p.py
      && out.0 == shifted.(dPx := out.0.dPx, dPy := out.0.dPy)
      && out.1 == q.(px := p.px, py := p.py)
  {
  }

  /** A 6D lens records the incoming particle as its reference and the
      particle's change across it as the subtraction; the particle leaving is
      the one that came in: reference plus subtraction is the tracked point. */
  lemma Step3D(s: LensState, i: nat, p: Coords, track: Tracker)
    ensures var out := Step(Name3D, s, i, p, track);
      var q := track(i, s.(refShift := p), p);
      && out.1 == p && out.0.refShift == p
      && out.0 == s.(refShift := p, postSubtract := out.0.postSubtract)
      && q.x == p.x + out.0.postSubtract.x && q.px == p.px + out.0.postSubtract.px
      && q.y == p.y + out.0.postSubtract.y && q.py == p.py + out.0.postSubtract.py
      && q.zeta == p.zeta + out.0.postSubtract.zeta && q.delta == p.delta + out.0.postSubtract.delta
  {
  }

  /** The synchronizer changes only the lenses: every other element keeps its
      parameters. */
  lemma {:induction false} RunKeepsOthers(names: seq<string>, states: seq<LensState>, k: nat, p: Coords, track: Tracker)
    requires k <= |names| && k <= |states|
    ensures forall j :: 0 <= j < k && names[j] != Name2D && names[j] != Name3D ==>
      Run(names, states, k, p, track).0[j] == states[j]
  {
    if k > 0 {
      RunKeepsOthers(names, states, k - 1, p, track);
    }
  }

  /** Along a line without lenses the synchronizer is plain tracking. */
  lemma {:induction false} RunWithoutLenses(names: seq<string>, states: seq<LensState>, k: nat, p: Coords, track: Tracker)
    requires k <= |names| && k <= |states|
    requires forall j :: 0 <= j < k ==> names[j] != Name2D && names[j] != Name3D
    ensures Run(names, states, k, p, track) == (states[..k], Track(states, k, p, track))
  {
    if k > 0 {
      RunWithoutLenses(names, states, k - 1, p, track);
      assert states[..k] == states[..k - 1] + [states[k - 1]];
    }
  }

  /** Along a line of 6D lenses only, the particle reaching each lens is the
      closed-orbit particle itself, so every lens takes it as its reference. */
  lemma {:induction false} Run3DOnly(names: seq<string>, states: seq<LensState>, k: nat, p: Coords, track: Tracker)
    requires k <= |names| && k <= |states|
    requires forall j :: 0 <= j < k ==> names[j] == Name3D
    ensures Run(names, states, k, p, track).1 == p
    ensures forall j :: 0 <= j < k ==> Run(names, states, k, p, track).0[j].refShift == p
  {
    if k > 0 {
      Run3DOnly(names, states, k - 1, p, track);
    }
  }

  /** The class names of the elements. */
  function ClassNames(elements: seq<Element>): (names: seq<string>)
    ensures |names| == |elements|
    ensures forall j :: 0 <= j < |elements| ==> names[j] == elements[j].className
  {
    seq(|elements|, j requires 0 <= j < |elements| => elements[j].className)
  }

  /** The current parameters of the elements. */
  function States(elements: seq<Element>): (states: seq<LensState>)
    reads elements
    ensures |states| == |elements|
    ensures forall j :: 0 <= j < |elements| ==> states[j] == elements[j].State()
  {
    seq(|elements|, j reads elements requires 0 <= j < |elements| => elements[j].State())
  }

  /** One element's turn of the loop: it updates the element in place and
      returns the particle handed on. */
  method SyncElement(e: Element, i: nat, p: Coords, track: Tracker) returns (next: Coords)
    modifies e
    ensures (e.State(), next) == Step(e.className, old(e.State()), i, p, track)
  {
    if e.className == Name2D {
      var px0 := p.px;
      var py0 := p.py;
      e.meanX := e.meanX + p.x;
      e.meanY := e.meanY + p.y;
      var q := track(i, e.State(), p);
      e.dPx := q.px - px0;
      e.dPy := q.py - py0;
      next := q.(px := q.px - e.dPx, py := q.py - e.dPy);
    } else if e.className == Name3D {
      e.refShift := p;
      var q := track(i, e.State(), p);
      e.postSubtract := Minus(q, e.refShift);
      next := e.refShift;
    } else {
      next := track(i, e.State(), p);
    }
  }

  /** Carry a copy of the closed-orbit particle through the line and set every
      lens' orbit-dependent parameters on the way; the closed-orbit particle
      itself is a value and is not changed. */
  method ConfigureOrbitDependentParametersForBB(elements: seq<Element>, particleOnCo: Coords, track: Tracker)
    requires Distinct(elements)
    modifies elements
    ensures forall j :: 0 <= j < |elements| ==>
      elements[j].State() == Run(ClassNames(elements), old(States(elements)), |elements|, particleOnCo, track).0[j]
  {
    ghost var names := ClassNames(elements);
    ghost var initial := States(elements);
    var p := particleOnCo;
    for i := 0 to |elements|
      invariant p == Run(names, initial, i, particleOnCo, track).1
      invariant forall j :: 0 <= j < |elements| ==>
        elements[j].State() == if j < i then Run(names, initial, i, particleOnCo, track).0[j] else initial[j]
    {
      p := SyncElement(elements[i], i, p, track);
    }
  }
}
