/** Shared vocabulary of the beam-beam configuration model: the error kinds the
    configuration code raises, a failure-compatible Result, the keyed tables that
    stand for the source's data frames, and the transcendental functions the
    model leaves uninterpreted. */
module Common {

  /** The distinguishable ways a configuration step fails. */
  datatype Error =
    | LongRangeCountMissing      // numberOfLRPerIRSide has no entry for an IP (IndexError)
    | ZeroHarmonicNumber         // circumference / harmonic_number with harmonic_number == 0
    | InvalidSliceCount          // constant-charge slicer asked for fewer than one slice
    | NoHeadOnEncounters         // no IP names: the head-on frame has no columns to select
    | SliceCountMismatch         // head-on identifiers per IP and centroids differ in number
    | DuplicateElementName       // verify_integrity refuses a repeated element name
    | UnknownBeam(beam: string)  // a row names a partner beam other than b1 and b2
    | MissingPartner(name: string)  // partner element name absent from the partner table
    | MissingPoint(name: string)    // fewer lab points than encounter names
    | FramesNotParallel(name: string)  // local frames deviate by 5e-3 or more
    | MissingLensRow(name: string)  // a lens in the line has no row in the table
    | CouplingNotImplemented     // setup asked for transverse coupling terms
    | BothBeamsNeeded            // two-beam mode without both lines
    | OneBeamOnly                // antisymmetry mode with both lines

  datatype Option<+T> = None | Some(value: T)

  datatype Result<+T> = Success(value: T) | Failure(error: Error) {
    predicate IsFailure() { Failure? }

    function PropagateFailure<U>(): Result<U>
      requires Failure?
    {
      Failure(error)
    }

    function Extract(): T
      requires Success?
    {
      value
    }
  }

  /** The elementary functions the source takes from numpy and scipy. The model
      states no property of them beyond what a member explicitly requires. */
  datatype Math = Math(
    sqrt: real -> real,
    exp: real -> real,
    erfinv: real -> real,
    arctan: real -> real,
    pi: real)

  /** No element of s occurs twice. */
  predicate Distinct<T(==)>(s: seq<T>) {
    forall i, j :: 0 <= i < j < |s| ==> s[i] != s[j]
  }

  /** A data frame indexed by element name: the index gives the row order, the
      map the row stored under each name. */
  datatype Table<R> = Table(index: seq<string>, rows: map<string, R>) {
    ghost predicate WellFormed() {
      Distinct(index) && (forall n :: n in rows <==> n in index)
    }
  }

  /** Sum of a sequence of reals, accumulated from the front. */
  function Sum(s: seq<real>): real {
    if s == [] then 0.0 else Sum(s[..|s| - 1]) + s[|s| - 1]
  }
}
