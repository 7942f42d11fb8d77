# Beam-beam configuration of xfields, modelled in Dafny

This project models the parts of the xfields beam-beam configuration that are
logic rather than physics:

- **Encounter tables.** For one beam, the generator builds a table of head-on
  slices and long-range encounters per interaction point (IP). Each row gets a
  deterministic element name, and that name is the join key
  (`naming.dfy`, `slicing.dfy`, `encounters.dfy`).
- **Per-encounter parameters.**
  - The partner join copies the other beam's values into each row
    (`partners.dfy`).
  - Separations are taken in the weak beam's frame (`geometry.dfy`).
  - The octant rule gives the crossing angle and plane (`crossing.dfy`).
  - The separation, angle-difference, crossing and crab passes run per beam
    (`resolve.dfy`).
  - The counter-rotated table of the anticlockwise beam is built
    (`counter_rotation.dfy`).
  - The mode check and the whole two-beam pipeline are in `configure.dfy`.
- **Lens setup.** The finished table's columns are written into the 4D and 6D
  beam-beam lenses of a line (`line.dfy`).
- **Orbit synchronizer.** A copy of the closed-orbit particle is carried
  through the line. Each 4D lens records the kick it gives that particle.
  Each 6D lens records where the particle meets it (`orbit_sync.dfy`).
- **Uniform-bin slicer.** It assigns every particle a bunch and a slice and
  accumulates the particle weights into a flat buffer (`slicer.dfy`).

The modelling choices:

- **Data frames** are `Table<R>` values: an index (the row order) plus a map
  from element name to a fixed-schema record.
- **Table stages** are methods with loops, proved against functions that state
  the result row by row.
- **Lenses** are objects of class `Line.Element` whose fields the setup and
  the synchronizer update in place.
- **The slicer** is a class over arrays, updated in place.
- **Transcendental functions** (sqrt, exp, erfinv, arctan, pi) are fields of a
  `Math` record and are never interpreted. A member assumes only the point
  facts it names, such as sqrt(0) = 0.
- **Element tracking** in the synchronizer is a function parameter.

Three behaviours of the code that the model keeps as written:

- **Sigma signs under counter-rotation.**
  - Negated: entries 12, 13, 24 and 34, as the products of -1 in
    `get_counter_rotating` give.
  - Unchanged: entries 11, 14, 22, 23, 33 and 44.
- **Crab columns under counter-rotation.** They are not carried over. The
  guard at
  `xfields/config_tools/beambeam_config_tools/config_tools.py:388` tests the new table, which never has those
  columns, so the branch never runs.
- **Lens dispatch.** The synchronizer picks lenses by exact class name. The
  lens setup uses `isinstance`. The model keeps both, as `className` and
  `kind`.

## Model

Source paths are relative to the repository root.

| member | source | states |
|---|---|---|
| Naming.DecimalRoundTrip | xfields/config_tools/beambeam_config_tools/config_tools.py:239 | reading back the decimal digits of n gives n |
| Naming.Pad2RoundTrip | xfields/config_tools/beambeam_config_tools/config_tools.py:239 | the `02`-padded magnitude reads back as the magnitude |
| Naming.IrNumberOfIpName | xfields/config_tools/beambeam_config_tools/config_tools.py:273 | `replace('ip', '')` on "ip" followed by digits leaves exactly the digits |
| Naming.StripIpKeepsDigits | xfields/config_tools/beambeam_config_tools/config_tools.py:273 | removing "ip" from a digit string changes nothing |
| Naming.ElementNameShape | xfields/config_tools/beambeam_config_tools/config_tools.py:232-239 | the name is label, side tag, IR number, beam, "_" and the padded magnitude, each at a fixed offset |
| Naming.ElementNameDecodes | xfields/config_tools/beambeam_config_tools/config_tools.py:232-239 | decoding a name with its label, IR and beam gives back the signed identifier |
| Naming.ElementNameSide | xfields/config_tools/beambeam_config_tools/config_tools.py:233-238 | the tag is `.r` iff the identifier is positive, `.l` iff negative, `.c` iff zero |
| Naming.ElementNameInjective | xfields/config_tools/beambeam_config_tools/config_tools.py:232-239 | with the IR number and beam fixed, equal names (labels of one length) have equal labels and equal identifiers |
| Slicing.ChargeSlices | xfields/config_tools/beambeam_config_tools/config_tools.py:196-230 | error iff N < 1; N = 1 gives centroid 0, no cuts and the whole charge; N > 1 gives N centroids, N - 1 cuts and N charges of total/N |
| Slicing.ComputeCentroids | xfields/config_tools/beambeam_config_tools/config_tools.py:203-219 | the centroid loop appends exactly the first, interior and last centroids of the formula |
| Slicing.ConstantChargeSlicingGaussian | xfields/config_tools/beambeam_config_tools/config_tools.py:196-230 | the slicer as written returns what ChargeSlices specifies, error included |
| Slicing.ChargesAddUp | xfields/config_tools/beambeam_config_tools/config_tools.py:221-225 | the slice charges add up to the total charge |
| Slicing.CentroidPrefix | xfields/config_tools/beambeam_config_tools/config_tools.py:204-213 | the first j + 1 centroids telescope to the term of cut j |
| Slicing.CentroidsSumToZero | xfields/config_tools/beambeam_config_tools/config_tools.py:204-217 | the centroids sum to zero for any values of exp, erfinv and sqrt |
| Slicing.CutsAntisymmetric | xfields/config_tools/beambeam_config_tools/config_tools.py:199-201 | with an odd erfinv, cut t is minus cut N - 2 - t |
| Slicing.CentroidsAntisymmetric | xfields/config_tools/beambeam_config_tools/config_tools.py:201-217 | with an odd erfinv, centroid i is minus centroid N - 1 - i |
| Encounters.LongRangeIdentifiers | xfields/config_tools/beambeam_config_tools/config_tools.py:259-260 | 2n identifiers, exactly those with 1 <= abs(id) <= n; none when n <= 0 |
| Encounters.HeadOnIdentifiers | xfields/config_tools/beambeam_config_tools/config_tools.py:297-298 | 2k + 1 identifiers, exactly -k..k, in increasing order |
| Encounters.SlicesPerSide | xfields/config_tools/beambeam_config_tools/config_tools.py:288 | k = int((N - 1)/2) satisfies 2k + 1 <= N <= 2k + 2 |
| Encounters.LongRangeKeyList | xfields/config_tools/beambeam_config_tools/config_tools.py:258-263 | the keys IP by IP; an IP without a count is an error exactly when there are more IPs than counts |
| Encounters.HeadOnKeyList | xfields/config_tools/beambeam_config_tools/config_tools.py:296-301 | the head-on keys IP by IP, -k..k each |
| Encounters.LongRangeRowList | xfields/config_tools/beambeam_config_tools/config_tools.py:261-282 | the loop builds the long-range rows of the keys, in order |
| Encounters.HeadOnRowList | xfields/config_tools/beambeam_config_tools/config_tools.py:299-319 | the loop builds the head-on rows of the keys, in order |
| Encounters.PositionsFit | xfields/config_tools/beambeam_config_tools/config_tools.py:310-311 | the per-IP assignment of the N centroids succeeds iff every IP's head-on rows number N |
| Encounters.IndexRows | xfields/config_tools/beambeam_config_tools/config_tools.py:323 | success iff the names are distinct (else DuplicateElementName); every row is stored under its own name |
| Encounters.SetIndex | xfields/config_tools/beambeam_config_tools/config_tools.py:323 | the indexing loop gives IndexRows |
| Encounters.GenerateSetOfBBEncounters1Beam | xfields/config_tools/beambeam_config_tools/config_tools.py:241-330 | the generator as written returns Generate, errors in the order met |
| Encounters.LongRangeKeysMembers | xfields/config_tools/beambeam_config_tools/config_tools.py:258-263 | a key is listed iff its IP is among the first IPs and 1 <= abs(id) <= that IP's count |
| Encounters.HeadOnKeysMembers | xfields/config_tools/beambeam_config_tools/config_tools.py:296-301 | a key is listed iff its IP is listed and -k <= id <= k |
| Encounters.GeneratedTable | xfields/config_tools/beambeam_config_tools/config_tools.py:261-328 | every row is stored under its own name; shared columns: both names, charge, beta, all crab offsets 0; long-range rows at id times half the bunch spacing with s_crab 0 and fraction 1; head-on rows at their centroid with s_crab equal to it and fraction 1/N |
| Encounters.RowFacts | xfields/config_tools/beambeam_config_tools/config_tools.py:261-319 | each concatenated row has the shared columns and those of its kind |
| Encounters.RepeatedIpFails | xfields/config_tools/beambeam_config_tools/config_tools.py:296-323 | an IP listed twice repeats head-on names, so the generator fails |
| Encounters.EvenSliceCountFails | xfields/config_tools/beambeam_config_tools/config_tools.py:288-311 | an even slice count gives N - 1 identifiers against N centroids, so the generator fails |
| Encounters.GeneratedShape | xfields/config_tools/beambeam_config_tools/config_tools.py:288-323 | a generated table has distinct IPs and N = 2k + 1 |
| Encounters.LongRangeRowInRange | xfields/config_tools/beambeam_config_tools/config_tools.py:258-263 | a long-range row of the IP at position ii has 1 <= abs(id) <= that IP's count |
| Encounters.LongRangeRowPresent | xfields/config_tools/beambeam_config_tools/config_tools.py:258-263 | every identifier within the count has its long-range row |
| Encounters.LongRangeIdentifiersExactly | xfields/config_tools/beambeam_config_tools/config_tools.py:258-282 | per IP, long-range rows exist for exactly -n..-1 and 1..n |
| Encounters.HeadOnIdentifiersExactly | xfields/config_tools/beambeam_config_tools/config_tools.py:288-312 | per IP, head-on rows exist for exactly -k..k, and N = 2k + 1 |
| Encounters.SwappedRow | xfields/config_tools/beambeam_config_tools/config_tools.py:271-277 | row i for the other beam is the partner of row i: names swap; IP, kind, identifier and position agree |
| Encounters.PartnerNamesResolve | xfields/config_tools/beambeam_config_tools/config_tools.py:314-319 | with both tables generated, every partner name is a row of the other table that names it back, at the same IP, kind, identifier and position |
| Geometry.FindBBSeparations | xfields/config_tools/beambeam_config_tools/config_tools.py:586-630 | success iff every encounter has both points and tolerated frames; then one pair per name, the strong-minus-weak offset projected on the weak ex and ey; otherwise the first refused encounter's error |
| Geometry.ToleratedExactly | xfields/config_tools/beambeam_config_tools/config_tools.py:603-618 | frames are refused exactly when the combined deviation reaches 5e-3; the strict check only prints |
| Geometry.LongitudinalShiftInvisible | xfields/config_tools/beambeam_config_tools/config_tools.py:620-628 | a longitudinal offset of the strong point changes neither separation nor the outcome |
| Geometry.SwappedSeparation | xfields/config_tools/beambeam_config_tools/config_tools.py:599-628 | with equal axes, swapping the beams negates both separations |
| Crossing.FindAlphaAndPhi | xfields/config_tools/beambeam_config_tools/config_tools.py:532-583 | abs(phi) is half the norm of (dpx, dpy); below 1e-20 the result is (0, absphi); otherwise phi < 0 iff dpx + dpy <= 0 |
| Crossing.AlphaForm | xfields/config_tools/beambeam_config_tools/config_tools.py:539-581 | outside the small branch the divisor is nonzero and alpha is pi/2 - arctan(dpx/dpy) when abs(dpy) > abs(dpx) (and on the seventh-octant diagonal), arctan(dpy/dpx) otherwise |
| Crossing.AntiDiagonal | xfields/config_tools/beambeam_config_tools/config_tools.py:551-577 | (-a, a) and (a, -a) both give the same negative phi |
| Partners.PartnerOf | xfields/config_tools/beambeam_config_tools/config_tools.py:455-457 | the partner row exists iff the other beam is b1 or b2 and has the name; otherwise UnknownBeam or MissingPartner |
| Partners.JoinRow | xfields/config_tools/beambeam_config_tools/config_tools.py:460-476 | the joined row keeps the row and takes every other column from the partner's own values; crab offsets only when the strong beam is crabbed |
| Partners.JoinBeam | xfields/config_tools/beambeam_config_tools/config_tools.py:454-476 | succeeds iff every row finds its partner; each row is JoinedWith its partner; otherwise fails at the first row without one |
| Partners.GetPartnerPositionAndOptics | xfields/config_tools/beambeam_config_tools/config_tools.py:444-476 | b1's pass then b2's; success iff all partners are found; failure reports b1's first missing partner before b2's |
| Partners.MutualPartners | xfields/config_tools/beambeam_config_tools/config_tools.py:460-471 | two rows naming each other see each other's position, sizes and population |
| Resolve.ResolvedRow | xfields/config_tools/beambeam_config_tools/config_tools.py:124-136 | the finished row has the separations (plus crab offsets when crabbed), dpx and dpy as weak minus strong, and alpha and phi consistent with them |
| Resolve.ResolvedFromUnique | xfields/config_tools/beambeam_config_tools/config_tools.py:124-136 | the finished-row description determines every column |
| Resolve.ComputeLocalCrossingAngleAndPlane | xfields/config_tools/beambeam_config_tools/config_tools.py:523-530 | every row gets alpha and phi from its own dpx and dpy; nothing else changes |
| Resolve.UncrossedRows | xfields/config_tools/beambeam_config_tools/config_tools.py:512-521 | each row gets its separations, crab offsets when crabbed, and dpx, dpy |
| Resolve.ResolveBeam | xfields/config_tools/beambeam_config_tools/config_tools.py:119-136 | success iff the separation pass accepts; a failure names the first refused row of the index, MissingPoint or FramesNotParallel; every row is the finished row of its joined row |
| CounterRotation.CounterRotated | xfields/config_tools/beambeam_config_tools/config_tools.py:336-399 | position, separation_x, dpy and Sigma 12, 13, 24, 34 of both beams negate; the rest are copied; alpha and phi are recomputed, not copied |
| CounterRotation.GetCounterRotating | xfields/config_tools/beambeam_config_tools/config_tools.py:332-401 | same index and names; every row is the counter-rotated row |
| CounterRotation.CounterRotatedTwice | xfields/config_tools/beambeam_config_tools/config_tools.py:359-386 | applied twice to a consistent row, the transform gives the row back |
| CounterRotation.CounterRotatedKeepsAbsPhi | xfields/config_tools/beambeam_config_tools/config_tools.py:385-399 | the magnitude of phi is unchanged; its sign may flip |
| Configure.CheckMode | xfields/config_tools/beambeam_config_tools/config_tools.py:62-68 | antisymmetry iff a line is missing; otherwise BothBeamsNeeded or OneBeamOnly |
| Configure.Locate | xfields/config_tools/beambeam_config_tools/config_tools.py:96-106 | same index and names, each row given its share of the bunch and its optics |
| Configure.HeadOnBlock | xfields/config_tools/beambeam_config_tools/config_tools.py:288-307 | in a generated table, the head-on rows of one IP are exactly N = 2k + 1 names with identifiers -k..k, each carrying 1/N of the bunch |
| Configure.LocatedRow | xfields/config_tools/beambeam_config_tools/config_tools.py:96 | locating keeps a row's kind, IP and identifier and gives it the bunch population times its fraction of the bunch |
| Configure.SlicesShareBunch | xfields/config_tools/beambeam_config_tools/config_tools.py:96 | in a generated and located table, the N distinct head-on rows of one IP, and no others of it, have populations adding up to the bunch population |
| Configure.ResolveJoined | xfields/config_tools/beambeam_config_tools/config_tools.py:119-136 | each finished row is the finished row of the join of its located row with its partner |
| Configure.ConfigureBeamBeamTables | xfields/config_tools/beambeam_config_tools/config_tools.py:62-139 | antisymmetry with both lines fails; on success both tables are well formed, keep the input tables' index and hold exactly their rows, beam 1's rows are the finished joined rows and beam 2's rows their counter-rotations |
| Line.LensesAgree | xfields/config_tools/beambeam_config_tools/config_tools.py:641-658 | the 4D and 6D lens of one row have the same population, charge, offsets, Sigma 11 and Sigma 33 |
| Line.Lens3DIgnoresCoupling | xfields/config_tools/beambeam_config_tools/config_tools.py:652-672 | the 6D lens zeroes Sigma 13, 14, 23, 24, copies the rest, and ignores the row's coupling entries |
| Line.Reach | xfields/config_tools/beambeam_config_tools/config_tools.py:640 | the walk stops at the first lens without a row, or at the end |
| Line.SetupBeamBeamInLine | xfields/config_tools/beambeam_config_tools/config_tools.py:632-673 | coupling fails with nothing changed; lenses before the first missing row get their parameters from the table; other elements and later lenses are unchanged |
| OrbitSync.Step2D | xfields/config_tools/beambeam_config_tools.py:18-34 | mean_x/y grow by the particle's x/y; d_px/d_py are post-track minus pre-track angles; the particle leaves with its incoming px/py and tracked x, y, zeta, delta |
| OrbitSync.Step3D | xfields/config_tools/beambeam_config_tools.py:36-58 | ref_shift is the incoming particle (pzeta from delta); ref_shift + post_subtract is the tracked point; the particle leaves exactly as it came |
| OrbitSync.RunKeepsOthers | xfields/config_tools/beambeam_config_tools.py:17-61 | elements that are not lenses keep their parameters |
| OrbitSync.RunWithoutLenses | xfields/config_tools/beambeam_config_tools.py:17-61 | without lenses the loop is plain tracking in line order |
| OrbitSync.Run3DOnly | xfields/config_tools/beambeam_config_tools.py:36-58 | through 6D lenses only, the particle stays the closed-orbit one and every lens takes it as reference |
| OrbitSync.SyncElement | xfields/config_tools/beambeam_config_tools.py:18-61 | one element's update in place and the particle handed on match Step |
| OrbitSync.ConfigureOrbitDependentParametersForBB | xfields/config_tools/beambeam_config_tools.py:9-61 | every element ends with the parameters Run gives from the initial ones; the closed-orbit particle is a value and stays unchanged |
| Slicer.UniformBinSlicer.SliceOf | examples/slicer/uniform_bin_slicer.h:52-61 | the recorded slice is -1 or in [0, num_slices) |
| Slicer.UniformBinSlicer.BunchLabelOf | examples/slicer/uniform_bin_slicer.h:41-49 | the recorded bunch is -1 or in [i_bunch_0, num_bunches) |
| Slicer.UniformBinSlicer.CellOf | examples/slicer/uniform_bin_slicer.h:42-57 | a sliced particle's cell is in [0, num_slices * max(1, num_bunches)) |
| Slicer.UniformBinSlicer.SliceParticle | examples/slicer/uniform_bin_slicer.h:27-64 | one particle: its slice, its bunch label (only in a train) and one deposit |
| Slicer.UniformBinSlicer.Slice | examples/slicer/uniform_bin_slicer.h:11-66 | slices and bunch labels of all particles as specified, other entries unchanged, and the buffer equals Deposit of the old buffer |
| Slicer.UniformBinSlicer.TrackLocalParticle | examples/slicer/uniform_bin_slicer.h:68-72 | particles and buffer are unchanged |
| Slicer.UniformBinSlicer.SliceContains | examples/slicer/uniform_bin_slicer.h:25-52 | a sliced particle lies within half a slice of z_min + bunch * spacing + slice * dzeta |
| Slicer.UniformBinSlicer.BunchWindow | examples/slicer/uniform_bin_slicer.h:41-49 | in a train, bunch b is recorded iff b is in [i_bunch_0, num_bunches) and zeta is in the b-th spacing window |
| Slicer.UniformBinSlicer.DepositTotal | examples/slicer/uniform_bin_slicer.h:53-57 | the buffer total grows by exactly the weight of the sliced particles |
| Slicer.UniformBinSlicer.CellsSeparate | examples/slicer/uniform_bin_slicer.h:57 | two sliced particles share a cell iff they share bunch and slice |

## Left out

- **Optics and survey computations.** Twiss, survey, beam sizes and crab
  measurements are left out: `compute_geometry_and_optics` and
  `measure_crabbing` call into the optics framework.
  - Their results enter `Configure.ConfigureBeamBeamTables` as an `Optics`
    input per element.
  - The survey asserts that each IP sits at the origin
    (`xfields/config_tools/beambeam_config_tools/config_tools.py:91-93`) are
    left out with the optics stage. The mode check is the only check of that
    stage kept.
- **Antisymmetry mode.** `get_partner_position_and_optics_antisimmetry`, the
  nearest-position partner search, is left out. `Configure.CheckMode` still
  decides the mode, and the pipeline model covers only the two-beam mode.
- **Dummy lenses.** `install_beambeam_elements_in_lines` and
  `install_dummy_bb_lenses` are left out: they insert foreign element objects
  into lines.
- **Lens objects.**
  - Lens construction, the buffer move of the 6D lens and its size assert
    (`xfields/config_tools/beambeam_config_tools/config_tools.py:675-680`) are left out. The model keeps the parameter
    record the new lens is built from.
  - The other fields of a rebuilt 6D lens are not modelled.
  - Whether `mean_x` and `other_beam_shift_x` of a 4D lens share storage is
    not modelled; they are separate fields here.
- **Table sorting.** The sort by element name after indexing
  (`xfields/config_tools/beambeam_config_tools/config_tools.py:323`) is left
  out. A generated table keeps generation order: head-on rows IP by IP, then
  long-range rows IP by IP. The source's later stages walk the index in name
  order, so when several rows fail the source reports the first failing row by
  name, and the model may name a different one:
  - Partners.JoinBeam and Partners.GetPartnerPositionAndOptics: the first row
    without a partner in generation order, not in name order.
  - Resolve.ResolveBeam: the first refused encounter in generation order, not
    in name order.
  - Configure.ConfigureBeamBeamTables: its result tables keep the index order
    of the input tables.
- **Dropped columns.** The `elementClass` column and the placeholder columns
  of the counter-rotated table are left out, and so are the separations
  without crab offsets.
- **Configured schema.** The configure stage is modelled on the generator's
  full set of columns. The install step keeps only the columns listed at
  `xfields/config_tools/beambeam_config_tools/config_tools.py:17-19`, which
  do not include `atPosition`. In that flow the `atPosition` branch of
  `get_counter_rotating` (:350) has nothing to act on, while
  `CounterRotation.MirrorColumns` always negates `atPosition` here.
- **Data frames as values.**
  - Tables are values, not frames updated in place, and stages return new
    tables.
  - pandas behaviour for a repeated IP name is not modelled beyond the
    generator's failure on it.
- **Floating point and integer widths.**
  - Reals stand for floats. For example, the 4D rollback of px and py is
    exact here, while in floats it is only close.
  - `int64` conversions of the slicer are unbounded integers.
  - Only the first particle of the orbit copy is modelled.
- **Left out of the source entirely.** Printing and progress output;
  `boost3d.py`; the wakefield test; the physics of element tracking; atomic
  adds on a GPU.
- **The orbit-synchronizer call site.** The call at
  `xfields/config_tools/beambeam_config_tools/config_tools.py:143`
  passes `line=` while the definition takes `tracker`. The model follows the
  definition.
- Encounters.Generate: when more than one head-on slice is asked for, requires
  that sqrt(2 pi) and sigt/2 are nonzero, since the slicer's formulas divide
  by both. There the source computes NaN centroids with numpy floats, which
  reals cannot represent. With one slice or fewer nothing is required, and
  every error path is modelled.
- Slicing.ChargeSlices: when n > 1, requires that sigmaz and sqrt(2 pi) are
  nonzero. There the source computes NaN centroids with numpy floats. The
  one-slice result and the error for n < 1 need nothing.
- Slicer.UniformBinSlicer.SliceContains: requires dzeta > 0.
- Slicer.UniformBinSlicer.BunchWindow: requires a positive bunch spacing and a
  real bunch label, not -1. For a negative step the windows are mirrored.
- Encounters.PartnerNamesResolve: requires that both beams' tables are
  generated. It does not relate a failure of one generation to the other.
- Configure.ConfigureBeamBeamTables:
  - It names the kinds of error it can return but not which input row causes
    each. Those details are stated by `Partners.GetPartnerPositionAndOptics`
    and `Resolve.ResolveBeam`.
  - It requires every element to have optics, which the optics stage
    guarantees in the source.
- Crossing.FindAlphaAndPhi: requires sqrt(0) = 0. Only this point fact is
  used, to show that the divisors are nonzero.
- Line.SetupBeamBeamInLine: requires the elements to be distinct objects, and
  walks elements and names together up to the shorter list.
- OrbitSync.ConfigureOrbitDependentParametersForBB: requires the elements to
  be distinct objects. Tracking is a function, so that each element is
  tracked exactly once is structural, not stated.
- Slicer.UniformBinSlicer.Slice: requires these conditions (`Valid`), which
  the C code silently assumes:
  - dzeta is nonzero, and so is the bunch spacing in a train;
  - i_bunch_0 >= 0 in a train (a negative value would index before the
    buffer);
  - the buffer holds num_slices * max(1, num_bunches) cells;
  - the particle arrays are distinct from the buffer and from each other.
