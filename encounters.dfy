/** One beam's table of beam-beam encounters: for every IP, the long-range
    encounters on both sides (spaced by half the bunch spacing) and the head-on
    slices (at the centroids of a constant-charge slicing of the luminous
    region), each row keyed by its element name. */
module Encounters {
  import opened Common
  import opened Naming
  import opened Slicing

  datatype Label = HeadOn | LongRange {
    /** The label text that starts every element name. */
    function Name(): string {
      if HeadOn? then "bb_ho" else "bb_lr"
    }
  }

  /** Crab-cavity offsets of one beam at an encounter. */
  datatype Crab = Crab(x: real, px: real, y: real, py: real)

  const NoCrab := Crab(0.0, 0.0, 0.0, 0.0)

  /** A row of the encounter table as the generator leaves it. */
  datatype Encounter = Encounter(
    beam: string,
    otherBeam: string,
    ipName: string,
    kind: Label,
    identifier: int,
    elementName: string,
    otherElementName: string,
    selfParticleCharge: real,
    selfRelativisticBeta: real,
    selfFracOfBunch: real,
    atPosition: real,
    sCrab: real,
    selfCrab: Crab,
    otherCrab: Crab)

  /** The generator's arguments. */
  datatype Config = Config(
    circumference: real,
    harmonicNumber: int,
    bunchSpacingBuckets: real,
    numberOfHOSlices: int,
    bunchParticleCharge: real,
    sigt: real,
    relativisticBeta: real,
    ipNames: seq<string>,
    numberOfLRPerIRSide: seq<int>,
    beamName: string,
    otherBeamName: string)

  /** What a row is generated from: its IP and its signed identifier. */
  datatype Key = Key(ip: string, identifier: int)

  /** Long-range identifiers of one IP with n encounters per side: -n..-1
      followed by 1..n; none for n <= 0, as Python ranges give. */
  function LongRangeIdentifiers(n: int): (ids: seq<int>)
    ensures |ids| == if n > 0 then 2 * n else 0
    ensures forall id :: id in ids <==> 1 <= Abs(id) <= n
  {
    if n <= 0 then [] else
      var ids := seq(n, i => i - n) + seq(n, i => i + 1);
      assert forall id :: 1 <= Abs(id) <= n ==> id in ids by {
        forall id | 1 <= Abs(id) <= n ensures id in ids {
          if id < 0 { assert ids[id + n] == id; } else { assert ids[id + n - 1] == id; }
        }
      }
      ids
  }

  /** Head-on identifiers of one IP with k slices per side: -k..k, in
      increasing order. */
  function HeadOnIdentifiers(k: int): (ids: seq<int>)
    requires k >= 0
    ensures |ids| == 2 * k + 1
    ensures forall id :: id in ids <==> -k <= id <= k
    ensures forall i :: 0 <= i < |ids| - 1 ==> ids[i] < ids[i + 1]
  {
    var ids := seq(2 * k + 1, i => i - k);
    assert forall id :: -k <= id <= k ==> id in ids by {
      forall id | -k <= id <= k ensures id in ids {
        assert ids[id + k] == id;
      }
    }
    ids
  }

  /** Slices on each side of the central one: Python's int((N - 1) / 2). */
  function SlicesPerSide(n: int): (k: int)
    requires n >= 1
    ensures k >= 0 && 2 * k + 1 <= n <= 2 * k + 2
  {
    (n - 1) / 2
  }

  function KeysAt(ip: string, ids: seq<int>): (keys: seq<Key>)
    ensures |keys| == |ids|
    ensures forall j :: 0 <= j < |ids| ==> keys[j] == Key(ip, ids[j])
  {
    seq(|ids|, j requires 0 <= j < |ids| => Key(ip, ids[j]))
  }

  /** The long-range keys of the first `upto` IPs, IP by IP. */
  function LongRangeKeys(ips: seq<string>, counts: seq<int>, upto: nat): seq<Key>
    requires upto <= |ips| && upto <= |counts|
  {
    if upto == 0 then []
    else LongRangeKeys(ips, counts, upto - 1) + KeysAt(ips[upto - 1], LongRangeIdentifiers(counts[upto - 1]))
  }

  /** The head-on keys of the first `upto` IPs, IP by IP. */
  function HeadOnKeys(ips: seq<string>, k: int, upto: nat): (keys: seq<Key>)
    requires k >= 0 && upto <= |ips|
    ensures forall i :: 0 <= i < |keys| ==> -k <= keys[i].identifier <= k
  {
    if upto == 0 then []
    else HeadOnKeys(ips, k, upto - 1) + KeysAt(ips[upto - 1], HeadOnIdentifiers(k))
  }

  /** Distance between neighbouring long-range encounters: half the bunch
      spacing. */
  function BunchSpacing(c: Config): real
    requires c.harmonicNumber != 0
  {
    c.circumference / c.harmonicNumber as real * c.bunchSpacingBuckets / 2.0
  }

  function LongRangeRow(c: Config, key: Key): Encounter
    requires c.harmonicNumber != 0
  {
    var ir := StripIp(key.ip);
    Encounter(c.beamName, c.otherBeamName, key.ip, LongRange, key.identifier,
      ElementName(LongRange.Name(), ir, c.beamName, key.identifier),
      ElementName(LongRange.Name(), ir, c.otherBeamName, key.identifier),
      c.bunchParticleCharge, c.relativisticBeta, 1.0,
      BunchSpacing(c) * key.identifier as real, 0.0, NoCrab, NoCrab)
  }

  /** A head-on row sits at the centroid of its slice; its crab reference
      position is that same centroid. */
  function HeadOnRow(c: Config, centroids: seq<real>, k: int, key: Key): Encounter
    requires c.numberOfHOSlices >= 1 && 0 <= k && -k <= key.identifier <= k && 2 * k + 1 <= |centroids|
  {
    var ir := StripIp(key.ip);
    var z := centroids[key.identifier + k];
    Encounter(c.beamName, c.otherBeamName, key.ip, HeadOn, key.identifier,
      ElementName(HeadOn.Name(), ir, c.beamName, key.identifier),
      ElementName(HeadOn.Name(), ir, c.otherBeamName, key.identifier),
      c.bunchParticleCharge, c.relativisticBeta, 1.0 / c.numberOfHOSlices as real,
      z, z, NoCrab, NoCrab)
  }

  function LongRangeRows(c: Config, keys: seq<Key>): (rows: seq<Encounter>)
    requires keys == [] || c.harmonicNumber != 0
    ensures |rows| == |keys|
  {
    seq(|keys|, i requires 0 <= i < |keys| => LongRangeRow(c, keys[i]))
  }

  function HeadOnRows(c: Config, centroids: seq<real>, k: int, keys: seq<Key>): (rows: seq<Encounter>)
    requires c.numberOfHOSlices >= 1 && 0 <= k && 2 * k + 1 <= |centroids|
    requires forall i :: 0 <= i < |keys| ==> -k <= keys[i].identifier <= k
    ensures |rows| == |keys|
  {
    seq(|keys|, i requires 0 <= i < |keys| => HeadOnRow(c, centroids, k, keys[i]))
  }

  function Names(rows: seq<Encounter>): (names: seq<string>)
    ensures |names| == |rows|
    ensures forall i :: 0 <= i < |rows| ==> names[i] == rows[i].elementName
  {
    seq(|rows|, i requires 0 <= i < |rows| => rows[i].elementName)
  }

  /** Setting the element name as index with integrity checking: a repeated
      name is an error, otherwise every row is found under its own name. */
  function IndexRows(rows: seq<Encounter>): (r: Result<Table<Encounter>>)
    ensures r.Success? <==> Distinct(Names(rows))
    ensures r.Failure? ==> r.error == DuplicateElementName
    ensures r.Success? ==> && r.value.WellFormed() && r.value.index == Names(rows)
                           && forall i :: 0 <= i < |rows| ==> r.value.rows[rows[i].elementName] == rows[i]
  {
    var names := Names(rows);
    if Distinct(names) then
      var t := Table(names, map i | 0 <= i < |rows| :: names[i] := rows[i]);
      assert forall n :: n in t.rows <==> n in names by {
        forall n ensures n in t.rows <==> n in names {
          if n in names {
            var i :| 0 <= i < |names| && names[i] == n;
          }
        }
      }
      Success(t)
    else Failure(DuplicateElementName)
  }

  /** Some IP's head-on rows and the centroids differ in number, so the
      per-IP assignment of the positions is refused. */
  predicate PositionsMismatch(ips: seq<string>, k: int, n: int) {
    exists ip :: ip in ips && multiset(ips)[ip] * (2 * k + 1) != n
  }

  /** No step before the name index refuses the configuration: every IP has a
      long-range count, the bunch spacing is defined when there are long-range
      rows, the slicer accepts the slice count, there is an IP, and every IP's
      head-on rows match the centroids in number. */
  predicate Reaches(c: Config) {
    var ips := c.ipNames;
    var n := c.numberOfHOSlices;
    && |ips| <= |c.numberOfLRPerIRSide|
    && (LongRangeKeys(ips, c.numberOfLRPerIRSide, |ips|) == [] || c.harmonicNumber != 0)
    && n >= 1
    && ips != []
    && !PositionsMismatch(ips, SlicesPerSide(n), n)
  }

  /** The rows in the order they are concatenated, given the head-on slice
      centroids: head-on IP by IP, then long-range IP by IP. */
  function Rows(c: Config, centroids: seq<real>): seq<Encounter>
    requires Reaches(c) && |centroids| == c.numberOfHOSlices
  {
    var ips := c.ipNames;
    var k := SlicesPerSide(c.numberOfHOSlices);
    HeadOnRows(c, centroids, k, HeadOnKeys(ips, k, |ips|))
    + LongRangeRows(c, LongRangeKeys(ips, c.numberOfLRPerIRSide, |ips|))
  }

  /** The generated table, or the first error the generator meets, in the
      order it meets them (the third is the slicer's own refusal). */
  function Generate(c: Config, m: Math): Result<Table<Encounter>>
    requires (c.numberOfHOSlices > 1 ==> Admissible(m, c.sigt / 2.0))
  {
    var ips := c.ipNames;
    var n := c.numberOfHOSlices;
    if |ips| > |c.numberOfLRPerIRSide| then Failure(LongRangeCountMissing)
    else if LongRangeKeys(ips, c.numberOfLRPerIRSide, |ips|) != [] && c.harmonicNumber == 0 then
      Failure(ZeroHarmonicNumber)
    else if n < 1 then Failure(InvalidSliceCount)
    else if ips == [] then Failure(NoHeadOnEncounters)
    else if PositionsMismatch(ips, SlicesPerSide(n), n) then Failure(SliceCountMismatch)
    else IndexRows(Rows(c, ChargeSlices(m, 1.0, c.sigt / 2.0, n).value.centroids))
  }

  /** The long-range loop: for each IP in order, its identifiers -n..-1, 1..n;
      an IP without a count is an error. */
  method LongRangeKeyList(ips: seq<string>, counts: seq<int>) returns (r: Result<seq<Key>>)
    ensures r.Failure? <==> |ips| > |counts|
    ensures r.Failure? ==> r.error == LongRangeCountMissing
    ensures r.Success? ==> r.value == LongRangeKeys(ips, counts, |ips|)
  {
    var keys: seq<Key> := [];
    for ii := 0 to |ips|
      invariant ii <= |counts|
      invariant keys == LongRangeKeys(ips, counts, ii)
    {
      if ii >= |counts| {
        return Failure(LongRangeCountMissing);
      }
      var ids := LongRangeIdentifiers(counts[ii]);
      for j := 0 to |ids|
        invariant keys == LongRangeKeys(ips, counts, ii) + KeysAt(ips[ii], ids)[..j]
      {
        assert KeysAt(ips[ii], ids)[..j + 1] == KeysAt(ips[ii], ids)[..j] + [Key(ips[ii], ids[j])];
        keys := keys + [Key(ips[ii], ids[j])];
      }
      assert KeysAt(ips[ii], ids)[..|ids|] == KeysAt(ips[ii], ids);
    }
    r := Success(keys);
  }

  /** The head-on loop: for each IP in order, its identifiers -k..k. */
  method HeadOnKeyList(ips: seq<string>, k: int) returns (keys: seq<Key>)
    requires k >= 0
    ensures keys == HeadOnKeys(ips, k, |ips|)
  {
    keys := [];
    for ii := 0 to |ips|
      invariant keys == HeadOnKeys(ips, k, ii)
    {
      var ids := HeadOnIdentifiers(k);
      for j := 0 to |ids|
        invariant keys == HeadOnKeys(ips, k, ii) + KeysAt(ips[ii], ids)[..j]
      {
        assert KeysAt(ips[ii], ids)[..j + 1] == KeysAt(ips[ii], ids)[..j] + [Key(ips[ii], ids[j])];
        keys := keys + [Key(ips[ii], ids[j])];
      }
      assert KeysAt(ips[ii], ids)[..|ids|] == KeysAt(ips[ii], ids);
    }
  }

  /** Setting the element name as index with integrity checking, row by row. */
  method SetIndex(rows: seq<Encounter>) returns (r: Result<Table<Encounter>>)
    ensures r == IndexRows(rows)
  {
    var index: seq<string> := [];
    var byName: map<string, Encounter> := map[];
    for i := 0 to |rows|
      invariant index == Names(rows[..i]) && Distinct(index)
      invariant forall name :: name in byName <==> name in index
      invariant forall j :: 0 <= j < i ==> byName[rows[j].elementName] == rows[j]
    {
      var name := rows[i].elementName;
      if name in byName {
        var j :| 0 <= j < i && index[j] == name;
        assert Names(rows)[j] == Names(rows)[i];
        return Failure(DuplicateElementName);
      }
      index := index + [name];
      byName := byName[name := rows[i]];
    }
    assert rows[..|rows|] == rows;
    IndexedAll(rows, index, byName);
    r := Success(Table(index, byName));
  }

  /** The state the indexing loop ends in is the indexed table. */
  lemma IndexedAll(rows: seq<Encounter>, index: seq<string>, byName: map<string, Encounter>)
    requires index == Names(rows) && Distinct(index)
    requires forall name :: name in byName <==> name in index
    requires forall j :: 0 <= j < |rows| ==> byName[rows[j].elementName] == rows[j]
    ensures IndexRows(rows) == Success(Table(index, byName))
  {
    var expected := IndexRows(rows);
    assert byName == expected.value.rows;
  }

  /** The per-row columns of the long-range rows. */
  method LongRangeRowList(c: Config, keys: seq<Key>) returns (rows: seq<Encounter>)
    requires keys == [] || c.harmonicNumber != 0
    ensures rows == LongRangeRows(c, keys)
  {
    rows := [];
    for i := 0 to |keys|
      invariant rows == LongRangeRows(c, keys[..i])
    {
      rows := rows + [LongRangeRow(c, keys[i])];
    }
    assert keys[..|keys|] == keys;
  }

  /** The per-row columns of the head-on rows. */
  method HeadOnRowList(c: Config, centroids: seq<real>, k: int, keys: seq<Key>) returns (rows: seq<Encounter>)
    requires c.numberOfHOSlices >= 1 && 0 <= k && 2 * k + 1 <= |centroids|
    requires forall i :: 0 <= i < |keys| ==> -k <= keys[i].identifier <= k
    ensures rows == HeadOnRows(c, centroids, k, keys)
  {
    rows := [];
    for i := 0 to |keys|
      invariant rows == HeadOnRows(c, centroids, k, keys[..i])
    {
      rows := rows + [HeadOnRow(c, centroids, k, keys[i])];
    }
    assert keys[..|keys|] == keys;
  }

  /** The per-IP assignment of the n centroids to the IP's head-on rows, which
      number (2k + 1) times the IP's occurrences: true when every IP fits. */
  method PositionsFit(ips: seq<string>, k: int, n: int) returns (fit: bool)
    ensures fit <==> !PositionsMismatch(ips, k, n)
  {
    for ii := 0 to |ips|
      invariant forall jj :: 0 <= jj < ii ==> multiset(ips)[ips[jj]] * (2 * k + 1) == n
    {
      if multiset(ips)[ips[ii]] * (2 * k + 1) != n {
        return false;
      }
    }
    return true;
  }

  /** The generator as the source writes it: the long-range keys, the rows
      built from them, the head-on slicing, the head-on keys, the per-IP
      position check, the head-on rows, and the name index. */
  method GenerateSetOfBBEncounters1Beam(c: Config, m: Math) returns (r: Result<Table<Encounter>>)
    requires (c.numberOfHOSlices > 1 ==> Admissible(m, c.sigt / 2.0))
    ensures r == Generate(c, m)
  {
    var ips := c.ipNames;
    var lrKeys :- LongRangeKeyList(ips, c.numberOfLRPerIRSide);
    if lrKeys != [] && c.harmonicNumber == 0 {
      return Failure(ZeroHarmonicNumber);
    }
    var lrRows := LongRangeRowList(c, lrKeys);
    var n := c.numberOfHOSlices;
    var slices :- ConstantChargeSlicingGaussian(m, 1.0, c.sigt / 2.0, n);
    var k := SlicesPerSide(n);
    var hoKeys := HeadOnKeyList(ips, k);
    if hoKeys == [] {
      return Failure(NoHeadOnEncounters);
    }
    var fit := PositionsFit(ips, k, n);
    if !fit {
      return Failure(SliceCountMismatch);
    }
    var hoRows := HeadOnRowList(c, slices.centroids, k, hoKeys);
    r := SetIndex(hoRows + lrRows);
  }

  /** The key belongs to the long-range block of one of the first `upto` IPs. */
  predicate LongRangeListed(ips: seq<string>, counts: seq<int>, upto: nat, key: Key)
    requires upto <= |ips| && upto <= |counts|
  {
    exists ii :: 0 <= ii < upto && key.ip == ips[ii] && 1 <= Abs(key.identifier) <= counts[ii]
  }

  /** The keys of one IP's long-range block. */
  lemma LongRangeBlockMembers(ip: string, n: int, key: Key)
    ensures key in KeysAt(ip, LongRangeIdentifiers(n)) <==> key.ip == ip && 1 <= Abs(key.identifier) <= n
  {
    var ids := LongRangeIdentifiers(n);
    var block := KeysAt(ip, ids);
    if key in block {
      var j :| 0 <= j < |block| && block[j] == key;
      assert ids[j] in ids;
    }
    if key.ip == ip && 1 <= Abs(key.identifier) <= n {
      assert key.identifier in ids;
      var j :| 0 <= j < |ids| && ids[j] == key.identifier;
      assert block[j] == key;
    }
  }

  /** Listed among the first `upto` IPs: among the first `upto - 1`, or in the
      last one's block. */
  lemma LongRangeListedStep(ips: seq<string>, counts: seq<int>, upto: nat, key: Key)
    requires 0 < upto <= |ips| && upto <= |counts|
    ensures LongRangeListed(ips, counts, upto, key) <==>
      LongRangeListed(ips, counts, upto - 1, key)
      || (key.ip == ips[upto - 1] && 1 <= Abs(key.identifier) <= counts[upto - 1])
  {
    if LongRangeListed(ips, counts, upto, key) {
      var ii :| 0 <= ii < upto && key.ip == ips[ii] && 1 <= Abs(key.identifier) <= counts[ii];
      if ii < upto - 1 {
        assert LongRangeListed(ips, counts, upto - 1, key);
      }
    }
    if key.ip == ips[upto - 1] && 1 <= Abs(key.identifier) <= counts[upto - 1] {
      assert 0 <= upto - 1 < upto;
    }
  }

  lemma {:induction false} LongRangeKeysMembers(ips: seq<string>, counts: seq<int>, upto: nat, key: Key)
    requires upto <= |ips| && upto <= |counts|
    ensures key in LongRangeKeys(ips, counts, upto) <==> LongRangeListed(ips, counts, upto, key)
  {
    if upto > 0 {
      LongRangeKeysMembers(ips, counts, upto - 1, key);
      var before := LongRangeKeys(ips, counts, upto - 1);
      var block := KeysAt(ips[upto - 1], LongRangeIdentifiers(counts[upto - 1]));
      assert LongRangeKeys(ips, counts, upto) == before + block;
      LongRangeBlockMembers(ips[upto - 1], counts[upto - 1], key);
      LongRangeListedStep(ips, counts, upto, key);
      assert key in before + block <==> key in before || key in block;
    }
  }

  lemma {:induction false} HeadOnKeysMembers(ips: seq<string>, k: int, upto: nat)
    requires k >= 0 && upto <= |ips|
    ensures forall key :: key in HeadOnKeys(ips, k, upto) <==>
      key.ip in ips[..upto] && -k <= key.identifier <= k
  {
    if upto > 0 {
      HeadOnKeysMembers(ips, k, upto - 1);
      var ids := HeadOnIdentifiers(k);
      var block := KeysAt(ips[upto - 1], ids);
      assert ips[..upto] == ips[..upto - 1] + [ips[upto - 1]];
      forall key ensures key in block <==> key.ip == ips[upto - 1] && -k <= key.identifier <= k {
        if key.ip == ips[upto - 1] && -k <= key.identifier <= k {
          assert key.identifier in ids;
          var j :| 0 <= j < |ids| && ids[j] == key.identifier;
          assert block[j] == key;
        }
      }
    }
  }

  /** The columns every generated row has, whatever its kind: the two beams,
      both element names, the charge and beta of the reference particle, and
      all eight crab offsets zero. */
  predicate SharedColumns(c: Config, e: Encounter) {
    && e.beam == c.beamName && e.otherBeam == c.otherBeamName
    && e.elementName == ElementName(e.kind.Name(), StripIp(e.ipName), c.beamName, e.identifier)
    && e.otherElementName == ElementName(e.kind.Name(), StripIp(e.ipName), c.otherBeamName, e.identifier)
    && e.selfParticleCharge == c.bunchParticleCharge
    && e.selfRelativisticBeta == c.relativisticBeta
    && e.selfCrab == NoCrab && e.otherCrab == NoCrab
  }

  /** A long-range row: its identifier is one of its IP's (nonzero, at most
      the IP's count in magnitude), it sits that many
      half bunch spacings from the IP, has no crab reference offset and
      carries the whole bunch. */
  predicate LongRangeColumns(c: Config, e: Encounter)
    requires |c.ipNames| <= |c.numberOfLRPerIRSide| && c.harmonicNumber != 0
  {
    && (exists ii :: 0 <= ii < |c.ipNames| && c.ipNames[ii] == e.ipName
          && 1 <= Abs(e.identifier) <= c.numberOfLRPerIRSide[ii])
    && e.atPosition == BunchSpacing(c) * e.identifier as real
    && e.sCrab == 0.0
    && e.selfFracOfBunch == 1.0
  }

  /** A head-on row: identifier within -k..k, one N-th of the bunch, at the
      centroid of its slice, crab reference at that centroid. */
  predicate HeadOnColumns(c: Config, centroids: seq<real>, e: Encounter)
    requires c.numberOfHOSlices >= 1 && |centroids| >= 2 * SlicesPerSide(c.numberOfHOSlices) + 1
  {
    var k := SlicesPerSide(c.numberOfHOSlices);
    && e.ipName in c.ipNames
    && -k <= e.identifier <= k
    && e.selfFracOfBunch == 1.0 / c.numberOfHOSlices as real
    && e.atPosition == centroids[e.identifier + k]
    && e.sCrab == e.atPosition
  }

  lemma HeadOnRowFacts(c: Config, centroids: seq<real>, i: nat)
    requires c.numberOfHOSlices >= 1
    requires |centroids| >= 2 * SlicesPerSide(c.numberOfHOSlices) + 1
    requires var k := SlicesPerSide(c.numberOfHOSlices);
      i < |HeadOnRows(c, centroids, k, HeadOnKeys(c.ipNames, k, |c.ipNames|))|
    ensures var k := SlicesPerSide(c.numberOfHOSlices);
      var e := HeadOnRows(c, centroids, k, HeadOnKeys(c.ipNames, k, |c.ipNames|))[i];
      SharedColumns(c, e) && e.kind == HeadOn && HeadOnColumns(c, centroids, e)
  {
    var ips := c.ipNames;
    var k := SlicesPerSide(c.numberOfHOSlices);
    var keys := HeadOnKeys(ips, k, |ips|);
    HeadOnKeysMembers(ips, k, |ips|);
    assert keys[i] in keys;
    assert ips[..|ips|] == ips;
  }

  lemma LongRangeRowOfKey(c: Config, key: Key, ii: nat)
    requires |c.ipNames| <= |c.numberOfLRPerIRSide| && c.harmonicNumber != 0
    requires ii < |c.ipNames| && key.ip == c.ipNames[ii]
    requires 1 <= Abs(key.identifier) <= c.numberOfLRPerIRSide[ii]
    ensures var e := LongRangeRow(c, key);
      SharedColumns(c, e) && e.kind == LongRange && LongRangeColumns(c, e)
  {
  }

  lemma LongRangeRowFacts(c: Config, i: nat)
    requires |c.ipNames| <= |c.numberOfLRPerIRSide| && c.harmonicNumber != 0
    requires i < |LongRangeRows(c, LongRangeKeys(c.ipNames, c.numberOfLRPerIRSide, |c.ipNames|))|
    ensures var e := LongRangeRows(c, LongRangeKeys(c.ipNames, c.numberOfLRPerIRSide, |c.ipNames|))[i];
      SharedColumns(c, e) && e.kind == LongRange && LongRangeColumns(c, e)
  {
    var ips := c.ipNames;
    var keys := LongRangeKeys(ips, c.numberOfLRPerIRSide, |ips|);
    var key := keys[i];
    var ii: int :| 0 <= ii < |ips| && key.ip == ips[ii] && 1 <= Abs(key.identifier) <= c.numberOfLRPerIRSide[ii] by {
      assert key in keys;
      LongRangeKeysMembers(ips, c.numberOfLRPerIRSide, |ips|, key);
      assert LongRangeListed(ips, c.numberOfLRPerIRSide, |ips|, key);
    }
    LongRangeRowOfKey(c, key, ii);
    assert LongRangeRows(c, keys)[i] == LongRangeRow(c, key);
  }

  lemma RowFacts(c: Config, centroids: seq<real>, i: nat)
    requires Reaches(c) && |centroids| == c.numberOfHOSlices && i < |Rows(c, centroids)|
    ensures var e := Rows(c, centroids)[i];
      && SharedColumns(c, e)
      && (e.kind == HeadOn ==> HeadOnColumns(c, centroids, e))
      && (e.kind == LongRange ==> c.harmonicNumber != 0 && LongRangeColumns(c, e))
  {
    var ips := c.ipNames;
    var n := c.numberOfHOSlices;
    var k := SlicesPerSide(n);
    var hoRows := HeadOnRows(c, centroids, k, HeadOnKeys(ips, k, |ips|));
    var lrRows := LongRangeRows(c, LongRangeKeys(ips, c.numberOfLRPerIRSide, |ips|));
    assert Rows(c, centroids) == hoRows + lrRows;
    if i < |hoRows| {
      HeadOnRowFacts(c, centroids, i);
    } else {
      LongRangeRowFacts(c, i - |hoRows|);
    }
  }

  /** What a generated table holds: every row under its own element name,
      with the shared columns and those of its kind. */
  lemma GeneratedTable(c: Config, m: Math)
    requires (c.numberOfHOSlices > 1 ==> Admissible(m, c.sigt / 2.0)) && Generate(c, m).Success?
    ensures Reaches(c)
    ensures var t := Generate(c, m).value;
      var centroids := ChargeSlices(m, 1.0, c.sigt / 2.0, c.numberOfHOSlices).value.centroids;
      && t.WellFormed()
      && forall name :: name in t.rows ==>
        var e := t.rows[name];
        && e.elementName == name
        && SharedColumns(c, e)
        && (e.kind == HeadOn ==> HeadOnColumns(c, centroids, e))
        && (e.kind == LongRange ==> c.harmonicNumber != 0 && LongRangeColumns(c, e))
  {
    var centroids := ChargeSlices(m, 1.0, c.sigt / 2.0, c.numberOfHOSlices).value.centroids;
    var rows := Rows(c, centroids);
    var t := Generate(c, m).value;
    forall name | name in t.rows
      ensures t.rows[name].elementName == name
      ensures t.rows[name] in rows
    {
      var i :| 0 <= i < |rows| && Names(rows)[i] == name;
    }
    forall i | 0 <= i < |rows| {
      RowFacts(c, centroids, i);
    }
  }

  lemma {:induction false} HeadOnKeysPrefix(ips: seq<string>, k: int, a: nat, b: nat)
    requires k >= 0 && a <= b <= |ips|
    ensures HeadOnKeys(ips, k, a) <= HeadOnKeys(ips, k, b)
    decreases b
  {
    if a < b {
      HeadOnKeysPrefix(ips, k, a, b - 1);
    }
  }

  /** The central head-on key of the j-th IP and where it sits in the list. */
  lemma CentralKey(ips: seq<string>, k: int, j: nat) returns (p: nat)
    requires k >= 0 && j < |ips|
    ensures p == |HeadOnKeys(ips, k, j)| + k
    ensures p < |HeadOnKeys(ips, k, j + 1)| <= |HeadOnKeys(ips, k, |ips|)|
    ensures HeadOnKeys(ips, k, |ips|)[p] == Key(ips[j], 0)
  {
    p := |HeadOnKeys(ips, k, j)| + k;
    var ids := HeadOnIdentifiers(k);
    assert ids[k] == 0;
    var block := KeysAt(ips[j], ids);
    assert HeadOnKeys(ips, k, j + 1) == HeadOnKeys(ips, k, j) + block;
    assert HeadOnKeys(ips, k, j + 1)[p] == block[k];
    HeadOnKeysPrefix(ips, k, j + 1, |ips|);
  }

  /** The same IP twice puts its central head-on key twice in the list. */
  lemma RepeatedIpRepeatsKey(ips: seq<string>, k: int, i: nat, j: nat) returns (p1: nat, p2: nat)
    requires k >= 0 && i < j < |ips| && ips[i] == ips[j]
    ensures p1 < p2 < |HeadOnKeys(ips, k, |ips|)|
    ensures HeadOnKeys(ips, k, |ips|)[p1] == HeadOnKeys(ips, k, |ips|)[p2]
  {
    p1 := CentralKey(ips, k, i);
    p2 := CentralKey(ips, k, j);
    assert |HeadOnKeys(ips, k, i + 1)| <= |HeadOnKeys(ips, k, j)| by {
      HeadOnKeysPrefix(ips, k, i + 1, j);
    }
  }

  /** A repeated head-on key repeats an element name, whatever follows. */
  lemma RepeatedKeyRepeatsName(c: Config, centroids: seq<real>, k: int, keys: seq<Key>, rest: seq<Encounter>, p1: nat, p2: nat)
    requires c.numberOfHOSlices >= 1 && 0 <= k && 2 * k + 1 <= |centroids|
    requires forall i :: 0 <= i < |keys| ==> -k <= keys[i].identifier <= k
    requires p1 < p2 < |keys| && keys[p1] == keys[p2]
    ensures !Distinct(Names(HeadOnRows(c, centroids, k, keys) + rest))
  {
    var rows := HeadOnRows(c, centroids, k, keys) + rest;
    assert rows[p1] == HeadOnRow(c, centroids, k, keys[p1]);
    assert rows[p2] == HeadOnRow(c, centroids, k, keys[p2]);
    assert Names(rows)[p1] == Names(rows)[p2];
  }

  /** An IP listed twice makes the generator fail: its head-on names repeat. */
  lemma RepeatedIpFails(c: Config, m: Math)
    requires (c.numberOfHOSlices > 1 ==> Admissible(m, c.sigt / 2.0)) && !Distinct(c.ipNames)
    ensures Generate(c, m).Failure?
  {
    if Reaches(c) {
      var ips := c.ipNames;
      var k := SlicesPerSide(c.numberOfHOSlices);
      var centroids := ChargeSlices(m, 1.0, c.sigt / 2.0, c.numberOfHOSlices).value.centroids;
      var i, j :| 0 <= i < j < |ips| && ips[i] == ips[j];
      var p1, p2 := RepeatedIpRepeatsKey(ips, k, i, j);
      RepeatedKeyRepeatsName(c, centroids, k, HeadOnKeys(ips, k, |ips|),
        LongRangeRows(c, LongRangeKeys(ips, c.numberOfLRPerIRSide, |ips|)), p1, p2);
    }
  }

  lemma {:induction false} DistinctOccursOnce<T>(s: seq<T>, x: T)
    requires Distinct(s) && x in s
    ensures multiset(s)[x] == 1
  {
    var last := s[|s| - 1];
    assert s == s[..|s| - 1] + [last];
    if x == last {
      assert x !in s[..|s| - 1];
    } else {
      DistinctOccursOnce(s[..|s| - 1], x);
    }
  }

  /** An even slice count leaves one centroid without a head-on row at each
      IP (2k + 1 = N - 1 identifiers): the generator fails. */
  lemma EvenSliceCountFails(c: Config, m: Math)
    requires (c.numberOfHOSlices > 1 ==> Admissible(m, c.sigt / 2.0)) && c.numberOfHOSlices % 2 == 0
    ensures Generate(c, m).Failure?
  {
    var ips := c.ipNames;
    var n := c.numberOfHOSlices;
    if !Distinct(ips) {
      RepeatedIpFails(c, m);
    } else if ips != [] && n >= 1 {
      DistinctOccursOnce(ips, ips[0]);
      assert multiset(ips)[ips[0]] * (2 * SlicesPerSide(n) + 1) != n;
      assert PositionsMismatch(ips, SlicesPerSide(n), n);
    }
  }

  /** A generated table has every IP once and an odd slice count, 2k + 1. */
  lemma GeneratedShape(c: Config, m: Math)
    requires (c.numberOfHOSlices > 1 ==> Admissible(m, c.sigt / 2.0))
    ensures Generate(c, m).Success? ==>
      && Distinct(c.ipNames)
      && c.numberOfHOSlices == 2 * SlicesPerSide(c.numberOfHOSlices) + 1
  {
    if !Distinct(c.ipNames) {
      RepeatedIpFails(c, m);
    } else if c.numberOfHOSlices % 2 == 0 {
      EvenSliceCountFails(c, m);
    }
  }

  /** A generated long-range row at position ii of the IP list lies within
      that IP's count. */
  lemma LongRangeRowInRange(c: Config, m: Math, ii: nat, name: string)
    requires (c.numberOfHOSlices > 1 ==> Admissible(m, c.sigt / 2.0)) && Generate(c, m).Success? && ii < |c.ipNames|
    requires var t := Generate(c, m).value;
      name in t.rows && t.rows[name].kind == LongRange && t.rows[name].ipName == c.ipNames[ii]
    ensures ii < |c.numberOfLRPerIRSide|
    ensures 1 <= Abs(Generate(c, m).value.rows[name].identifier) <= c.numberOfLRPerIRSide[ii]
  {
    var t := Generate(c, m).value;
    GeneratedTable(c, m);
    GeneratedShape(c, m);
    var e := t.rows[name];
    assert LongRangeColumns(c, e);
    var jj :| 0 <= jj < |c.ipNames| && c.ipNames[jj] == e.ipName
      && 1 <= Abs(e.identifier) <= c.numberOfLRPerIRSide[jj];
    assert jj == ii;
  }

  /** Every identifier within the count of the IP at position ii has its
      long-range row in a generated table. */
  lemma LongRangeRowPresent(c: Config, m: Math, ii: nat, id: int) returns (name: string)
    requires (c.numberOfHOSlices > 1 ==> Admissible(m, c.sigt / 2.0)) && Generate(c, m).Success? && ii < |c.ipNames|
    requires ii < |c.numberOfLRPerIRSide| && 1 <= Abs(id) <= c.numberOfLRPerIRSide[ii]
    ensures var t := Generate(c, m).value;
      name in t.rows && t.rows[name].kind == LongRange
      && t.rows[name].ipName == c.ipNames[ii] && t.rows[name].identifier == id
  {
    var ips := c.ipNames;
    var counts := c.numberOfLRPerIRSide;
    var t := Generate(c, m).value;
    var k := SlicesPerSide(c.numberOfHOSlices);
    var centroids := ChargeSlices(m, 1.0, c.sigt / 2.0, c.numberOfHOSlices).value.centroids;
    var keys := LongRangeKeys(ips, counts, |ips|);
    var key := Key(ips[ii], id);
    LongRangeKeysMembers(ips, counts, |ips|, key);
    assert LongRangeListed(ips, counts, |ips|, key) by {
      assert 0 <= ii < |ips| && key.ip == ips[ii] && 1 <= Abs(key.identifier) <= counts[ii];
    }
    assert key in keys;
    var q :| 0 <= q < |keys| && keys[q] == key;
    assert Reaches(c);
    var hoRows := HeadOnRows(c, centroids, k, HeadOnKeys(ips, k, |ips|));
    var rows := Rows(c, centroids);
    assert rows == hoRows + LongRangeRows(c, keys);
    LongRangeRowAt(c, centroids, |hoRows| + q);
    var e := rows[|hoRows| + q];
    assert e == LongRangeRow(c, key);
    assert e.kind == LongRange && e.ipName == key.ip && e.identifier == id;
    name := e.elementName;
    assert t == IndexRows(rows).value;
    assert t.rows[name] == e;
  }

  /** For the IP at position ii of a generated table, the long-range
      identifiers are exactly -n..-1 and 1..n, n its count. */
  lemma LongRangeIdentifiersExactly(c: Config, m: Math, ii: nat, id: int)
    requires (c.numberOfHOSlices > 1 ==> Admissible(m, c.sigt / 2.0)) && Generate(c, m).Success? && ii < |c.ipNames|
    ensures var t := Generate(c, m).value;
      && ii < |c.numberOfLRPerIRSide|
      && ((exists name :: name in t.rows && t.rows[name].kind == LongRange
            && t.rows[name].ipName == c.ipNames[ii] && t.rows[name].identifier == id)
          <==> 1 <= Abs(id) <= c.numberOfLRPerIRSide[ii])
  {
    var t := Generate(c, m).value;
    GeneratedTable(c, m);
    if exists name :: name in t.rows && t.rows[name].kind == LongRange
        && t.rows[name].ipName == c.ipNames[ii] && t.rows[name].identifier == id {
      var name :| name in t.rows && t.rows[name].kind == LongRange
        && t.rows[name].ipName == c.ipNames[ii] && t.rows[name].identifier == id;
      LongRangeRowInRange(c, m, ii, name);
    }
    if 1 <= Abs(id) <= c.numberOfLRPerIRSide[ii] {
      var name := LongRangeRowPresent(c, m, ii, id);
    }
  }

  /** For every IP of a generated table, the head-on identifiers are exactly
      -k..k, one per centroid. */
  lemma HeadOnIdentifiersExactly(c: Config, m: Math, ii: nat, id: int)
    requires (c.numberOfHOSlices > 1 ==> Admissible(m, c.sigt / 2.0)) && Generate(c, m).Success? && ii < |c.ipNames|
    ensures var t := Generate(c, m).value;
      var k := SlicesPerSide(c.numberOfHOSlices);
      && c.numberOfHOSlices == 2 * k + 1
      && ((exists name :: name in t.rows && t.rows[name].kind == HeadOn
            && t.rows[name].ipName == c.ipNames[ii] && t.rows[name].identifier == id)
          <==> -k <= id <= k)
  {
    var ips := c.ipNames;
    var t := Generate(c, m).value;
    var k := SlicesPerSide(c.numberOfHOSlices);
    GeneratedTable(c, m);
    GeneratedShape(c, m);
    if -k <= id <= k {
      var centroids := ChargeSlices(m, 1.0, c.sigt / 2.0, c.numberOfHOSlices).value.centroids;
      var keys := HeadOnKeys(ips, k, |ips|);
      var key := Key(ips[ii], id);
      HeadOnKeysMembers(ips, k, |ips|);
      assert ips[..|ips|] == ips;
      assert key in keys;
      var q :| 0 <= q < |keys| && keys[q] == key;
      var rows := Rows(c, centroids);
      var e := rows[q];
      assert e == HeadOnRow(c, centroids, k, key);
      assert t.rows[e.elementName] == e;
    }
  }

  /** The same configuration seen from the other beam. */
  function Swapped(c: Config): (c2: Config)
    ensures c2.beamName == c.otherBeamName && c2.otherBeamName == c.beamName
    ensures c2.(beamName := c.beamName, otherBeamName := c.otherBeamName) == c
  {
    c.(beamName := c.otherBeamName, otherBeamName := c.beamName)
  }

  /** Row i generated for the other beam is the partner of row i: the names
      trade places and everything else that locates the encounter agrees. */
  lemma SwappedRow(c: Config, centroids: seq<real>, i: nat)
    requires Reaches(c) && |centroids| == c.numberOfHOSlices && i < |Rows(c, centroids)|
    ensures Reaches(Swapped(c)) && |Rows(Swapped(c), centroids)| == |Rows(c, centroids)|
    ensures Partners(Rows(c, centroids)[i], Rows(Swapped(c), centroids)[i])
  {
    var c2 := Swapped(c);
    var ips := c.ipNames;
    assert c2.ipNames == ips && c2.numberOfLRPerIRSide == c.numberOfLRPerIRSide
      && c2.numberOfHOSlices == c.numberOfHOSlices && c2.harmonicNumber == c.harmonicNumber;
    var k := SlicesPerSide(c.numberOfHOSlices);
    var hoKeys := HeadOnKeys(ips, k, |ips|);
    var lrKeys := LongRangeKeys(ips, c.numberOfLRPerIRSide, |ips|);
    assert Reaches(c2);
    if i < |hoKeys| {
      HeadOnRowAt(c, centroids, i);
      HeadOnRowAt(c2, centroids, i);
      HeadOnRowSwapped(c, centroids, k, hoKeys[i]);
    } else {
      LongRangeRowAt(c, centroids, i);
      LongRangeRowAt(c2, centroids, i);
      LongRangeRowSwapped(c, lrKeys[i - |hoKeys|]);
    }
  }

  lemma HeadOnRowSwapped(c: Config, centroids: seq<real>, k: int, key: Key)
    requires c.numberOfHOSlices >= 1 && 0 <= k && -k <= key.identifier <= k && 2 * k + 1 <= |centroids|
    ensures Partners(HeadOnRow(c, centroids, k, key), HeadOnRow(Swapped(c), centroids, k, key))
  {
  }

  lemma LongRangeRowSwapped(c: Config, key: Key)
    requires c.harmonicNumber != 0
    ensures Partners(LongRangeRow(c, key), LongRangeRow(Swapped(c), key))
  {
    assert BunchSpacing(Swapped(c)) == BunchSpacing(c);
  }

  /** f is the other beam's row for the encounter e. */
  predicate Partners(e: Encounter, f: Encounter) {
    && f.elementName == e.otherElementName && f.otherElementName == e.elementName
    && f.ipName == e.ipName && f.kind == e.kind && f.identifier == e.identifier
    && f.atPosition == e.atPosition
  }

  /** The first rows of the concatenation are the head-on rows, key by key. */
  lemma HeadOnRowAt(c: Config, centroids: seq<real>, i: nat)
    requires Reaches(c) && |centroids| == c.numberOfHOSlices
    requires var k := SlicesPerSide(c.numberOfHOSlices); i < |HeadOnKeys(c.ipNames, k, |c.ipNames|)|
    ensures var k := SlicesPerSide(c.numberOfHOSlices);
      i < |Rows(c, centroids)|
      && Rows(c, centroids)[i] == HeadOnRow(c, centroids, k, HeadOnKeys(c.ipNames, k, |c.ipNames|)[i])
  {
  }

  /** The rows after the head-on ones are the long-range rows, key by key. */
  lemma LongRangeRowAt(c: Config, centroids: seq<real>, i: nat)
    requires Reaches(c) && |centroids| == c.numberOfHOSlices && i < |Rows(c, centroids)|
    requires var k := SlicesPerSide(c.numberOfHOSlices); i >= |HeadOnKeys(c.ipNames, k, |c.ipNames|)|
    ensures var k := SlicesPerSide(c.numberOfHOSlices);
      var j := i - |HeadOnKeys(c.ipNames, k, |c.ipNames|)|;
      var keys := LongRangeKeys(c.ipNames, c.numberOfLRPerIRSide, |c.ipNames|);
      && 0 <= j < |keys| && c.harmonicNumber != 0
      && Rows(c, centroids)[i] == LongRangeRow(c, keys[j])
  {
  }

  /** When both beams' tables are generated, every encounter's partner name is
      a row of the other beam's table, that row names it back, and both sit at
      the same IP, kind, identifier and position. */
  lemma PartnerNamesResolve(c: Config, m: Math)
    requires (c.numberOfHOSlices > 1 ==> Admissible(m, c.sigt / 2.0))
    requires Generate(c, m).Success? && Generate(Swapped(c), m).Success?
    ensures var t := Generate(c, m).value;
      var t2 := Generate(Swapped(c), m).value;
      forall name :: name in t.rows ==>
        var e := t.rows[name];
        && e.otherElementName in t2.rows
        && var f := t2.rows[e.otherElementName];
        && f.otherElementName == name
        && f.ipName == e.ipName && f.kind == e.kind && f.identifier == e.identifier
        && f.atPosition == e.atPosition
  {
    var t := Generate(c, m).value;
    var t2 := Generate(Swapped(c), m).value;
    var centroids := ChargeSlices(m, 1.0, c.sigt / 2.0, c.numberOfHOSlices).value.centroids;
    var rows := Rows(c, centroids);
    var rows2 := Rows(Swapped(c), centroids);
    forall name | name in t.rows
      ensures t.rows[name].otherElementName in t2.rows
      ensures var f := t2.rows[t.rows[name].otherElementName];
        && f.otherElementName == name
        && f.ipName == t.rows[name].ipName && f.kind == t.rows[name].kind
        && f.identifier == t.rows[name].identifier && f.atPosition == t.rows[name].atPosition
    {
      var i :| 0 <= i < |rows| && Names(rows)[i] == name;
      SwappedRow(c, centroids, i);
      assert t.rows[name] == rows[i];
      assert t2.rows[rows2[i].elementName] == rows2[i];
    }
  }
}
