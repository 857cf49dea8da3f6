/** The atom part of loadNXSCrystal: the legacy atom entries grouped by
    atomic number in the zval_2_atominfo map (AtomInfoCollector), with the
    physical constants of the first entry of each element, an index given in
    order of first appearance, a consistency check on every later entry of
    the same element, and the positions of all its entries appended in
    input order; then one AtomInfo per element in ascending atomic number. */
module AtomGrouping {
  import opened NxsErrors
  import opened NxsTypes
  import opened Legacy

  /** A fractional atom position. */
  datatype Position = Position(x: real, y: real, z: real)

  /** AtomInfoCollector once its entry exists: the shared constants, the
      index and the positions collected so far. */
  datatype Collector = Collector(data: AtomData, index: nat, positions: seq<Position>)

  /** NCrystal's AtomInfo as the loader builds it. */
  datatype AtomInfo = AtomInfo(data: AtomData, index: nat, positions: seq<Position>,
                               debyeTemp: Option<real>)

  /** The factor from the legacy coherent scattering length (fm) to
      NCrystal's unit (sqrt(barn)). */
  const CohScatLenScale: real := 0.1

  /** The atomic number of an entry, from its element symbol (0 when the
      symbol is unknown). */
  function ZOf(o: Oracles, e: AtomEntry): nat {
    o.elementNameToZ(e.symbol)
  }

  /** The AtomData the loader makes from an entry: the incoherent and
      absorption cross sections as they are, the coherent scattering length
      converted from fm to sqrt(barn), the mass ratio converted to atomic
      mass units, and the atomic number z. */
  function AtomDataOf(o: Oracles, e: AtomEntry, z: nat): (d: AtomData)
    ensures d.z == z
    ensures d.sigmaIncoherent == e.sigmaIncoherent && d.sigmaAbsorption == e.sigmaAbsorption
    ensures d.cohScatLen * 10.0 == e.bCoherent
    ensures d.mass == e.massRatio * o.neutronAtomicMass
  {
    AtomData(e.sigmaIncoherent, e.bCoherent * CohScatLenScale, e.sigmaAbsorption,
             e.massRatio * o.neutronAtomicMass, z)
  }

  /** The first k positions (x[i], y[i], z[i]) of an entry. */
  function PositionsUpTo(e: AtomEntry, k: nat): (r: seq<Position>)
    requires WellFormed(e) && k <= e.nAtoms
    ensures |r| == k
  {
    if k == 0 then [] else PositionsUpTo(e, k - 1) + [Position(e.x[k - 1], e.y[k - 1], e.z[k - 1])]
  }

  /** Position i of an entry is (x[i], y[i], z[i]). */
  lemma {:induction false} PositionsUpToAt(e: AtomEntry, k: nat, i: nat)
    requires WellFormed(e) && i < k <= e.nAtoms
    ensures PositionsUpTo(e, k)[i] == Position(e.x[i], e.y[i], e.z[i])
  {
    if i < k - 1 {
      PositionsUpToAt(e, k - 1, i);
    }
  }

  /** The nAtoms positions of an entry. */
  function EntryPositions(e: AtomEntry): seq<Position>
    requires WellFormed(e)
  {
    PositionsUpTo(e, e.nAtoms)
  }

  predicate AllWellFormed(s: seq<AtomEntry>) {
    forall i :: 0 <= i < |s| ==> WellFormed(s[i])
  }

  /** One iteration of the loop: check the entry, then create the element's
      collector (first time) or check it against the stored constants, and
      append the entry's positions. */
  function AddEntry(m: map<nat, Collector>, e: AtomEntry, o: Oracles): Result<map<nat, Collector>>
    requires WellFormed(e)
  {
    if e.nAtoms == 0 then Err(BadInput)
    else
      var z := ZOf(o, e);
      if z == 0 then Err(BadInput)
      else
        var newData := AtomDataOf(o, e, z);
        if z !in m then Ok(m[z := Collector(newData, |m|, EntryPositions(e))])
        else if !o.sameValuesAs(m[z].data, newData) then Err(DataLoadError)
        else Ok(m[z := m[z].(positions := m[z].positions + EntryPositions(e))])
  }

  /** The map after the loop over the first n entries, or the error it
      raises. */
  function CollectUpTo(s: seq<AtomEntry>, o: Oracles, n: nat): Result<map<nat, Collector>>
    requires AllWellFormed(s) && n <= |s|
  {
    if n == 0 then Ok(map[])
    else
      match CollectUpTo(s, o, n - 1)
      case Err(e) => Err(e)
      case Ok(m) => AddEntry(m, s[n - 1], o)
  }

  // ---------------------------------------------------------------------
  // The meaning of the loop, stated over the whole input

  /** The atomic numbers of the first n entries of s. */
  ghost function ZsUpTo(s: seq<AtomEntry>, o: Oracles, n: nat): set<nat>
    requires n <= |s|
  {
    if n == 0 then {} else ZsUpTo(s, o, n - 1) + {ZOf(o, s[n - 1])}
  }

  /** ZsUpTo holds exactly the atomic numbers of the first n entries. */
  lemma {:induction false} ZsUpToMembers(s: seq<AtomEntry>, o: Oracles, n: nat, z: nat)
    requires n <= |s|
    ensures z in ZsUpTo(s, o, n) <==> exists i :: 0 <= i < n && ZOf(o, s[i]) == z
  {
    if n > 0 {
      ZsUpToMembers(s, o, n - 1, z);
      if ZOf(o, s[n - 1]) == z {
        assert 0 <= n - 1 < n && ZOf(o, s[n - 1]) == z;
      }
    }
  }

  /** The position of the first entry for element z among the first n: an
      entry for z with no entry for z before it. */
  ghost function First(s: seq<AtomEntry>, o: Oracles, n: nat, z: nat): (f: nat)
    requires n <= |s| && z in ZsUpTo(s, o, n)
    ensures f < n && ZOf(o, s[f]) == z && z !in ZsUpTo(s, o, f)
  {
    if z in ZsUpTo(s, o, n - 1) then First(s, o, n - 1, z) else n - 1
  }

  /** The positions of the first n entries for element z, in input order. */
  function PositionsFor(s: seq<AtomEntry>, o: Oracles, n: nat, z: nat): seq<Position>
    requires AllWellFormed(s) && n <= |s|
  {
    if n == 0 then []
    else
      var e := s[n - 1];
      PositionsFor(s, o, n - 1, z) + (if ZOf(o, e) == z then EntryPositions(e) else [])
  }

  /** Entry i passes its checks: it has atoms, a known element, and, unless
      it is the first entry of its element, the same constants as that
      first entry. */
  ghost predicate EntryAccepted(s: seq<AtomEntry>, o: Oracles, i: nat)
    requires i < |s|
  {
    var z := ZOf(o, s[i]);
    && s[i].nAtoms > 0 && z != 0
    && (z in ZsUpTo(s, o, i) ==>
          o.sameValuesAs(AtomDataOf(o, s[First(s, o, i, z)], z), AtomDataOf(o, s[i], z)))
  }

  ghost predicate AcceptedUpTo(s: seq<AtomEntry>, o: Oracles, n: nat)
    requires n <= |s|
  {
    forall i :: 0 <= i < n ==> EntryAccepted(s, o, i)
  }

  /** The error an entry that fails its checks raises. */
  function RejectionError(o: Oracles, e: AtomEntry): Error {
    if e.nAtoms == 0 || ZOf(o, e) == 0 then BadInput else DataLoadError
  }

  /** Entry f is the first of its element. */
  ghost predicate IsFirst(s: seq<AtomEntry>, o: Oracles, f: nat)
    requires f < |s|
  {
    ZOf(o, s[f]) !in ZsUpTo(s, o, f)
  }

  /** Map m holds, for the element of entry f, the constants of entry f
      and as index the number of distinct elements met before it. */
  ghost predicate FirstRecorded(s: seq<AtomEntry>, o: Oracles, m: map<nat, Collector>, f: nat)
    requires f < |s|
  {
    && ZOf(o, s[f]) in m
    && m[ZOf(o, s[f])].data == AtomDataOf(o, s[f], ZOf(o, s[f]))
    && m[ZOf(o, s[f])].index == |ZsUpTo(s, o, f)|
  }

  /** The map built from the first n entries holds one collector per element
      among them; each holds the positions of all the element's entries in
      input order, and the constants of the element's first entry, with as
      index the number of distinct elements met before that entry. */
  ghost predicate Grouped(s: seq<AtomEntry>, o: Oracles, n: nat, m: map<nat, Collector>)
    requires AllWellFormed(s) && n <= |s|
  {
    && m.Keys == ZsUpTo(s, o, n)
    && (forall z :: z in m ==> m[z].positions == PositionsFor(s, o, n, z))
    && (forall f :: 0 <= f < n && IsFirst(s, o, f) ==> FirstRecorded(s, o, m, f))
  }

  /** Every entry's element is among the atomic numbers of any longer
      prefix. */
  lemma {:induction false} ZsUpToHas(s: seq<AtomEntry>, o: Oracles, f: nat, n: nat)
    requires f < n <= |s|
    ensures ZOf(o, s[f]) in ZsUpTo(s, o, n)
    decreases n
  {
    if f < n - 1 {
      ZsUpToHas(s, o, f, n - 1);
    }
  }

  /** The first entry of an element does not move as more entries come. */
  lemma {:induction false} FirstStable(s: seq<AtomEntry>, o: Oracles, k: nat, n: nat, z: nat)
    requires k <= n <= |s| && z in ZsUpTo(s, o, k)
    ensures z in ZsUpTo(s, o, n) && First(s, o, n, z) == First(s, o, k, z)
    decreases n
  {
    if k < n {
      FirstStable(s, o, k, n - 1, z);
    }
  }

  /** An element with no entry among the first n has no positions. */
  lemma {:induction false} PositionsForAbsent(s: seq<AtomEntry>, o: Oracles, n: nat, z: nat)
    requires AllWellFormed(s) && n <= |s| && z !in ZsUpTo(s, o, n)
    ensures PositionsFor(s, o, n, z) == []
  {
    if n > 0 {
      PositionsForAbsent(s, o, n - 1, z);
    }
  }

  /** Storing collector c for the element of entry n - 1, with the
      positions of that entry appended, keeps the positions Grouped asks
      for. */
  lemma GroupedStepPositions(s: seq<AtomEntry>, o: Oracles, n: nat, m: map<nat, Collector>,
                             c: Collector)
    requires AllWellFormed(s) && 0 < n <= |s|
    requires m.Keys == ZsUpTo(s, o, n - 1)
    requires forall z :: z in m ==> m[z].positions == PositionsFor(s, o, n - 1, z)
    requires c.positions == (if ZOf(o, s[n - 1]) in m then m[ZOf(o, s[n - 1])].positions else [])
                            + EntryPositions(s[n - 1])
    ensures m[ZOf(o, s[n - 1]) := c].Keys == ZsUpTo(s, o, n)
    ensures forall z :: z in m[ZOf(o, s[n - 1]) := c] ==>
              m[ZOf(o, s[n - 1]) := c][z].positions == PositionsFor(s, o, n, z)
  {
    var e := s[n - 1];
    var zl := ZOf(o, e);
    var m1 := m[zl := c];
    forall z | z in m1 ensures m1[z].positions == PositionsFor(s, o, n, z) {
      if z == zl && zl !in m {
        PositionsForAbsent(s, o, n - 1, z);
      }
    }
  }

  /** Storing collector c for the element of entry n - 1, with the stored
      constants and index when the element was seen and the entry's own
      constants and the number of elements so far otherwise, keeps the
      constants and index of each element's first entry. */
  lemma GroupedStepFirsts(s: seq<AtomEntry>, o: Oracles, n: nat, m: map<nat, Collector>,
                          c: Collector)
    requires AllWellFormed(s) && 0 < n <= |s|
    requires m.Keys == ZsUpTo(s, o, n - 1)
    requires forall f :: 0 <= f < n - 1 && IsFirst(s, o, f) ==> FirstRecorded(s, o, m, f)
    requires ZOf(o, s[n - 1]) in m ==>
               c.data == m[ZOf(o, s[n - 1])].data && c.index == m[ZOf(o, s[n - 1])].index
    requires ZOf(o, s[n - 1]) !in m ==>
               c.data == AtomDataOf(o, s[n - 1], ZOf(o, s[n - 1])) && c.index == |m|
    ensures forall f :: 0 <= f < n && IsFirst(s, o, f) ==>
              FirstRecorded(s, o, m[ZOf(o, s[n - 1]) := c], f)
  {
    var zl := ZOf(o, s[n - 1]);
    var m1 := m[zl := c];
    forall f | 0 <= f < n && IsFirst(s, o, f) ensures FirstRecorded(s, o, m1, f) {
      if f == n - 1 {
        assert |m.Keys| == |m|;
      }
    }
  }

  /** Entry n - 1 passes its checks exactly when the loop step accepts it,
      and a rejected entry raises RejectionError. */
  lemma AcceptanceStep(s: seq<AtomEntry>, o: Oracles, n: nat, m: map<nat, Collector>)
    requires AllWellFormed(s) && 0 < n <= |s|
    requires Grouped(s, o, n - 1, m)
    ensures AddEntry(m, s[n - 1], o).Ok? <==> EntryAccepted(s, o, n - 1)
    ensures AddEntry(m, s[n - 1], o).Err? ==>
              AddEntry(m, s[n - 1], o).error == RejectionError(o, s[n - 1])
  {
    var zl := ZOf(o, s[n - 1]);
    if zl in m {
      var f := First(s, o, n - 1, zl);
      assert IsFirst(s, o, f);
    }
  }

  /** An accepted entry keeps the map grouped. */
  lemma CollectStep(s: seq<AtomEntry>, o: Oracles, n: nat, m: map<nat, Collector>)
    requires AllWellFormed(s) && 0 < n <= |s|
    requires Grouped(s, o, n - 1, m)
    ensures AddEntry(m, s[n - 1], o).Ok? ==> Grouped(s, o, n, AddEntry(m, s[n - 1], o).value)
  {
    var r := AddEntry(m, s[n - 1], o);
    if r.Ok? {
      var zl := ZOf(o, s[n - 1]);
      var c := r.value[zl];
      assert r.value == m[zl := c];
      GroupedStepPositions(s, o, n, m, c);
      GroupedStepFirsts(s, o, n, m, c);
    }
  }

  /** What the loop over the first n entries computes when it succeeds:
      it succeeds exactly when every one of them passes its checks, and
      then groups them as Grouped says. */
  lemma {:induction false} CollectOkMeaning(s: seq<AtomEntry>, o: Oracles, n: nat)
    requires AllWellFormed(s) && n <= |s|
    ensures CollectUpTo(s, o, n).Ok? <==> AcceptedUpTo(s, o, n)
    ensures CollectUpTo(s, o, n).Ok? ==> Grouped(s, o, n, CollectUpTo(s, o, n).value)
  {
    if n > 0 {
      CollectOkMeaning(s, o, n - 1);
      match CollectUpTo(s, o, n - 1)
      case Err(e) =>
        assert !AcceptedUpTo(s, o, n - 1);
      case Ok(m) =>
        AcceptanceStep(s, o, n, m);
        CollectStep(s, o, n, m);
    }
  }

  /** When the loop over the first n entries raises, it raises the error of
      the first entry that fails its checks. */
  lemma {:induction false} CollectErrMeaning(s: seq<AtomEntry>, o: Oracles, n: nat)
    requires AllWellFormed(s) && n <= |s| && CollectUpTo(s, o, n).Err?
    ensures exists i :: 0 <= i < n && !EntryAccepted(s, o, i)
                        && (forall j :: 0 <= j < i ==> EntryAccepted(s, o, j))
                        && CollectUpTo(s, o, n).error == RejectionError(o, s[i])
  {
    if CollectUpTo(s, o, n - 1).Err? {
      CollectErrMeaning(s, o, n - 1);
    } else {
      CollectOkMeaning(s, o, n - 1);
      AcceptanceStep(s, o, n, CollectUpTo(s, o, n - 1).value);
      assert forall j :: 0 <= j < n - 1 ==> EntryAccepted(s, o, j);
    }
  }

  /** The atomic numbers of a prefix are among those of any longer one. */
  lemma {:induction false} ZsUpToMonotone(s: seq<AtomEntry>, o: Oracles, k: nat, n: nat)
    requires k <= n <= |s|
    ensures ZsUpTo(s, o, k) <= ZsUpTo(s, o, n)
    decreases n
  {
    if k < n {
      ZsUpToMonotone(s, o, k, n - 1);
    }
  }

  /** Past a first entry there are strictly more distinct elements. */
  lemma ZsUpToGrows(s: seq<AtomEntry>, o: Oracles, f: nat, n: nat)
    requires f < n <= |s| && IsFirst(s, o, f)
    ensures |ZsUpTo(s, o, f)| < |ZsUpTo(s, o, n)|
  {
    var a, b := ZsUpTo(s, o, f), ZsUpTo(s, o, n);
    ZsUpToMonotone(s, o, f + 1, n);
    ZsUpToMonotone(s, o, f, n);
    assert ZOf(o, s[f]) in b - a;
    assert b == a + (b - a);
    assert |b| == |a| + |b - a|;
  }

  /** In a grouped map every index is below the number of elements. */
  lemma IndicesBelowCount(s: seq<AtomEntry>, o: Oracles, n: nat, m: map<nat, Collector>)
    requires AllWellFormed(s) && n <= |s| && Grouped(s, o, n, m)
    ensures forall z :: z in m ==> m[z].index < |m|
  {
    assert |m.Keys| == |m|;
    forall z | z in m ensures m[z].index < |m| {
      var f := First(s, o, n, z);
      assert IsFirst(s, o, f) && FirstRecorded(s, o, m, f);
      ZsUpToGrows(s, o, f, n);
    }
  }

  /** Elements get increasing indices in order of first appearance. */
  lemma IndicesIncreasing(s: seq<AtomEntry>, o: Oracles, n: nat, m: map<nat, Collector>)
    requires AllWellFormed(s) && n <= |s| && Grouped(s, o, n, m)
    ensures forall f1, f2 :: 0 <= f1 < f2 < n && IsFirst(s, o, f1) && IsFirst(s, o, f2) ==>
              m[ZOf(o, s[f1])].index < m[ZOf(o, s[f2])].index
  {
    forall f1, f2 | 0 <= f1 < f2 < n && IsFirst(s, o, f1) && IsFirst(s, o, f2)
      ensures m[ZOf(o, s[f1])].index < m[ZOf(o, s[f2])].index
    {
      assert FirstRecorded(s, o, m, f1) && FirstRecorded(s, o, m, f2);
      ZsUpToGrows(s, o, f1, f2);
    }
  }

  /** In a grouped map every index is below the number of elements, and
      elements get increasing indices in order of first appearance, so no
      two elements share one. */
  lemma IndicesByFirstAppearance(s: seq<AtomEntry>, o: Oracles, n: nat, m: map<nat, Collector>)
    requires AllWellFormed(s) && n <= |s| && Grouped(s, o, n, m)
    ensures forall z :: z in m ==> m[z].index < |m|
    ensures forall f1, f2 :: 0 <= f1 < f2 < n && IsFirst(s, o, f1) && IsFirst(s, o, f2) ==>
              m[ZOf(o, s[f1])].index < m[ZOf(o, s[f2])].index
    ensures forall z1, z2 :: z1 in m && z2 in m && z1 != z2 ==> m[z1].index != m[z2].index
  {
    IndicesBelowCount(s, o, n, m);
    IndicesIncreasing(s, o, n, m);
    forall z1, z2 | z1 in m && z2 in m && z1 != z2 ensures m[z1].index != m[z2].index {
      var f1, f2 := First(s, o, n, z1), First(s, o, n, z2);
      assert IsFirst(s, o, f1) && IsFirst(s, o, f2);
    }
  }

  /** One more entry: the loop goes on from the map of the first i. */
  lemma CollectUpToNext(s: seq<AtomEntry>, o: Oracles, i: nat, m: map<nat, Collector>)
    requires AllWellFormed(s) && i < |s| && CollectUpTo(s, o, i) == Ok(m)
    ensures CollectUpTo(s, o, i + 1) == AddEntry(m, s[i], o)
  {
  }

  /** Once the loop has raised, it raises the same error for any longer
      input. */
  lemma {:induction false} ErrorPersists(s: seq<AtomEntry>, o: Oracles, k: nat, n: nat)
    requires AllWellFormed(s) && k <= n <= |s|
    requires CollectUpTo(s, o, k).Err?
    ensures CollectUpTo(s, o, n) == CollectUpTo(s, o, k)
    decreases n
  {
    if k < n {
      ErrorPersists(s, o, k, n - 1);
    }
  }

  /** Every collector of a successful loop has at least one position, so the
      assertions of moveToAtomInfo hold, and is filed under its own atomic
      number. */
  lemma {:induction false} CollectedPositionsNonEmpty(s: seq<AtomEntry>, o: Oracles, n: nat)
    requires AllWellFormed(s) && n <= |s| && CollectUpTo(s, o, n).Ok?
    ensures forall z :: z in CollectUpTo(s, o, n).value ==>
              |CollectUpTo(s, o, n).value[z].positions| > 0
              && CollectUpTo(s, o, n).value[z].data.z == z
  {
    if n > 0 {
      CollectedPositionsNonEmpty(s, o, n - 1);
    }
  }

  // ---------------------------------------------------------------------
  // The imperative loops of loadNXSCrystal

  /** The inner loop copying an entry's nAtoms positions into a collector. */
  method AppendPositions(positions: seq<Position>, e: AtomEntry) returns (r: seq<Position>)
    requires WellFormed(e)
    ensures r == positions + EntryPositions(e)
  {
    r := positions;
    for ipos := 0 to e.nAtoms
      invariant r == positions + PositionsUpTo(e, ipos)
    {
      r := r + [Position(e.x[ipos], e.y[ipos], e.z[ipos])];
    }
  }

  /** The body of the loop over the atom entries for one entry. */
  method CollectEntry(m: map<nat, Collector>, e: AtomEntry, o: Oracles)
    returns (r: Result<map<nat, Collector>>)
    requires WellFormed(e)
    ensures r == AddEntry(m, e, o)
  {
    if e.nAtoms == 0 {
      return Err(BadInput);
    }
    var z := ZOf(o, e);
    if z == 0 {
      return Err(BadInput);
    }
    var newData := AtomDataOf(o, e, z);
    var c: Collector;
    if z !in m {
      // first time this Z-value is seen
      c := Collector(newData, |m|, []);
      assert c.positions + EntryPositions(e) == EntryPositions(e);
    } else {
      c := m[z];
      if !o.sameValuesAs(c.data, newData) {
        return Err(DataLoadError);
      }
    }
    var positions := AppendPositions(c.positions, e);
    r := Ok(m[z := c.(positions := positions)]);
  }

  /** The loop over the cell's atom entries filling zval_2_atominfo. */
  method CollectAtoms(entries: seq<AtomEntry>, o: Oracles) returns (r: Result<map<nat, Collector>>)
    requires AllWellFormed(entries)
    ensures r == CollectUpTo(entries, o, |entries|)
  {
    var m: map<nat, Collector> := map[];
    var i := 0;
    while i < |entries|
      invariant 0 <= i <= |entries|
      invariant CollectUpTo(entries, o, i) == Ok(m)
    {
      var step := CollectEntry(m, entries[i], o);
      CollectUpToNext(entries, o, i, m);
      if step.Err? {
        ErrorPersists(entries, o, i + 1, |entries|);
        return step;
      }
      m := step.value;
      i := i + 1;
    }
    r := Ok(m);
  }

  /** moveToAtomInfo: the collector's constants, index and positions, with
      the Debye temperature attached only when positive. */
  function MoveToAtomInfo(c: Collector, rawDebyeTemp: real): (a: AtomInfo)
    ensures a.data == c.data && a.index == c.index && a.positions == c.positions
    ensures a.debyeTemp.Some? <==> rawDebyeTemp > 0.0
    ensures a.debyeTemp.Some? ==> a.debyeTemp.value == rawDebyeTemp
  {
    AtomInfo(c.data, c.index, c.positions,
             if rawDebyeTemp > 0.0 then Some(rawDebyeTemp) else None)
  }

  /** z is the smallest element of ks. */
  predicate IsSmallest(z: nat, ks: set<nat>) {
    z in ks && forall y :: y in ks ==> z <= y
  }

  /** Every non-empty set of atomic numbers has a smallest element. */
  lemma {:induction false} SmallestExists(ks: set<nat>)
    requires ks != {}
    ensures exists z :: IsSmallest(z, ks)
    decreases |ks|
  {
    var x :| x in ks;
    var rest := ks - {x};
    var w := x;
    if rest != {} {
      SmallestExists(rest);
      var z :| IsSmallest(z, rest);
      w := if x < z then x else z;
      forall y | y in ks ensures w <= y {
        if y != x { assert y in rest; }
      }
    } else {
      forall y | y in ks ensures w <= y {
        assert y !in rest;
      }
    }
    assert IsSmallest(w, ks);
  }

  /** Two smallest elements of a set are the same element. */
  lemma SmallestUnique(z1: nat, z2: nat, ks: set<nat>)
    requires IsSmallest(z1, ks) && IsSmallest(z2, ks)
    ensures z1 == z2
  {
    assert z1 <= z2 && z2 <= z1;
  }

  /** The keys of a map in the order std::map iterates them: ascending. */
  function AscendingOrder(ks: set<nat>): (r: seq<nat>)
    decreases |ks|
  {
    if ks == {} then []
    else
      SmallestExists(ks);
      var z :| IsSmallest(z, ks);
      [z] + AscendingOrder(ks - {z})
  }

  /** The ascending order starts with the smallest key. */
  lemma AscendingOrderUnfold(ks: set<nat>, z: nat)
    requires IsSmallest(z, ks)
    ensures AscendingOrder(ks) == [z] + AscendingOrder(ks - {z})
  {
    var z1 :| IsSmallest(z1, ks) && AscendingOrder(ks) == [z1] + AscendingOrder(ks - {z1});
    SmallestUnique(z, z1, ks);
  }

  /** The ascending order lists exactly the keys. */
  lemma {:induction false} AscendingOrderMembers(ks: set<nat>)
    ensures |AscendingOrder(ks)| == |ks|
    ensures forall y :: y in AscendingOrder(ks) <==> y in ks
    decreases |ks|
  {
    if ks != {} {
      SmallestExists(ks);
      var z :| IsSmallest(z, ks);
      AscendingOrderUnfold(ks, z);
      AscendingOrderMembers(ks - {z});
    }
  }

  /** The ascending order is strictly ascending. */
  lemma {:induction false} AscendingOrderIncreasing(ks: set<nat>)
    ensures var r := AscendingOrder(ks);
            forall i, j :: 0 <= i < j < |r| ==> r[i] < r[j]
    decreases |ks|
  {
    if ks != {} {
      SmallestExists(ks);
      var z :| IsSmallest(z, ks);
      var rest := ks - {z};
      AscendingOrderUnfold(ks, z);
      AscendingOrderIncreasing(rest);
      AscendingOrderMembers(rest);
      var r, t := AscendingOrder(ks), AscendingOrder(rest);
      forall i, j | 0 <= i < j < |r| ensures r[i] < r[j] {
        assert r[j] == t[j - 1];
        if i > 0 {
          assert r[i] == t[i - 1];
        } else {
          assert t[j - 1] in rest;
        }
      }
    }
  }

  /** The ascending order lists every key once, in strictly ascending
      order, and nothing else. */
  lemma AscendingOrderSorted(ks: set<nat>)
    ensures var r := AscendingOrder(ks);
            && |r| == |ks|
            && (forall i :: 0 <= i < |r| ==> r[i] in ks)
            && (forall z :: z in ks ==> z in r)
            && (forall i, j :: 0 <= i < j < |r| ==> r[i] < r[j])
  {
    AscendingOrderMembers(ks);
    AscendingOrderIncreasing(ks);
  }

  /** The atom list for the map keys `keys`, in that order. */
  function AtomInfosFor(m: map<nat, Collector>, keys: seq<nat>, rawDebyeTemp: real): (r: seq<AtomInfo>)
    requires forall i :: 0 <= i < |keys| ==> keys[i] in m
    ensures |r| == |keys|
  {
    if keys == [] then []
    else AtomInfosFor(m, keys[..|keys| - 1], rawDebyeTemp)
         + [MoveToAtomInfo(m[keys[|keys| - 1]], rawDebyeTemp)]
  }

  lemma {:induction false} AtomInfosForAt(m: map<nat, Collector>, keys: seq<nat>, rawDebyeTemp: real, i: nat)
    requires forall j :: 0 <= j < |keys| ==> keys[j] in m
    requires i < |keys|
    ensures AtomInfosFor(m, keys, rawDebyeTemp)[i] == MoveToAtomInfo(m[keys[i]], rawDebyeTemp)
  {
    if i < |keys| - 1 {
      var pre := keys[..|keys| - 1];
      assert pre[i] == keys[i];
      AtomInfosForAt(m, pre, rawDebyeTemp, i);
    }
  }

  /** The atom list loadNXSCrystal builds from the map. */
  function AtomListOf(m: map<nat, Collector>, rawDebyeTemp: real): seq<AtomInfo> {
    AscendingOrderMembers(m.Keys);
    AtomInfosFor(m, AscendingOrder(m.Keys), rawDebyeTemp)
  }

  /** Entry i of the atom list is the collector of the i-th key in
      ascending order. */
  lemma AtomListOfAt(m: map<nat, Collector>, rawDebyeTemp: real, i: nat)
    requires i < |AtomListOf(m, rawDebyeTemp)|
    ensures AscendingOrder(m.Keys)[i] in m
    ensures AtomListOf(m, rawDebyeTemp)[i] == MoveToAtomInfo(m[AscendingOrder(m.Keys)[i]], rawDebyeTemp)
  {
    AscendingOrderSorted(m.Keys);
    AtomInfosForAt(m, AscendingOrder(m.Keys), rawDebyeTemp, i);
  }

  /** Entry i of the atom list carries the i-th key in ascending order as
      its atomic number, when every collector carries its own key. */
  lemma AtomListOfZ(m: map<nat, Collector>, rawDebyeTemp: real, i: nat)
    requires forall z :: z in m ==> m[z].data.z == z
    requires i < |AtomListOf(m, rawDebyeTemp)|
    ensures AtomListOf(m, rawDebyeTemp)[i].data.z == AscendingOrder(m.Keys)[i]
    ensures AtomListOf(m, rawDebyeTemp)[i].data.z in m
    ensures AtomListOf(m, rawDebyeTemp)[i] == MoveToAtomInfo(m[AtomListOf(m, rawDebyeTemp)[i].data.z], rawDebyeTemp)
  {
    AtomListOfAt(m, rawDebyeTemp, i);
  }

  /** The atom list is as long as the map and strictly ascending in atomic
      number. */
  lemma AtomListOfAscending(m: map<nat, Collector>, rawDebyeTemp: real)
    requires forall z :: z in m ==> m[z].data.z == z
    ensures |AtomListOf(m, rawDebyeTemp)| == |m|
    ensures var list := AtomListOf(m, rawDebyeTemp);
            forall i, j :: 0 <= i < j < |list| ==> list[i].data.z < list[j].data.z
  {
    AscendingOrderSorted(m.Keys);
    assert |m.Keys| == |m|;
    var list := AtomListOf(m, rawDebyeTemp);
    forall i, j | 0 <= i < j < |list| ensures list[i].data.z < list[j].data.z {
      AtomListOfZ(m, rawDebyeTemp, i);
      AtomListOfZ(m, rawDebyeTemp, j);
    }
  }

  /** Every key of the map has its entry in the atom list. */
  lemma AtomListOfComplete(m: map<nat, Collector>, rawDebyeTemp: real, z: nat)
    requires forall z :: z in m ==> m[z].data.z == z
    requires z in m
    ensures var list := AtomListOf(m, rawDebyeTemp);
            exists i :: 0 <= i < |list| && list[i].data.z == z
  {
    var keys := AscendingOrder(m.Keys);
    AscendingOrderMembers(m.Keys);
    var i :| 0 <= i < |keys| && keys[i] == z;
    AtomListOfZ(m, rawDebyeTemp, i);
  }

  /** The atom list holds one AtomInfo per key of the map, in strictly
      ascending atomic number, each the collector of its atomic number moved
      into an AtomInfo. */
  lemma AtomListOfMeaning(m: map<nat, Collector>, rawDebyeTemp: real)
    requires forall z :: z in m ==> m[z].data.z == z
    ensures var list := AtomListOf(m, rawDebyeTemp);
            && |list| == |m|
            && (forall i :: 0 <= i < |list| ==>
                  list[i].data.z in m && list[i] == MoveToAtomInfo(m[list[i].data.z], rawDebyeTemp))
            && (forall i, j :: 0 <= i < j < |list| ==> list[i].data.z < list[j].data.z)
            && (forall z :: z in m ==> exists i :: 0 <= i < |list| && list[i].data.z == z)
  {
    AtomListOfAscending(m, rawDebyeTemp);
    var list := AtomListOf(m, rawDebyeTemp);
    forall i | 0 <= i < |list|
      ensures list[i].data.z in m && list[i] == MoveToAtomInfo(m[list[i].data.z], rawDebyeTemp)
    {
      AtomListOfZ(m, rawDebyeTemp, i);
    }
    forall z | z in m ensures exists i :: 0 <= i < |list| && list[i].data.z == z {
      AtomListOfComplete(m, rawDebyeTemp, z);
    }
  }

  /** The loop over zval_2_atominfo building the atom list. */
  method EmitAtomList(m: map<nat, Collector>, rawDebyeTemp: real) returns (list: seq<AtomInfo>)
    ensures list == AtomListOf(m, rawDebyeTemp)
  {
    var keys := AscendingOrder(m.Keys);
    AscendingOrderMembers(m.Keys);
    list := [];
    for i := 0 to |keys|
      invariant list == AtomInfosFor(m, keys[..i], rawDebyeTemp)
    {
      assert keys[..i + 1][..i] == keys[..i];
      list := list + [MoveToAtomInfo(m[keys[i]], rawDebyeTemp)];
    }
    assert keys[..|keys|] == keys;
  }
}
