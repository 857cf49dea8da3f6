/** loadNXSCrystal: two initNXS passes (the first with index bound 1 for the
    cell, the second with the bound the resolved lower d-spacing cutoff
    needs), then the reflection list, the structure info, the atom list,
    the temperature and the density copied into the builder, and finally
    the partial release of the cell, whose provider lives on as the
    background cross-section provider. */
module NxsLoader {
  import opened NxsErrors
  import opened NxsTypes
  import opened Legacy
  import opened NxsCell
  import opened NxsInit
  import opened CutoffSelection
  import opened Reflections
  import opened AtomGrouping

  /** NCrystal's StructureInfo as the loader fills it. */
  datatype StructureInfo = StructureInfo(spacegroup: int, a: real, b: real, c: real,
                                         alpha: real, beta: real, gamma: real,
                                         volume: real, nAtoms: int)

  /** The parts of the SinglePhaseBuilder the loader fills in, besides the
      background provider. */
  datatype Crystal = Crystal(structure: StructureInfo, atoms: seq<AtomInfo>,
                             temperature: Option<real>, density: real,
                             hklPlanes: Option<HklPlanes>)

  /** The entries the loader reads from the storage exist and their
      coordinate arrays hold nAtoms entries each. */
  predicate EntriesReadable(s: AtomStore) {
    Readable(s) && AllWellFormed(StoredEntries(s))
  }

  /** The atom storage the last initNXS pass starts from: the zero-filled
      cell's when reflections are disabled, otherwise what deinitNXS left of
      the first pass's storage (a null list, the count of that pass). */
  function FinalPrior(o: Oracles, lines: seq<seq<char>>, lower: real): AtomStore
    requires o.readParameterFile(lines).Read?
  {
    if lower == HklDisabled then EmptyStore
    else Released(AddAll(o, EmptyStore, o.readParameterFile(lines).atoms))
  }

  /** The atom storage the last initNXS pass leaves in the cell. */
  function FinalStore(o: Oracles, lines: seq<seq<char>>, lower: real): AtomStore
    requires o.readParameterFile(lines).Read?
  {
    AddAll(o, FinalPrior(o, lines, lower), o.readParameterFile(lines).atoms)
  }

  /** What the loader takes for granted of the legacy storage once the
      passes have succeeded: that the entries it reads are there. */
  predicate LoadWellFormed(o: Oracles, lines: seq<seq<char>>, temperature: real,
                           lower: real, upper: real, fixPolyatom: bool) {
    PassesOutcome(o, lines, temperature, lower, upper, fixPolyatom).Pass? ==>
      o.readParameterFile(lines).Read? && EntriesReadable(FinalStore(o, lines, lower))
  }

  /** The maxHKLFromDCut lambda for the cell parameters p. */
  function MaxAt(o: Oracles, p: CellParams): real -> int {
    d => MaxHklFromDCut(o, p, d)
  }

  /** The lower cutoff after resolution, for the cell the first pass set up. */
  function ResolvedCutoff(o: Oracles, lines: seq<seq<char>>, lower: real, upper: real): real
    requires o.readParameterFile(lines).Read?
  {
    ResolveLowerCutoff(lower, upper, MaxAt(o, CompletedParams(o, lines)))
  }

  /** The index bound computed for the second pass. */
  function SecondMaxHkl(o: Oracles, lines: seq<seq<char>>, lower: real, upper: real): int
    requires o.readParameterFile(lines).Read?
  {
    MaxHklFromDCut(o, CompletedParams(o, lines), ResolvedCutoff(o, lines, lower, upper))
  }

  /** How the initNXS passes end: the first pass's failure, the
      combinatorics guard, or the second pass's outcome. The first pass runs
      on the zero-filled cell, the second on the cell after deinitNXS. */
  function PassesOutcome(o: Oracles, lines: seq<seq<char>>, temperature: real,
                         lower: real, upper: real, fixPolyatom: bool): Outcome
  {
    var first := InitOutcome(o, lines, EmptyStore, temperature, 1, fixPolyatom);
    if first.Fail? || lower == HklDisabled then first
    else
      var m := SecondMaxHkl(o, lines, lower, upper);
      if m > MaxHklLimit then Fail(CalcError)
      else InitOutcome(o, lines, FinalPrior(o, lines, lower), temperature, m, fixPolyatom)
  }

  /** The index bounds initNXS is called with, in order. */
  function InitPasses(o: Oracles, lines: seq<seq<char>>, temperature: real,
                      lower: real, upper: real, fixPolyatom: bool): seq<int>
  {
    var first := InitOutcome(o, lines, EmptyStore, temperature, 1, fixPolyatom);
    if first.Fail? || lower == HklDisabled then [1]
    else
      var m := SecondMaxHkl(o, lines, lower, upper);
      if m > MaxHklLimit then [1] else [1, m]
  }

  /** The index bound of the last pass. */
  function FinalMaxHkl(o: Oracles, lines: seq<seq<char>>, lower: real, upper: real): int
    requires o.readParameterFile(lines).Read?
  {
    if lower == HklDisabled then 1 else SecondMaxHkl(o, lines, lower, upper)
  }

  /** The lower cutoff of the reflection range, None when reflections are
      disabled. */
  function FinalCutoff(o: Oracles, lines: seq<seq<char>>, lower: real, upper: real): Option<real>
    requires o.readParameterFile(lines).Read?
  {
    if lower == HklDisabled then None else Some(ResolvedCutoff(o, lines, lower, upper))
  }

  /** What the loader builds from a cell initialised with index bound
      maxhkl, starting from atom storage `prior`: the reflection list for
      the range (lower cutoff `cutoff`, upper cutoff `upper`) if reflections
      are enabled, the structure info, the grouped atom list of the stored
      entries (or the error the grouping raises), the temperature if
      positive, and the density. */
  function Assemble(o: Oracles, lines: seq<seq<char>>, temperature: real, maxhkl: int,
                    fixPolyatom: bool, prior: AtomStore, cutoff: Option<real>, upper: real)
    : Result<Crystal>
    requires o.readParameterFile(lines).Read?
    requires EntriesReadable(AddAll(o, prior, o.readParameterFile(lines).atoms))
  {
    var rd := o.readParameterFile(lines);
    var d := o.initHkl(RequestFor(o, rd.params, prior, rd.atoms, temperature, maxhkl, fixPolyatom));
    var s := StoredEntries(AddAll(o, prior, rd.atoms));
    var p := CompletedParams(o, lines);
    var si := StructureInfo(p.sgNumber, p.a, p.b, p.c, p.alpha, p.beta, p.gamma,
                            d.volume, d.nAtoms);
    var planes := if cutoff.None? then None
                  else Some(HklPlanes(cutoff.value, upper, Filtered(d.hklList, cutoff.value, upper)));
    match CollectUpTo(s, o, |s|)
    case Err(e) => Err(e)
    case Ok(m) =>
      Ok(Crystal(si, AtomListOf(m, p.debyeTemp),
                 if temperature > 0.0 then Some(temperature) else None,
                 d.density, planes))
  }

  /** loadNXSCrystal(textData, temperature, dcutoff, dcutoffup,
      bkgdlikemcstas, fixpolyatom) as a value. */
  function LoadSpec(o: Oracles, lines: seq<seq<char>>, temperature: real,
                    lower: real, upper: real, fixPolyatom: bool): Result<Crystal>
    requires LoadWellFormed(o, lines, temperature, lower, upper, fixPolyatom)
  {
    match PassesOutcome(o, lines, temperature, lower, upper, fixPolyatom)
    case Fail(e) => Err(e)
    case Pass =>
      Assemble(o, lines, temperature, FinalMaxHkl(o, lines, lower, upper), fixPolyatom,
               FinalPrior(o, lines, lower), FinalCutoff(o, lines, lower, upper), upper)
  }

  // ---------------------------------------------------------------------
  // Properties of the loader

  /** In this model the reader and nxs_initUnitCell see only the text and
      the parsed parameters, not what the first pass left in the cell, so
      the second pass reads the same parameters, gets the same symmetry
      operators and checks the same lattice as the first. Under that
      assumption, once the first pass has passed the second can only fail
      because nxs_initHKL set SgError, and then with a DataLoadError. */
  lemma SecondPassFailsOnlyInInitHkl(o: Oracles, lines: seq<seq<char>>, temperature: real,
                                     maxhkl: int, fixPolyatom: bool, prior: AtomStore)
    requires InitOutcome(o, lines, EmptyStore, temperature, 1, fixPolyatom).Pass?
    ensures var rd := o.readParameterFile(lines);
            && rd.Read?
            && var second := InitOutcome(o, lines, prior, temperature, maxhkl, fixPolyatom);
               var d := o.initHkl(RequestFor(o, rd.params, prior, rd.atoms, temperature, maxhkl, fixPolyatom));
               && (second.Fail? <==> d.sgError.Some?)
               && (second.Fail? ==> second.error == DataLoadError)
  {
  }

  /** Before assembly the loader fails with the first pass's error, with a
      CalcError exactly when the reflections are enabled and the second
      index bound exceeds 50, or with a DataLoadError from the second pass.
      An error other than DataLoadError is the combinatorics guard's
      CalcError or comes from the lattice check. */
  lemma PassesFailures(o: Oracles, lines: seq<seq<char>>, temperature: real,
                       lower: real, upper: real, fixPolyatom: bool)
    ensures var first := InitOutcome(o, lines, EmptyStore, temperature, 1, fixPolyatom);
            var r := PassesOutcome(o, lines, temperature, lower, upper, fixPolyatom);
            && (first.Fail? ==> r == first)
            && (first.Pass? && lower == HklDisabled ==> r == Pass)
            && (first.Pass? && lower != HklDisabled ==>
                  && o.readParameterFile(lines).Read?
                  && (SecondMaxHkl(o, lines, lower, upper) > MaxHklLimit ==> r == Fail(CalcError))
                  && (SecondMaxHkl(o, lines, lower, upper) <= MaxHklLimit && r.Fail? ==>
                        r.error == DataLoadError))
            && (r.Fail? && r.error != DataLoadError ==>
                  || (r.error == CalcError && first.Pass? && lower != HklDisabled
                      && SecondMaxHkl(o, lines, lower, upper) > MaxHklLimit)
                  || (o.readParameterFile(lines).Read?
                      && var p := o.readParameterFile(lines).params;
                         o.checkAndCompleteLattice(p.sgNumber, p.a, p.b, p.c) == LatticeRejected(r.error)))
  {
    var first := InitOutcome(o, lines, EmptyStore, temperature, 1, fixPolyatom);
    InitFailuresAreDataLoadErrors(o, lines, EmptyStore, temperature, 1, fixPolyatom);
    if first.Pass? && lower != HklDisabled {
      SecondPassFailsOnlyInInitHkl(o, lines, temperature, SecondMaxHkl(o, lines, lower, upper),
                                   fixPolyatom, FinalPrior(o, lines, lower));
    }
  }

  /** initNXS runs once when the first pass fails, when reflections are
      disabled, or when the combinatorics guard fires, and otherwise twice,
      the second time with an index bound of at most 50. A loaded crystal
      had two passes exactly when its reflections are enabled. */
  lemma PassCount(o: Oracles, lines: seq<seq<char>>, temperature: real,
                  lower: real, upper: real, fixPolyatom: bool)
    requires LoadWellFormed(o, lines, temperature, lower, upper, fixPolyatom)
    ensures var ps := InitPasses(o, lines, temperature, lower, upper, fixPolyatom);
            && 1 <= |ps| <= 2 && ps[0] == 1
            && (|ps| == 2 ==> lower != HklDisabled && ps[1] <= MaxHklLimit
                              && o.readParameterFile(lines).Read?
                              && ps[1] == SecondMaxHkl(o, lines, lower, upper))
            && (LoadSpec(o, lines, temperature, lower, upper, fixPolyatom).Ok? ==>
                  (|ps| == 2 <==> lower != HklDisabled))
  {
  }

  /** A loaded crystal has reflection data exactly when the lower cutoff is
      not -1. Its range is the resolved cutoff (the caller's, or the
      automatic one for 0) up to the caller's upper cutoff, and its list is
      the filtered reflection list of the second pass: every reflection in
      the range with a squared structure factor of at least 1e-5, in legacy
      order. The second pass had an index bound of at most 50. */
  lemma LoadedReflections(o: Oracles, lines: seq<seq<char>>, temperature: real,
                          lower: real, upper: real, fixPolyatom: bool)
    requires LoadWellFormed(o, lines, temperature, lower, upper, fixPolyatom)
    requires LoadSpec(o, lines, temperature, lower, upper, fixPolyatom).Ok?
    ensures var c := LoadSpec(o, lines, temperature, lower, upper, fixPolyatom).value;
            && (c.hklPlanes.Some? <==> lower != HklDisabled)
            && (c.hklPlanes.Some? ==>
                  && o.readParameterFile(lines).Read?
                  && var rd := o.readParameterFile(lines);
                     var m := SecondMaxHkl(o, lines, lower, upper);
                     var d := o.initHkl(RequestFor(o, rd.params, FinalPrior(o, lines, lower), rd.atoms,
                                                   temperature, m, fixPolyatom));
                     var hp := c.hklPlanes.value;
                     && m <= MaxHklLimit
                     && hp.dspacingLower == ResolveLowerCutoff(lower, upper, MaxAt(o, CompletedParams(o, lines)))
                     && hp.dspacingUpper == upper
                     && hp.source == Filtered(d.hklList, hp.dspacingLower, upper)
                     && |hp.source| <= |d.hklList|
                     && (forall j :: 0 <= j < |hp.source| ==>
                           hp.dspacingLower <= hp.source[j].dspacing <= upper
                           && hp.source[j].fsquared >= 0.00001))
  {
    var c := LoadSpec(o, lines, temperature, lower, upper, fixPolyatom).value;
    if c.hklPlanes.Some? {
      var rd := o.readParameterFile(lines);
      var m := SecondMaxHkl(o, lines, lower, upper);
      var d := o.initHkl(RequestFor(o, rd.params, FinalPrior(o, lines, lower), rd.atoms,
                                    temperature, m, fixPolyatom));
      FilteredBounds(d.hklList, c.hklPlanes.value.dspacingLower, upper);
    }
  }

  /** The structure info of a loaded crystal is the completed lattice of
      the parsed cell with the volume and atom count of the last pass; the
      density is the last pass's; the temperature is given exactly when it
      is positive. */
  lemma LoadedCellInfo(o: Oracles, lines: seq<seq<char>>, temperature: real,
                       lower: real, upper: real, fixPolyatom: bool)
    requires LoadWellFormed(o, lines, temperature, lower, upper, fixPolyatom)
    requires LoadSpec(o, lines, temperature, lower, upper, fixPolyatom).Ok?
    ensures o.readParameterFile(lines).Read?
    ensures var c := LoadSpec(o, lines, temperature, lower, upper, fixPolyatom).value;
            var rd := o.readParameterFile(lines);
            var d := o.initHkl(RequestFor(o, rd.params, FinalPrior(o, lines, lower), rd.atoms, temperature,
                                          FinalMaxHkl(o, lines, lower, upper), fixPolyatom));
            var lattice := o.checkAndCompleteLattice(rd.params.sgNumber, rd.params.a, rd.params.b, rd.params.c);
            && lattice.LatticeOk?
            && d.sgError.None?
            && c.structure == StructureInfo(rd.params.sgNumber, rd.params.a, lattice.b, lattice.c,
                                            rd.params.alpha, rd.params.beta, rd.params.gamma,
                                            d.volume, d.nAtoms)
            && c.density == d.density
            && (c.temperature.Some? <==> temperature > 0.0)
            && (c.temperature.Some? ==> c.temperature.value == temperature)
  {
  }

  /** A crystal loads exactly when the passes succeed and every atom entry
      the cell stores is accepted; otherwise the error is the passes' error,
      or the error of the first rejected stored entry. */
  lemma LoadOutcomeCases(o: Oracles, lines: seq<seq<char>>, temperature: real,
                         lower: real, upper: real, fixPolyatom: bool)
    requires LoadWellFormed(o, lines, temperature, lower, upper, fixPolyatom)
    ensures var r := LoadSpec(o, lines, temperature, lower, upper, fixPolyatom);
            var passes := PassesOutcome(o, lines, temperature, lower, upper, fixPolyatom);
            && (passes.Fail? ==> r == Err(passes.error))
            && (passes.Pass? ==>
                  && o.readParameterFile(lines).Read?
                  && EntriesReadable(FinalStore(o, lines, lower))
                  && var s := StoredEntries(FinalStore(o, lines, lower));
                     && (r.Ok? <==> AcceptedUpTo(s, o, |s|))
                     && (r.Err? ==>
                           exists i :: 0 <= i < |s| && !EntryAccepted(s, o, i)
                                       && (forall j :: 0 <= j < i ==> EntryAccepted(s, o, j))
                                       && r.error == RejectionError(o, s[i])))
  {
    var passes := PassesOutcome(o, lines, temperature, lower, upper, fixPolyatom);
    if passes.Pass? {
      var s := StoredEntries(FinalStore(o, lines, lower));
      CollectOkMeaning(s, o, |s|);
      if CollectUpTo(s, o, |s|).Err? {
        CollectErrMeaning(s, o, |s|);
      }
    }
  }

  /** The atom list built from a grouping map: one AtomInfo per element, in
      strictly ascending atomic number, each holding the positions of all
      the element's entries in input order, the constants of its first
      entry, an index in order of first appearance, and the cell's Debye
      temperature when positive. */
  lemma GroupedAtomList(s: seq<AtomEntry>, o: Oracles, m: map<nat, Collector>, debyeTemp: real)
    requires AllWellFormed(s) && CollectUpTo(s, o, |s|) == Ok(m)
    ensures var atoms := AtomListOf(m, debyeTemp);
            && |atoms| == |ZsUpTo(s, o, |s|)|
            && (forall i, j :: 0 <= i < j < |atoms| ==> atoms[i].data.z < atoms[j].data.z)
            && (forall i :: 0 <= i < |atoms| ==>
                  && atoms[i].data.z in ZsUpTo(s, o, |s|)
                  && atoms[i].positions == PositionsFor(s, o, |s|, atoms[i].data.z)
                  && |atoms[i].positions| > 0
                  && atoms[i].index < |atoms|
                  && atoms[i].debyeTemp == (if debyeTemp > 0.0 then Some(debyeTemp) else None))
            && (forall f :: 0 <= f < |s| && IsFirst(s, o, f) ==>
                  exists i :: 0 <= i < |atoms| && atoms[i].data == AtomDataOf(o, s[f], ZOf(o, s[f]))
                              && atoms[i].index == |ZsUpTo(s, o, f)|)
  {
    CollectOkMeaning(s, o, |s|);
    CollectedPositionsNonEmpty(s, o, |s|);
    IndicesByFirstAppearance(s, o, |s|, m);
    AtomListOfMeaning(m, debyeTemp);
    var atoms := AtomListOf(m, debyeTemp);
    assert |m.Keys| == |m|;
    forall f | 0 <= f < |s| && IsFirst(s, o, f)
      ensures exists i :: 0 <= i < |atoms| && atoms[i].data == AtomDataOf(o, s[f], ZOf(o, s[f]))
                          && atoms[i].index == |ZsUpTo(s, o, f)|
    {
      var z := ZOf(o, s[f]);
      var i :| 0 <= i < |atoms| && atoms[i].data.z == z;
      assert atoms[i] == MoveToAtomInfo(m[z], debyeTemp);
    }
  }

  /** The atoms of a loaded crystal: every entry the cell stores after the
      last pass was accepted, and the list is the grouping of those entries
      by element, with the Debye temperature of the completed cell. */
  lemma LoadedAtoms(o: Oracles, lines: seq<seq<char>>, temperature: real,
                    lower: real, upper: real, fixPolyatom: bool)
    requires LoadWellFormed(o, lines, temperature, lower, upper, fixPolyatom)
    requires LoadSpec(o, lines, temperature, lower, upper, fixPolyatom).Ok?
    ensures o.readParameterFile(lines).Read? && EntriesReadable(FinalStore(o, lines, lower))
    ensures var s := StoredEntries(FinalStore(o, lines, lower));
            && AcceptedUpTo(s, o, |s|)
            && CollectUpTo(s, o, |s|).Ok?
            && LoadSpec(o, lines, temperature, lower, upper, fixPolyatom).value.atoms
                 == AtomListOf(CollectUpTo(s, o, |s|).value, CompletedParams(o, lines).debyeTemp)
  {
    var s := StoredEntries(FinalStore(o, lines, lower));
    CollectOkMeaning(s, o, |s|);
  }

  // ---------------------------------------------------------------------
  // The loader as the source runs it

  /** The cell after a successful initNXS with index bound maxhkl on a cell
      whose atom storage was `prior`. */
  ghost predicate CellLoaded(uc: UnitCell, o: Oracles, lines: seq<seq<char>>,
                             temperature: real, maxhkl: int, prior: AtomStore, fixPolyatom: bool)
    reads uc
  {
    && o.readParameterFile(lines).Read?
    && var rd := o.readParameterFile(lines);
       var d := o.initHkl(RequestFor(o, rd.params, prior, rd.atoms, temperature, maxhkl, fixPolyatom));
       && uc.params == CompletedParams(o, lines)
       && uc.temperature == temperature
       && uc.Store() == AddAll(o, prior, rd.atoms)
       && uc.hklList == Some(d.hklList)
       && uc.volume == d.volume && uc.density == d.density && uc.nAtoms == d.nAtoms
  }

  /** The two initNXS passes with the cutoff resolution between them. */
  method RunInitPasses(uc: UnitCell, g: LegacyGlobals, lines: seq<seq<char>>, temperature: real,
                       lower: real, upper: real, fixPolyatom: bool, o: Oracles)
    returns (r: Outcome, cutoff: Option<real>, maxhkl: int, ghost passes: seq<int>)
    requires uc.Valid() && uc.Store() == EmptyStore
    modifies uc, g
    ensures uc.Valid()
    ensures r == PassesOutcome(o, lines, temperature, lower, upper, fixPolyatom)
    ensures passes == InitPasses(o, lines, temperature, lower, upper, fixPolyatom)
    ensures r.Pass? ==>
              && o.readParameterFile(lines).Read?
              && maxhkl == FinalMaxHkl(o, lines, lower, upper)
              && cutoff == FinalCutoff(o, lines, lower, upper)
              && CellLoaded(uc, o, lines, temperature, maxhkl, FinalPrior(o, lines, lower), fixPolyatom)
              && g.sgError == old(g.sgError)
    // the full release precedes the combinatorics guard
    ensures r == Fail(CalcError) && lower != HklDisabled
            && InitOutcome(o, lines, EmptyStore, temperature, 1, fixPolyatom).Pass? ==>
              uc.hklList.None? && uc.atomInfoList.None?
  {
    passes := [1];
    maxhkl := 1;
    cutoff := None;
    r := InitNxs(uc, g, lines, temperature, maxhkl, fixPolyatom, o);
    if r.Fail? || lower == HklDisabled {
      return;
    }
    var dlower := lower;
    if dlower == 0.0 {
      dlower := AutoCutoff(upper, MaxAt(o, uc.params));
    }
    maxhkl := MaxHklFromDCut(o, uc.params, dlower);
    cutoff := Some(dlower);
    uc.DeinitAll();
    if maxhkl > MaxHklLimit {
      return Fail(CalcError), cutoff, maxhkl, passes;
    }
    passes := passes + [maxhkl];
    r := InitNxs(uc, g, lines, temperature, maxhkl, fixPolyatom, o);
  }

  /** The part of loadNXSCrystal that reads the initialised cell: the
      reflection loop, the structure info, the atom loops, the temperature
      and the density. It changes nothing. */
  method AssembleCrystal(uc: UnitCell, o: Oracles, lines: seq<seq<char>>, temperature: real,
                         maxhkl: int, fixPolyatom: bool, prior: AtomStore, cutoff: Option<real>,
                         upper: real)
    returns (r: Result<Crystal>)
    requires CellLoaded(uc, o, lines, temperature, maxhkl, prior, fixPolyatom)
    requires EntriesReadable(uc.Store())
    ensures r == Assemble(o, lines, temperature, maxhkl, fixPolyatom, prior, cutoff, upper)
  {
    var planes: Option<HklPlanes> := None;
    if cutoff.Some? {
      var source := SelectReflections(uc.HklEntries(), cutoff.value, upper);
      planes := Some(HklPlanes(cutoff.value, upper, source));
    }
    var si := StructureInfo(uc.params.sgNumber, uc.params.a, uc.params.b, uc.params.c,
                            uc.params.alpha, uc.params.beta, uc.params.gamma,
                            uc.volume, uc.nAtoms);
    var grouped := CollectAtoms(StoredEntries(uc.Store()), o);
    if grouped.Err? {
      return Err(grouped.error);
    }
    var atoms := EmitAtomList(grouped.value, uc.params.debyeTemp);
    var t: Option<real> := None;
    if uc.temperature > 0.0 {
      t := Some(uc.temperature);
    }
    r := Ok(Crystal(si, atoms, t, uc.density, planes));
  }

  /** loadNXSCrystal. The provider is returned with the crystal; on an
      error the provider is destroyed, which releases the whole cell. */
  method LoadNxsCrystal(lines: seq<seq<char>>, temperature: real, lower: real, upper: real,
                        bkgdLikeMcStas: bool, fixPolyatom: bool, o: Oracles, g: LegacyGlobals)
    returns (r: Result<Crystal>, provider: XSectProviderNxs, ghost passes: seq<int>)
    requires LoadWellFormed(o, lines, temperature, lower, upper, fixPolyatom)
    modifies g
    ensures fresh(provider) && fresh(provider.cell)
    ensures provider.bkgdLikeMcStas == bkgdLikeMcStas && provider.cell.Valid()
    ensures r == LoadSpec(o, lines, temperature, lower, upper, fixPolyatom)
    ensures passes == InitPasses(o, lines, temperature, lower, upper, fixPolyatom)
    // a loaded crystal keeps the atom storage of the last pass for the
    // provider and drops the reflection and symmetry lists; SgError is
    // restored to its value on entry
    ensures r.Ok? ==>
              && o.readParameterFile(lines).Read?
              && provider.cell.hklList.None? && provider.cell.listSeitzMx.None?
              && provider.cell.Store() == FinalStore(o, lines, lower)
              && provider.cell.nAtoms == r.value.structure.nAtoms
              && g.sgError == old(g.sgError)
    ensures r.Err? ==> provider.cell.hklList.None? && provider.cell.atomInfoList.None?
  {
    provider := new XSectProviderNxs(bkgdLikeMcStas);
    var uc := provider.cell;
    var init, cutoff, maxhkl;
    init, cutoff, maxhkl, passes := RunInitPasses(uc, g, lines, temperature, lower, upper, fixPolyatom, o);
    if init.Fail? {
      provider.Destroy();
      return Err(init.error), provider, passes;
    }
    r := AssembleCrystal(uc, o, lines, temperature, maxhkl, fixPolyatom, FinalPrior(o, lines, lower),
                         cutoff, upper);
    if r.Err? {
      provider.Destroy();
      return;
    }
    uc.DeinitPartly();
  }
}
