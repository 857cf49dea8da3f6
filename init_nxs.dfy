/** initNXS: parse the text into the unit cell through the legacy reader,
    derive the cell, add the atom entries, derive the reflections, and
    check the lattice, with the legacy global SgError saved, cleared and
    restored around the derivation. */
module NxsInit {
  import opened NxsErrors
  import opened NxsTypes
  import opened Legacy
  import opened NxsCell

  /** The legacy library's global state: the SgError string pointer (null
      is None). */
  class LegacyGlobals {
    var sgError: Option<string>

    constructor (sgError: Option<string>)
      ensures this.sgError == sgError
    {
      this.sgError := sgError;
    }
  }

  /** The int flag nxs_initHKL receives for fixpolyatom. */
  function FixIncohFlag(fixPolyatom: bool): (f: int)
    ensures f == 1 <==> fixPolyatom
    ensures f == 0 <==> !fixPolyatom
  {
    if fixPolyatom then 1 else 0
  }

  /** The atom storage after nxs_addAtomInfo was called, starting from s,
      for the first n of the entries, in order. */
  function AddUpTo(o: Oracles, s: AtomStore, atoms: seq<AtomEntry>, n: nat): AtomStore
    requires n <= |atoms|
  {
    if n == 0 then s else o.addAtomInfo(AddUpTo(o, s, atoms, n - 1), atoms[n - 1])
  }

  /** The atom storage after the loop of initNXS added all the entries to a
      cell whose storage was s. */
  function AddAll(o: Oracles, s: AtomStore, atoms: seq<AtomEntry>): AtomStore {
    AddUpTo(o, s, atoms, |atoms|)
  }

  /** What nxs_initHKL is asked, for a cell whose atom storage was `prior`
      when the reader returned `params` and `atoms`. */
  function RequestFor(o: Oracles, params: CellParams, prior: AtomStore, atoms: seq<AtomEntry>,
                      temperature: real, maxhkl: int, fixPolyatom: bool): HklRequest
  {
    HklRequest(params, AddAll(o, prior, atoms), temperature, maxhkl, FixIncohFlag(fixPolyatom))
  }

  /** The checks of initNXS in the order the code makes them; which one
      fails decides the error raised. */
  function InitOutcome(o: Oracles, lines: seq<seq<char>>, prior: AtomStore,
                       temperature: real, maxhkl: int, fixPolyatom: bool): Outcome
  {
    match o.readParameterFile(lines)
    case ReadingFileError => Fail(DataLoadError)
    case Read(p, atoms) =>
      if |atoms| == 0 then Fail(DataLoadError)
      else if o.initUnitCell(p).None? then Fail(DataLoadError)
      else if o.initHkl(RequestFor(o, p, prior, atoms, temperature, maxhkl, fixPolyatom)).sgError.Some?
      then Fail(DataLoadError)
      else match o.checkAndCompleteLattice(p.sgNumber, p.a, p.b, p.c)
        case LatticeOk(_, _) => Pass
        case LatticeRejected(e) => Fail(e)
  }

  /** Every failure initNXS itself detects is a DataLoadError; any other
      error kind comes from the lattice check. */
  lemma InitFailuresAreDataLoadErrors(o: Oracles, lines: seq<seq<char>>, prior: AtomStore,
                                      temperature: real, maxhkl: int, fixPolyatom: bool)
    ensures var r := InitOutcome(o, lines, prior, temperature, maxhkl, fixPolyatom);
            r.Fail? && r.error != DataLoadError ==>
              && o.readParameterFile(lines).Read?
              && var rd := o.readParameterFile(lines);
                 o.checkAndCompleteLattice(rd.params.sgNumber, rd.params.a, rd.params.b, rd.params.c)
                   == LatticeRejected(r.error)
    ensures o.readParameterFile(lines).ReadingFileError? ==>
              InitOutcome(o, lines, prior, temperature, maxhkl, fixPolyatom) == Fail(DataLoadError)
    ensures o.readParameterFile(lines).Read? && o.readParameterFile(lines).atoms == [] ==>
              InitOutcome(o, lines, prior, temperature, maxhkl, fixPolyatom) == Fail(DataLoadError)
  {
  }

  /** The cell parameters after a successful initNXS: the reader's, with b
      and c completed by the lattice check. */
  function CompletedParams(o: Oracles, lines: seq<seq<char>>): CellParams
    requires o.readParameterFile(lines).Read?
  {
    var p := o.readParameterFile(lines).params;
    match o.checkAndCompleteLattice(p.sgNumber, p.a, p.b, p.c)
    case LatticeOk(b, c) => p.(b := b, c := c)
    case LatticeRejected(_) => p
  }

  /** The loop of initNXS calling nxs_addAtomInfo for every parsed entry. */
  method AddAtomInfos(uc: UnitCell, atoms: seq<AtomEntry>, o: Oracles)
    modifies uc`atomInfoList, uc`nAtomInfo
    ensures uc.Store() == AddAll(o, old(uc.Store()), atoms)
  {
    var i := 0;
    while i < |atoms|
      invariant 0 <= i <= |atoms|
      invariant uc.Store() == AddUpTo(o, old(uc.Store()), atoms, i)
    {
      uc.AddAtomInfo(atoms[i], o);
      i := i + 1;
    }
  }

  /** The tail of initNXS: derive the reflections with nxs_initHKL, restore
      SgError (raising if nxs_initHKL set it), and complete the lattice.
      SgError is clear on entry. */
  method DeriveReflections(uc: UnitCell, g: LegacyGlobals, savedSgError: Option<string>,
                           fixPolyatom: bool, o: Oracles)
    returns (r: Outcome)
    requires g.sgError.None?
    modifies uc`hklList, uc`nHkl, uc`volume, uc`density, uc`nAtoms, uc`params, g
    ensures uc.Valid()
    ensures var p := old(uc.params);
            var d := o.initHkl(HklRequest(p, uc.Store(), uc.temperature, uc.maxHklIndex,
                                          FixIncohFlag(fixPolyatom)));
            var lattice := o.checkAndCompleteLattice(p.sgNumber, p.a, p.b, p.c);
            && g.sgError == savedSgError
            && uc.hklList == Some(d.hklList)
            && uc.volume == d.volume && uc.density == d.density && uc.nAtoms == d.nAtoms
            && (d.sgError.Some? ==> r == Fail(DataLoadError) && uc.params == p)
            && (d.sgError.None? && lattice.LatticeRejected? ==> r == Fail(lattice.error) && uc.params == p)
            && (d.sgError.None? && lattice.LatticeOk? ==>
                  r == Pass && uc.params == p.(b := lattice.b, c := lattice.c))
  {
    var d := o.initHkl(HklRequest(uc.params, uc.Store(), uc.temperature, uc.maxHklIndex,
                                  FixIncohFlag(fixPolyatom)));
    uc.hklList := Some(d.hklList);
    uc.nHkl := |d.hklList|;
    uc.volume, uc.density, uc.nAtoms := d.volume, d.density, d.nAtoms;
    if d.sgError.Some? {
      g.sgError := d.sgError;
    }
    if g.sgError.Some? {
      g.sgError := savedSgError;
      return Fail(DataLoadError);
    }
    g.sgError := savedSgError;

    var lattice := o.checkAndCompleteLattice(uc.params.sgNumber, uc.params.a, uc.params.b, uc.params.c);
    if lattice.LatticeRejected? {
      return Fail(lattice.error);
    }
    uc.params := uc.params.(b := lattice.b, c := lattice.c);
    r := Pass;
  }

  /** The part of initNXS after the unit cell was derived: set the
      temperature, add the entries, set the index bound, then derive the
      reflections and complete the lattice. SgError is clear on entry. */
  method InitNxsDerive(uc: UnitCell, g: LegacyGlobals, savedSgError: Option<string>,
                       atoms: seq<AtomEntry>, temperature: real, maxhkl: int,
                       fixPolyatom: bool, o: Oracles)
    returns (r: Outcome)
    requires uc.Valid() && g.sgError.None? && atoms != []
    modifies uc, g
    ensures uc.Valid()
    ensures var p := old(uc.params);
            var d := o.initHkl(RequestFor(o, p, old(uc.Store()), atoms, temperature, maxhkl, fixPolyatom));
            var lattice := o.checkAndCompleteLattice(p.sgNumber, p.a, p.b, p.c);
            && g.sgError == savedSgError
            && uc.temperature == temperature
            && uc.maxHklIndex == maxhkl
            && uc.Store() == AddAll(o, old(uc.Store()), atoms)
            && uc.listSeitzMx == old(uc.listSeitzMx) && uc.freed == old(uc.freed)
            && uc.hklList == Some(d.hklList)
            && uc.volume == d.volume && uc.density == d.density && uc.nAtoms == d.nAtoms
            && (d.sgError.Some? ==> r == Fail(DataLoadError) && uc.params == p)
            && (d.sgError.None? && lattice.LatticeRejected? ==> r == Fail(lattice.error) && uc.params == p)
            && (d.sgError.None? && lattice.LatticeOk? ==>
                  r == Pass && uc.params == p.(b := lattice.b, c := lattice.c))
  {
    uc.temperature := temperature;
    AddAtomInfos(uc, atoms, o);
    uc.maxHklIndex := maxhkl;
    r := DeriveReflections(uc, g, savedSgError, fixPolyatom, o);
  }

  /** initNXS(uc, textData, temperature_kelvin, maxhkl, fixpolyatom). */
  method InitNxs(uc: UnitCell, g: LegacyGlobals, lines: seq<seq<char>>,
                 temperature: real, maxhkl: int, fixPolyatom: bool, o: Oracles)
    returns (r: Outcome)
    requires uc.Valid()
    modifies uc, g
    ensures uc.Valid()
    ensures r == InitOutcome(o, lines, old(uc.Store()), temperature, maxhkl, fixPolyatom)
    ensures uc.freed == old(uc.freed)
    // parse failures: raised with SgError still cleared, the buffers untouched
    ensures o.readParameterFile(lines).ReadingFileError? ==>
              g.sgError.None? && uc.Buffers() == old(uc.Buffers())
              && uc.nAtomInfo == old(uc.nAtomInfo)
    ensures var rd := o.readParameterFile(lines);
            rd.Read? && (|rd.atoms| == 0 || o.initUnitCell(rd.params).None?) ==>
              g.sgError.None? && uc.params == rd.params
              && uc.Buffers() == old(uc.Buffers()) && uc.nAtomInfo == old(uc.nAtomInfo)
    // past the unit-cell step: the fields are set, the entries appended in
    // order, and SgError once more holds its value on entry
    ensures var rd := o.readParameterFile(lines);
            rd.Read? && |rd.atoms| > 0 && o.initUnitCell(rd.params).Some? ==>
              var d := o.initHkl(RequestFor(o, rd.params, old(uc.Store()), rd.atoms,
                                            temperature, maxhkl, fixPolyatom));
              && g.sgError == old(g.sgError)
              && uc.temperature == temperature
              && uc.maxHklIndex == maxhkl
              && uc.Store() == AddAll(o, old(uc.Store()), rd.atoms)
              && uc.listSeitzMx == o.initUnitCell(rd.params)
              && uc.hklList == Some(d.hklList)
              && uc.volume == d.volume && uc.density == d.density && uc.nAtoms == d.nAtoms
              && uc.params == (if d.sgError.Some? then rd.params else CompletedParams(o, lines))
  {
    var oldSgError := g.sgError;
    g.sgError := None;

    // the adapter, the lock and the global slot are not modelled: the
    // reader sees the lines directly
    var rd := o.readParameterFile(lines);
    if rd.ReadingFileError? {
      return Fail(DataLoadError);
    }
    uc.params := rd.params;
    if |rd.atoms| == 0 {
      return Fail(DataLoadError);
    }
    var seitz := o.initUnitCell(uc.params);
    if seitz.None? {
      return Fail(DataLoadError);
    }
    uc.listSeitzMx := seitz;
    r := InitNxsDerive(uc, g, oldSgError, rd.atoms, temperature, maxhkl, fixPolyatom, o);
  }
}
