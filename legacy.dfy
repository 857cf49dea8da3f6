/** The routines of nxslib and NCrystal that the loader calls but whose code
    is not part of this model. Each is a field of the Oracles record, so
    every operation that calls one receives it as a parameter, and its
    result is unconstrained for the arguments it is given. Those arguments
    are an assumption of the model: the reader sees only the text lines and
    nxs_initUnitCell only the parsed parameters, not the rest of the cell
    (what an earlier pass left there). What a routine changes in the cell
    is what its result describes: nxs_addAtomInfo the atom storage, the
    reader the cell parameters, nxs_initUnitCell the symmetry operators,
    nxs_initHKL the reflection list and the derived bulk quantities; none
    of the later routines rewrites a, b, c, the angles or the Debye
    temperature. */
module Legacy {
  import opened NxsErrors
  import opened NxsTypes

  /** What nxs_readParameterFile reports: the reading-file error code, or
      the parsed cell parameters and the list of atom entries it allocated
      (its positive return value is the length of that list; a zero or other
      negative count is a Read with no entries). */
  datatype ReaderResult = ReadingFileError | Read(params: CellParams, atoms: seq<AtomEntry>)

  /** The atom entry storage of a cell: the atomInfoList pointer (None while
      it is null) and the count nAtomInfo, which the loader uses as the
      number of entries to read. */
  datatype AtomStore = AtomStore(list: Option<seq<AtomEntry>>, count: nat)

  /** What nxs_initHKL is given: the cell as initNXS has set it up. */
  datatype HklRequest = HklRequest(params: CellParams, atoms: AtomStore,
                                   temperature: real, maxHkl: int, fixIncoh: int)

  /** What nxs_initHKL leaves in the cell: the reflection list, the derived
      bulk quantities, and the global SgError string if it set one. */
  datatype HklDerivation = HklDerivation(hklList: seq<HklEntry>, volume: real,
                                         density: real, nAtoms: int,
                                         sgError: Option<string>)

  /** What checkAndCompleteLattice does: it accepts the lattice and returns
      the (possibly completed) b and c, or it throws. */
  datatype LatticeCheck = LatticeOk(b: real, c: real) | LatticeRejected(error: Error)

  datatype Oracles = Oracles(
    /** nxs_readParameterFile, reading the text lines through the adapter */
    readParameterFile: seq<seq<char>> -> ReaderResult,
    /** nxs_initUnitCell: None for a status other than NXS_ERROR_OK, else the
        symmetry operators (ListSeitzMx) it allocated */
    initUnitCell: CellParams -> Option<seq<SeitzMatrix>>,
    /** nxs_addAtomInfo: the storage after adding one entry */
    addAtomInfo: (AtomStore, AtomEntry) -> AtomStore,
    /** nxs_initHKL */
    initHkl: HklRequest -> HklDerivation,
    /** NC::checkAndCompleteLattice(spacegroup, a, b, c) */
    checkAndCompleteLattice: (int, real, real, real) -> LatticeCheck,
    /** NC::estimateHKLRange(dcut, a, b, c, alpha, beta, gamma) with the
        angles converted from degrees */
    estimateHklRange: (real, CellParams) -> HklRange,
    /** NC::elementNameToZ, 0 for an unknown symbol */
    elementNameToZ: string -> nat,
    /** AtomData::sameValuesAs with both tolerances 1e-15 */
    sameValuesAs: (AtomData, AtomData) -> bool,
    /** NC::const_neutron_atomic_mass */
    neutronAtomicMass: real)
}
