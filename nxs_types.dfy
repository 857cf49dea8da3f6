/** The records the legacy nxslib library and the loader exchange. Each is a
    value: the loader copies out of them and never updates one in place. */
module NxsTypes {

  /** A Miller index triple. */
  datatype Hkl = Hkl(h: int, k: int, l: int)

  /** One entry of the legacy reflection list (NXS_HKL): the index triple,
      its multiplicity, its d-spacing, its squared structure factor in
      legacy units, and the buffer of equivalent index triples that the
      entry owns. */
  datatype HklEntry = HklEntry(h: int, k: int, l: int, multiplicity: int,
                               dhkl: real, fSquare: real, equivHkl: seq<Hkl>)

  /** One symmetry operator of the space group (an element of ListSeitzMx). */
  datatype SeitzMatrix = SeitzMatrix(rotation: seq<int>, translation: seq<int>)

  /** One parsed `add_atom` entry (NXS_AtomInfo): the element symbol, the
      number of atoms of this species in the unit cell, their fractional
      coordinates (the legacy arrays hold at least nAtoms of each), and the
      physical constants in legacy units. */
  datatype AtomEntry = AtomEntry(symbol: string, nAtoms: nat,
                                 x: seq<real>, y: seq<real>, z: seq<real>,
                                 bCoherent: real, sigmaIncoherent: real,
                                 sigmaAbsorption: real, massRatio: real)

  /** The legacy arrays of an entry hold its nAtoms coordinates. */
  predicate WellFormed(e: AtomEntry) {
    e.nAtoms <= |e.x| && e.nAtoms <= |e.y| && e.nAtoms <= |e.z|
  }

  /** The cell parameters the parameter-file reader fills in. */
  datatype CellParams = CellParams(a: real, b: real, c: real,
                                   alpha: real, beta: real, gamma: real,
                                   sgNumber: int, debyeTemp: real)

  /** The cell parameters of a zero-filled record. */
  const ZeroParams := CellParams(0.0, 0.0, 0.0, 0.0, 0.0, 0.0, 0, 0.0)

  /** NCrystal's per-element physical constants (AtomData), with the atomic
      number it was created for. */
  datatype AtomData = AtomData(sigmaIncoherent: real, cohScatLen: real,
                               sigmaAbsorption: real, mass: real, z: nat)

  /** The three axis bounds estimateHKLRange returns. */
  datatype HklRange = HklRange(h: int, k: int, l: int)
}
