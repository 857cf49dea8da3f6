/** The legacy unit-cell record (nxs::NXS_UnitCell) as the loader owns it:
    the zero-filling constructor, the partial release deinitNXS_partly, the
    full release deinitNXS, and the background cross-section provider
    XSectProvider_NXS that owns one cell and releases it on destruction. */
module NxsCell {
  import opened NxsErrors
  import opened NxsTypes
  import opened Legacy

  /** A heap buffer the cell owns, as named in a free() call. EquivHkl(i) is
      the equivHKL buffer of reflection entry i. */
  datatype Buffer = EquivHkl(entry: nat) | HklList | SeitzList | AtomInfoList

  /** The cell's three owned buffers and the free() calls made on them so
      far. A freed pointer is set to null, here None. */
  datatype CellBuffers = CellBuffers(hklList: Option<seq<HklEntry>>,
                                     seitz: Option<seq<SeitzMatrix>>,
                                     atoms: Option<seq<AtomEntry>>,
                                     freed: seq<Buffer>)

  /** The free() calls of the loop over the n reflection entries, in order. */
  function EquivFrees(n: nat): (r: seq<Buffer>)
    ensures |r| == n
    ensures forall i :: 0 <= i < n ==> r[i] == EquivHkl(i)
  {
    if n == 0 then [] else EquivFrees(n - 1) + [EquivHkl(n - 1)]
  }

  /** What free(p) adds to the log: nothing for a null pointer. */
  function FreeIfPresent<T>(p: Option<T>, b: Buffer): seq<Buffer> {
    if p.Some? then [b] else []
  }

  /** deinitNXS_partly on the buffers: nothing if there is no reflection
      list; otherwise free every entry's equivHKL, the list, and the
      symmetry operators, nulling both pointers. */
  function ReleaseReflections(b: CellBuffers): CellBuffers {
    if b.hklList.None? then b
    else CellBuffers(None, None, b.atoms,
                     b.freed + EquivFrees(|b.hklList.value|) + [HklList]
                     + FreeIfPresent(b.seitz, SeitzList))
  }

  /** deinitNXS on the buffers: the partial release, then free and null the
      atom entry list. */
  function ReleaseAll(b: CellBuffers): CellBuffers {
    var p := ReleaseReflections(b);
    p.(atoms := None, freed := p.freed + FreeIfPresent(p.atoms, AtomInfoList))
  }

  /** After a partial release there is no reflection list and no symmetry
      list, the atom list is the one before, and what was freed is every
      equivHKL buffer of the entries, in order, then the list itself, then
      the symmetry list when there was one, and nothing else. */
  lemma ReleaseReflectionsEffect(b: CellBuffers)
    requires b.hklList.Some?
    ensures var r := ReleaseReflections(b);
            && r.hklList.None? && r.seitz.None? && r.atoms == b.atoms
            && |r.freed| == |b.freed| + |b.hklList.value| + 1 + (if b.seitz.Some? then 1 else 0)
            && r.freed[..|b.freed|] == b.freed
            && (forall i :: 0 <= i < |b.hklList.value| ==> r.freed[|b.freed| + i] == EquivHkl(i))
            && r.freed[|b.freed| + |b.hklList.value|] == HklList
            && (b.seitz.Some? ==> r.freed[|r.freed| - 1] == SeitzList)
  {
    var r := ReleaseReflections(b);
    var n := |b.hklList.value|;
    assert r.freed == b.freed + EquivFrees(n) + [HklList] + FreeIfPresent(b.seitz, SeitzList);
    assert r.freed[..|b.freed|] == b.freed;
    forall i | 0 <= i < n ensures r.freed[|b.freed| + i] == EquivHkl(i) {
      assert r.freed[|b.freed| + i] == EquivFrees(n)[i];
    }
  }

  /** The partial release does nothing when there is no reflection list, so
      a second partial release frees nothing twice. */
  lemma ReleaseReflectionsIdempotent(b: CellBuffers)
    ensures b.hklList.None? ==> ReleaseReflections(b) == b
    ensures ReleaseReflections(ReleaseReflections(b)) == ReleaseReflections(b)
  {
  }

  /** The full release leaves the reflection and atom lists null; the
      symmetry operators are released only together with a reflection list.
      A second full release (the destructor after deinitNXS) changes
      nothing and frees nothing. */
  lemma ReleaseAllIdempotent(b: CellBuffers)
    ensures var r := ReleaseAll(b);
            && r.hklList.None? && r.atoms.None?
            && r.seitz == (if b.hklList.None? then b.seitz else None)
    ensures ReleaseAll(ReleaseAll(b)) == ReleaseAll(b)
  {
  }

  /** The atom storage of a zero-filled cell: a null list and a zero count. */
  const EmptyStore: AtomStore := AtomStore(None, 0)

  /** What deinitNXS leaves of the atom storage: the list is freed and
      nulled, and nAtomInfo keeps its value. */
  function Released(s: AtomStore): AtomStore {
    AtomStore(None, s.count)
  }

  /** The loader reads entries 0 .. nAtomInfo - 1 of the list; they exist. */
  predicate Readable(s: AtomStore) {
    s.count <= |s.list.GetOr([])|
  }

  /** The entries the loader reads from the storage. */
  function StoredEntries(s: AtomStore): (r: seq<AtomEntry>)
    requires Readable(s)
    ensures |r| == s.count
  {
    s.list.GetOr([])[..s.count]
  }

  /** The mutable fields of nxs::NXS_UnitCell that the loader reads or that
      its release routines touch. */
  class UnitCell {
    var params: CellParams
    var temperature: real
    var maxHklIndex: int
    var nHkl: nat
    var hklList: Option<seq<HklEntry>>
    var listSeitzMx: Option<seq<SeitzMatrix>>
    var atomInfoList: Option<seq<AtomEntry>>
    var nAtomInfo: nat
    var volume: real
    var density: real
    var nAtoms: int
    /** the free() calls made on the cell's buffers, oldest first */
    var freed: seq<Buffer>

    /** nHKL counts the entries of the reflection list while there is one. */
    ghost predicate Valid()
      reads this
    {
      hklList.Some? ==> nHkl == |hklList.value|
    }

    ghost function Buffers(): CellBuffers
      reads this
    {
      CellBuffers(hklList, listSeitzMx, atomInfoList, freed)
    }

    /** The atom storage: the list pointer and nAtomInfo. */
    function Store(): AtomStore
      reads this
    {
      AtomStore(atomInfoList, nAtomInfo)
    }

    /** The reflection entries (none while the pointer is null). */
    function HklEntries(): seq<HklEntry>
      reads this
    {
      hklList.GetOr([])
    }

    /** std::memset(&nxs_uc, 0, sizeof(nxs_uc)): every number zero, every
        pointer null. */
    constructor ()
      ensures Valid()
      ensures params == ZeroParams && temperature == 0.0 && maxHklIndex == 0
      ensures nHkl == 0 && hklList.None? && listSeitzMx.None? && atomInfoList.None?
      ensures nAtomInfo == 0
      ensures volume == 0.0 && density == 0.0 && nAtoms == 0
      ensures freed == []
    {
      params := ZeroParams;
      temperature := 0.0;
      maxHklIndex := 0;
      nHkl := 0;
      hklList := None;
      listSeitzMx := None;
      atomInfoList := None;
      nAtomInfo := 0;
      volume := 0.0;
      density := 0.0;
      nAtoms := 0;
      freed := [];
    }

    /** nxs_addAtomInfo(uc, entry): the storage becomes what the legacy
        routine makes of it; nothing else of the cell changes. */
    method AddAtomInfo(e: AtomEntry, o: Oracles)
      modifies this`atomInfoList, this`nAtomInfo
      ensures Store() == o.addAtomInfo(old(Store()), e)
    {
      var s := o.addAtomInfo(Store(), e);
      atomInfoList, nAtomInfo := s.list, s.count;
    }

    /** deinitNXS_partly(uc). */
    method DeinitPartly()
      requires Valid()
      modifies this`hklList, this`listSeitzMx, this`freed
      ensures Valid()
      ensures Buffers() == ReleaseReflections(old(Buffers()))
    {
      if hklList.None? {
        return;
      }
      var i := 0;
      while i < nHkl
        invariant 0 <= i <= nHkl
        invariant hklList == old(hklList) && listSeitzMx == old(listSeitzMx)
        invariant freed == old(freed) + EquivFrees(i)
      {
        freed := freed + [EquivHkl(i)];   // free(it->equivHKL)
        i := i + 1;
      }
      freed := freed + [HklList];
      hklList := None;
      freed := freed + FreeIfPresent(listSeitzMx, SeitzList);
      listSeitzMx := None;
    }

    /** deinitNXS(uc). */
    method DeinitAll()
      requires Valid()
      modifies this`hklList, this`listSeitzMx, this`atomInfoList, this`freed
      ensures Valid()
      ensures Buffers() == ReleaseAll(old(Buffers()))
      ensures Store() == Released(old(Store()))
    {
      DeinitPartly();
      freed := freed + FreeIfPresent(atomInfoList, AtomInfoList);
      atomInfoList := None;
    }
  }

  /** The five legacy cross sections of the cell at one wavelength. */
  datatype CellCrossSections = CellCrossSections(
    incoherentElastic: real, incoherentInelastic: real, coherentInelastic: real,
    singlePhonon: real, multiPhononCombined: real)

  /** The cell's non-Bragg cross section in the chosen composition. */
  function ComposeCellXsect(likeMcStas: bool, t: CellCrossSections): real {
    if likeMcStas then t.incoherentElastic + t.incoherentInelastic + t.coherentInelastic
    else t.singlePhonon + t.multiPhononCombined + t.incoherentElastic
  }

  /** The per-atom cross section, with a non-positive cell total clamped to
      zero. */
  function PerAtom(xsCell: real, nAtoms: int): (r: real)
    requires nAtoms > 0
    ensures r >= 0.0
    ensures r > 0.0 <==> xsCell > 0.0
    ensures xsCell > 0.0 ==> r * nAtoms as real == xsCell
  {
    if xsCell > 0.0 then xsCell / nAtoms as real else 0.0
  }

  /** XSectProvider_NXS: one owned cell and the composition flag. */
  class XSectProviderNxs {
    const bkgdLikeMcStas: bool
    const cell: UnitCell

    /** The constructor zero-fills the cell. */
    constructor (bkgdLikeMcStas: bool)
      ensures this.bkgdLikeMcStas == bkgdLikeMcStas && fresh(cell)
      ensures cell.Valid() && cell.Buffers() == CellBuffers(None, None, None, [])
      ensures cell.params == ZeroParams && cell.nAtoms == 0 && cell.Store() == EmptyStore
      ensures cell.temperature == 0.0 && cell.maxHklIndex == 0 && cell.nHkl == 0
      ensures cell.volume == 0.0 && cell.density == 0.0
    {
      this.bkgdLikeMcStas := bkgdLikeMcStas;
      cell := new UnitCell();
    }

    /** xsectScatNonBragg(lambda), the legacy routines evaluated at lambda
        being given as `legacy`. */
    function XsectScatNonBragg(lambda: real, legacy: real -> CellCrossSections): (r: real)
      reads this, cell
      requires cell.nAtoms > 0
      ensures r >= 0.0
      ensures r > 0.0 <==> ComposeCellXsect(bkgdLikeMcStas, legacy(lambda)) > 0.0
    {
      PerAtom(ComposeCellXsect(bkgdLikeMcStas, legacy(lambda)), cell.nAtoms)
    }

    /** ~XSectProvider_NXS(): deinitNXS on the owned cell. */
    method Destroy()
      requires cell.Valid()
      modifies cell`hklList, cell`listSeitzMx, cell`atomInfoList, cell`freed
      ensures cell.Valid()
      ensures cell.Buffers() == ReleaseAll(old(cell.Buffers()))
      ensures cell.Store() == Released(old(cell.Store()))
    {
      cell.DeinitAll();
    }
  }
}
