# NCrystal `.nxs` loader — a verified Dafny model

This project models the `.nxs` crystal loader of the NXS plugin for NCrystal, found in
`src/NCFactory_NXS.cc`. The loader turns the text of a `.nxs` parameter file into
NCrystal's crystal description in these steps:

1. It feeds the text line by line to the legacy nxslib reader through an
   `fgets` look-alike (`fake_fgets_for_nxs`).
2. It initialises a legacy unit cell (`initNXS`) once, or twice when reflections are
   enabled (a lower cutoff other than -1), the first pass succeeds and the second index
   bound is at most 50. The first pass uses index bound 1. The second,
   after a full `deinitNXS`, uses the bound that the resolved lower d-spacing cutoff needs;
   when the lower cutoff is 0 that cutoff is chosen automatically.
3. It fills the builder from the cell:
   - the reflections, filtered and rescaled;
   - the structure info;
   - the atoms, grouped by atomic number;
   - the temperature and the density.
4. It partly releases the cell (`deinitNXS_partly`). The cell lives on inside the background
   cross-section provider `XSectProvider_NXS`.

The routines of nxslib and NCrystal that the loader calls are not part of this model. They
are bundled as function-valued fields of `Legacy.Oracles`, parameters whose results are
unconstrained for the arguments the model gives them. Those arguments are narrower than
the cell pointer the code passes: the reader and `nxs_initUnitCell` do not see what an
earlier pass left in the cell, and the later routines do not rewrite the lattice
parameters or the Debye temperature (see "## Left out"). The routines are:
- `nxs_readParameterFile`, `nxs_initUnitCell`, `nxs_addAtomInfo`, `nxs_initHKL`;
- `checkAndCompleteLattice`, `estimateHKLRange`;
- `elementNameToZ`, `AtomData::sameValuesAs`;
- the neutron-mass constant.

Modules:
- `NxsErrors`, `NxsTypes`, `Legacy`: error kinds, the legacy records, and the oracles.
- `LineAdapter`: the class `FakeFile`, whose method `Fgets` writes into a caller's `array<char>`.
- `NxsCell`: the legacy cell as a class with optional buffers and a log of `free()` calls;
  the release routines; the provider.
- `NxsInit`: `initNXS`, with the global `SgError` as a field of `LegacyGlobals`.
- `CutoffSelection`: the `maxHKLFromDCut` lambda, the first-match search and its fallbacks.
- `Reflections`: the reflection loop and the order-preserving selection it computes.
- `AtomGrouping`: the `zval_2_atominfo` loops, and the grouping they compute.
- `NxsLoader`: `loadNXSCrystal` as a method, the value `LoadSpec` it computes, and the
  end-to-end properties of `LoadSpec`.

Three details of the code that the model follows as written:
- The reflection loop (src/NCFactory_NXS.cc:290) keeps an entry when its raw `FSquare` is
  at least `100 * 1e-5`. The rescaled `fsquared` of every emitted reflection is therefore
  at least `1e-5`, with equality allowed (`Reflections.Selected`, `Reflections.FilteredBounds`).
- Between the passes the code calls the full `deinitNXS` (src/NCFactory_NXS.cc:266). It
  frees and nulls the atom list as well as the reflection data, so the second pass starts
  from a cell with a null atom list (`NxsLoader.RunInitPasses`).
- `deinitNXS` does not reset the count `nAtomInfo` (src/NCFactory_NXS.cc:146-151), and the
  atom loop reads `nAtomInfo` entries of `atomInfoList` (src/NCFactory_NXS.cc:355-356). The
  model keeps both in the cell's atom storage (`Legacy.AtomStore`). `nxs_addAtomInfo` is an
  oracle on that storage, and the atoms of a loaded crystal are the grouping of the entries
  the storage holds after the last pass (`NxsLoader.FinalStore`). Whether those are the
  reader's entries depends on how `nxs_addAtomInfo` treats a null list with a nonzero
  count, which is legacy code outside this model.

## Model

| member | source | states |
|---|---|---|
| LineAdapter.IsoFgetsRead | src/NCFactory_NXS.cc:54-60 | ISO fgets stores at most `limit` characters, a prefix of the stream, stopping after the first newline |
| LineAdapter.CString | src/NCFactory_NXS.cc:59-60 | the C string a buffer holds is its NUL-free prefix, ended by the first NUL when it is shorter than the buffer |
| LineAdapter.CopiedLineReadsBack | src/NCFactory_NXS.cc:66-68 | a buffer holding the line, a newline and a NUL reads back as the line followed by a newline |
| LineAdapter.IsoFgetsReadsLine | src/NCFactory_NXS.cc:54-60 | with room for the line and its newline, ISO fgets reads exactly the line and its newline, whatever follows |
| LineAdapter.CopiedAgreesWithIsoFgets | src/NCFactory_NXS.cc:63-70 | whenever the adapter copies a line, the C string it leaves equals what ISO fgets would store in the same buffer |
| LineAdapter.RejectedBoundaryLineFitsIsoFgets | src/NCFactory_NXS.cc:64-65 | at `n + 2 == count` the adapter throws, although ISO fgets would have read the whole line |
| LineAdapter.FakeFile.constructor | src/NCFactory_NXS.cc:32-38 | the cursor starts at the first line |
| LineAdapter.FakeFile.Fgets | src/NCFactory_NXS.cc:43-71 | at end of input: `str[0]` is set to NUL, the rest of the buffer and the cursor are unchanged, and the result is null. A too-long line (`n + 2 >= count`): DataLoadError, buffer and cursor untouched. Otherwise: the line, a newline and a NUL are written, cells from `n + 2` on are unchanged, and the cursor advances by one |
| NxsCell.EquivFrees | src/NCFactory_NXS.cc:137-140 | the release loop frees the equivHKL buffer of every entry, once each, in entry order |
| NxsCell.ReleaseReflectionsEffect | src/NCFactory_NXS.cc:133-145 | a partial release of a cell with a reflection list nulls the reflection and symmetry lists and keeps the atom list. It logs a free of each entry's equivHKL, in order, then of the list, then of the symmetry list if there was one, and no other free |
| NxsCell.ReleaseReflectionsIdempotent | src/NCFactory_NXS.cc:135-136 | without a reflection list the partial release does nothing, so a second partial release frees nothing |
| NxsCell.ReleaseAllIdempotent | src/NCFactory_NXS.cc:146-151 | the full release nulls the reflection and atom lists; applying it twice equals applying it once (the destructor after an explicit deinitNXS) |
| NxsCell.UnitCell.constructor | src/NCFactory_NXS.cc:157 | the memset: every number zero (including nAtomInfo), every pointer null, nothing freed |
| NxsCell.UnitCell.AddAtomInfo | src/NCFactory_NXS.cc:113 | the atom storage (atomInfoList and nAtomInfo) becomes what the nxs_addAtomInfo oracle returns for the old storage and the entry; no other field changes |
| NxsCell.UnitCell.DeinitPartly | src/NCFactory_NXS.cc:133-145 | deinitNXS_partly leaves the cell buffers equal to `ReleaseReflections` of the old ones, keeping nHKL consistent |
| NxsCell.UnitCell.DeinitAll | src/NCFactory_NXS.cc:146-151 | deinitNXS leaves the cell buffers equal to `ReleaseAll` of the old ones. The atom list is nulled and nAtomInfo keeps its value |
| NxsCell.PerAtom | src/NCFactory_NXS.cc:183 | the per-atom cross section is never negative. It is positive exactly when the cell total is, and it is then the total divided by nAtoms |
| NxsCell.XSectProviderNxs.constructor | src/NCFactory_NXS.cc:154-158 | the provider keeps the composition flag and owns a fresh zero-filled cell |
| NxsCell.XSectProviderNxs.XsectScatNonBragg | src/NCFactory_NXS.cc:170-184 | the background cross section is non-negative and positive exactly when the chosen sum of legacy cross sections is positive |
| NxsCell.XSectProviderNxs.Destroy | src/NCFactory_NXS.cc:160-163 | the destructor leaves the cell buffers equal to `ReleaseAll` of the old ones, with nAtomInfo kept |
| NxsInit.FixIncohFlag | src/NCFactory_NXS.cc:117 | the flag is 1 exactly when fixpolyatom is set, else 0 |
| NxsInit.InitFailuresAreDataLoadErrors | src/NCFactory_NXS.cc:99-130 | a read error or an empty atom list fails with DataLoadError. Any other error kind comes from the lattice check |
| NxsInit.AddAtomInfos | src/NCFactory_NXS.cc:112-113 | the loop leaves the atom storage that nxs_addAtomInfo yields when it is applied to every parsed entry in order, starting from the old storage |
| NxsInit.DeriveReflections | src/NCFactory_NXS.cc:117-131 | stores what nxs_initHKL derives and restores SgError. A set SgError raises DataLoadError with the lattice untouched. Otherwise the lattice check's error is raised, or b and c are completed and the pass succeeds |
| NxsInit.InitNxsDerive | src/NCFactory_NXS.cc:111-131 | sets the temperature, the atom storage after adding the entries, and the index bound, and stores what nxs_initHKL derives for that cell. SgError is restored to the caller's value. A set SgError raises DataLoadError; otherwise the lattice check's error is raised or b and c are completed |
| NxsInit.InitNxs | src/NCFactory_NXS.cc:73-132 | the outcome is `InitOutcome` (checks in source order, each with its error). Early failures leave SgError cleared and the buffers and nAtomInfo untouched. Past the unit-cell step SgError has its entry value. The temperature, index bound, atom storage after nxs_addAtomInfo for each entry in order, reflection list, bulk quantities and completed lattice are as derived |
| CutoffSelection.MaxHklFromDCut | src/NCFactory_NXS.cc:236-242 | the bound is one of the three estimated axis bounds and at least each of them |
| CutoffSelection.FirstFitIsFirstMatch | src/NCFactory_NXS.cc:247-254 | the search returns the first candidate whose bound is at most 20 (all earlier ones exceed 20), or 0.5 when every candidate exceeds 20 |
| CutoffSelection.ResolveLowerCutoff | src/NCFactory_NXS.cc:244-262 | a nonzero lower cutoff is used unchanged |
| CutoffSelection.AutoCutoffValues | src/NCFactory_NXS.cc:244-259 | the automatic cutoff is either 0.8 × upper, or a candidate or 0.5 below 0.95 × upper, whose bound is at most 20 unless it is 0.5. Below 0.95 × upper the first match is kept |
| CutoffSelection.AutoCutoff | src/NCFactory_NXS.cc:244-259 | the loop computes the automatic cutoff `AutoCutoffSpec` |
| Reflections.FilteredIsOrderedSelection | src/NCFactory_NXS.cc:285-300 | the output is the conversion of the kept entries, in increasing position order. A position is kept exactly when its entry is inside the d-spacing range and its FSquare is not below the cut |
| Reflections.FilteredBounds | src/NCFactory_NXS.cc:287-298 | every output reflection lies in [lower, upper] with fsquared at least 1e-5, and there are no more of them than legacy entries |
| Reflections.EmptyRangeKeepsNothing | src/NCFactory_NXS.cc:301-309 | an empty range keeps nothing and is not an error |
| Reflections.SelectReflections | src/NCFactory_NXS.cc:282-309 | the reflection loop computes `Filtered` of the legacy list |
| AtomGrouping.AtomDataOf | src/NCFactory_NXS.cc:368-373 | the constants made from an entry: incoherent and absorption cross sections unchanged, a coherent scattering length that is the legacy value in fm divided by 10, the mass ratio times the neutron mass, and the given atomic number |
| AtomGrouping.PositionsUpToAt | src/NCFactory_NXS.cc:395-396 | position i of an entry is `(x[i], y[i], z[i])` |
| AtomGrouping.CollectOkMeaning | src/NCFactory_NXS.cc:355-398 | grouping succeeds exactly when every entry is accepted. The map then has one collector per element: positions of all its entries in input order, constants of its first entry, index = distinct elements before that entry |
| AtomGrouping.CollectErrMeaning | src/NCFactory_NXS.cc:357-388 | a failed grouping raises the error of the first rejected entry: BadInput for a zero count or unknown symbol, DataLoadError for constants inconsistent with the element's first entry |
| AtomGrouping.IndicesByFirstAppearance | src/NCFactory_NXS.cc:376-381 | indices lie below the number of elements, follow the order of first appearance, and are distinct |
| AtomGrouping.CollectedPositionsNonEmpty | src/NCFactory_NXS.cc:341-343 | every collector has positions and constants made for its own atomic number, as moveToAtomInfo asserts |
| AtomGrouping.AppendPositions | src/NCFactory_NXS.cc:394-396 | the inner loop appends exactly the entry's nAtoms positions |
| AtomGrouping.CollectEntry | src/NCFactory_NXS.cc:356-397 | one pass of the entry loop computes `AddEntry` |
| AtomGrouping.CollectAtoms | src/NCFactory_NXS.cc:353-398 | the entry loop computes the grouping of all entries, stopping at the first error |
| AtomGrouping.MoveToAtomInfo | src/NCFactory_NXS.cc:339-349 | the AtomInfo has the collector's constants, index and positions, and a Debye temperature exactly when the raw value is positive, equal to it |
| AtomGrouping.AscendingOrderSorted | src/NCFactory_NXS.cc:402 | the map's iteration order lists every key once, strictly ascending |
| AtomGrouping.AtomListOfMeaning | src/NCFactory_NXS.cc:400-403 | the atom list has one AtomInfo per key, in strictly ascending atomic number, each the moved collector of its atomic number |
| AtomGrouping.EmitAtomList | src/NCFactory_NXS.cc:400-403 | the output loop computes `AtomListOf` of the map |
| NxsLoader.SecondPassFailsOnlyInInitHkl | src/NCFactory_NXS.cc:273 | after a successful first pass the second fails exactly when nxs_initHKL sets SgError, and then with DataLoadError, given that the reader and nxs_initUnitCell ignore the first pass's leftover cell state (see "## Left out") |
| NxsLoader.PassesFailures | src/NCFactory_NXS.cc:229-274 | the first pass's failure is kept. With reflections disabled there is no further failure. A bound above 50 gives CalcError; otherwise a failure is a DataLoadError. A non-DataLoadError error is that CalcError or the lattice check's |
| NxsLoader.PassCount | src/NCFactory_NXS.cc:229-274 | initNXS runs once or twice, first with bound 1. A second run has reflections enabled and the computed bound, at most 50. A loaded crystal had two runs exactly when reflections are enabled |
| NxsLoader.LoadedReflections | src/NCFactory_NXS.cc:282-309 | a loaded crystal has reflection data exactly when lower != -1. Range: the resolved cutoff to upper. List: the filter of the second pass's reflections, within bounds. The second bound is at most 50 |
| NxsLoader.LoadedCellInfo | src/NCFactory_NXS.cc:316-325 | the lattice was accepted; the structure info is the completed lattice with the last pass's volume and atom count; the density is the last pass's; the temperature is given exactly when positive. The lattice is the parsed one, as the legacy routines are taken not to rewrite it (see "## Left out") |
| NxsLoader.LoadOutcomeCases | src/NCFactory_NXS.cc:229-406 | loading succeeds exactly when the passes succeed and every atom entry the cell stores after the last pass is accepted. Otherwise the error is the passes' error or that of the first rejected stored entry |
| NxsLoader.GroupedAtomList | src/NCFactory_NXS.cc:353-403 | one atom per element, in ascending atomic number. Each has the positions of all its entries, the first entry's constants, its index by first appearance, and the Debye temperature when positive |
| NxsLoader.LoadedAtoms | src/NCFactory_NXS.cc:355-406 | the atoms of a loaded crystal are the atom list of the grouping of the nAtomInfo entries the cell stores after the last pass, every one of them accepted, with the Debye temperature of the completed cell |
| NxsLoader.RunInitPasses | src/NCFactory_NXS.cc:229-274 | the passes end as `PassesOutcome` with the index bounds `InitPasses`. A success leaves the cell loaded for the final bound and restores SgError. The atom storage is built up from the zero-filled one, or from what deinitNXS left of the first pass's. The full release precedes the CalcError |
| NxsLoader.AssembleCrystal | src/NCFactory_NXS.cc:282-419 | reading the loaded cell yields `Assemble` of the inputs |
| NxsLoader.LoadNxsCrystal | src/NCFactory_NXS.cc:186-430 | the result is `LoadSpec` of the inputs. A loaded crystal leaves the cell without reflection and symmetry lists but with the atom storage of the last pass, and SgError restored. A failure leaves the cell released |

## Left out

- The mutex and the global slot `s_fakeFileForNXSLoader` (src/NCFactory_NXS.cc:41-42, 88-91) exist only for concurrency, so they are not modelled. The adapter is a single object.
- The reader is an oracle over the text lines. It is not driven through `LineAdapter.FakeFile.Fgets`.
- The routines of nxslib and NCrystal that the loader calls (reader, unit cell, nxs_addAtomInfo, nxs_initHKL, lattice check, HKL-range estimate, element lookup, `sameValuesAs`) are modelled only as uninterpreted oracles.
- The space-group number comes from `CellParams.sgNumber`. `sgInfo.TabSgName->SgNumber` is not modelled separately.
- Only nxs_initHKL is modelled as setting `SgError`.
- The early initNXS failure paths leave `SgError` cleared, as the code does; restoring it is not claimed.
- `NC::linspace(0.1,0.45,8)` (src/NCFactory_NXS.cc:249) is the constant `CutoffSelection.AutoCandidates` of eight exact decimal reals. The doubles that linspace actually computes are not modelled. Nor is how they compare with `dcutoff_upper_aa*0.95` at src/NCFactory_NXS.cc:255, so a candidate that lies at 0.95 times the upper cutoff in exact arithmetic may fall on the other side in the code.
- Unit conversions (`* 0.1`, `* const_neutron_atomic_mass`, `* 0.01`) are plain real multiplications. Floating-point rounding, NaN and infinities are not modelled.
- NxsCell.XSectProviderNxs.XsectScatNonBragg: the legacy cross sections are a parameter. The contract requires nAtoms > 0 and does not model the division by a zero atom count.
- NxsCell.PerAtom: requires nAtoms > 0 for the same reason. A zero or negative atom count, and the NaN a division by zero would give, are not modelled.
- The verbose `getenv`/`cout` output and the exact error-message texts are not modelled. Errors are kinds only.
- The reader's temporary atom array freed at src/NCFactory_NXS.cc:114 is not in the cell's `free()` log. Only the cell's own buffers are.
- `free(NULL)` is a no-op and is not logged. It happens at src/NCFactory_NXS.cc:143 when there is a reflection list but `ListSeitzMx` is null, and at src/NCFactory_NXS.cc:149 when `atomInfoList` is null; both go through `NxsCell.FreeIfPresent`. Without a reflection list, deinitNXS_partly returns early (src/NCFactory_NXS.cc:135-136), frees nothing and keeps the symmetry list.
- NxsLoader.LoadNxsCrystal requires `LoadWellFormed`: once the passes succeed, the atom list holds at least nAtomInfo entries, each with nAtoms coordinates. The code reads them unchecked. `NxsLoader.LoadSpec` and the loader lemmas carry the same requirement.
- NxsLoader.SecondPassFailsOnlyInInitHkl, NxsLoader.LoadedCellInfo: both hold under two assumptions of the oracle signatures. (1) `nxs_readParameterFile` and `nxs_initUnitCell` receive `uc` in the code (src/NCFactory_NXS.cc:90, 107), but the model gives them only the text lines and the parsed parameters. So they ignore what the first pass left in the cell: the completed b and c, nAtomInfo, nHKL, the volume and sgInfo. (2) `nxs_initUnitCell` and `nxs_initHKL` never rewrite a, b, c, the angles or the Debye temperature. `NxsLoader.SecondMaxHkl` (the estimate at the parsed lattice) and the Debye temperature in `NxsLoader.Assemble` rest on the same assumptions. If the legacy code breaks either, the second pass could fail in the reader, in nxs_initUnitCell or in the lattice check, and the structure info could differ from the parsed one.
- NxsCell.UnitCell.AddAtomInfo: `nxs_addAtomInfo` is an oracle on the whole atom storage. `nxs_readParameterFile`, `nxs_initUnitCell` and `nxs_initHKL` are modelled by their results only, so the model lets none of them change the storage (list or nAtomInfo).
- The `nc_assert_always` on the width of `AtomIndex` (src/NCFactory_NXS.cc:380) is not modelled. Indices are unbounded naturals.
- The conversion of a negative index bound to `unsigned` when initNXS is called is not modelled. Bounds are integers.
- The plugin registration glue, the header, the test plugin and the Python hooks are outside the loader core and are not modelled.
