# IXA molecule store and Molfile import, in Dafny

This project models three parts of the InChI library's C sources and proves properties of
the model:

- **The IXA molecule store** (`ixa_mol.c`). An `INCHIMOL` owns three arrays that only grow:
  atoms, bonds and stereo centres. Callers see 1-based IDs: an ID is the array index plus one,
  and 0 is INVALID. Every accessor checks the ID against the current count. A failed check
  pushes an error onto the status object and returns a default value.
  - `IxaMol.Molecule` is a class. Its `atoms`, `bonds`, `stereos`, `chiral`, `polymer` and
    `v3000` fields are updated in place by the `IXA_MOL_*` setters, the creators and the
    extension-data copy.
  - `IxaStatus.Status` is the status object. Its message list grows by one entry per
    `STATUS_PushMessage`, and `HasError` is what the source tests after each call.
  - The logic of each setter and getter on a single atom, bond or stereo centre is a pure
    function (`MolFields`). The arena and its invariant are values in `MolModel`:
    - every bond joins two existing atoms;
    - every bond's ID is in both endpoints' `bonds[]` lists, and in no other list;
    - every list holds at most `MAXVAL` entries;
    - every atomic number is a table index.
  - The element table (`PeriodicTable`), the bond-stereo decision table and the vertex count
    (`StereoCodes`), and the ID packing (`Handles`) are pure.
- **`IXA_MOL_ReadMolfile` after the parser call** (`ixa_read_mol.c`). The parsed record is an
  input (`MolfileRecord`). `MolfileReader` runs the source's loops imperatively against a
  `Molecule` and a `Status`:
  1. clear the molecule and report the parser's result;
  2. create one atom per record atom;
  3. run the bond loop (type and stereo codes);
  4. run the atom-property loop (element, encoded isotope mass, charge, coordinates, radical,
     implicit-hydrogen count);
  5. set the chiral flag;
  6. copy the extension data.

  Each loop stops at the first error, as the source's `goto exit_function` does. Every method
  is proved against a specification function in `MolfileImport`, and the lemmas there state
  what a successful or failed import leaves behind.
- **Three string helpers of the mol2inchi demo** (`moreutil.c`): `own_stricmp`, `own_memicmp`
  and `get_substr_in_between`. Strings are byte sequences without a terminator.
  `own_stricmp` and `own_memicmp` are methods with loops, proved against recursive
  functions. `get_substr_in_between` is a method proved against the function `Between`,
  which is built on `FirstMatch`, the recursive model of `strstr`; its `memcpy` is
  `CopyTerminated`. `SINGLET_IS_TRIPLET`
  and the signedness of `char` are boolean parameters.

The duplicate-bond check of `IXA_MOL_CreateBond` only looks for a bond in the same
orientation. The model keeps that behaviour, and `MolModel.ReverseDuplicateAccepted` shows
that a second bond joining the same pair in the opposite direction is accepted.

Where the comment above `get_substr_in_between` and its code disagree, the code is followed.
The comment says it returns a pointer to the end of pat2 plus one. The code returns the
position of pat2's first character plus one, or one past the end of `s` when pat2 is empty.

Several constants come from headers that are not part of this model. They are stated as the
InChI 1.05 headers define them:

- `MAXVAL` = 20 entries per atom bond list;
- `ISOTOPIC_SHIFT_FLAG` = 10000 and `ZERO_ATW_DIFF` = 127;
- the Molfile stereo codes: `SNGL_UP` 1, `DBLE_EITHER` 3, `SNGL_EITHER` 4, `SNGL_DOWN` 6;
- the InChI bond-stereo codes: none 0, 1UP 1, 1EITHER 4, 1DOWN 6, 2UP -1, 2EITHER -4, 2DOWN -6,
  DOUBLE_EITHER 3;
- the radical codes: none 0, singlet 1, doublet 2, triplet 3;
- the `INCHI_BOND_TYPE_*` case labels of the valence `switch` at `ixa_read_mol.c:286-301`:
  SINGLE 1, DOUBLE 2, TRIPLE 3, ALTERN 4. The switch is given an `IXA_BOND_TYPE_*` value,
  whose numbering is in `ixa.h`, which is not part of this model. The model reads each case
  as the bond order its label names; Findings shows what happens if the IXA values are
  numbered from 0.

## Model

| member | source | states |
|---|---|---|
| PeriodicTable.TableSizeValue | INCHI_API/libinchi/src/ixa/ixa_mol.c:49-63 | the table has 120 entries (the empty entry 0 and 119 symbols), so atomic numbers 1..119 are table indices |
| PeriodicTable.FirstIndexFrom | INCHI_API/libinchi/src/ixa/ixa_mol.c:603-610 | the scan result is the first index at or after k holding the symbol: every earlier entry differs, and the end means not found |
| PeriodicTable.LookupElement | INCHI_API/libinchi/src/ixa/ixa_mol.c:603-618 | the loop over the table from entry 1, then the D/T fallback, yields the element number specified by ElementNumber, always a table index 1..119 |
| PeriodicTable.ElementNumber | INCHI_API/libinchi/src/ixa/ixa_mol.c:603-618 | a symbol is recognised iff it is a table entry or "D" or "T"; the number found is within 1 .. table size - 1 and names that symbol, or is 1 for D and T |
| PeriodicTable.ScanFindsTableEntries | INCHI_API/libinchi/src/ixa/ixa_mol.c:603-610 | the scan from entry 1 stops inside the table iff the symbol is a table entry |
| PeriodicTable.ElementNumberIsFirst | INCHI_API/libinchi/src/ixa/ixa_mol.c:603-610 | no smaller atomic number carries the symbol found (first match wins) |
| PeriodicTable.SymbolOfNumberRoundTrip | INCHI_API/libinchi/src/ixa/ixa_mol.c:603-610 | for every atomic number 1..119 the symbol of the table is found again and names the same symbol |
| PeriodicTable.NotInTableNotFound | INCHI_API/libinchi/src/ixa/ixa_mol.c:603-610 | a symbol absent from the table runs the scan to the end |
| PeriodicTable.DeuteriumIsHydrogen | INCHI_API/libinchi/src/ixa/ixa_mol.c:611-616 | "D" is not in the table and is stored as atomic number 1 |
| PeriodicTable.TritiumIsHydrogen | INCHI_API/libinchi/src/ixa/ixa_mol.c:611-616 | "T" is not in the table and is stored as atomic number 1 |
| Handles.Unpack | INCHI_API/libinchi/src/ixa/ixa_mol.c:140-185 | an ID is accepted iff 1 <= id <= count, and the index found packs back to the same ID |
| Handles.Pack | INCHI_API/libinchi/src/ixa/ixa_mol.c:120-133 | packing a non-negative index gives a non-INVALID ID that is valid for any count above the index |
| Handles.IdOfIndex | INCHI_API/libinchi/src/ixa/ixa_mol.c:423-433 | GetAtomId/GetBondId/GetStereoId give a valid ID iff 0 <= index < count, INVALID otherwise |
| Handles.IndexOfId | INCHI_API/libinchi/src/ixa/ixa_mol.c:436-448 | GetAtomIndex and the others give an index in range iff the ID is valid, -1 otherwise |
| Handles.IndexIdRoundTrip | INCHI_API/libinchi/src/ixa/ixa_mol.c:122-153 | index -> ID -> index is the identity on 0..count-1 |
| Handles.IdIndexRoundTrip | INCHI_API/libinchi/src/ixa/ixa_mol.c:122-153 | ID -> index -> ID is the identity on every accepted ID |
| Handles.InvalidIdRejected | INCHI_API/libinchi/src/ixa/ixa_mol.c:140-153 | the INVALID ID 0 is rejected whatever the count |
| Handles.ValidIdMonotone | INCHI_API/libinchi/src/ixa/ixa_mol.c:244-266 | growing an array never invalidates an ID or changes the index it names |
| IxaStatus.Check | INCHI_API/libinchi/src/ixa/ixa_mol.c:140-153 | an ID check pushes exactly one error when it fails and nothing when it passes |
| StereoCodes.SingleNearWedgeWins | INCHI_API/libinchi/src/ixa/ixa_mol.c:69-93 | a single bond with a wedge UP/DOWN/EITHER at the reference atom gets the positive SINGLE_1* code, whatever the reverse wedge |
| StereoCodes.SingleFarWedgeIsNegated | INCHI_API/libinchi/src/ixa/ixa_mol.c:71-83 | with no near wedge a single bond takes the reverse wedge's SINGLE_2* code, the negated SINGLE_1* code, and NONE when both are NONE |
| StereoCodes.NonSingleStereo | INCHI_API/libinchi/src/ixa/ixa_mol.c:95-102 | a non-single bond gives NONE iff the wedge is NONE, otherwise DOUBLE_EITHER |
| StereoCodes.NoStereoIff | INCHI_API/libinchi/src/ixa/ixa_mol.c:65-103 | the code is NONE iff the near wedge is NONE and, for a single bond, the reverse wedge is NONE too |
| StereoCodes.GetStereo | INCHI_API/libinchi/src/ixa/ixa_mol.c:65-103 | the code is one of the eight IXA bond-stereo codes; it is negative exactly for a single bond with no near wedge and a reverse wedge; it is DOUBLE_EITHER exactly for a non-single bond with a wedge |
| StereoCodes.SingleStereoRoundTrip | INCHI_API/libinchi/src/ixa/ixa_mol.c:65-93 | the single-bond code decodes to exactly the wedge that decided it, near or far |
| StereoCodes.VertexCount | INCHI_API/libinchi/src/ixa/ixa_mol.c:106-119 | 4 for tetrahedron, rectangle and antirectangle; 0 exactly for any other topology |
| StereoCodes.CentreKindExclusive | INCHI_API/libinchi/src/ixa/ixa_mol.c:1320-1371 | a topology has a central atom or a central bond, never both, and one of them exactly when it is valid, i.e. when it has 4 vertices |
| MolModel.WithSlot | INCHI_API/libinchi/src/ixa/ixa_mol.c:717 | writing hydrogens[isotope] sets that slot and leaves the other three as they were |
| MolModel.IncidentMembers | INCHI_API/libinchi/src/ixa/ixa_mol.c:939-951 | a bond ID is in the bond list derived for an atom iff that bond exists and has the atom as an endpoint |
| MolModel.IncidentUntouched | INCHI_API/libinchi/src/ixa/ixa_mol.c:244-265 | an atom no bond touches has an empty bond list, as a new atom's bond_count 0 says |
| MolModel.IncidentAppend | INCHI_API/libinchi/src/ixa/ixa_mol.c:946-951 | appending a bond extends the lists of exactly its two endpoints by its ID |
| MolModel.IncidentSameEndpoints | INCHI_API/libinchi/src/ixa/ixa_mol.c:1025-1131 | changing a bond's type, configuration or wedges leaves every atom's bond list as it was |
| MolModel.WellFormed | INCHI_API/libinchi/src/ixa/ixa_mol.c:869-952 | the arena invariant the creators and setters keep (a definition, proved kept by the lemmas below): atomic numbers are table indices, each bond list fits MAXVAL, every bond joins two distinct existing atoms, each atom's bond list is exactly the bonds touching it in creation order, and every stereo centre has four vertices |
| MolModel.AtomBondsValid | INCHI_API/libinchi/src/ixa/ixa_mol.c:467-487 | every ID in a well-formed atom's bonds[] names an existing bond that touches the atom |
| MolModel.BondRecordedAtBothEnds | INCHI_API/libinchi/src/ixa/ixa_mol.c:946-951 | every bond's ID is in the lists of both of its endpoints |
| MolModel.EmptyMolWellFormed | INCHI_API/libinchi/src/ixa/ixa_mol.c:347-358 | the zeroed molecule satisfies the arena invariant |
| MolModel.CreateAtomWellFormed | INCHI_API/libinchi/src/ixa/ixa_mol.c:230-266 | appending a carbon keeps the arena invariant |
| MolModel.CreateAtom | INCHI_API/libinchi/src/ixa/ixa_mol.c:230-266 | the atom list grows by one default (carbon) atom at the end and the earlier atoms, bonds, stereo centres, chiral flag, polymer and V3000 data are unchanged |
| MolModel.CreateBond | INCHI_API/libinchi/src/ixa/ixa_mol.c:869-952 | a created bond joins two distinct existing atoms, gets ID old bond count + 1 and leaves the atom count alone |
| MolModel.CreateBondWellFormed | INCHI_API/libinchi/src/ixa/ixa_mol.c:939-951 | a successful bond creation keeps the arena invariant, capacity included |
| MolModel.CreateBondEffect | INCHI_API/libinchi/src/ixa/ixa_mol.c:939-951 | success appends a SINGLE/PERCEIVE bond with no wedges and adds its ID to both endpoints' lists (each grows by one); no other atom, stereo or the chiral flag changes |
| MolModel.CreateBondRejections | INCHI_API/libinchi/src/ixa/ixa_mol.c:883-904 | an invalid ID is rejected first; with valid IDs a full list on either endpoint is rejected iff it is full; then a self-bond is rejected |
| MolModel.CreateBondSucceedsIff | INCHI_API/libinchi/src/ixa/ixa_mol.c:869-952 | on a well-formed molecule a bond is created iff both IDs are valid, both endpoint lists are below MAXVAL, the endpoints differ and no bond already runs from atom1 to atom2 |
| MolModel.SameOrientationDuplicateRejected | INCHI_API/libinchi/src/ixa/ixa_mol.c:906-915 | creating again a bond that exists from atom1 to atom2 is always rejected, and the reason is BondExists when both endpoint lists have room |
| MolModel.ReverseDuplicateAccepted | INCHI_API/libinchi/src/ixa/ixa_mol.c:906-915 | the duplicate scan compares only atom2: after 1->2, a bond 2->1 is created |
| MolModel.CommonBond | INCHI_API/libinchi/src/ixa/ixa_mol.c:1170-1181 | the result is an entry of the first list that occurs in the second list with no earlier entry doing so, or INVALID when no entry does |
| MolModel.CommonBondIsFirst | INCHI_API/libinchi/src/ixa/ixa_mol.c:1170-1181 | the first entry of atom1's list that is also in atom2's list is the one returned |
| MolModel.NoInvalidInBonds | INCHI_API/libinchi/src/ixa/ixa_mol.c:946-951 | INVALID never occurs in a bond list, so a returned common bond is never confused with "none" |
| MolModel.CommonBondFoundJoins | INCHI_API/libinchi/src/ixa/ixa_mol.c:1150-1182 | a common bond found exists and has both atoms as endpoints |
| MolModel.CommonBondComplete | INCHI_API/libinchi/src/ixa/ixa_mol.c:1150-1182 | whenever some bond joins the two atoms, a common bond is found |
| MolFields.SetElement | INCHI_API/libinchi/src/ixa/ixa_mol.c:603-618 | a symbol is accepted iff it is in the table or D/T; a refusal reports the symbol; on acceptance only the atomic number changes, it is in 1 .. table size - 1 and names the symbol (1 for D/T) |
| MolFields.SetAtomicNumber | INCHI_API/libinchi/src/ixa/ixa_mol.c:651-657 | atomic numbers are accepted iff 1..119, then stored as given and nothing else changes; a refusal reports the number |
| MolFields.ElementOfNumberRoundTrip | INCHI_API/libinchi/src/ixa/ixa_mol.c:603-610 | setting the element by the table symbol of n is accepted and stores a number with the same symbol |
| MolFields.SetHydrogens | INCHI_API/libinchi/src/ixa/ixa_mol.c:691-717 | accepted iff slot 0 with count >= -1 or slot 1..3 with count >= 0; any other slot is refused as an unrecognised isotope; on acceptance only that slot changes and it holds the count |
| MolFields.HydrogensRoundTrip | INCHI_API/libinchi/src/ixa/ixa_mol.c:691-746 | after an accepted set the getter returns the count for that slot, other slots read as before, and the rest of the atom is unchanged |
| MolFields.GetHydrogens | INCHI_API/libinchi/src/ixa/ixa_mol.c:734-746 | a slot is read iff it is 0..3; any other slot is refused as an unrecognised isotope |
| MolFields.SetMass | INCHI_API/libinchi/src/ixa/ixa_mol.c:763-783 | a mass is accepted iff it is not negative, then stored unchanged with nothing else changed; a negative mass is refused as such |
| MolFields.WedgeRoundTrip | INCHI_API/libinchi/src/ixa/ixa_mol.c:1072-1113 | a wedge is accepted iff the reference atom is an endpoint; the getter then returns it from that side, the other side's wedge is unchanged, and so are the endpoints, type and configuration |
| MolFields.SetWedge | INCHI_API/libinchi/src/ixa/ixa_mol.c:1072-1085 | the wedge is set iff the reference atom is an endpoint, else refused as an illegal reference atom; afterwards reading it from that atom gives the new wedge and the endpoints, type and configuration are unchanged |
| MolFields.GetWedge | INCHI_API/libinchi/src/ixa/ixa_mol.c:1101-1113 | a wedge is read iff the reference atom is an endpoint, else refused as an illegal reference atom; the value is one of the two stored wedges |
| MolFields.OtherAtomInvolution | INCHI_API/libinchi/src/ixa/ixa_mol.c:335-343 | for an endpoint the other atom is the opposite endpoint and asking again returns the first; a non-endpoint gives INVALID |
| MolFields.OtherAtom | INCHI_API/libinchi/src/ixa/ixa_mol.c:335-343 | for an endpoint the result is an endpoint, and a different one when the bond is not a loop; for any other atom the result is INVALID |
| MolFields.CentralEntityByTopology | INCHI_API/libinchi/src/ixa/ixa_mol.c:1332-1370 | tetrahedron/antirectangle give the central atom, rectangle the central bond, never both; the entity returned is the one stored |
| MolFields.NewStereo | INCHI_API/libinchi/src/ixa/ixa_mol.c:1200-1208 | a new centre has the given topology and central entity, the four vertices in order and no parity |
| MolFields.CentralAtom | INCHI_API/libinchi/src/ixa/ixa_mol.c:1332-1343 | there is a central atom iff the topology is tetrahedron or antirectangle, and it is the stored central entity; a rectangle reports no central atom, anything else an unexpected topology |
| MolFields.CentralBond | INCHI_API/libinchi/src/ixa/ixa_mol.c:1359-1370 | there is a central bond iff the topology is rectangle, and it is the stored central entity; an invalid topology reports an unexpected topology, the others no central bond |
| MolFields.VertexRoundTrip | INCHI_API/libinchi/src/ixa/ixa_mol.c:1404-1413 | the four vertices given at creation come back in order for indices 0..3, and no other index is accepted |
| MolFields.Vertex | INCHI_API/libinchi/src/ixa/ixa_mol.c:1404-1413 | a vertex is read iff the topology is valid and the index is 0..3, and it is the stored vertex at that index; otherwise an unexpected topology or an out-of-range index is reported |
| MolFields.ReplaceAtomWellFormed | INCHI_API/libinchi/src/ixa/ixa_mol.c:490-850 | an atom setter that keeps the bond list and stores a table atomic number keeps the arena invariant |
| MolFields.ReplaceBondWellFormed | INCHI_API/libinchi/src/ixa/ixa_mol.c:1025-1131 | a bond setter that keeps the endpoints keeps the arena invariant |
| MolFields.AppendStereoWellFormed | INCHI_API/libinchi/src/ixa/ixa_mol.c:270-296 | appending a stereo centre with four vertices keeps the arena invariant |
| IxaMol.Molecule.constructor | INCHI_API/libinchi/src/ixa/ixa_mol.c:347-358 | a new molecule is the empty, zeroed one |
| IxaMol.Molecule.Clear | INCHI_API/libinchi/src/ixa/ixa_mol.c:218-227 | everything, extension data included, is dropped |
| IxaMol.Molecule.SetChiral | INCHI_API/libinchi/src/ixa/ixa_mol.c:382-390 | only the chiral flag changes |
| IxaMol.Molecule.GetChiral | INCHI_API/libinchi/src/ixa/ixa_mol.c:393-400 | returns the chiral flag |
| IxaMol.Molecule.CreateAtom | INCHI_API/libinchi/src/ixa/ixa_mol.c:230-266 | exactly one carbon at the origin with zero H, mass, charge, radical NONE and no bonds is appended; the ID is old count + 1; earlier atoms are unchanged |
| IxaMol.Molecule.GetNumAtoms | INCHI_API/libinchi/src/ixa/ixa_mol.c:413-420 | the atom count |
| IxaMol.Molecule.GetAtomId | INCHI_API/libinchi/src/ixa/ixa_mol.c:423-433 | a valid ID iff the index is in range, no message either way |
| IxaMol.Molecule.GetAtomIndex | INCHI_API/libinchi/src/ixa/ixa_mol.c:436-448 | the index iff the ID is valid, -1 and one error otherwise |
| IxaMol.Molecule.GetAtomNumBonds | INCHI_API/libinchi/src/ixa/ixa_mol.c:451-464 | the length of the atom's bond list, 0 and an error for a bad ID |
| IxaMol.Molecule.GetAtomBond | INCHI_API/libinchi/src/ixa/ixa_mol.c:467-487 | entry `index` of the atom's list, INVALID with one error for a bad ID or index; a bond returned exists and touches the atom |
| IxaMol.Molecule.SetAtomX | INCHI_API/libinchi/src/ixa/ixa_mol.c:490-504 | only x of that atom changes; a bad ID changes nothing and pushes one error |
| IxaMol.Molecule.GetAtomX | INCHI_API/libinchi/src/ixa/ixa_mol.c:507-520 | the atom's x, 0 with one error for a bad ID |
| IxaMol.Molecule.SetAtomY | INCHI_API/libinchi/src/ixa/ixa_mol.c:523-537 | only y of that atom changes; a bad ID changes nothing and pushes one error |
| IxaMol.Molecule.GetAtomY | INCHI_API/libinchi/src/ixa/ixa_mol.c:540-553 | the atom's y, 0 with one error for a bad ID |
| IxaMol.Molecule.SetAtomZ | INCHI_API/libinchi/src/ixa/ixa_mol.c:556-570 | only z of that atom changes; a bad ID changes nothing and pushes one error |
| IxaMol.Molecule.GetAtomZ | INCHI_API/libinchi/src/ixa/ixa_mol.c:573-586 | the atom's z, 0 with one error for a bad ID |
| IxaMol.Molecule.SetAtomElement | INCHI_API/libinchi/src/ixa/ixa_mol.c:589-619 | the atom is changed as SetElement says (refused symbols leave it and push one error); nothing else in the molecule changes |
| IxaMol.Molecule.GetAtomElement | INCHI_API/libinchi/src/ixa/ixa_mol.c:622-635 | the table symbol of the atom's number, NULL with one error for a bad ID |
| IxaMol.Molecule.StoreAtomicNumber | INCHI_API/libinchi/src/ixa/ixa_mol.c:607 | the atom takes the atomic number and nothing else in the molecule changes; the invariant holds |
| IxaMol.Molecule.SetAtomAtomicNumber | INCHI_API/libinchi/src/ixa/ixa_mol.c:638-658 | the atom is changed as SetAtomicNumber says; errors leave it unchanged |
| IxaMol.Molecule.GetAtomAtomicNumber | INCHI_API/libinchi/src/ixa/ixa_mol.c:661-674 | the atom's number, always 1..119 for a valid ID; 0 with one error otherwise |
| IxaMol.Molecule.SetAtomHydrogens | INCHI_API/libinchi/src/ixa/ixa_mol.c:677-718 | the atom is changed as SetHydrogens says; refusals leave it unchanged with one error |
| IxaMol.Molecule.GetAtomHydrogens | INCHI_API/libinchi/src/ixa/ixa_mol.c:721-747 | the slot's count, or 0 with one error for a bad ID or slot |
| IxaMol.Molecule.SetAtomMass | INCHI_API/libinchi/src/ixa/ixa_mol.c:750-784 | the atom is changed as SetMass says; a negative mass leaves it unchanged with one error |
| IxaMol.Molecule.GetAtomMass | INCHI_API/libinchi/src/ixa/ixa_mol.c:787-800 | the atom's mass, 0 with one error for a bad ID |
| IxaMol.Molecule.SetAtomRadical | INCHI_API/libinchi/src/ixa/ixa_mol.c:803-817 | only the radical of that atom changes, unchecked |
| IxaMol.Molecule.GetAtomRadical | INCHI_API/libinchi/src/ixa/ixa_mol.c:820-833 | the atom's radical, NONE with one error for a bad ID |
| IxaMol.Molecule.SetAtomCharge | INCHI_API/libinchi/src/ixa/ixa_mol.c:836-850 | only the charge of that atom changes, unchecked |
| IxaMol.Molecule.GetAtomCharge | INCHI_API/libinchi/src/ixa/ixa_mol.c:853-866 | the atom's charge, 0 with one error for a bad ID |
| IxaMol.Molecule.CreateBond | INCHI_API/libinchi/src/ixa/ixa_mol.c:869-952 | the loop over atom1's list implements MolModel.CreateBond: on success the molecule is its result with no message, on failure unchanged with its one error |
| IxaMol.Molecule.GetNumBonds | INCHI_API/libinchi/src/ixa/ixa_mol.c:955-962 | the bond count |
| IxaMol.Molecule.GetBondId | INCHI_API/libinchi/src/ixa/ixa_mol.c:965-975 | a valid ID iff the index is in range |
| IxaMol.Molecule.GetBondIndex | INCHI_API/libinchi/src/ixa/ixa_mol.c:978-990 | the index iff the ID is valid, -1 and one error otherwise |
| IxaMol.Molecule.GetBondAtom1 | INCHI_API/libinchi/src/ixa/ixa_mol.c:993-1006 | the first endpoint, INVALID with one error for a bad ID |
| IxaMol.Molecule.GetBondAtom2 | INCHI_API/libinchi/src/ixa/ixa_mol.c:1009-1022 | the second endpoint, INVALID with one error for a bad ID |
| IxaMol.Molecule.GetBondOtherAtom | INCHI_API/libinchi/src/ixa/ixa_mol.c:318-344 | the opposite endpoint as OtherAtom says; INVALID for a bad ID or when the status already held an error |
| IxaMol.Molecule.SetBondType | INCHI_API/libinchi/src/ixa/ixa_mol.c:1025-1039 | only the type of that bond changes |
| IxaMol.Molecule.GetBondType | INCHI_API/libinchi/src/ixa/ixa_mol.c:1042-1055 | the bond's type, SINGLE with one error for a bad ID |
| IxaMol.Molecule.SetBondWedge | INCHI_API/libinchi/src/ixa/ixa_mol.c:1058-1085 | the bond is changed as SetWedge says; a non-endpoint reference changes nothing and pushes one error |
| IxaMol.Molecule.GetBondWedge | INCHI_API/libinchi/src/ixa/ixa_mol.c:1088-1114 | the wedge seen from the reference atom, NONE with one error otherwise |
| IxaMol.Molecule.SetDblBondConfig | INCHI_API/libinchi/src/ixa/ixa_mol.c:1117-1131 | any of the four configurations (perceive, even, odd, either) is stored unchecked, and only the configuration of that bond changes; a bad ID pushes one error |
| IxaMol.Molecule.GetDblBondConfig | INCHI_API/libinchi/src/ixa/ixa_mol.c:1134-1147 | the bond's configuration, PERCEIVE with one error for a bad ID |
| IxaMol.Molecule.GetCommonBond | INCHI_API/libinchi/src/ixa/ixa_mol.c:1150-1182 | the nested loops return CommonBond of the two lists; either bad ID gives INVALID with one error |
| IxaMol.Molecule.CreateStereo | INCHI_API/libinchi/src/ixa/ixa_mol.c:270-296 | exactly one stereo centre with the given topology, centre and vertices and parity NONE is appended; its ID is the new count |
| IxaMol.Molecule.CreateStereoTetrahedron | INCHI_API/libinchi/src/ixa/ixa_mol.c:1185-1209 | appends a tetrahedron centre without validating any ID |
| IxaMol.Molecule.CreateStereoRectangle | INCHI_API/libinchi/src/ixa/ixa_mol.c:1212-1236 | appends a rectangle centre around a bond, without validating any ID |
| IxaMol.Molecule.CreateStereoAntiRectangle | INCHI_API/libinchi/src/ixa/ixa_mol.c:1239-1263 | appends an antirectangle centre without validating any ID |
| IxaMol.Molecule.GetNumStereos | INCHI_API/libinchi/src/ixa/ixa_mol.c:1266-1273 | the stereo count |
| IxaMol.Molecule.GetStereoId | INCHI_API/libinchi/src/ixa/ixa_mol.c:1276-1286 | a valid ID iff the index is in range |
| IxaMol.Molecule.GetStereoIndex | INCHI_API/libinchi/src/ixa/ixa_mol.c:1289-1301 | the index iff the ID is valid, -1 and one error otherwise |
| IxaMol.Molecule.GetStereoTopology | INCHI_API/libinchi/src/ixa/ixa_mol.c:1304-1317 | the stored topology, INVALID with one error for a bad ID |
| IxaMol.Molecule.GetStereoCentralAtom | INCHI_API/libinchi/src/ixa/ixa_mol.c:1320-1344 | the central atom as CentralAtom says; a rectangle or unknown topology gives INVALID with one error |
| IxaMol.Molecule.GetStereoCentralBond | INCHI_API/libinchi/src/ixa/ixa_mol.c:1347-1371 | the central bond as CentralBond says; other topologies give INVALID with one error |
| IxaMol.Molecule.GetVertexCount | INCHI_API/libinchi/src/ixa/ixa_mol.c:106-119 | VertexCount, with one error pushed exactly for an unexpected topology |
| IxaMol.Molecule.GetStereoNumVertices | INCHI_API/libinchi/src/ixa/ixa_mol.c:1374-1387 | the vertex count of the centre's topology, 0 with one error for a bad ID |
| IxaMol.Molecule.GetStereoVertex | INCHI_API/libinchi/src/ixa/ixa_mol.c:1390-1414 | vertex `index` for 0..3; INVALID with one error otherwise, and INVALID whenever the status already held an error |
| IxaMol.Molecule.SetStereoParity | INCHI_API/libinchi/src/ixa/ixa_mol.c:1417-1431 | only the parity of that centre changes |
| IxaMol.Molecule.GetStereoParity | INCHI_API/libinchi/src/ixa/ixa_mol.c:1434-1447 | the centre's parity, NONE with one error for a bad ID |
| ExtImport.FillBlist | INCHI_API/libinchi/src/ixa/ixa_mol.c:1526-1557 | the crossing-bond array always has 2 * nb slots |
| ExtImport.FillBlistSucceeds | INCHI_API/libinchi/src/ixa/ixa_mol.c:1535-1554 | the fill succeeds iff every crossing bond is in 1..n_bonds and has no hydrogen end |
| ExtImport.FillBlistSlots | INCHI_API/libinchi/src/ixa/ixa_mol.c:1544-1547 | after a successful fill, slots 2j and 2j+1 hold the endpoints of crossing bond j, and the rest stay zero |
| ExtImport.FillBlistStops | INCHI_API/libinchi/src/ixa/ixa_mol.c:1539-1553 | after the first bad crossing bond nothing more is written |
| ExtImport.ImportUnit | INCHI_API/libinchi/src/ixa/ixa_mol.c:1493-1557 | a unit's crossing-bond array has twice as many entries as the S-group has crossing bonds |
| ExtImport.ImportUnits | INCHI_API/libinchi/src/ixa/ixa_mol.c:1490-1558 | there is one unit slot per S-group |
| ExtImport.ImportUnitsSuccess | INCHI_API/libinchi/src/ixa/ixa_mol.c:1490-1558 | after a successful copy each processed slot holds the copy of its S-group and the later slots are empty |
| ExtImport.ImportUnitsSucceeds | INCHI_API/libinchi/src/ixa/ixa_mol.c:1490-1558 | the S-group copy succeeds iff every crossing bond of every S-group is acceptable |
| ExtImport.ImportUnitsFailure | INCHI_API/libinchi/src/ixa/ixa_mol.c:1490-1558 | a failed copy is not rolled back: earlier units are complete, the failing unit stays attached with its error, later slots are empty |
| ExtImport.ImportUnitsStop | INCHI_API/libinchi/src/ixa/ixa_mol.c:1539-1553 | once a unit fails, the remaining S-groups are not processed |
| ExtImport.ImportUnitsStopFrom | INCHI_API/libinchi/src/ixa/ixa_mol.c:1539-1553 | once a unit fails, every later stage equals the failed one |
| ExtImport.CopyList | INCHI_API/libinchi/src/ixa/ixa_mol.c:1615-1628 | a length-prefixed list is copied as the prefix its header announces |
| ExtImport.CopyLists | INCHI_API/libinchi/src/ixa/ixa_mol.c:1607-1689 | a list group is copied iff its count is non-zero and the lists are present, then each list by its length formula |
| ExtImport.CopyIndexArray | INCHI_API/libinchi/src/ixa/ixa_mol.c:1587-1606 | the corrected atom index copy keeps every one of the n_atoms entries |
| ExtImport.HapticListsCopied | INCHI_API/libinchi/src/ixa/ixa_mol.c:1607-1629 | each haptic-bond list is copied as entries 0..list[2]+2 |
| ExtImport.ImportV3000 | INCHI_API/libinchi/src/ixa/ixa_mol.c:1562-1690 | the V3000 counters (collections, haptic bonds, absolute/racemic/relative stereo collections) and the atom index arrays are carried over unchanged |
| ExtImport.IndexArrayAsWritten | INCHI_API/libinchi/src/ixa/ixa_mol.c:1587-1606 | the byte-count copy still yields n_atoms ints |
| ExtImport.IndexArrayAsWrittenExample | INCHI_API/libinchi/src/ixa/ixa_mol.c:1595 | for four atoms numbered 1..4 the array as written is [1, 0, 0, 0], not the source array |
| ExtImport.IndexArrayAsWrittenLosesLast | INCHI_API/libinchi/src/ixa/ixa_mol.c:1605 | with two or more atoms a non-zero last index is always lost |
| ExtImport.ImportExtFrame | INCHI_API/libinchi/src/ixa/ixa_mol.c:1458-1699 | only the polymer and V3000 fields change, so the arena invariant is kept |
| ExtImport.ImportExt | INCHI_API/libinchi/src/ixa/ixa_mol.c:1458-1699 | atoms, bonds, stereo centres and chiral flag are unchanged; the result is OK iff no failure is recorded; with no polymer units it is OK and the polymer data is unchanged; when the polymer data is rejected the V3000 data is untouched |
| ExtImport.ImportExtFailsIff | INCHI_API/libinchi/src/ixa/ixa_mol.c:1535-1554 | the import fails iff some S-group names a bad crossing bond; it then reports it, keeps the partial polymer and leaves the V3000 field alone |
| ExtImport.ImportExtSuccess | INCHI_API/libinchi/src/ixa/ixa_mol.c:1465-1690 | on success every S-group is copied in order (no S-group: polymer untouched) and a present V3000 block is copied |
| ExtImport.CopyInts | INCHI_API/libinchi/src/ixa/ixa_mol.c:1626-1627 | the element-by-element copy loop yields the first n entries of the source |
| ExtImport.CopyListGroup | INCHI_API/libinchi/src/ixa/ixa_mol.c:1607-1689 | the loops over a list group produce CopyLists |
| ExtImport.ImportV3000Record | INCHI_API/libinchi/src/ixa/ixa_mol.c:1562-1690 | the V3000 block copy produces ImportV3000 |
| ExtImport.ImportUnitRecord | INCHI_API/libinchi/src/ixa/ixa_mol.c:1493-1557 | the loops of one S-group copy produce ImportUnit, error included |
| ExtImport.SetExtMoldataByMolfileExtInput | INCHI_API/libinchi/src/ixa/ixa_mol.c:1458-1699 | the molecule becomes ImportExt's result, the return code is its result, and its failure is pushed as one error |
| MolfileImport.BondTypeCodeRoundTrip | INCHI_API/libinchi/src/ixa/ixa_read_mol.c:164-185 | codes are accepted iff 1..4, and they are in one-to-one correspondence with SINGLE, DOUBLE, TRIPLE, AROMATIC |
| MolfileImport.BondTypeOfCode | INCHI_API/libinchi/src/ixa/ixa_read_mol.c:164-185 | a bond type is found iff the code is 1..4, and its code is the one read |
| MolfileImport.StereoCodeRoundTrip | INCHI_API/libinchi/src/ixa/ixa_read_mol.c:188-213 | stereo codes are accepted iff 0, 1, 3, 4 or 6; DBLE_EITHER sets the configuration; a wedge set from atom1 reads back as the same code through GetStereo |
| MolfileImport.StereoOfCode | INCHI_API/libinchi/src/ixa/ixa_read_mol.c:188-213 | a stereo action is found iff the code is 0, 1, 3, 4 or 6; it sets the double-bond configuration iff the code is 3, and then to EITHER |
| MolfileImport.SignedChar | INCHI_API/libinchi/src/ixa/ixa_read_mol.c:227 | the mass difference stored in an S_CHAR is in -128..127 and congruent to the record's value modulo 256 |
| MolfileImport.MassRoundTrip | INCHI_API/libinchi/src/ixa/ixa_read_mol.c:226-246 | the stored mass decodes to the signed-char difference, is never negative (so the mass setter accepts it), and is 0 exactly for "no isotope" |
| MolfileImport.EncodeMass | INCHI_API/libinchi/src/ixa/ixa_read_mol.c:226-246 | the stored mass is never negative, and it is 0 iff the record's mass difference (read as a signed char) is 0 |
| MolfileImport.DecodeMass | INCHI_API/libinchi/src/ixa/ixa_read_mol.c:226-246 | decoding gives 0 iff the stored mass is 0, and a stored mass from 128 below to 126 above the isotopic shift flag decodes to a difference in -128..127 |
| MolfileImport.BondTypesOf | INCHI_API/libinchi/src/ixa/ixa_read_mol.c:280-285 | the types read for an atom's bonds, one per list entry, in list order |
| MolfileImport.BondValence | INCHI_API/libinchi/src/ixa/ixa_read_mol.c:280-302 | the bond-order sum lies between the bond count and three times it; the aromatic count is at most the bond count |
| MolfileImport.BondValenceAppend | INCHI_API/libinchi/src/ixa/ixa_read_mol.c:286-301 | one more bond adds its order (1, 2, 3 or 1) and counts one more aromatic bond iff it is aromatic |
| MolfileImport.BondValenceCounts | INCHI_API/libinchi/src/ixa/ixa_read_mol.c:280-302 | the sums equal an independent count (singles + 2 doubles + 3 triples + aromatics), so the order of the bond list does not matter |
| MolfileImport.ImplicitHydrogensSpecial | INCHI_API/libinchi/src/ixa/ixa_read_mol.c:272-319 | with a special valence: an error iff the aromatic count is not 0, 2 or 3; otherwise H + sum (+1 for aromatics) == valence when the valence suffices, else the slot is kept |
| MolfileImport.ImplicitHydrogensDefault | INCHI_API/libinchi/src/ixa/ixa_read_mol.c:321-334 | without a special valence: 0 for an aliased atom or a bare valence-15 atom, else -1 |
| MolfileImport.ImplicitHydrogensAccepted | INCHI_API/libinchi/src/ixa/ixa_read_mol.c:315-334 | every count the rule sets is at least -1, so the hydrogen setter accepts it for slot 0 |
| MolfileImport.ImplicitHydrogensExamples | INCHI_API/libinchi/src/ixa/ixa_read_mol.c:272-334 | worked cases: valence 4 with two single bonds gives 2, with two aromatic bonds 1, with one aromatic bond an error; valence 2 with a triple bond keeps the slot |
| MolfileImport.RadicalOf | INCHI_API/libinchi/src/ixa/ixa_read_mol.c:256-263 | the radical set is TRIPLET iff the record says triplet, or singlet when singlets are read as triplets; otherwise it is the record's value |
| MolfileImport.SwitchCase | INCHI_API/libinchi/src/ixa/ixa_read_mol.c:286-301 | the switch on a value adds 0 to 3 to the bond-order sum, and counts an aromatic bond exactly for the ALTERN label 4 |
| MolfileImport.SwitchCaseIntended | INCHI_API/libinchi/src/ixa/ixa_read_mol.c:286-301 | given a bond type numbered as its INCHI label, the switch adds the bond's order and counts it as aromatic iff it is aromatic |
| MolfileImport.IxaOrdinal | INCHI_API/libinchi/src/ixa/ixa_mol.c:69 | the IXA bond types numbered from 0 lie one below their INCHI labels |
| MolfileImport.BondValenceAsWritten | INCHI_API/libinchi/src/ixa/ixa_read_mol.c:280-302 | the loop as written, fed IXA values numbered from 0: the bond-order sum lies between 0 and three times the bond count |
| MolfileImport.BondValenceAsWrittenShift | INCHI_API/libinchi/src/ixa/ixa_read_mol.c:280-302 | against BondValence, the loop as written never counts an aromatic bond, counts every bond one lower, and an aromatic bond 3 instead of 1 |
| MolfileImport.ImplicitHydrogensAsWritten | INCHI_API/libinchi/src/ixa/ixa_read_mol.c:272-334 | the hydrogen rule fed by the loop as written never rejects an atom for its aromatic bonds |
| MolfileImport.ImplicitHydrogensAsWrittenDiffers | INCHI_API/libinchi/src/ixa/ixa_read_mol.c:272-334 | valence 4 with two single bonds gives 4 instead of 2; with one aromatic bond it gives 1 instead of the error |
| MolfileImport.ImplicitHydrogens | INCHI_API/libinchi/src/ixa/ixa_read_mol.c:272-334 | a count set is at least -1; only a special valence leads to no count or a rejection; a rejection carries the aromatic bond count, which is not 0, 2 or 3 |
| MolfileImport.AtomsCreated | INCHI_API/libinchi/src/ixa/ixa_read_mol.c:146-150 | the creation loop leaves exactly n atoms |
| MolfileImport.AtomsCreatedShape | INCHI_API/libinchi/src/ixa/ixa_read_mol.c:146-150 | the n atoms are all fresh carbons with IDs 1..n, and there are no bonds, stereo centres, chiral flag or extension data |
| MolfileImport.ImportBond | INCHI_API/libinchi/src/ixa/ixa_read_mol.c:153-214 | a bond pass never changes the atom count |
| MolfileImport.SetRecordCodes | INCHI_API/libinchi/src/ixa/ixa_read_mol.c:163-213 | the order and stereo steps leave the atoms and the bond count alone |
| MolfileImport.ImportBonds | INCHI_API/libinchi/src/ixa/ixa_read_mol.c:153-214 | the bond loop never changes the atom count |
| MolfileImport.AfterBond | INCHI_API/libinchi/src/ixa/ixa_read_mol.c:153-214 | the stage after one record keeps the atom count |
| MolfileImport.ImportBondAt | INCHI_API/libinchi/src/ixa/ixa_read_mol.c:155-213 | one record's pass keeps the atom count |
| MolfileImport.ImportBondsNext | INCHI_API/libinchi/src/ixa/ixa_read_mol.c:153-214 | one more record keeps an earlier failure, and otherwise applies the bond pass to the stage so far |
| MolfileImport.ImportBondWellFormed | INCHI_API/libinchi/src/ixa/ixa_read_mol.c:155-213 | a bond pass keeps the arena invariant, also when it stops early |
| MolfileImport.SetRecordCodesWellFormed | INCHI_API/libinchi/src/ixa/ixa_read_mol.c:163-213 | the order and stereo steps keep the arena invariant |
| MolfileImport.ImportBondsWellFormed | INCHI_API/libinchi/src/ixa/ixa_read_mol.c:153-214 | every stage of the bond loop keeps the arena invariant |
| MolfileImport.ImportBondSuccess | INCHI_API/libinchi/src/ixa/ixa_read_mol.c:155-213 | a successful pass named two existing atoms and recognised codes, and appended exactly the bond with the mapped order and stereo; only bond lists change besides |
| MolfileImport.ImportBondsLast | INCHI_API/libinchi/src/ixa/ixa_read_mol.c:153-214 | the last pass of a successful loop accepted its record and appended its bond |
| MolfileImport.RecordBonds | INCHI_API/libinchi/src/ixa/ixa_read_mol.c:153-214 | the translated bonds, one per record, when all are accepted |
| MolfileImport.RecordBondsAccepted | INCHI_API/libinchi/src/ixa/ixa_read_mol.c:153-214 | the records translate iff each is accepted, and then each translates on its own |
| MolfileImport.ImportBondsSuccess | INCHI_API/libinchi/src/ixa/ixa_read_mol.c:153-214 | a successful bond loop accepted every record and appended their bonds in record order |
| MolfileImport.ImportBondsFrame | INCHI_API/libinchi/src/ixa/ixa_read_mol.c:153-214 | a successful bond loop leaves stereo centres, chiral flag and extension data alone |
| MolfileImport.ImportBondsAtoms | INCHI_API/libinchi/src/ixa/ixa_read_mol.c:153-214 | a successful bond loop changes only the atoms' bond lists |
| MolfileImport.ImportBondsInRange | INCHI_API/libinchi/src/ixa/ixa_read_mol.c:156-161 | a bond loop over fresh atoms succeeds only if every bond line names two of them |
| MolfileImport.ImportBondsStop | INCHI_API/libinchi/src/ixa/ixa_read_mol.c:156-212 | once the bond loop has failed, later records are not looked at |
| MolfileImport.TranslateAtom | INCHI_API/libinchi/src/ixa/ixa_read_mol.c:218-335 | an atom pass keeps the atom's bond list and keeps the atomic number a table index |
| MolfileImport.HydrogenPass | INCHI_API/libinchi/src/ixa/ixa_read_mol.c:270-334 | the hydrogen step changes neither the bond list nor the atomic number |
| MolfileImport.TranslateAtomSteps | INCHI_API/libinchi/src/ixa/ixa_read_mol.c:221-334 | an unknown symbol stops the pass with the atom unchanged; otherwise the hydrogen step runs on the atom with the recorded values |
| MolfileImport.TranslateAtomSuccess | INCHI_API/libinchi/src/ixa/ixa_read_mol.c:221-334 | a successful pass leaves the element, encoded mass, charge, coordinates and radical of the record, and in slot 0 what the implicit-H rule computes |
| MolfileImport.ImportAtoms | INCHI_API/libinchi/src/ixa/ixa_read_mol.c:217-335 | the atom loop changes neither the atom count, bonds, stereo centres, chiral flag nor extension data |
| MolfileImport.AfterAtom | INCHI_API/libinchi/src/ixa/ixa_read_mol.c:217-335 | the stage after one atom pass keeps the same frame |
| MolfileImport.ImportAtomAt | INCHI_API/libinchi/src/ixa/ixa_read_mol.c:218-335 | one atom pass keeps the same frame |
| MolfileImport.ImportAtomsNext | INCHI_API/libinchi/src/ixa/ixa_read_mol.c:217-335 | one more atom keeps an earlier failure, and otherwise replaces atom k by its translation |
| MolfileImport.ImportAtomsShape | INCHI_API/libinchi/src/ixa/ixa_read_mol.c:217-335 | after k passes the later atoms are untouched and each earlier one is untouched or its own translation, so pass i sees atom i as the loop began |
| MolfileImport.ImportAtomsDone | INCHI_API/libinchi/src/ixa/ixa_read_mol.c:217-335 | when the first k passes succeed, each succeeded and left its atom's translation |
| MolfileImport.ImportAtomsStop | INCHI_API/libinchi/src/ixa/ixa_read_mol.c:221-334 | once an atom pass has failed, the later passes do not run |
| MolfileImport.ImportAtomsWellFormed | INCHI_API/libinchi/src/ixa/ixa_read_mol.c:217-335 | every stage of the atom loop keeps the arena invariant |
| MolfileImport.ImportAtomsSuccess | INCHI_API/libinchi/src/ixa/ixa_read_mol.c:217-335 | after a successful loop every atom carries its record's values and the H count from its bonds; atoms without records are untouched |
| MolfileImport.FinishCtab | INCHI_API/libinchi/src/ixa/ixa_read_mol.c:336-350 | the tail keeps atoms, bonds and stereo centres; the chiral flag ends up set iff the record or the molecule sets it; with no S-groups and no V3000 block it cannot fail and leaves the polymer and V3000 data alone |
| MolfileImport.ImportCtabWellFormed | INCHI_API/libinchi/src/ixa/ixa_read_mol.c:140-350 | the import leaves a well-formed molecule, whether it finishes or stops early |
| MolfileImport.ImportCtab | INCHI_API/libinchi/src/ixa/ixa_read_mol.c:140-350 | the imported molecule has one atom per record atom |
| MolfileImport.ReadMolfileWellFormed | INCHI_API/libinchi/src/ixa/ixa_read_mol.c:89-355 | whatever the parser returns, the molecule is left well-formed |
| MolfileImport.ImportWithAtoms | INCHI_API/libinchi/src/ixa/ixa_read_mol.c:139-350 | a record with atoms yields one atom per record atom; an error already in the status stops after the first atom is created and adds no failure |
| MolfileImport.ReadMolfile | INCHI_API/libinchi/src/ixa/ixa_read_mol.c:89-355 | without parsed data the molecule is empty and one error is pushed; with data and no earlier error the molecule has one atom per record atom; after an earlier error a non-empty record leaves one atom |
| MolfileImport.ReadMolfileEmpty | INCHI_API/libinchi/src/ixa/ixa_read_mol.c:89-140 | a record without atoms leaves the cleared molecule (not even the chiral flag); a missing record leaves it cleared and pushes exactly one error |
| MolfileImport.ReadMolfileSuccess | INCHI_API/libinchi/src/ixa/ixa_read_mol.c:140-350 | a clean import has one atom per record atom and one bond per record bond in record order, each atom with its element, mass, charge, coordinates, radical and H count, and the record's chiral flag |
| MolfileImport.ImportCtabStages | INCHI_API/libinchi/src/ixa/ixa_read_mol.c:140-350 | a successful import ran both loops successfully, and its result is theirs with the chiral flag set iff the record's is |
| MolfileReader.ImportBondRecord | INCHI_API/libinchi/src/ixa/ixa_read_mol.c:155-213 | one pass through the store's own setters yields ImportBond, pushing its failure |
| MolfileReader.SetBondCodes | INCHI_API/libinchi/src/ixa/ixa_read_mol.c:163-213 | the two switches yield SetRecordCodes, pushing its failure |
| MolfileReader.BondTypeAt | INCHI_API/libinchi/src/ixa/ixa_read_mol.c:282-285 | the type of the j-th bond of the atom's list, no message |
| MolfileReader.SumBondValence | INCHI_API/libinchi/src/ixa/ixa_read_mol.c:280-302 | the loop's two sums are BondValence of the atom's bond types |
| MolfileReader.SetImplicitHydrogens | INCHI_API/libinchi/src/ixa/ixa_read_mol.c:270-334 | the hydrogen step yields HydrogenPass, pushing its failure |
| MolfileReader.SetValenceHydrogens | INCHI_API/libinchi/src/ixa/ixa_read_mol.c:272-319 | the special branch stores, keeps or refuses exactly as ImplicitHydrogens says |
| MolfileReader.SetAtomFields | INCHI_API/libinchi/src/ixa/ixa_read_mol.c:226-265 | mass, charge, coordinates and radical are stored as RecordedAtom says, no message |
| MolfileReader.SetAtomCoordinates | INCHI_API/libinchi/src/ixa/ixa_read_mol.c:250-255 | x, y and z of the atom are stored, nothing else changes |
| MolfileReader.ImportAtomRecord | INCHI_API/libinchi/src/ixa/ixa_read_mol.c:218-335 | an unknown symbol leaves the molecule and pushes one error; otherwise the atom becomes the hydrogen step on its recorded values |
| MolfileReader.SetRecordValues | INCHI_API/libinchi/src/ixa/ixa_read_mol.c:221-265 | an unknown symbol stops with one error; otherwise element and the unrefusable fields are set |
| MolfileReader.SetRecordElement | INCHI_API/libinchi/src/ixa/ixa_read_mol.c:223-224 | the element lookup either stores the number found or pushes one error and stops |
| MolfileReader.CreateRecordAtoms | INCHI_API/libinchi/src/ixa/ixa_read_mol.c:146-150 | creates n atoms, or stops after the first when the status already held an error |
| MolfileReader.ImportBondPass | INCHI_API/libinchi/src/ixa/ixa_read_mol.c:153-214 | pass k advances the molecule from ImportBonds(k) to ImportBonds(k+1) |
| MolfileReader.ImportBondRecords | INCHI_API/libinchi/src/ixa/ixa_read_mol.c:153-214 | the bond loop yields ImportBonds over all records, pushing its failure |
| MolfileReader.ImportAtomPass | INCHI_API/libinchi/src/ixa/ixa_read_mol.c:217-335 | pass i advances the molecule from ImportAtoms(i) to ImportAtoms(i+1) |
| MolfileReader.SetRecordedHydrogens | INCHI_API/libinchi/src/ixa/ixa_read_mol.c:266-334 | once the slot holds the recorded atom, the molecule becomes the hydrogen step on it, pushing its failure |
| MolfileReader.ImportAtomRecords | INCHI_API/libinchi/src/ixa/ixa_read_mol.c:217-335 | the atom loop yields ImportAtoms over all records, pushing its failure |
| MolfileReader.ImportRecord | INCHI_API/libinchi/src/ixa/ixa_read_mol.c:152-350 | bond loop, atom loop, chiral flag and extension data yield ImportCtab, pushing its failure |
| MolfileReader.ImportRecordWithAtoms | INCHI_API/libinchi/src/ixa/ixa_read_mol.c:139-350 | from the cleared molecule, the molecule and the status end as the block's specification says, and the arena invariant is kept |
| MolfileReader.FinishRecord | INCHI_API/libinchi/src/ixa/ixa_read_mol.c:336-350 | the molecule and the status end as the tail's specification says, and the arena invariant is kept |
| MolfileReader.ReadMolfile | INCHI_API/libinchi/src/ixa/ixa_read_mol.c:89-355 | the whole import yields the ReadMolfile specification and pushes exactly its messages |
| MolfileReader.ReadParsedRecord | INCHI_API/libinchi/src/ixa/ixa_read_mol.c:130-350 | a parsed record on a cleared molecule yields the ReadMolfile specification and pushes exactly its messages |
| MolfileReader.PushParserWarning | INCHI_API/libinchi/src/ixa/ixa_read_mol.c:130-137 | the parser's message is pushed as a warning exactly when there is one and no error code, so the status gains no error |
| MoreUtil.CharValue | INCHI_API/demos/mol2inchi/src/moreutil.c:76 | `(int)*s` lies in -128..255 and is 0 only for the NUL byte |
| MoreUtil.Lower | INCHI_API/demos/mol2inchi/src/moreutil.c:70 | only 'A'..'Z' are moved up by 32; everything else, negatives included, is unchanged |
| MoreUtil.OwnStricmp | INCHI_API/demos/mol2inchi/src/moreutil.c:71-92 | the pointer loop returns StrICmp |
| MoreUtil.StrICmpFromZero | INCHI_API/demos/mol2inchi/src/moreutil.c:73-91 | from position i the result is 0 iff the rest has equal length and agrees after folding |
| MoreUtil.StrICmp | INCHI_API/demos/mol2inchi/src/moreutil.c:71-92 | on two NUL-free strings own_stricmp is 0 iff both have equal length and agree after folding 'A'..'Z' |
| MoreUtil.StrICmpFromMismatch | INCHI_API/demos/mol2inchi/src/moreutil.c:73-85 | after a run of agreeing characters the result is the folded difference at the first mismatch |
| MoreUtil.StrICmpFirstMismatch | INCHI_API/demos/mol2inchi/src/moreutil.c:83-84 | at the first folded mismatch (s2's terminator counting) the result is lower(*s1) - lower(*s2) |
| MoreUtil.StrICmpFromPrefix | INCHI_API/demos/mol2inchi/src/moreutil.c:86-89 | from position i a proper folded prefix of s2 gives -1 |
| MoreUtil.StrICmpPrefix | INCHI_API/demos/mol2inchi/src/moreutil.c:86-89 | a proper folded prefix of s2 compares as -1 |
| MoreUtil.StrICmpDependsOnSignedness | INCHI_API/demos/mol2inchi/src/moreutil.c:76-84 | 'a' against byte 0xE9 is negative with unsigned char and positive with signed char |
| MoreUtil.OwnMemicmp | INCHI_API/demos/mol2inchi/src/moreutil.c:96-116 | the counted loop returns MemICmp |
| MoreUtil.MemICmpFromZero | INCHI_API/demos/mol2inchi/src/moreutil.c:100-115 | from position i the result is 0 iff bytes i..length-1 agree after folding |
| MoreUtil.MemICmp | INCHI_API/demos/mol2inchi/src/moreutil.c:96-116 | own_memicmp is 0 iff the first `length` bytes agree after folding (always for length 0) |
| MoreUtil.MemICmpFromMismatch | INCHI_API/demos/mol2inchi/src/moreutil.c:100-112 | after agreeing bytes the result is the folded difference at the first mismatch |
| MoreUtil.MemICmpFirstMismatch | INCHI_API/demos/mol2inchi/src/moreutil.c:110-111 | at the first folded mismatch own_memicmp returns the folded difference |
| MoreUtil.StrICmpMemICmpFrom | INCHI_API/demos/mol2inchi/src/moreutil.c:71-116 | from position i the two comparisons agree in sign, terminators included |
| MoreUtil.StrICmpAgreesWithMemICmp | INCHI_API/demos/mol2inchi/src/moreutil.c:71-116 | with unsigned char, own_stricmp and own_memicmp over the shorter string and its NUL agree in sign |
| MoreUtil.FirstMatch | INCHI_API/demos/mol2inchi/src/moreutil.c:139-152 | the strstr result is the first occurrence at or after the start, and None means there is none |
| MoreUtil.Between | INCHI_API/demos/mol2inchi/src/moreutil.c:128-169 | for NUL-free s, pat1 and pat2: the span starts right after the first pat1 and ends at the first pat2 after it, or at the end of s for an empty pat2; the return position is the pat2 match plus one |
| MoreUtil.CopyTerminated | INCHI_API/demos/mol2inchi/src/moreutil.c:164-165 | the buffer holds the copied characters, then NUL, then what it held before |
| MoreUtil.GetSubstrInBetween | INCHI_API/demos/mol2inchi/src/moreutil.c:128-169 | for NUL-free s, pat1 and pat2: NULL with copied 0 and buf untouched when a pattern is missing; otherwise the Between position, and for a non-empty span buf holds min(n, max_symbols) characters and NUL with copied = min(n, max_symbols) + 1 |
| MoreUtil.BetweenNoneIff | INCHI_API/demos/mol2inchi/src/moreutil.c:139-155 | for NUL-free s, pat1 and pat2: NULL is returned iff pat1 does not occur or a non-empty pat2 does not occur after it |
| MoreUtil.BetweenExtracts | INCHI_API/demos/mol2inchi/src/moreutil.c:139-157 | text placed between a first pat1 and a first following pat2 comes back out as the span |

## Left out

- Allocation failure (`inchi_calloc` returning NULL) is not modelled. Every allocation
  succeeds, so the "Out of memory" messages and the `err = 16` clean-up path through
  `IXA_MOL_ClearExtMolData` do not occur.
- `IXA_MOL_ClearExtMolData` (ixa_mol.c:1702) only frees memory. Its observable effect, that
  the polymer and V3000 fields are gone, is part of `IxaMol.Molecule.Clear`.
- The molecule handle is always a live `Molecule`. The NULL-handle check in `MOL_Unpack`
  (ixa_mol.c:299-308) is not modelled.
- The status object's implementation (ixa_status.c) is not part of this model. Its message
  texts become `IxaStatus.Issue` constructors.
- The parser `ReadMolfile`, `FreeMolfileData` and the `INCHI_IOSTREAM` set-up in
  `IXA_MOL_ReadMolfile` are external code. The model takes the parsed record, and the
  parser's error string and code, as its input.
- `print_time`, `fgets_lf` and `get_next_molfile_as_text` in moreutil.c use the clock and
  file I/O.
- `IXA_MOL_SetExtMolDataByInChIExtInput` (ixa_mol.c:1798) is not modelled. It copies the
  same extension data from another input structure without validation.
- Coordinates are stored and returned as opaque reals. No arithmetic is done on them.
  S-group bracket coordinates, the `smt` string and the other S-group scalars are copied
  values.
- ExtImport.SetExtMoldataByMolfileExtInput: the V3000 error codes (`IXA_EXT_V3000_INVALID`,
  `err = 16`) only arise from allocation failure, so the model returns only success or
  `IXA_EXT_POLYMER_INVALID`.
- ExtImport.CopyIndexArray: the model copies all `n_atoms` ints of the atom index arrays.
  The source copies `n_atoms` bytes (see Findings), and `ExtImport.IndexArrayAsWritten`
  models that copy. It assumes a little-endian layout of 4-byte ints.
- MolfileImport.BondValence: the valence switch is read with the bond orders its
  `INCHI_BOND_TYPE_*` labels name. The switch is given `IXA_BOND_TYPE_*` values, whose
  numbering (`ixa.h`) is not part of this model. The rest of the model uses this reading.
  `BondValenceAsWritten` models the other reading, with the IXA values numbered from 0.
- MolfileImport.SignedChar: the record's mass difference is truncated to a two's-complement
  `S_CHAR`, as on every common platform.
- Integer widths elsewhere are unbounded. No counter or sum in the core can come near
  `int` overflow with at most `MAXVAL` bonds per atom.
- The headers `e_util.h`, `e_ichi_io.h`, `moreutil.h`, `e_inchi_atom.h` and `e_readstru.h`
  hold prototypes and platform macros only.

## Findings

| source | as written | input that shows it | evidently intended | confidence | as-written member | corrected member |
|---|---|---|---|---|---|---|
| INCHI_API/libinchi/src/ixa/ixa_mol.c:1595 | `memcpy(dst, src, n_atoms)` copies `n_atoms` bytes into an array of `n_atoms` ints, so only the first `n_atoms / 4` indices and part of the next survive | a V3000 block with four atoms whose `atom_index_orig` is 1, 2, 3, 4 leaves 1, 0, 0, 0 | copy `n_atoms * sizeof(int)` bytes, i.e. every index | high (not executed) | ExtImport.IndexArrayAsWrittenExample | ExtImport.CopyIndexArray |
| INCHI_API/libinchi/src/ixa/ixa_mol.c:1605 | the same byte-count copy for `atom_index_fin` | any block with two or more atoms and a non-zero last index loses that index | copy every index | high (not executed) | ExtImport.IndexArrayAsWrittenLosesLast | ExtImport.CopyIndexArray |
| INCHI_API/libinchi/src/ixa/ixa_read_mol.c:286-301 | the bond-order `switch` is given an `IXA_BOND_TYPE_*` value but its labels are `INCHI_BOND_TYPE_*` (SINGLE 1 .. ALTERN 4). If the IXA values are numbered from 0, a single bond matches no case, a double adds 1, a triple 2 and an aromatic bond 3, and `aromatic_count` stays 0 | a carbon with valence 4 and two single bonds gets sum 0 instead of 2 | each bond adds its own order, and an aromatic bond adds 1 and is counted | medium (not executed; assumes the IXA values start at 0, as ixa_mol.c:69 suggests) | MolfileImport.BondValenceAsWrittenShift | MolfileImport.BondValence |
| INCHI_API/libinchi/src/ixa/ixa_read_mol.c:272-319 | the hydrogen rule works from the shifted sums | valence 4 with two single bonds gives 4 hydrogens instead of 2; valence 4 with one aromatic bond gives 1 instead of the aromatic-count error | valence less the bond orders, and the error for one aromatic bond | medium (not executed; same assumption as the row above) | MolfileImport.ImplicitHydrogensAsWrittenDiffers | MolfileImport.ImplicitHydrogensSpecial |
