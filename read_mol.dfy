/**
 * IXA_MOL_ReadMolfile (ixa_read_mol.c) after the parser call: the loops that turn a parsed
 * Molfile record into the contents of an IXA molecule through the molecule's own API, each
 * proved to do what the MolfileImport functions describe.
 *
 * The source tests the status object after every API call. A test that follows a call
 * which cannot fail at that point (an in-range index, the bond just created, a mass or a
 * hydrogen count the encoding keeps in range) is not repeated here: the contracts of the
 * calls show that it never stops the import.
 */
module MolfileReader {
  import opened Common
  import opened Handles
  import opened StereoCodes
  import opened IxaStatus
  import opened MolModel
  import opened MolFields
  import opened PeriodicTable
  import opened MolfileRecord
  import opened ExtImport
  import opened IxaMol
  import MolfileImport

  /**
   * One pass of the bond loop (ixa_read_mol.c:153-214): both atom numbers become IDs, the
   * bond is created, then its order and stereo codes are applied through the setters.
   */
  method ImportBondRecord(st: Status, mol: Molecule, rb: RecordBond) returns (ok: bool)
    requires mol.Valid() && !st.HasError()
    modifies st, mol
    ensures mol.Valid()
    ensures var s := MolfileImport.ImportBond(old(mol.Value()), rb);
      && mol.Value() == s.mol
      && st.messages == old(st.messages) + MolfileImport.Pushed(s.failure)
      && ok == s.failure.None?
  {
    var atom1 := mol.GetAtomId(rb.atnum1 - 1);
    var atom2 := mol.GetAtomId(rb.atnum2 - 1);
    ghost var created := MolModel.CreateBond(mol.Value(), atom1, atom2);
    var bond := mol.CreateBond(st, atom1, atom2);
    if created.Rejected? {
      assert st.messages[|old(st.messages)|] == Message(Error, created.issue);
    }
    if st.HasError() {
      return false;
    }
    assert bond == |mol.bonds| && mol.bonds[bond - 1] == NewBond(atom1, atom2);
    ok := SetBondCodes(st, mol, bond, atom1, rb);
  }

  /**
   * The order and stereo switches of one bond pass (ixa_read_mol.c:163-213), applied to the
   * bond just created between `atom1` and another atom.
   */
  method SetBondCodes(st: Status, mol: Molecule, bond: int, atom1: int, rb: RecordBond) returns (ok: bool)
    requires mol.Valid() && ValidId(bond, |mol.bonds|) && mol.bonds[bond - 1].atom1 == atom1
    modifies st, mol
    ensures mol.Valid()
    ensures var s := MolfileImport.SetRecordCodes(old(mol.Value()), bond - 1, rb);
      && mol.Value() == s.mol
      && st.messages == old(st.messages) + MolfileImport.Pushed(s.failure)
      && ok == s.failure.None?
  {
    match MolfileImport.BondTypeOfCode(rb.bondType) {
      case None =>
        st.Push(Error, BondTypeNotRecognised(rb.bondType));
        return false;
      case Some(t) =>
        mol.SetBondType(st, bond, t);
    }
    match MolfileImport.StereoOfCode(rb.bondStereo) {
      case None =>
        st.Push(Error, StereoTypeNotRecognised(rb.bondStereo));
        return false;
      case Some(s) =>
        match s {
          case SetConfig(config) => mol.SetDblBondConfig(st, bond, config);
          case SetWedgeFromAtom1(w) => mol.SetBondWedge(st, bond, atom1, w);
        }
    }
    ok := true;
  }

  /** The type of the j-th bond in an atom's list, read through the molecule's getters. */
  method BondTypeAt(st: Status, mol: Molecule, atom: int, j: nat) returns (t: BondType)
    requires mol.Valid() && ValidId(atom, |mol.atoms|) && j < |mol.atoms[atom - 1].bonds|
    modifies st
    ensures t == MolfileImport.BondTypesOf(mol.bonds, mol.atoms[atom - 1].bonds)[j]
    ensures st.messages == old(st.messages)
  {
    AtomBondsValid(mol.Value(), atom - 1, j);
    var bond := mol.GetAtomBond(st, atom, j);
    t := mol.GetBondType(st, bond);
  }

  /**
   * The valence sum over an atom's bonds (ixa_read_mol.c:280-302): each bond of the atom's
   * list is fetched and its order added, aromatic bonds counting one and being counted.
   */
  method SumBondValence(st: Status, mol: Molecule, atom: int, bondCount: int) returns (chem: int, aromatic: int)
    requires mol.Valid() && ValidId(atom, |mol.atoms|) && bondCount == |mol.atoms[atom - 1].bonds|
    modifies st
    ensures MolfileImport.Valence(chem, aromatic) ==
      MolfileImport.BondValence(MolfileImport.BondTypesOf(mol.bonds, mol.atoms[atom - 1].bonds))
    ensures st.messages == old(st.messages)
  {
    ghost var types := MolfileImport.BondTypesOf(mol.bonds, mol.atoms[atom - 1].bonds);
    chem, aromatic := 0, 0;
    var n1 := 0;
    while n1 < bondCount
      invariant 0 <= n1 <= bondCount
      invariant st.messages == old(st.messages)
      invariant MolfileImport.Valence(chem, aromatic) == MolfileImport.BondValence(types[..n1])
    {
      var bondType := BondTypeAt(st, mol, atom, n1);
      match bondType {
        case Single => chem := chem + 1;
        case Double => chem := chem + 2;
        case Triple => chem := chem + 3;
        case Aromatic =>
          chem := chem + 1;
          aromatic := aromatic + 1;
      }
      MolfileImport.BondValenceAppend(types[..n1], bondType);
      assert types[..n1 + 1] == types[..n1] + [bondType];
      n1 := n1 + 1;
    }
    assert types[..bondCount] == types;
  }

  /**
   * The implicit-hydrogen step of one atom pass (ixa_read_mol.c:270-334): with a special
   * valence the count comes from the bond orders; otherwise 0 for an aliased atom or a bare
   * valence-15 atom, else -1 ("not known").
   */
  method SetImplicitHydrogens(st: Status, mol: Molecule, atom: int, bondCount: int, ra: RecordAtom) returns (ok: bool)
    requires mol.Valid() && ValidId(atom, |mol.atoms|) && bondCount == |mol.atoms[atom - 1].bonds|
    modifies st, mol
    ensures mol.Valid()
    ensures var r := MolfileImport.HydrogenPass(old(mol.atoms)[atom - 1], old(mol.bonds), ra);
      && mol.Value() == old(mol.Value()).(atoms := old(mol.atoms)[atom - 1 := r.atom])
      && st.messages == old(st.messages) + MolfileImport.Pushed(r.failure)
      && ok == r.failure.None?
  {
    if ra.valence != 0 && (ra.valence != 15 || bondCount != 0) {
      ok := SetValenceHydrogens(st, mol, atom, bondCount, ra.valence);
      return;
    }
    ok := true;
    if ra.aliased {
      mol.SetAtomHydrogens(st, atom, 0, 0);
    } else if ra.valence == 15 && bondCount == 0 {
      mol.SetAtomHydrogens(st, atom, 0, 0);
    } else {
      mol.SetAtomHydrogens(st, atom, 0, -1);
    }
  }

  /**
   * The special-valence branch (ixa_read_mol.c:272-319): the valence less the bond-order
   * sum, plus one for two or three aromatic bonds, goes to slot 0 unless the bonds already
   * exceed the valence; one aromatic bond or more than three is an error.
   */
  method SetValenceHydrogens(st: Status, mol: Molecule, atom: int, bondCount: int, valence: int) returns (ok: bool)
    requires mol.Valid() && ValidId(atom, |mol.atoms|) && bondCount == |mol.atoms[atom - 1].bonds|
    requires valence != 0 && (valence != 15 || bondCount != 0)
    modifies st, mol
    ensures mol.Valid()
    ensures var a := old(mol.atoms)[atom - 1];
      match MolfileImport.ImplicitHydrogens(valence, false, MolfileImport.BondTypesOf(old(mol.bonds), a.bonds))
      case KeepImplicit => mol.Value() == old(mol.Value()) && st.messages == old(st.messages) && ok
      case TooManyAromatic(n) =>
        mol.Value() == old(mol.Value()) && st.messages == old(st.messages) + [Message(Error, AromaticBondCount(n))] && !ok
      case SetImplicit(count) =>
        && mol.Value() == old(mol.Value()).(atoms := old(mol.atoms)[atom - 1 := a.(hydrogens := WithSlot(a.hydrogens, 0, count))])
        && st.messages == old(st.messages) && ok
  {
    var chem, aromatic := SumBondValence(st, mol, atom, bondCount);
    if aromatic != 0 && aromatic != 2 && aromatic != 3 {
      st.Push(Error, AromaticBondCount(aromatic));
      return false;
    }
    if aromatic != 0 {
      chem := chem + 1;
    }
    if valence >= chem {
      mol.SetAtomHydrogens(st, atom, 0, valence - chem);
    }
    ok := true;
  }

  /**
   * The setters of one atom pass that cannot refuse their value (ixa_read_mol.c:226-265):
   * mass, charge, coordinates and radical, SINGLET_IS_TRIPLET turning a singlet into a triplet.
   */
  method SetAtomFields(st: Status, mol: Molecule, atom: int, ra: RecordAtom, singletIsTriplet: bool)
    requires mol.Valid() && ValidId(atom, |mol.atoms|)
    modifies st, mol
    ensures mol.Valid()
    ensures var a := old(mol.atoms)[atom - 1];
      mol.Value() == old(mol.Value()).(atoms := old(mol.atoms)[atom - 1 :=
        MolfileImport.RecordedAtom(a, ra, singletIsTriplet, a.atomicNumber)])
    ensures st.messages == old(st.messages)
  {
    MolfileImport.MassRoundTrip(ra.massDifference);
    mol.SetAtomMass(st, atom, MolfileImport.EncodeMass(ra.massDifference));
    mol.SetAtomCharge(st, atom, ra.charge);
    SetAtomCoordinates(st, mol, atom, ra.x, ra.y, ra.z);
    if singletIsTriplet && ra.radical == 1 {
      mol.SetAtomRadical(st, atom, RADICAL_TRIPLET);
    } else {
      mol.SetAtomRadical(st, atom, ra.radical);
    }
  }

  /** The three coordinate setters of one atom pass (ixa_read_mol.c:250-255). */
  method SetAtomCoordinates(st: Status, mol: Molecule, atom: int, x: real, y: real, z: real)
    requires mol.Valid() && ValidId(atom, |mol.atoms|)
    modifies st, mol
    ensures mol.Valid()
    ensures mol.Value() == old(mol.Value()).(atoms := old(mol.atoms)[atom - 1 := old(mol.atoms)[atom - 1].(x := x, y := y, z := z)])
    ensures st.messages == old(st.messages)
  {
    mol.SetAtomX(st, atom, x);
    mol.SetAtomY(st, atom, y);
    mol.SetAtomZ(st, atom, z);
  }

  /**
   * One pass of the atom-property loop (ixa_read_mol.c:218-335): the element, the fields
   * that cannot be refused, then the implicit-hydrogen step.
   */
  method ImportAtomRecord(st: Status, mol: Molecule, i: nat, ra: RecordAtom, singletIsTriplet: bool) returns (ok: bool)
    requires mol.Valid() && !st.HasError() && i < |mol.atoms|
    modifies st, mol
    ensures mol.Valid()
    ensures match ElementNumber(ra.symbol)
      case None =>
        && mol.Value() == old(mol.Value())
        && st.messages == old(st.messages) + MolfileImport.Pushed(Some(ElementNotRecognised(ra.symbol))) && !ok
      case Some(k) =>
        var r := MolfileImport.HydrogenPass(MolfileImport.RecordedAtom(old(mol.atoms)[i], ra, singletIsTriplet, k), old(mol.bonds), ra);
        && mol.Value() == old(mol.Value()).(atoms := old(mol.atoms)[i := r.atom])
        && st.messages == old(st.messages) + MolfileImport.Pushed(r.failure)
        && ok == r.failure.None?
  {
    ghost var m, a, e := mol.Value(), mol.atoms[i], ElementNumber(ra.symbol);
    var atom1 := mol.GetAtomId(i);
    assert atom1 - 1 == i;
    ok := SetRecordValues(st, mol, atom1, ra, singletIsTriplet);
    if !ok {
      assert e.None?;
      return;
    }
    assert e.Some?;
    ghost var recorded := MolfileImport.RecordedAtom(a, ra, singletIsTriplet, e.value);
    assert mol.Value() == m.(atoms := m.atoms[i := recorded]);
    ok := SetRecordedHydrogens(st, mol, i, ra, m, recorded);
  }

  /** The hydrogen step of one atom pass, once slot `i` holds the recorded atom (ixa_read_mol.c:266-334). */
  method SetRecordedHydrogens(st: Status, mol: Molecule, i: nat, ra: RecordAtom, ghost m: Mol, ghost recorded: Atom)
    returns (ok: bool)
    requires mol.Valid() && i < |m.atoms| && mol.Value() == m.(atoms := m.atoms[i := recorded])
    modifies st, mol
    ensures mol.Valid()
    ensures var r := MolfileImport.HydrogenPass(recorded, m.bonds, ra);
      && mol.Value() == m.(atoms := m.atoms[i := r.atom])
      && st.messages == old(st.messages) + MolfileImport.Pushed(r.failure)
      && ok == r.failure.None?
  {
    var atom := mol.GetAtomId(i);
    var bondCount := mol.GetAtomNumBonds(st, atom);
    ok := SetImplicitHydrogens(st, mol, atom, bondCount, ra);
    ghost var r := MolfileImport.HydrogenPass(recorded, m.bonds, ra);
    assert m.atoms[i := recorded][i := r.atom] == m.atoms[i := r.atom];
  }

  /**
   * The element step of one atom pass, the status test after it, then the fields that
   * cannot be refused (ixa_read_mol.c:221-265).
   */
  method SetRecordValues(st: Status, mol: Molecule, atom: int, ra: RecordAtom, singletIsTriplet: bool) returns (ok: bool)
    requires mol.Valid() && !st.HasError() && ValidId(atom, |mol.atoms|)
    modifies st, mol
    ensures mol.Valid()
    ensures match ElementNumber(ra.symbol)
      case None =>
        && mol.Value() == old(mol.Value())
        && st.messages == old(st.messages) + [Message(Error, ElementNotRecognised(ra.symbol))] && !ok
      case Some(k) =>
        && mol.Value() == old(mol.Value()).(atoms := old(mol.atoms)[atom - 1 :=
             MolfileImport.RecordedAtom(old(mol.atoms)[atom - 1], ra, singletIsTriplet, k)])
        && st.messages == old(st.messages) && ok
  {
    ok := SetRecordElement(st, mol, atom, ra.symbol);
    if ok {
      SetAtomFields(st, mol, atom, ra, singletIsTriplet);
    }
  }

  /** The element step of one atom pass and the status test after it (ixa_read_mol.c:223-224). */
  method SetRecordElement(st: Status, mol: Molecule, atom: int, symbol: string) returns (ok: bool)
    requires mol.Valid() && !st.HasError() && ValidId(atom, |mol.atoms|)
    modifies st, mol
    ensures mol.Valid()
    ensures match ElementNumber(symbol)
      case None =>
        && mol.Value() == old(mol.Value())
        && st.messages == old(st.messages) + [Message(Error, ElementNotRecognised(symbol))] && !ok
      case Some(k) =>
        && mol.Value() == old(mol.Value()).(atoms := old(mol.atoms)[atom - 1 := old(mol.atoms)[atom - 1].(atomicNumber := k)])
        && st.messages == old(st.messages) && ok
  {
    mol.SetAtomElement(st, atom, symbol);
    assert ElementNumber(symbol).None? ==> st.messages[|st.messages| - 1].severity == Error;
    ok := !st.HasError();
  }

  /**
   * The atom-creation loop (ixa_read_mol.c:146-150): one new atom per record atom, the
   * status tested after each. An error already on the status stops it after the first atom.
   */
  method CreateRecordAtoms(st: Status, mol: Molecule, n: nat) returns (ok: bool)
    requires 0 < n && mol.Valid() && mol.Value() == EmptyMol
    modifies mol
    ensures mol.Valid() && ok == !st.HasError()
    ensures mol.Value() == MolfileImport.AtomsCreated(if ok then n else 1)
  {
    var i := 0;
    while i < n
      invariant 0 <= i <= n
      invariant mol.Valid() && mol.Value() == MolfileImport.AtomsCreated(i)
      invariant i > 0 ==> !st.HasError()
    {
      var _ := mol.CreateAtom();
      if st.HasError() {
        return false;
      }
      i := i + 1;
    }
    return true;
  }

  /** Pass `k` of the bond loop, stated against the loop's specification. */
  method ImportBondPass(st: Status, mol: Molecule, ghost m0: Mol, rbs: seq<RecordBond>, k: nat) returns (ok: bool)
    requires WellFormed(m0) && !st.HasError() && k < |rbs|
    requires MolfileImport.ImportBonds(m0, rbs, k).failure.None?
    requires MolfileImport.ImportBonds(m0, rbs, k).mol == mol.Value()
    modifies st, mol
    ensures var s := MolfileImport.ImportBonds(m0, rbs, k + 1);
      && s.mol == mol.Value()
      && st.messages == old(st.messages) + MolfileImport.Pushed(s.failure)
      && ok == s.failure.None?
  {
    MolfileImport.ImportBondsWellFormed(m0, rbs, k);
    MolfileImport.ImportBondsNext(m0, rbs, k);
    ok := ImportBondRecord(st, mol, rbs[k]);
  }

  /** The bond loop (ixa_read_mol.c:153-214), stopping at the first record that fails. */
  method ImportBondRecords(st: Status, mol: Molecule, rbs: seq<RecordBond>) returns (ok: bool)
    requires mol.Valid() && !st.HasError()
    modifies st, mol
    ensures var s := MolfileImport.ImportBonds(old(mol.Value()), rbs, |rbs|);
      mol.Value() == s.mol && st.messages == old(st.messages) + MolfileImport.Pushed(s.failure)
      && ok == s.failure.None?
  {
    ghost var m0 := mol.Value();
    var k := 0;
    while k < |rbs|
      invariant 0 <= k <= |rbs|
      invariant st.messages == old(st.messages) && !st.HasError()
      invariant MolfileImport.ImportBonds(m0, rbs, k).failure.None?
      invariant MolfileImport.ImportBonds(m0, rbs, k).mol == mol.Value()
    {
      ok := ImportBondPass(st, mol, m0, rbs, k);
      if !ok {
        MolfileImport.ImportBondsStop(m0, rbs, k + 1, |rbs|);
        return;
      }
      assert MolfileImport.Pushed(MolfileImport.ImportBonds(m0, rbs, k + 1).failure) == [];
      k := k + 1;
    }
    return true;
  }

  /** Pass `i` of the atom-property loop, stated against the loop's specification. */
  method ImportAtomPass(st: Status, mol: Molecule, ghost m1: Mol, ras: seq<RecordAtom>, i: nat, singletIsTriplet: bool)
    returns (ok: bool)
    requires WellFormed(m1) && !st.HasError() && i < |ras| <= |m1.atoms|
    requires MolfileImport.ImportAtoms(m1, ras, singletIsTriplet, i).failure.None?
    requires MolfileImport.ImportAtoms(m1, ras, singletIsTriplet, i).mol == mol.Value()
    modifies st, mol
    ensures var s := MolfileImport.ImportAtoms(m1, ras, singletIsTriplet, i + 1);
      && s.mol == mol.Value()
      && st.messages == old(st.messages) + MolfileImport.Pushed(s.failure)
      && ok == s.failure.None?
  {
    MolfileImport.ImportAtomsWellFormed(m1, ras, singletIsTriplet, i);
    MolfileImport.ImportAtomsNext(m1, ras, singletIsTriplet, i);
    MolfileImport.TranslateAtomSteps(mol.atoms[i], mol.bonds, ras[i], singletIsTriplet);
    ok := ImportAtomRecord(st, mol, i, ras[i], singletIsTriplet);
  }

  /** The atom-property loop (ixa_read_mol.c:217-335), stopping at the first atom that fails. */
  method ImportAtomRecords(st: Status, mol: Molecule, ras: seq<RecordAtom>, singletIsTriplet: bool)
    returns (ok: bool)
    requires mol.Valid() && !st.HasError() && |ras| <= |mol.atoms|
    modifies st, mol
    ensures var s := MolfileImport.ImportAtoms(old(mol.Value()), ras, singletIsTriplet, |ras|);
      mol.Value() == s.mol && st.messages == old(st.messages) + MolfileImport.Pushed(s.failure)
      && ok == s.failure.None?
  {
    ghost var m1 := mol.Value();
    var i := 0;
    while i < |ras|
      invariant 0 <= i <= |ras|
      invariant st.messages == old(st.messages) && !st.HasError()
      invariant MolfileImport.ImportAtoms(m1, ras, singletIsTriplet, i).failure.None?
      invariant MolfileImport.ImportAtoms(m1, ras, singletIsTriplet, i).mol == mol.Value()
    {
      ok := ImportAtomPass(st, mol, m1, ras, i, singletIsTriplet);
      if !ok {
        MolfileImport.ImportAtomsStop(m1, ras, singletIsTriplet, i + 1, |ras|);
        return;
      }
      assert MolfileImport.Pushed(MolfileImport.ImportAtoms(m1, ras, singletIsTriplet, i + 1).failure) == [];
      i := i + 1;
    }
    return true;
  }

  /**
   * The import proper once the atoms exist (ixa_read_mol.c:152-350): the bond loop, the atom
   * loop, the chiral flag, then the extension data when the record has any.
   */
  method ImportRecord(st: Status, mol: Molecule, c: Ctab, singletIsTriplet: bool)
    requires CtabWellFormed(c) && mol.Valid() && !st.HasError()
    requires mol.Value() == MolfileImport.AtomsCreated(|c.atoms|)
    modifies st, mol
    ensures mol.Valid()
    ensures var s := MolfileImport.ImportCtab(c, singletIsTriplet);
      mol.Value() == s.mol && st.messages == old(st.messages) + MolfileImport.Pushed(s.failure)
  {
    ghost var whole := MolfileImport.ImportCtab(c, singletIsTriplet);
    ghost var m0 := mol.Value();
    ghost var bondsDone := MolfileImport.ImportBonds(m0, c.bonds, |c.bonds|);
    var ok := ImportBondRecords(st, mol, c.bonds);
    MolfileImport.ImportBondsWellFormed(m0, c.bonds, |c.bonds|);
    if !ok {
      assert whole == bondsDone;
      return;
    }
    MolfileImport.ImportBondsInRange(c);
    ghost var m1 := mol.Value();
    ghost var atomsDone := MolfileImport.ImportAtoms(m1, c.atoms, singletIsTriplet, |c.atoms|);
    ok := ImportAtomRecords(st, mol, c.atoms, singletIsTriplet);
    MolfileImport.ImportAtomsWellFormed(m1, c.atoms, singletIsTriplet, |c.atoms|);
    if !ok {
      assert whole == atomsDone;
      return;
    }
    FinishRecord(st, mol, c);
  }

  /** The chiral flag, then the extension data when the record has any (ixa_read_mol.c:336-350). */
  method FinishRecord(st: Status, mol: Molecule, c: Ctab)
    requires CtabWellFormed(c) && BondsInRange(c) && mol.Valid()
    modifies st, mol
    ensures mol.Valid()
    ensures var s := MolfileImport.FinishCtab(old(mol.Value()), c);
      mol.Value() == s.mol && st.messages == old(st.messages) + MolfileImport.Pushed(s.failure)
  {
    if c.chiral {
      mol.SetChiral(true);
    }
    if |c.sgroups| > 0 || c.v3000.Some? {
      ExtImport.ImportExtFrame(mol.Value(), c);
      var _ := SetExtMoldataByMolfileExtInput(st, mol, c);
    }
  }

  /**
   * IXA_MOL_ReadMolfile after the parser call (ixa_read_mol.c:89-355): the molecule is
   * cleared, the parser's result reported, and a record with atoms imported.
   */
  method ReadMolfile(st: Status, mol: Molecule, p: ParseResult, singletIsTriplet: bool)
    requires p.data.Some? ==> CtabWellFormed(p.data.value)
    modifies st, mol
    ensures mol.Valid()
    ensures var r := MolfileImport.ReadMolfile(p, old(st.HasError()), singletIsTriplet);
      mol.Value() == r.mol && st.messages == old(st.messages) + r.pushed
  {
    ghost var r := MolfileImport.ReadMolfile(p, st.HasError(), singletIsTriplet);
    mol.Clear();
    if p.data.None? {
      st.Push(Error, if p.errorString != "" then ParserMessage(p.errorString) else NoMolfileData);
      return;
    }
    ReadParsedRecord(st, mol, p, singletIsTriplet);
  }

  /** The parser returned a record (ixa_read_mol.c:130-350): its warning, then the import of its atoms. */
  method ReadParsedRecord(st: Status, mol: Molecule, p: ParseResult, singletIsTriplet: bool)
    requires p.data.Some? && CtabWellFormed(p.data.value) && mol.Valid() && mol.Value() == EmptyMol
    modifies st, mol
    ensures mol.Valid()
    ensures var r := MolfileImport.ReadMolfile(p, old(st.HasError()), singletIsTriplet);
      mol.Value() == r.mol && st.messages == old(st.messages) + r.pushed
  {
    ghost var r := MolfileImport.ReadMolfile(p, st.HasError(), singletIsTriplet);
    var c := p.data.value;
    PushParserWarning(st, p);
    ghost var warn := MolfileImport.ParserWarning(p);
    if |c.atoms| == 0 {
      assert r == MolfileImport.ReadOutcome(EmptyMol, warn);
      return;
    }
    ImportRecordWithAtoms(st, mol, c, singletIsTriplet);
  }

  /** The parser's message, when it reported one without an error code, as a warning (ixa_read_mol.c:130-137). */
  method PushParserWarning(st: Status, p: ParseResult)
    modifies st
    ensures st.messages == old(st.messages) + MolfileImport.ParserWarning(p)
    ensures st.HasError() == old(st.HasError())
  {
    if p.errorString != "" && p.err == 0 {
      st.Push(Warning, ParserMessage(p.errorString));
    }
    ghost var warn := MolfileImport.ParserWarning(p);
    AnyErrorAppend(old(st.messages), warn);
    if warn != [] {
      assert warn[0].severity == Warning;
    }
  }

  /** The block run for a record with atoms (ixa_read_mol.c:139-350): create the atoms, then import. */
  method ImportRecordWithAtoms(st: Status, mol: Molecule, c: Ctab, singletIsTriplet: bool)
    requires CtabWellFormed(c) && |c.atoms| > 0 && mol.Valid() && mol.Value() == EmptyMol
    modifies st, mol
    ensures mol.Valid()
    ensures var s := MolfileImport.ImportWithAtoms(c, old(st.HasError()), singletIsTriplet);
      mol.Value() == s.mol && st.messages == old(st.messages) + MolfileImport.Pushed(s.failure)
  {
    var ok := CreateRecordAtoms(st, mol, |c.atoms|);
    if !ok {
      return;
    }
    ImportRecord(st, mol, c, singletIsTriplet);
  }
}
