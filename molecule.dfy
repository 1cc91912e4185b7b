/**
 * The IXA molecule object (INCHIMOL, ixa_mol.c). Its atom, bond and stereo arrays grow by
 * one element per create call and are updated in place by the setters; every accessor
 * re-checks the ID it is given and reports a bad one on the status object.
 */
module IxaMol {
  import opened Common
  import opened Handles
  import opened StereoCodes
  import opened IxaStatus
  import opened PeriodicTable
  import opened MolModel
  import opened MolFields

  class Molecule {
    var atoms: seq<Atom>
    var bonds: seq<Bond>
    var stereos: seq<Stereo>
    var chiral: bool
    var polymer: Option<Polymer>
    var v3000: Option<V3000>

    /** The whole molecule as a value. */
    function Value(): Mol
      reads this
    {
      Mol(atoms, bonds, stereos, chiral, polymer, v3000)
    }

    predicate Valid()
      reads this
    {
      WellFormed(Value())
    }

    /** Only the atom array may have changed. */
    twostate predicate OnlyAtomsChanged()
      reads this
    {
      bonds == old(bonds) && stereos == old(stereos) && chiral == old(chiral)
      && polymer == old(polymer) && v3000 == old(v3000)
    }

    /** Only the bond array may have changed. */
    twostate predicate OnlyBondsChanged()
      reads this
    {
      atoms == old(atoms) && stereos == old(stereos) && chiral == old(chiral)
      && polymer == old(polymer) && v3000 == old(v3000)
    }

    /** Only the stereo array may have changed. */
    twostate predicate OnlyStereosChanged()
      reads this
    {
      atoms == old(atoms) && bonds == old(bonds) && chiral == old(chiral)
      && polymer == old(polymer) && v3000 == old(v3000)
    }

    /** IXA_MOL_Create (ixa_mol.c:347-358): a zeroed molecule. */
    constructor ()
      ensures Value() == EmptyMol && Valid()
    {
      atoms, bonds, stereos := [], [], [];
      chiral := false;
      polymer, v3000 := None, None;
    }

    /** MOL_Clear / IXA_MOL_Clear (ixa_mol.c:218-227, 372-379): everything, extension data included, is dropped. */
    method Clear()
      modifies this
      ensures Value() == EmptyMol && Valid()
    {
      atoms, bonds, stereos := [], [], [];
      chiral := false;
      polymer, v3000 := None, None;
    }

    /** IXA_MOL_SetChiral (ixa_mol.c:382-390). */
    method SetChiral(v: bool)
      requires Valid()
      modifies this
      ensures Value() == old(Value()).(chiral := v) && Valid()
    {
      chiral := v;
    }

    /** IXA_MOL_GetChiral (ixa_mol.c:393-400). */
    method GetChiral() returns (r: bool)
      ensures r == chiral
    {
      r := chiral;
    }

    // ----- atoms -----

    /** MOL_CreateAtom / IXA_MOL_CreateAtom (ixa_mol.c:230-266, 403-410): a carbon is appended. */
    method CreateAtom() returns (id: int)
      requires Valid()
      modifies this
      ensures Value() == MolModel.CreateAtom(old(Value())) && Valid()
      ensures id == |old(atoms)| + 1 && id == Pack(|atoms| - 1) && ValidId(id, |atoms|)
      ensures atoms[id - 1] == NewAtom && atoms[..id - 1] == old(atoms)
    {
      CreateAtomWellFormed(Value());
      id := Pack(|atoms|);
      atoms := atoms + [NewAtom];
    }

    /** IXA_MOL_GetNumAtoms (ixa_mol.c:413-420). */
    method GetNumAtoms() returns (n: int)
      ensures n == |atoms|
    {
      n := |atoms|;
    }

    /** IXA_MOL_GetAtomId (ixa_mol.c:423-433): no message is pushed for a bad index. */
    method GetAtomId(index: int) returns (id: int)
      ensures id == IdOfIndex(index, |atoms|)
      ensures id != INVALID_ID <==> 0 <= index < |atoms|
    {
      if index < 0 || index >= |atoms| {
        id := INVALID_ID;
      } else {
        id := Pack(index);
      }
    }

    /** MOL_UnpackAtom / IXA_MOL_GetAtomIndex (ixa_mol.c:140-153, 436-448). */
    method GetAtomIndex(st: Status, atom: int) returns (index: int)
      modifies st
      ensures index == IndexOfId(atom, |atoms|)
      ensures index >= 0 <==> ValidId(atom, |atoms|)
      ensures st.messages == old(st.messages) + Check(ValidId(atom, |atoms|), AtomIdInvalid)
    {
      index := atom - 1;
      if index < 0 || index >= |atoms| {
        st.Push(Error, AtomIdInvalid);
        index := -1;
      }
    }

    /** IXA_MOL_GetAtomNumBonds (ixa_mol.c:451-464). */
    method GetAtomNumBonds(st: Status, atom: int) returns (n: int)
      modifies st
      ensures n == (if ValidId(atom, |atoms|) then |atoms[atom - 1].bonds| else 0)
      ensures st.messages == old(st.messages) + Check(ValidId(atom, |atoms|), AtomIdInvalid)
    {
      var i := GetAtomIndex(st, atom);
      n := if i < 0 then 0 else |atoms[i].bonds|;
    }

    /** IXA_MOL_GetAtomBond (ixa_mol.c:467-487). */
    method GetAtomBond(st: Status, atom: int, index: int) returns (bond: int)
      requires Valid()
      modifies st
      ensures !ValidId(atom, |atoms|) ==>
        bond == INVALID_ID && st.messages == old(st.messages) + [Message(Error, AtomIdInvalid)]
      ensures ValidId(atom, |atoms|) ==>
        var list := atoms[atom - 1].bonds;
        && bond == (if 0 <= index < |list| then list[index] else INVALID_ID)
        && st.messages == old(st.messages) + Check(0 <= index < |list|, BondIndexOutOfRange(index))
      ensures bond != INVALID_ID ==> ValidId(bond, |bonds|) && Touches(bonds[bond - 1], atom)
    {
      var i := GetAtomIndex(st, atom);
      if i < 0 {
        return INVALID_ID;
      }
      if index < 0 || index >= |atoms[i].bonds| {
        st.Push(Error, BondIndexOutOfRange(index));
        return INVALID_ID;
      }
      bond := atoms[i].bonds[index];
      AtomBondsValid(Value(), i, index);
    }

    /** IXA_MOL_SetAtomX (ixa_mol.c:490-504). */
    method SetAtomX(st: Status, atom: int, x: real)
      requires Valid()
      modifies this, st
      ensures Valid() && OnlyAtomsChanged()
      ensures ValidId(atom, |old(atoms)|) ==> atoms == old(atoms)[atom - 1 := old(atoms)[atom - 1].(x := x)]
      ensures !ValidId(atom, |old(atoms)|) ==> atoms == old(atoms)
      ensures st.messages == old(st.messages) + Check(ValidId(atom, |atoms|), AtomIdInvalid)
    {
      var i := GetAtomIndex(st, atom);
      if i >= 0 {
        ReplaceAtomWellFormed(Value(), i, atoms[i].(x := x));
        atoms := atoms[i := atoms[i].(x := x)];
      }
    }

    /** IXA_MOL_GetAtomX (ixa_mol.c:507-520). */
    method GetAtomX(st: Status, atom: int) returns (x: real)
      modifies st
      ensures x == (if ValidId(atom, |atoms|) then atoms[atom - 1].x else 0.0)
      ensures st.messages == old(st.messages) + Check(ValidId(atom, |atoms|), AtomIdInvalid)
    {
      var i := GetAtomIndex(st, atom);
      x := if i < 0 then 0.0 else atoms[i].x;
    }

    /** IXA_MOL_SetAtomY (ixa_mol.c:523-537). */
    method SetAtomY(st: Status, atom: int, y: real)
      requires Valid()
      modifies this, st
      ensures Valid() && OnlyAtomsChanged()
      ensures ValidId(atom, |old(atoms)|) ==> atoms == old(atoms)[atom - 1 := old(atoms)[atom - 1].(y := y)]
      ensures !ValidId(atom, |old(atoms)|) ==> atoms == old(atoms)
      ensures st.messages == old(st.messages) + Check(ValidId(atom, |atoms|), AtomIdInvalid)
    {
      var i := GetAtomIndex(st, atom);
      if i >= 0 {
        ReplaceAtomWellFormed(Value(), i, atoms[i].(y := y));
        atoms := atoms[i := atoms[i].(y := y)];
      }
    }

    /** IXA_MOL_GetAtomY (ixa_mol.c:540-553). */
    method GetAtomY(st: Status, atom: int) returns (y: real)
      modifies st
      ensures y == (if ValidId(atom, |atoms|) then atoms[atom - 1].y else 0.0)
      ensures st.messages == old(st.messages) + Check(ValidId(atom, |atoms|), AtomIdInvalid)
    {
      var i := GetAtomIndex(st, atom);
      y := if i < 0 then 0.0 else atoms[i].y;
    }

    /** IXA_MOL_SetAtomZ (ixa_mol.c:556-570). */
    method SetAtomZ(st: Status, atom: int, z: real)
      requires Valid()
      modifies this, st
      ensures Valid() && OnlyAtomsChanged()
      ensures ValidId(atom, |old(atoms)|) ==> atoms == old(atoms)[atom - 1 := old(atoms)[atom - 1].(z := z)]
      ensures !ValidId(atom, |old(atoms)|) ==> atoms == old(atoms)
      ensures st.messages == old(st.messages) + Check(ValidId(atom, |atoms|), AtomIdInvalid)
    {
      var i := GetAtomIndex(st, atom);
      if i >= 0 {
        ReplaceAtomWellFormed(Value(), i, atoms[i].(z := z));
        atoms := atoms[i := atoms[i].(z := z)];
      }
    }

    /** IXA_MOL_GetAtomZ (ixa_mol.c:573-586). */
    method GetAtomZ(st: Status, atom: int) returns (z: real)
      modifies st
      ensures z == (if ValidId(atom, |atoms|) then atoms[atom - 1].z else 0.0)
      ensures st.messages == old(st.messages) + Check(ValidId(atom, |atoms|), AtomIdInvalid)
    {
      var i := GetAtomIndex(st, atom);
      z := if i < 0 then 0.0 else atoms[i].z;
    }

    /**
     * IXA_MOL_SetAtomElement (ixa_mol.c:589-619): the table is scanned from entry 1 for the
     * symbol; "D" and "T" fall back to hydrogen; anything else is refused.
     */
    method SetAtomElement(st: Status, atom: int, symbol: string)
      requires Valid()
      modifies this, st
      ensures Valid() && OnlyAtomsChanged()
      ensures ValidId(atom, |old(atoms)|) ==>
        Applied(old(atoms), atom - 1, SetElement(old(atoms)[atom - 1], symbol), atoms, old(st.messages), st.messages)
      ensures !ValidId(atom, |old(atoms)|) ==>
        atoms == old(atoms) && st.messages == old(st.messages) + [Message(Error, AtomIdInvalid)]
    {
      var i := GetAtomIndex(st, atom);
      if i < 0 {
        return;
      }
      var n := LookupElement(symbol);
      if n.Some? {
        assert SetElement(atoms[i], symbol) == Done(atoms[i].(atomicNumber := n.value));
        StoreAtomicNumber(i, n.value);
      } else {
        assert SetElement(atoms[i], symbol) == Refused(ElementNotRecognised(symbol));
        st.Push(Error, ElementNotRecognised(symbol));
      }
    }

    /** The store both element setters end in: atom slot `i` takes atomic number `n`. */
    method StoreAtomicNumber(i: nat, n: int)
      requires Valid() && i < |atoms| && 1 <= n < TableSize
      modifies this
      ensures Valid() && OnlyAtomsChanged()
      ensures atoms == old(atoms)[i := old(atoms)[i].(atomicNumber := n)]
    {
      ReplaceAtomWellFormed(Value(), i, atoms[i].(atomicNumber := n));
      atoms := atoms[i := atoms[i].(atomicNumber := n)];
    }

    /** IXA_MOL_GetAtomElement (ixa_mol.c:622-635): the table entry of the atomic number; None is NULL. */
    method GetAtomElement(st: Status, atom: int) returns (symbol: Option<string>)
      requires Valid()
      modifies st
      ensures ValidId(atom, |atoms|) ==> symbol == Some(Elements[atoms[atom - 1].atomicNumber])
      ensures !ValidId(atom, |atoms|) ==> symbol == None
      ensures st.messages == old(st.messages) + Check(ValidId(atom, |atoms|), AtomIdInvalid)
    {
      var i := GetAtomIndex(st, atom);
      symbol := if i < 0 then None else Some(Elements[atoms[i].atomicNumber]);
    }

    /** IXA_MOL_SetAtomAtomicNumber (ixa_mol.c:638-658). */
    method SetAtomAtomicNumber(st: Status, atom: int, n: int)
      requires Valid()
      modifies this, st
      ensures Valid() && OnlyAtomsChanged()
      ensures ValidId(atom, |old(atoms)|) ==>
        Applied(old(atoms), atom - 1, SetAtomicNumber(old(atoms)[atom - 1], n), atoms, old(st.messages), st.messages)
      ensures !ValidId(atom, |old(atoms)|) ==>
        atoms == old(atoms) && st.messages == old(st.messages) + [Message(Error, AtomIdInvalid)]
    {
      var i := GetAtomIndex(st, atom);
      if i < 0 {
        return;
      }
      if n < 1 || n >= |Elements| {
        st.Push(Error, AtomicNumberOutOfRange(n));
        return;
      }
      StoreAtomicNumber(i, n);
    }

    /** IXA_MOL_GetAtomAtomicNumber (ixa_mol.c:661-674). */
    method GetAtomAtomicNumber(st: Status, atom: int) returns (n: int)
      requires Valid()
      modifies st
      ensures n == (if ValidId(atom, |atoms|) then atoms[atom - 1].atomicNumber else 0)
      ensures ValidId(atom, |atoms|) ==> 1 <= n < TableSize
      ensures st.messages == old(st.messages) + Check(ValidId(atom, |atoms|), AtomIdInvalid)
    {
      var i := GetAtomIndex(st, atom);
      n := if i < 0 then 0 else atoms[i].atomicNumber;
    }

    /** IXA_MOL_SetAtomHydrogens (ixa_mol.c:677-718). */
    method SetAtomHydrogens(st: Status, atom: int, isotope: int, count: int)
      requires Valid()
      modifies this, st
      ensures Valid() && OnlyAtomsChanged()
      ensures ValidId(atom, |old(atoms)|) ==>
        Applied(old(atoms), atom - 1, SetHydrogens(old(atoms)[atom - 1], isotope, count), atoms, old(st.messages), st.messages)
      ensures !ValidId(atom, |old(atoms)|) ==>
        atoms == old(atoms) && st.messages == old(st.messages) + [Message(Error, AtomIdInvalid)]
    {
      var i := GetAtomIndex(st, atom);
      if i < 0 {
        return;
      }
      if isotope == 0 {
        if count < -1 {
          st.Push(Error, ImplicitHydrogenNegative);
          return;
        }
      } else if 1 <= isotope <= 3 {
        if count < 0 {
          st.Push(Error, IsotopicHydrogenNegative);
          return;
        }
      } else {
        st.Push(Error, HydrogenIsotopeNotRecognised(isotope));
        return;
      }
      var a := atoms[i].(hydrogens := WithSlot(atoms[i].hydrogens, isotope, count));
      ReplaceAtomWellFormed(Value(), i, a);
      atoms := atoms[i := a];
    }

    /** IXA_MOL_GetAtomHydrogens (ixa_mol.c:721-747): 0 is returned on every error. */
    method GetAtomHydrogens(st: Status, atom: int, isotope: int) returns (count: int)
      modifies st
      ensures !ValidId(atom, |atoms|) ==>
        count == 0 && st.messages == old(st.messages) + [Message(Error, AtomIdInvalid)]
      ensures ValidId(atom, |atoms|) ==>
        match GetHydrogens(atoms[atom - 1], isotope)
        case Done(c) => count == c && st.messages == old(st.messages)
        case Refused(issue) => count == 0 && st.messages == old(st.messages) + [Message(Error, issue)]
    {
      var i := GetAtomIndex(st, atom);
      if i < 0 {
        return 0;
      }
      if !(0 <= isotope <= 3) {
        st.Push(Error, HydrogenIsotopeNotRecognised(isotope));
        return 0;
      }
      count := Slot(atoms[i].hydrogens, isotope);
    }

    /** IXA_MOL_SetAtomMass (ixa_mol.c:750-784). */
    method SetAtomMass(st: Status, atom: int, mass: int)
      requires Valid()
      modifies this, st
      ensures Valid() && OnlyAtomsChanged()
      ensures ValidId(atom, |old(atoms)|) ==>
        Applied(old(atoms), atom - 1, SetMass(old(atoms)[atom - 1], mass), atoms, old(st.messages), st.messages)
      ensures !ValidId(atom, |old(atoms)|) ==>
        atoms == old(atoms) && st.messages == old(st.messages) + [Message(Error, AtomIdInvalid)]
    {
      var i := GetAtomIndex(st, atom);
      if i < 0 {
        return;
      }
      if mass < 0 {
        st.Push(Error, MassNegative);
        return;
      }
      ReplaceAtomWellFormed(Value(), i, atoms[i].(mass := mass));
      atoms := atoms[i := atoms[i].(mass := mass)];
    }

    /** IXA_MOL_GetAtomMass (ixa_mol.c:787-800). */
    method GetAtomMass(st: Status, atom: int) returns (mass: int)
      modifies st
      ensures mass == (if ValidId(atom, |atoms|) then atoms[atom - 1].mass else 0)
      ensures st.messages == old(st.messages) + Check(ValidId(atom, |atoms|), AtomIdInvalid)
    {
      var i := GetAtomIndex(st, atom);
      mass := if i < 0 then 0 else atoms[i].mass;
    }

    /** IXA_MOL_SetAtomRadical (ixa_mol.c:803-817): the value is stored unchecked. */
    method SetAtomRadical(st: Status, atom: int, radical: int)
      requires Valid()
      modifies this, st
      ensures Valid() && OnlyAtomsChanged()
      ensures ValidId(atom, |old(atoms)|) ==> atoms == old(atoms)[atom - 1 := old(atoms)[atom - 1].(radical := radical)]
      ensures !ValidId(atom, |old(atoms)|) ==> atoms == old(atoms)
      ensures st.messages == old(st.messages) + Check(ValidId(atom, |atoms|), AtomIdInvalid)
    {
      var i := GetAtomIndex(st, atom);
      if i >= 0 {
        ReplaceAtomWellFormed(Value(), i, atoms[i].(radical := radical));
        atoms := atoms[i := atoms[i].(radical := radical)];
      }
    }

    /** IXA_MOL_GetAtomRadical (ixa_mol.c:820-833). */
    method GetAtomRadical(st: Status, atom: int) returns (radical: int)
      modifies st
      ensures radical == (if ValidId(atom, |atoms|) then atoms[atom - 1].radical else RADICAL_NONE)
      ensures st.messages == old(st.messages) + Check(ValidId(atom, |atoms|), AtomIdInvalid)
    {
      var i := GetAtomIndex(st, atom);
      radical := if i < 0 then RADICAL_NONE else atoms[i].radical;
    }

    /** IXA_MOL_SetAtomCharge (ixa_mol.c:836-850): the value is stored unchecked. */
    method SetAtomCharge(st: Status, atom: int, charge: int)
      requires Valid()
      modifies this, st
      ensures Valid() && OnlyAtomsChanged()
      ensures ValidId(atom, |old(atoms)|) ==> atoms == old(atoms)[atom - 1 := old(atoms)[atom - 1].(charge := charge)]
      ensures !ValidId(atom, |old(atoms)|) ==> atoms == old(atoms)
      ensures st.messages == old(st.messages) + Check(ValidId(atom, |atoms|), AtomIdInvalid)
    {
      var i := GetAtomIndex(st, atom);
      if i >= 0 {
        ReplaceAtomWellFormed(Value(), i, atoms[i].(charge := charge));
        atoms := atoms[i := atoms[i].(charge := charge)];
      }
    }

    /** IXA_MOL_GetAtomCharge (ixa_mol.c:853-866). */
    method GetAtomCharge(st: Status, atom: int) returns (charge: int)
      modifies st
      ensures charge == (if ValidId(atom, |atoms|) then atoms[atom - 1].charge else 0)
      ensures st.messages == old(st.messages) + Check(ValidId(atom, |atoms|), AtomIdInvalid)
    {
      var i := GetAtomIndex(st, atom);
      charge := if i < 0 then 0 else atoms[i].charge;
    }

    // ----- bonds -----

    /**
     * IXA_MOL_CreateBond (ixa_mol.c:869-952): the checks of MolModel.CreateBond in source
     * order, the duplicate check being a scan of atom1's bond list.
     */
    method CreateBond(st: Status, atom1: int, atom2: int) returns (id: int)
      requires Valid()
      modifies this, st
      ensures Valid()
      ensures match MolModel.CreateBond(old(Value()), atom1, atom2)
        case Created(m, bid) => Value() == m && id == bid && st.messages == old(st.messages)
        case Rejected(issue) =>
          Value() == old(Value()) && id == INVALID_ID && st.messages == old(st.messages) + [Message(Error, issue)]
    {
      var i1 := GetAtomIndex(st, atom1);
      if i1 < 0 {
        return INVALID_ID;
      }
      var i2 := GetAtomIndex(st, atom2);
      if i2 < 0 {
        return INVALID_ID;
      }
      if |atoms[i1].bonds| >= MAX_BONDS || |atoms[i2].bonds| >= MAX_BONDS {
        st.Push(Error, TooManyBonds);
        return INVALID_ID;
      }
      if atom1 == atom2 {
        st.Push(Error, SelfBond);
        return INVALID_ID;
      }
      var list := atoms[i1].bonds;
      var j := 0;
      while j < |list|
        modifies st
        invariant 0 <= j <= |list|
        invariant st.messages == old(st.messages)
        invariant forall j' :: 0 <= j' < j ==> 1 <= list[j'] <= |bonds| && bonds[list[j'] - 1].atom2 != atom2
      {
        AtomBondsValid(Value(), i1, j);
        if bonds[list[j] - 1].atom2 == atom2 {
          assert HasBondTo(Value(), i1, atom2);
          st.Push(Error, BondExists);
          return INVALID_ID;
        }
        j := j + 1;
      }
      CreateBondWellFormed(Value(), atom1, atom2);
      id := Pack(|bonds|);
      bonds := bonds + [NewBond(atom1, atom2)];
      atoms := atoms[i1 := atoms[i1].(bonds := atoms[i1].bonds + [id])];
      atoms := atoms[i2 := atoms[i2].(bonds := atoms[i2].bonds + [id])];
    }

    /** IXA_MOL_GetNumBonds (ixa_mol.c:955-962). */
    method GetNumBonds() returns (n: int)
      ensures n == |bonds|
    {
      n := |bonds|;
    }

    /** IXA_MOL_GetBondId (ixa_mol.c:965-975). */
    method GetBondId(index: int) returns (id: int)
      ensures id == IdOfIndex(index, |bonds|)
      ensures id != INVALID_ID <==> 0 <= index < |bonds|
    {
      if index < 0 || index >= |bonds| {
        id := INVALID_ID;
      } else {
        id := Pack(index);
      }
    }

    /** MOL_UnpackBond / IXA_MOL_GetBondIndex (ixa_mol.c:156-169, 978-990). */
    method GetBondIndex(st: Status, bond: int) returns (index: int)
      modifies st
      ensures index == IndexOfId(bond, |bonds|)
      ensures index >= 0 <==> ValidId(bond, |bonds|)
      ensures st.messages == old(st.messages) + Check(ValidId(bond, |bonds|), BondIdInvalid)
    {
      index := bond - 1;
      if index < 0 || index >= |bonds| {
        st.Push(Error, BondIdInvalid);
        index := -1;
      }
    }

    /** IXA_MOL_GetBondAtom1 (ixa_mol.c:993-1006). */
    method GetBondAtom1(st: Status, bond: int) returns (atom: int)
      modifies st
      ensures atom == (if ValidId(bond, |bonds|) then bonds[bond - 1].atom1 else INVALID_ID)
      ensures st.messages == old(st.messages) + Check(ValidId(bond, |bonds|), BondIdInvalid)
    {
      var k := GetBondIndex(st, bond);
      atom := if k < 0 then INVALID_ID else bonds[k].atom1;
    }

    /** IXA_MOL_GetBondAtom2 (ixa_mol.c:1009-1022). */
    method GetBondAtom2(st: Status, bond: int) returns (atom: int)
      modifies st
      ensures atom == (if ValidId(bond, |bonds|) then bonds[bond - 1].atom2 else INVALID_ID)
      ensures st.messages == old(st.messages) + Check(ValidId(bond, |bonds|), BondIdInvalid)
    {
      var k := GetBondIndex(st, bond);
      atom := if k < 0 then INVALID_ID else bonds[k].atom2;
    }

    /**
     * MOL_GetBondOtherAtom (ixa_mol.c:318-344). It tests the status object itself after each
     * lookup, so an error pushed before the call also makes it return INVALID.
     */
    method GetBondOtherAtom(st: Status, bond: int, atom: int) returns (other: int)
      modifies st
      ensures st.messages == old(st.messages) + Check(ValidId(bond, |bonds|), BondIdInvalid)
      ensures other == (if ValidId(bond, |bonds|) && !old(st.HasError()) then OtherAtom(bonds[bond - 1], atom) else INVALID_ID)
    {
      var a1 := GetBondAtom1(st, bond);
      AnyErrorAppend(old(st.messages), Check(ValidId(bond, |bonds|), BondIdInvalid));
      if st.HasError() {
        return INVALID_ID;
      }
      var a2 := GetBondAtom2(st, bond);
      if a1 == atom {
        other := a2;
      } else if a2 == atom {
        other := a1;
      } else {
        other := INVALID_ID;
      }
    }

    /** IXA_MOL_SetBondType (ixa_mol.c:1025-1039). */
    method SetBondType(st: Status, bond: int, bondType: BondType)
      requires Valid()
      modifies this, st
      ensures Valid() && OnlyBondsChanged()
      ensures ValidId(bond, |old(bonds)|) ==> bonds == old(bonds)[bond - 1 := old(bonds)[bond - 1].(bondType := bondType)]
      ensures !ValidId(bond, |old(bonds)|) ==> bonds == old(bonds)
      ensures st.messages == old(st.messages) + Check(ValidId(bond, |bonds|), BondIdInvalid)
    {
      var k := GetBondIndex(st, bond);
      if k >= 0 {
        ReplaceBondWellFormed(Value(), k, bonds[k].(bondType := bondType));
        bonds := bonds[k := bonds[k].(bondType := bondType)];
      }
    }

    /** IXA_MOL_GetBondType (ixa_mol.c:1042-1055): SINGLE on error. */
    method GetBondType(st: Status, bond: int) returns (bondType: BondType)
      modifies st
      ensures bondType == (if ValidId(bond, |bonds|) then bonds[bond - 1].bondType else Single)
      ensures st.messages == old(st.messages) + Check(ValidId(bond, |bonds|), BondIdInvalid)
    {
      var k := GetBondIndex(st, bond);
      bondType := if k < 0 then Single else bonds[k].bondType;
    }

    /** IXA_MOL_SetBondWedge (ixa_mol.c:1058-1085). */
    method SetBondWedge(st: Status, bond: int, refAtom: int, w: Wedge)
      requires Valid()
      modifies this, st
      ensures Valid() && OnlyBondsChanged()
      ensures ValidId(bond, |old(bonds)|) ==>
        Applied(old(bonds), bond - 1, SetWedge(old(bonds)[bond - 1], refAtom, w), bonds, old(st.messages), st.messages)
      ensures !ValidId(bond, |old(bonds)|) ==>
        bonds == old(bonds) && st.messages == old(st.messages) + [Message(Error, BondIdInvalid)]
    {
      var k := GetBondIndex(st, bond);
      if k < 0 {
        return;
      }
      if refAtom == bonds[k].atom1 {
        ReplaceBondWellFormed(Value(), k, bonds[k].(wedgeFromAtom1 := w));
        bonds := bonds[k := bonds[k].(wedgeFromAtom1 := w)];
      } else if refAtom == bonds[k].atom2 {
        ReplaceBondWellFormed(Value(), k, bonds[k].(wedgeFromAtom2 := w));
        bonds := bonds[k := bonds[k].(wedgeFromAtom2 := w)];
      } else {
        st.Push(Error, ReferenceAtomIllegal);
      }
    }

    /** IXA_MOL_GetBondWedge (ixa_mol.c:1088-1114): NONE on error. */
    method GetBondWedge(st: Status, bond: int, refAtom: int) returns (w: Wedge)
      modifies st
      ensures !ValidId(bond, |bonds|) ==>
        w == NoWedge && st.messages == old(st.messages) + [Message(Error, BondIdInvalid)]
      ensures ValidId(bond, |bonds|) ==>
        match GetWedge(bonds[bond - 1], refAtom)
        case Done(v) => w == v && st.messages == old(st.messages)
        case Refused(issue) => w == NoWedge && st.messages == old(st.messages) + [Message(Error, issue)]
    {
      var k := GetBondIndex(st, bond);
      if k < 0 {
        return NoWedge;
      }
      if refAtom == bonds[k].atom1 {
        w := bonds[k].wedgeFromAtom1;
      } else if refAtom == bonds[k].atom2 {
        w := bonds[k].wedgeFromAtom2;
      } else {
        st.Push(Error, ReferenceAtomIllegal);
        w := NoWedge;
      }
    }

    /** IXA_MOL_SetDblBondConfig (ixa_mol.c:1117-1131). */
    method SetDblBondConfig(st: Status, bond: int, config: DblBondConfig)
      requires Valid()
      modifies this, st
      ensures Valid() && OnlyBondsChanged()
      ensures ValidId(bond, |old(bonds)|) ==> bonds == old(bonds)[bond - 1 := old(bonds)[bond - 1].(config := config)]
      ensures !ValidId(bond, |old(bonds)|) ==> bonds == old(bonds)
      ensures st.messages == old(st.messages) + Check(ValidId(bond, |bonds|), BondIdInvalid)
    {
      var k := GetBondIndex(st, bond);
      if k >= 0 {
        ReplaceBondWellFormed(Value(), k, bonds[k].(config := config));
        bonds := bonds[k := bonds[k].(config := config)];
      }
    }

    /** IXA_MOL_GetDblBondConfig (ixa_mol.c:1134-1147): PERCEIVE on error. */
    method GetDblBondConfig(st: Status, bond: int) returns (config: DblBondConfig)
      modifies st
      ensures config == (if ValidId(bond, |bonds|) then bonds[bond - 1].config else Perceive)
      ensures st.messages == old(st.messages) + Check(ValidId(bond, |bonds|), BondIdInvalid)
    {
      var k := GetBondIndex(st, bond);
      config := if k < 0 then Perceive else bonds[k].config;
    }

    /**
     * IXA_MOL_GetCommonBond (ixa_mol.c:1150-1182): for each bond of atom1 in order, a scan of
     * atom2's list; the first bond found in both is returned.
     */
    method GetCommonBond(st: Status, atom1: int, atom2: int) returns (bond: int)
      requires Valid()
      modifies st
      ensures !ValidId(atom1, |atoms|) ==>
        bond == INVALID_ID && st.messages == old(st.messages) + [Message(Error, AtomIdInvalid)]
      ensures ValidId(atom1, |atoms|) && !ValidId(atom2, |atoms|) ==>
        bond == INVALID_ID && st.messages == old(st.messages) + [Message(Error, AtomIdInvalid)]
      ensures ValidId(atom1, |atoms|) && ValidId(atom2, |atoms|) ==>
        bond == CommonBond(atoms[atom1 - 1].bonds, atoms[atom2 - 1].bonds) && st.messages == old(st.messages)
    {
      var i1 := GetAtomIndex(st, atom1);
      if i1 < 0 {
        return INVALID_ID;
      }
      var i2 := GetAtomIndex(st, atom2);
      if i2 < 0 {
        return INVALID_ID;
      }
      var l1, l2 := atoms[i1].bonds, atoms[i2].bonds;
      var j := 0;
      while j < |l1|
        invariant 0 <= j <= |l1|
        invariant !CommonBefore(l1, l2, j)
      {
        var candidate := l1[j];
        var k := 0;
        while k < |l2|
          invariant 0 <= k <= |l2|
          invariant forall k' :: 0 <= k' < k ==> l2[k'] != candidate
        {
          if l2[k] == candidate {
            CommonBondIsFirst(l1, l2, j);
            return candidate;
          }
          k := k + 1;
        }
        j := j + 1;
      }
      bond := INVALID_ID;
    }

    // ----- stereo centres -----

    /** MOL_CreateStereo plus the field assignments of IXA_MOL_CreateStereo* (ixa_mol.c:270-296). */
    method CreateStereo(topology: Topology, centre: int, v1: int, v2: int, v3: int, v4: int) returns (id: int)
      requires Valid()
      modifies this
      ensures Valid() && OnlyStereosChanged()
      ensures stereos == old(stereos) + [NewStereo(topology, centre, v1, v2, v3, v4)]
      ensures id == |stereos| && ValidId(id, |stereos|)
    {
      var s := NewStereo(topology, centre, v1, v2, v3, v4);
      AppendStereoWellFormed(Value(), s);
      id := Pack(|stereos|);
      stereos := stereos + [s];
    }

    /** IXA_MOL_CreateStereoTetrahedron (ixa_mol.c:1185-1209): no ID is validated. */
    method CreateStereoTetrahedron(centralAtom: int, v1: int, v2: int, v3: int, v4: int) returns (id: int)
      requires Valid()
      modifies this
      ensures Valid() && OnlyStereosChanged()
      ensures stereos == old(stereos) + [NewStereo(Tetrahedron, centralAtom, v1, v2, v3, v4)]
      ensures id == |stereos|
    {
      id := CreateStereo(Tetrahedron, centralAtom, v1, v2, v3, v4);
    }

    /** IXA_MOL_CreateStereoRectangle (ixa_mol.c:1212-1236): the centre is a bond ID, not validated. */
    method CreateStereoRectangle(centralBond: int, v1: int, v2: int, v3: int, v4: int) returns (id: int)
      requires Valid()
      modifies this
      ensures Valid() && OnlyStereosChanged()
      ensures stereos == old(stereos) + [NewStereo(Rectangle, centralBond, v1, v2, v3, v4)]
      ensures id == |stereos|
    {
      id := CreateStereo(Rectangle, centralBond, v1, v2, v3, v4);
    }

    /** IXA_MOL_CreateStereoAntiRectangle (ixa_mol.c:1239-1263): no ID is validated. */
    method CreateStereoAntiRectangle(centralAtom: int, v1: int, v2: int, v3: int, v4: int) returns (id: int)
      requires Valid()
      modifies this
      ensures Valid() && OnlyStereosChanged()
      ensures stereos == old(stereos) + [NewStereo(AntiRectangle, centralAtom, v1, v2, v3, v4)]
      ensures id == |stereos|
    {
      id := CreateStereo(AntiRectangle, centralAtom, v1, v2, v3, v4);
    }

    /** IXA_MOL_GetNumStereos (ixa_mol.c:1266-1273). */
    method GetNumStereos() returns (n: int)
      ensures n == |stereos|
    {
      n := |stereos|;
    }

    /** IXA_MOL_GetStereoId (ixa_mol.c:1276-1286). */
    method GetStereoId(index: int) returns (id: int)
      ensures id == IdOfIndex(index, |stereos|)
      ensures id != INVALID_ID <==> 0 <= index < |stereos|
    {
      if index < 0 || index >= |stereos| {
        id := INVALID_ID;
      } else {
        id := Pack(index);
      }
    }

    /** MOL_UnpackStereo / IXA_MOL_GetStereoIndex (ixa_mol.c:172-185, 1289-1301). */
    method GetStereoIndex(st: Status, stereo: int) returns (index: int)
      modifies st
      ensures index == IndexOfId(stereo, |stereos|)
      ensures index >= 0 <==> ValidId(stereo, |stereos|)
      ensures st.messages == old(st.messages) + Check(ValidId(stereo, |stereos|), StereoIdInvalid)
    {
      index := stereo - 1;
      if index < 0 || index >= |stereos| {
        st.Push(Error, StereoIdInvalid);
        index := -1;
      }
    }

    /** IXA_MOL_GetStereoTopology (ixa_mol.c:1304-1317). */
    method GetStereoTopology(st: Status, stereo: int) returns (topology: Topology)
      modifies st
      ensures topology == (if ValidId(stereo, |stereos|) then stereos[stereo - 1].topology else TopologyInvalid)
      ensures st.messages == old(st.messages) + Check(ValidId(stereo, |stereos|), StereoIdInvalid)
    {
      var s := GetStereoIndex(st, stereo);
      topology := if s < 0 then TopologyInvalid else stereos[s].topology;
    }

    /** IXA_MOL_GetStereoCentralAtom (ixa_mol.c:1320-1344). */
    method GetStereoCentralAtom(st: Status, stereo: int) returns (atom: int)
      modifies st
      ensures !ValidId(stereo, |stereos|) ==>
        atom == INVALID_ID && st.messages == old(st.messages) + [Message(Error, StereoIdInvalid)]
      ensures ValidId(stereo, |stereos|) ==>
        match CentralAtom(stereos[stereo - 1])
        case Done(v) => atom == v && st.messages == old(st.messages)
        case Refused(issue) => atom == INVALID_ID && st.messages == old(st.messages) + [Message(Error, issue)]
    {
      var s := GetStereoIndex(st, stereo);
      if s < 0 {
        return INVALID_ID;
      }
      match stereos[s].topology {
        case Tetrahedron =>
          atom := stereos[s].centralEntity;
        case AntiRectangle =>
          atom := stereos[s].centralEntity;
        case Rectangle =>
          st.Push(Error, NoCentralAtom);
          atom := INVALID_ID;
        case TopologyInvalid =>
          st.Push(Error, UnexpectedTopology);
          atom := INVALID_ID;
      }
    }

    /** IXA_MOL_GetStereoCentralBond (ixa_mol.c:1347-1371). */
    method GetStereoCentralBond(st: Status, stereo: int) returns (bond: int)
      modifies st
      ensures !ValidId(stereo, |stereos|) ==>
        bond == INVALID_ID && st.messages == old(st.messages) + [Message(Error, StereoIdInvalid)]
      ensures ValidId(stereo, |stereos|) ==>
        match CentralBond(stereos[stereo - 1])
        case Done(v) => bond == v && st.messages == old(st.messages)
        case Refused(issue) => bond == INVALID_ID && st.messages == old(st.messages) + [Message(Error, issue)]
    {
      var s := GetStereoIndex(st, stereo);
      if s < 0 {
        return INVALID_ID;
      }
      match stereos[s].topology {
        case Tetrahedron =>
          st.Push(Error, NoCentralBond);
          bond := INVALID_ID;
        case AntiRectangle =>
          st.Push(Error, NoCentralBond);
          bond := INVALID_ID;
        case Rectangle =>
          bond := stereos[s].centralEntity;
        case TopologyInvalid =>
          st.Push(Error, UnexpectedTopology);
          bond := INVALID_ID;
      }
    }

    /** GetVertexCount (ixa_mol.c:106-119): an unexpected topology pushes an error. */
    static method GetVertexCount(st: Status, topology: Topology) returns (n: int)
      modifies st
      ensures n == VertexCount(topology)
      ensures st.messages == old(st.messages) + Check(topology != TopologyInvalid, UnexpectedTopology)
    {
      if topology == TopologyInvalid {
        st.Push(Error, UnexpectedTopology);
        n := 0;
      } else {
        n := 4;
      }
    }

    /** IXA_MOL_GetStereoNumVertices (ixa_mol.c:1374-1387). */
    method GetStereoNumVertices(st: Status, stereo: int) returns (n: int)
      modifies st
      ensures !ValidId(stereo, |stereos|) ==>
        n == 0 && st.messages == old(st.messages) + [Message(Error, StereoIdInvalid)]
      ensures ValidId(stereo, |stereos|) ==>
        var t := stereos[stereo - 1].topology;
        n == VertexCount(t) && st.messages == old(st.messages) + Check(t != TopologyInvalid, UnexpectedTopology)
    {
      var s := GetStereoIndex(st, stereo);
      if s < 0 {
        return 0;
      }
      n := GetVertexCount(st, stereos[s].topology);
    }

    /**
     * IXA_MOL_GetStereoVertex (ixa_mol.c:1390-1414). It tests the status object itself after
     * counting the vertices, so an error pushed before the call also makes it return INVALID.
     */
    method GetStereoVertex(st: Status, stereo: int, index: int) returns (atom: int)
      requires Valid()
      modifies st
      ensures !ValidId(stereo, |stereos|) ==>
        atom == INVALID_ID && st.messages == old(st.messages) + [Message(Error, StereoIdInvalid)]
      ensures ValidId(stereo, |stereos|) && old(st.HasError()) ==>
        atom == INVALID_ID &&
        st.messages == old(st.messages) + Check(stereos[stereo - 1].topology != TopologyInvalid, UnexpectedTopology)
      ensures ValidId(stereo, |stereos|) && !old(st.HasError()) ==>
        match Vertex(stereos[stereo - 1], index)
        case Done(v) => atom == v && st.messages == old(st.messages)
        case Refused(issue) => atom == INVALID_ID && st.messages == old(st.messages) + [Message(Error, issue)]
    {
      var s := GetStereoIndex(st, stereo);
      if s < 0 {
        return INVALID_ID;
      }
      assert st.messages == old(st.messages);
      var count := GetVertexCount(st, stereos[s].topology);
      AnyErrorAppend(old(st.messages), Check(stereos[s].topology != TopologyInvalid, UnexpectedTopology));
      if st.HasError() {
        return INVALID_ID;
      }
      if index < 0 || index >= count {
        st.Push(Error, VertexIndexOutOfRange);
        return INVALID_ID;
      }
      atom := stereos[s].vertices[index];
    }

    /** IXA_MOL_SetStereoParity (ixa_mol.c:1417-1431). */
    method SetStereoParity(st: Status, stereo: int, parity: Parity)
      requires Valid()
      modifies this, st
      ensures Valid() && OnlyStereosChanged()
      ensures ValidId(stereo, |old(stereos)|) ==>
        stereos == old(stereos)[stereo - 1 := old(stereos)[stereo - 1].(parity := parity)]
      ensures !ValidId(stereo, |old(stereos)|) ==> stereos == old(stereos)
      ensures st.messages == old(st.messages) + Check(ValidId(stereo, |stereos|), StereoIdInvalid)
    {
      var s := GetStereoIndex(st, stereo);
      if s >= 0 {
        stereos := stereos[s := stereos[s].(parity := parity)];
      }
    }

    /** IXA_MOL_GetStereoParity (ixa_mol.c:1434-1447). */
    method GetStereoParity(st: Status, stereo: int) returns (parity: Parity)
      modifies st
      ensures parity == (if ValidId(stereo, |stereos|) then stereos[stereo - 1].parity else ParityNone)
      ensures st.messages == old(st.messages) + Check(ValidId(stereo, |stereos|), StereoIdInvalid)
    {
      var s := GetStereoIndex(st, stereo);
      parity := if s < 0 then ParityNone else stereos[s].parity;
    }
  }
}
