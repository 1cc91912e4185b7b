/**
 * What IXA_MOL_ReadMolfile (ixa_read_mol.c) does with a parsed Molfile record, stated as
 * functions on molecule values: the code tables it applies, the isotope encoding, the
 * implicit-hydrogen rule, and the three import phases (atoms, then bonds, then atom
 * properties) with the first failure stopping each phase.
 */
module MolfileImport {
  import opened Common
  import opened Handles
  import opened StereoCodes
  import opened IxaStatus
  import opened PeriodicTable
  import opened MolModel
  import opened MolFields
  import opened MolfileRecord
  import opened ExtImport

  // ----- code tables -----

  /** The bond-order switch (ixa_read_mol.c:164-185): codes 1..4; anything else is not recognised. */
  function BondTypeOfCode(code: int): (r: Option<BondType>)
    ensures r.Some? <==> 1 <= code <= 4
    ensures r.Some? ==> BondTypeCode(r.value) == code
  {
    if code == 1 then Some(Single)
    else if code == 2 then Some(Double)
    else if code == 3 then Some(Triple)
    else if code == 4 then Some(Aromatic)
    else None
  }

  /** The Molfile code of each bond order. */
  function BondTypeCode(t: BondType): int {
    match t
    case Single => 1
    case Double => 2
    case Triple => 3
    case Aromatic => 4
  }

  /** The table accepts exactly the codes 1..4, and it is a bijection between them and the four bond orders. */
  lemma BondTypeCodeRoundTrip(code: int, t: BondType)
    ensures BondTypeOfCode(code).Some? <==> 1 <= code <= 4
    ensures BondTypeOfCode(BondTypeCode(t)) == Some(t)
    ensures BondTypeOfCode(code) == Some(t) ==> BondTypeCode(t) == code
  {
  }

  /** What a bond-stereo code sets: the double-bond configuration, or the wedge seen from atom1. */
  datatype StereoSetting = SetConfig(config: DblBondConfig) | SetWedgeFromAtom1(wedge: Wedge)

  /** The bond-stereo switch (ixa_read_mol.c:188-213); anything else is not recognised. */
  function StereoOfCode(code: int): (r: Option<StereoSetting>)
    ensures r.Some? <==> code in {0, 1, 3, 4, 6}
    ensures r.Some? && r.value.SetConfig? <==> code == INPUT_STEREO_DBLE_EITHER
    ensures r.Some? && r.value.SetConfig? ==> r.value.config == ConfigEither
  {
    if code == INPUT_STEREO_DBLE_EITHER then Some(SetConfig(ConfigEither))
    else if code == INPUT_STEREO_SNGL_UP then Some(SetWedgeFromAtom1(Up))
    else if code == INPUT_STEREO_SNGL_EITHER then Some(SetWedgeFromAtom1(Either))
    else if code == INPUT_STEREO_SNGL_DOWN then Some(SetWedgeFromAtom1(Down))
    else if code == 0 then Some(SetWedgeFromAtom1(NoWedge))
    else None
  }

  /** The bond a stereo setting produces. */
  function ApplyStereo(b: Bond, s: StereoSetting): Bond {
    match s
    case SetConfig(c) => b.(config := c)
    case SetWedgeFromAtom1(w) => b.(wedgeFromAtom1 := w)
  }

  /**
   * The stereo table accepts exactly 0, 1, 3, 4 and 6. A single bond that received a wedge
   * from its code and has no wedge from its other end reports that very code back through
   * GetStereo, since the single-bond InChI codes equal the Molfile codes.
   */
  lemma StereoCodeRoundTrip(code: int)
    ensures StereoOfCode(code).Some? <==> code in {0, 1, 3, 4, 6}
    ensures code == INPUT_STEREO_DBLE_EITHER ==> StereoOfCode(code) == Some(SetConfig(ConfigEither))
    ensures StereoOfCode(code).Some? && StereoOfCode(code).value.SetWedgeFromAtom1? ==>
      GetStereo(Single, StereoOfCode(code).value.wedge, NoWedge) == code
  {
  }

  // ----- isotope encoding -----

  /** The value of `v` stored in a signed char (two's complement truncation to 8 bits). */
  function SignedChar(v: int): (r: int)
    ensures -128 <= r <= 127
    ensures (r - v) % 256 == 0
    ensures -128 <= v <= 127 ==> r == v
  {
    (v + 128) % 256 - 128
  }

  /**
   * The stored mass (ixa_read_mol.c:226-246): 0 for no isotope, the shift flag alone for the
   * "rounded average mass" code, and otherwise the difference plus the shift flag.
   */
  function EncodeMass(massDifference: int): (r: int)
    ensures r >= 0
    ensures r == 0 <==> SignedChar(massDifference) == 0
  {
    var d := SignedChar(massDifference);
    if d == 0 then 0
    else if d == ZERO_ATW_DIFF then ISOTOPIC_SHIFT_FLAG
    else d + ISOTOPIC_SHIFT_FLAG
  }

  /** The reading of a stored mass that the encoding is designed for. */
  function DecodeMass(mass: int): (r: int)
    ensures r == 0 <==> mass == 0
    ensures ISOTOPIC_SHIFT_FLAG - 128 <= mass <= ISOTOPIC_SHIFT_FLAG + 126 ==> -128 <= r <= 127
  {
    if mass == 0 then 0
    else if mass == ISOTOPIC_SHIFT_FLAG then ZERO_ATW_DIFF
    else mass - ISOTOPIC_SHIFT_FLAG
  }

  /**
   * The encoding loses nothing of the signed-char difference, never yields a negative mass
   * (so the mass setter always accepts it), and is 0 exactly for "no isotope".
   */
  lemma MassRoundTrip(massDifference: int)
    ensures DecodeMass(EncodeMass(massDifference)) == SignedChar(massDifference)
    ensures EncodeMass(massDifference) >= 0
    ensures EncodeMass(massDifference) == 0 <==> SignedChar(massDifference) == 0
    ensures SignedChar(massDifference) != 0 ==>
      ISOTOPIC_SHIFT_FLAG - 128 <= EncodeMass(massDifference) <= ISOTOPIC_SHIFT_FLAG + 126
  {
  }

  /** The radical stored for a record code; with SINGLET_IS_TRIPLET a singlet is stored as a triplet. */
  function RadicalOf(radical: int, singletIsTriplet: bool): (r: int)
    ensures r == RADICAL_TRIPLET <==> radical == RADICAL_TRIPLET || (singletIsTriplet && radical == RADICAL_SINGLET)
    ensures radical != RADICAL_SINGLET || !singletIsTriplet ==> r == radical
  {
    if singletIsTriplet && radical == 1 then RADICAL_TRIPLET else radical
  }

  // ----- implicit hydrogens -----

  /** The type IXA_MOL_GetBondType reports for a bond ID (SINGLE for an ID out of range). */
  function TypeOfBond(bonds: seq<Bond>, id: int): BondType {
    if 1 <= id <= |bonds| then bonds[id - 1].bondType else Single
  }

  /** The types of the bonds in an atom's list, in list order. */
  function BondTypesOf(bonds: seq<Bond>, list: seq<int>): (r: seq<BondType>)
    ensures |r| == |list| && forall j :: 0 <= j < |list| ==> r[j] == TypeOfBond(bonds, list[j])
  {
    seq(|list|, j requires 0 <= j < |list| => TypeOfBond(bonds, list[j]))
  }

  /** Bond-order contribution to the valence sum: aromatic counts 1 here. */
  function BondOrder(t: BondType): int {
    match t
    case Single => 1
    case Double => 2
    case Triple => 3
    case Aromatic => 1
  }

  /** chem_bonds_valence and aromatic_count after the loop over the atom's bonds. */
  datatype Valence = Valence(chem: int, aromatic: int)

  function BondValence(types: seq<BondType>): (r: Valence)
    ensures |types| <= r.chem <= 3 * |types| && 0 <= r.aromatic <= |types|
  {
    if types == [] then Valence(0, 0)
    else
      var v := BondValence(types[..|types| - 1]);
      var t := types[|types| - 1];
      Valence(v.chem + BondOrder(t), v.aromatic + (if t == Aromatic then 1 else 0))
  }

  lemma BondValenceAppend(types: seq<BondType>, t: BondType)
    ensures BondValence(types + [t]) ==
      Valence(BondValence(types).chem + BondOrder(t), BondValence(types).aromatic + (if t == Aromatic then 1 else 0))
  {
    assert (types + [t])[..|types|] == types;
  }

  /**
   * The loop's sums against an independent count: one per single or aromatic bond, two per
   * double, three per triple; the aromatic count is the number of aromatic bonds. So the
   * result does not depend on the order of the atom's bond list.
   */
  lemma {:induction false} BondValenceCounts(types: seq<BondType>)
    ensures var ms := multiset(types);
      BondValence(types).chem == ms[Single] + 2 * ms[Double] + 3 * ms[Triple] + ms[Aromatic]
      && BondValence(types).aromatic == ms[Aromatic]
  {
    if types != [] {
      var init := types[..|types| - 1];
      BondValenceCounts(init);
      assert types == init + [types[|types| - 1]];
    }
  }

  /**
   * The valence switch (ixa_read_mol.c:286-301) on the value it is given: its case labels are
   * INCHI_BOND_TYPE_SINGLE 1, DOUBLE 2, TRIPLE 3 and ALTERN 4; any other value adds nothing.
   */
  function SwitchCase(value: int): (r: Valence)
    ensures 0 <= r.aromatic <= r.chem <= 3
    ensures r.aromatic == 1 <==> value == 4
  {
    if value == 1 then Valence(1, 0)
    else if value == 2 then Valence(2, 0)
    else if value == 3 then Valence(3, 0)
    else if value == 4 then Valence(1, 1)
    else Valence(0, 0)
  }

  /** Given a bond type numbered as the INCHI labels number it, the switch adds its order. */
  lemma SwitchCaseIntended(t: BondType)
    ensures SwitchCase(BondTypeCode(t)) == Valence(BondOrder(t), if t == Aromatic then 1 else 0)
  {
  }

  /** IXA_BOND_TYPE declared in order without explicit values: SINGLE 0 .. AROMATIC 3. */
  function IxaOrdinal(t: BondType): (r: int)
    ensures r == BondTypeCode(t) - 1
  {
    match t
    case Single => 0
    case Double => 1
    case Triple => 2
    case Aromatic => 3
  }

  /** The valence loop as written: the switch applied to the IXA value of each bond type. */
  function BondValenceAsWritten(types: seq<BondType>): (r: Valence)
    ensures 0 <= r.chem <= 3 * |types|
  {
    if types == [] then Valence(0, 0)
    else
      var v := BondValenceAsWritten(types[..|types| - 1]);
      var c := SwitchCase(IxaOrdinal(types[|types| - 1]));
      Valence(v.chem + c.chem, v.aromatic + c.aromatic)
  }

  /**
   * Against the intended sums, the loop as written counts every bond one lower except an
   * aromatic one, which counts 3 instead of 1, and it never counts an aromatic bond.
   */
  lemma {:induction false} BondValenceAsWrittenShift(types: seq<BondType>)
    ensures BondValenceAsWritten(types).aromatic == 0
    ensures BondValenceAsWritten(types).chem ==
      BondValence(types).chem - |types| + 3 * multiset(types)[Aromatic]
  {
    if types != [] {
      var init := types[..|types| - 1];
      BondValenceAsWrittenShift(init);
      assert types == init + [types[|types| - 1]];
    }
  }

  /** The implicit-hydrogen rule fed by the loop as written. */
  function ImplicitHydrogensAsWritten(valence: int, aliased: bool, types: seq<BondType>): (r: HydrogenStep)
    ensures !r.TooManyAromatic?
  {
    BondValenceAsWrittenShift(types);
    HydrogenRule(valence, aliased, |types|, BondValenceAsWritten(types))
  }

  /**
   * Where the two part: a carbon with valence 4 and two single bonds gets 4 implicit
   * hydrogens instead of 2, and one with a single aromatic bond gets 1 instead of the error.
   */
  lemma ImplicitHydrogensAsWrittenDiffers()
    ensures ImplicitHydrogensAsWritten(4, false, [Single, Single]) == SetImplicit(4)
    ensures ImplicitHydrogens(4, false, [Single, Single]) == SetImplicit(2)
    ensures ImplicitHydrogensAsWritten(4, false, [Aromatic]) == SetImplicit(1)
    ensures ImplicitHydrogens(4, false, [Aromatic]) == TooManyAromatic(1)
  {
    assert [Single, Single][..1] == [Single];
    assert [Single][..0] == [] && [Aromatic][..0] == [];
  }

  /** What the implicit-hydrogen step does to slot 0: set a count, leave it, or fail. */
  datatype HydrogenStep = SetImplicit(count: int) | KeepImplicit | TooManyAromatic(count: int)

  /** Whether the record declares a valence the H count is computed from (ixa_read_mol.c:272-273). */
  predicate SpecialValence(valence: int, bondCount: nat) {
    valence != 0 && (valence != 15 || bondCount != 0)
  }

  /** The implicit-hydrogen rule (ixa_read_mol.c:272-334), for an atom whose bonds have `types`. */
  function ImplicitHydrogens(valence: int, aliased: bool, types: seq<BondType>): (r: HydrogenStep)
    ensures r.SetImplicit? ==> r.count >= -1
    ensures !r.SetImplicit? ==> SpecialValence(valence, |types|)
    ensures r.TooManyAromatic? ==> r.count == BondValence(types).aromatic && r.count !in {0, 2, 3}
  {
    HydrogenRule(valence, aliased, |types|, BondValence(types))
  }

  /** The rule given the number of bonds and the sums the valence loop produced. */
  function HydrogenRule(valence: int, aliased: bool, bondCount: nat, v: Valence): HydrogenStep {
    if SpecialValence(valence, bondCount) then
      if v.aromatic != 0 && v.aromatic != 2 && v.aromatic != 3 then TooManyAromatic(v.aromatic)
      else
        var chem := if v.aromatic == 0 then v.chem else v.chem + 1;
        if valence >= chem then SetImplicit(valence - chem) else KeepImplicit
    else if aliased then SetImplicit(0)
    else if valence == 15 && bondCount == 0 then SetImplicit(0)
    else SetImplicit(-1)
  }

  /**
   * With a special valence, the H count plus the bond-order sum (plus one for two or three
   * aromatic bonds) makes up the valence exactly, and the slot is left alone when the bonds
   * already exceed it; one aromatic bond or more than three is an error.
   */
  lemma ImplicitHydrogensSpecial(valence: int, aliased: bool, types: seq<BondType>)
    requires SpecialValence(valence, |types|)
    ensures var v := BondValence(types);
      var chem := v.chem + (if v.aromatic == 0 then 0 else 1);
      && (ImplicitHydrogens(valence, aliased, types).TooManyAromatic? <==> v.aromatic !in {0, 2, 3})
      && (ImplicitHydrogens(valence, aliased, types).TooManyAromatic? ==>
            ImplicitHydrogens(valence, aliased, types).count == v.aromatic)
      && (v.aromatic in {0, 2, 3} && valence >= chem ==>
            ImplicitHydrogens(valence, aliased, types).SetImplicit?
            && ImplicitHydrogens(valence, aliased, types).count + chem == valence)
      && (v.aromatic in {0, 2, 3} && valence < chem ==> ImplicitHydrogens(valence, aliased, types) == KeepImplicit)
  {
  }

  /** Without a special valence: 0 for an aliased atom or valence 15 with no bonds, else -1 ("not known"). */
  lemma ImplicitHydrogensDefault(valence: int, aliased: bool, types: seq<BondType>)
    requires !SpecialValence(valence, |types|)
    ensures ImplicitHydrogens(valence, aliased, types) ==
      SetImplicit(if aliased || (valence == 15 && |types| == 0) then 0 else -1)
  {
  }

  /** Every count the rule sets is one the hydrogen setter accepts for slot 0. */
  lemma ImplicitHydrogensAccepted(a: Atom, valence: int, aliased: bool, types: seq<BondType>)
    requires ImplicitHydrogens(valence, aliased, types).SetImplicit?
    ensures ImplicitHydrogens(valence, aliased, types).count >= -1
    ensures SetHydrogens(a, 0, ImplicitHydrogens(valence, aliased, types).count).Done?
  {
  }

  /** Worked cases: valence 4 with two single bonds, with two aromatic bonds, with one aromatic bond. */
  lemma ImplicitHydrogensExamples()
    ensures ImplicitHydrogens(4, false, [Single, Single]) == SetImplicit(2)
    ensures ImplicitHydrogens(4, false, [Aromatic, Aromatic]) == SetImplicit(1)
    ensures ImplicitHydrogens(4, false, [Aromatic]) == TooManyAromatic(1)
    ensures ImplicitHydrogens(2, false, [Triple]) == KeepImplicit
    ensures ImplicitHydrogens(0, false, [Double]) == SetImplicit(-1)
  {
    assert [Single, Single][..1] == [Single];
    assert [Aromatic, Aromatic][..1] == [Aromatic];
  }

  // ----- the three phases -----

  /** A molecule under construction, and the problem that stopped the phase, if any. */
  datatype Stage = Stage(mol: Mol, failure: Option<Issue>)

  /** The atoms the first loop creates (ixa_read_mol.c:146-150). */
  function AtomsCreated(n: nat): (m: Mol)
    ensures |m.atoms| == n
  {
    if n == 0 then EmptyMol else CreateAtom(AtomsCreated(n - 1))
  }

  lemma {:induction false} AtomsCreatedShape(n: nat)
    ensures AtomsCreated(n).atoms == seq(n, _ => NewAtom)
    ensures AtomsCreated(n).bonds == [] && AtomsCreated(n).stereos == []
    ensures !AtomsCreated(n).chiral && AtomsCreated(n).polymer.None? && AtomsCreated(n).v3000.None?
    ensures WellFormed(AtomsCreated(n))
  {
    if n == 0 {
      EmptyMolWellFormed();
    } else {
      AtomsCreatedShape(n - 1);
      CreateAtomWellFormed(AtomsCreated(n - 1));
      assert AtomsCreated(n).atoms == AtomsCreated(n - 1).atoms + [NewAtom];
    }
  }

  /** The bond a successful record import leaves behind. */
  function RecordedBond(rb: RecordBond, t: BondType, s: StereoSetting): Bond {
    ApplyStereo(NewBond(rb.atnum1, rb.atnum2).(bondType := t), s)
  }

  /**
   * One pass of the bond loop (ixa_read_mol.c:153-214): both atom numbers become IDs, the
   * bond is created, its order is set, then its stereo.
   */
  function ImportBond(m: Mol, rb: RecordBond): (r: Stage)
    ensures |r.mol.atoms| == |m.atoms|
  {
    var a1 := IdOfIndex(rb.atnum1 - 1, |m.atoms|);
    var a2 := IdOfIndex(rb.atnum2 - 1, |m.atoms|);
    var c := CreateBond(m, a1, a2);
    if c.Rejected? then Stage(m, Some(c.issue)) else SetRecordCodes(c.mol, c.id - 1, rb)
  }

  /** The order and stereo steps of one bond pass, on the bond just created at index `i`. */
  function SetRecordCodes(m: Mol, i: nat, rb: RecordBond): (r: Stage)
    requires i < |m.bonds|
    ensures r.mol.atoms == m.atoms && |r.mol.bonds| == |m.bonds|
  {
    match BondTypeOfCode(rb.bondType)
    case None => Stage(m, Some(BondTypeNotRecognised(rb.bondType)))
    case Some(t) =>
      var b := m.bonds[i].(bondType := t);
      var m2 := m.(bonds := m.bonds[i := b]);
      match StereoOfCode(rb.bondStereo)
      case None => Stage(m2, Some(StereoTypeNotRecognised(rb.bondStereo)))
      case Some(s) => Stage(m2.(bonds := m2.bonds[i := ApplyStereo(b, s)]), None)
  }

  /**
   * The bond loop over the first `k` records, stopping at the first failure. It is written
   * as three mutually recursive steps (the stage after `k` records, the stage after record
   * `i`, record `i` applied to the stage before it) so that a proof about the loop unfolds
   * the bond pass itself only where it asks for it, through ImportBondsNext.
   */
  function ImportBonds(m: Mol, rbs: seq<RecordBond>, k: nat): (r: Stage)
    requires k <= |rbs|
    ensures |r.mol.atoms| == |m.atoms|
    decreases k, 0
  {
    if k == 0 then Stage(m, None) else AfterBond(m, rbs, k - 1)
  }

  /** The stage after record `i`: the earlier failure if there was one, else record `i`'s pass. */
  function AfterBond(m: Mol, rbs: seq<RecordBond>, i: nat): (r: Stage)
    requires i < |rbs|
    ensures |r.mol.atoms| == |m.atoms|
    decreases i, 2
  {
    var prev := ImportBonds(m, rbs, i);
    if prev.failure.Some? then prev else ImportBondAt(m, rbs, i)
  }

  /** Record `i`'s pass applied to the molecule the first `i` records left. */
  function ImportBondAt(m: Mol, rbs: seq<RecordBond>, i: nat): (r: Stage)
    requires i < |rbs|
    ensures |r.mol.atoms| == |m.atoms|
    decreases i, 1
  {
    ImportBond(ImportBonds(m, rbs, i).mol, rbs[i])
  }

  /** One more record: the loop keeps an earlier failure, and otherwise runs the bond pass. */
  lemma ImportBondsNext(m: Mol, rbs: seq<RecordBond>, k: nat)
    requires k < |rbs|
    ensures var prev := ImportBonds(m, rbs, k);
      ImportBonds(m, rbs, k + 1) == if prev.failure.Some? then prev else ImportBond(prev.mol, rbs[k])
  {
    assert ImportBonds(m, rbs, k + 1) == AfterBond(m, rbs, k);
    assert ImportBondAt(m, rbs, k) == ImportBond(ImportBonds(m, rbs, k).mol, rbs[k]);
  }

  /** Every stage of the bond loop keeps the arena invariant. */
  lemma ImportBondWellFormed(m: Mol, rb: RecordBond)
    requires WellFormed(m)
    ensures WellFormed(ImportBond(m, rb).mol)
  {
    var a1 := IdOfIndex(rb.atnum1 - 1, |m.atoms|);
    var a2 := IdOfIndex(rb.atnum2 - 1, |m.atoms|);
    var c := CreateBond(m, a1, a2);
    CreateBondWellFormed(m, a1, a2);
    if c.Created? {
      SetRecordCodesWellFormed(c.mol, c.id - 1, rb);
    }
  }

  lemma SetRecordCodesWellFormed(m: Mol, i: nat, rb: RecordBond)
    requires WellFormed(m) && i < |m.bonds|
    ensures WellFormed(SetRecordCodes(m, i, rb).mol)
  {
    if t :| BondTypeOfCode(rb.bondType) == Some(t) {
      var b := m.bonds[i].(bondType := t);
      ReplaceBondWellFormed(m, i, b);
      var m2 := m.(bonds := m.bonds[i := b]);
      if s :| StereoOfCode(rb.bondStereo) == Some(s) {
        ReplaceBondWellFormed(m2, i, ApplyStereo(b, s));
      }
    }
  }

  lemma {:induction false} ImportBondsWellFormed(m: Mol, rbs: seq<RecordBond>, k: nat)
    requires k <= |rbs| && WellFormed(m)
    ensures WellFormed(ImportBonds(m, rbs, k).mol)
  {
    if k > 0 {
      ImportBondsNext(m, rbs, k - 1);
      ImportBondsWellFormed(m, rbs, k - 1);
      ImportBondWellFormed(ImportBonds(m, rbs, k - 1).mol, rbs[k - 1]);
    }
  }

  /**
   * A successful pass of the bond loop appends the record's bond, joining the two numbered
   * atoms with the mapped order and stereo; only the atoms' bond lists change besides.
   */
  lemma ImportBondSuccess(m: Mol, rb: RecordBond)
    requires WellFormed(m) && ImportBond(m, rb).failure.None?
    ensures var r := ImportBond(m, rb).mol;
      && 1 <= rb.atnum1 <= |m.atoms| && 1 <= rb.atnum2 <= |m.atoms|
      && BondTypeOfCode(rb.bondType).Some? && StereoOfCode(rb.bondStereo).Some?
      && r.bonds == m.bonds + [RecordedBond(rb, BondTypeOfCode(rb.bondType).value, StereoOfCode(rb.bondStereo).value)]
      && r.stereos == m.stereos && r.chiral == m.chiral && r.polymer == m.polymer && r.v3000 == m.v3000
      && (forall i :: 0 <= i < |m.atoms| ==> r.atoms[i] == m.atoms[i].(bonds := r.atoms[i].bonds))
  {
    var a1 := IdOfIndex(rb.atnum1 - 1, |m.atoms|);
    var a2 := IdOfIndex(rb.atnum2 - 1, |m.atoms|);
    CreateBondEffect(m, a1, a2);
  }

  /** Whether a bond record passed the loop: both atom numbers exist and both codes are recognised. */
  predicate BondRecordAccepted(rb: RecordBond, atomCount: nat) {
    1 <= rb.atnum1 <= atomCount && 1 <= rb.atnum2 <= atomCount
    && BondTypeOfCode(rb.bondType).Some? && StereoOfCode(rb.bondStereo).Some?
  }

  /** The bond an accepted record becomes. */
  function BondOfRecord(rb: RecordBond, atomCount: nat): Bond
    requires BondRecordAccepted(rb, atomCount)
  {
    RecordedBond(rb, BondTypeOfCode(rb.bondType).value, StereoOfCode(rb.bondStereo).value)
  }

  /** The last pass of a successful bond loop, stated against the stage before it. */
  lemma ImportBondsLast(m: Mol, rbs: seq<RecordBond>, k: nat)
    requires 0 < k <= |rbs| && WellFormed(m)
    requires ImportBonds(m, rbs, k).failure.None?
    ensures ImportBonds(m, rbs, k - 1).failure.None?
    ensures BondRecordAccepted(rbs[k - 1], |m.atoms|)
    ensures var prev := ImportBonds(m, rbs, k - 1).mol; var r := ImportBonds(m, rbs, k).mol;
      && r.bonds == prev.bonds + [BondOfRecord(rbs[k - 1], |m.atoms|)]
      && r.stereos == prev.stereos && r.chiral == prev.chiral && r.polymer == prev.polymer && r.v3000 == prev.v3000
  {
    ImportBondsNext(m, rbs, k - 1);
    ImportBondsWellFormed(m, rbs, k - 1);
    ImportBondSuccess(ImportBonds(m, rbs, k - 1).mol, rbs[k - 1]);
  }

  /**
   * The bonds the first `k` records stand for, in record order; None when one of them names
   * an atom that does not exist or carries an unrecognised code.
   */
  function RecordBonds(rbs: seq<RecordBond>, k: nat, atomCount: nat): (r: Option<seq<Bond>>)
    requires k <= |rbs|
    ensures r.Some? ==> |r.value| == k
  {
    if k == 0 then Some([])
    else
      match RecordBonds(rbs, k - 1, atomCount)
      case None => None
      case Some(bonds) =>
        if BondRecordAccepted(rbs[k - 1], atomCount) then Some(bonds + [BondOfRecord(rbs[k - 1], atomCount)])
        else None
  }

  /** RecordBonds succeeds exactly when every record is accepted, and then translates each one. */
  lemma {:induction false} RecordBondsAccepted(rbs: seq<RecordBond>, k: nat, atomCount: nat)
    requires k <= |rbs|
    ensures RecordBonds(rbs, k, atomCount).Some? <==> forall j :: 0 <= j < k ==> BondRecordAccepted(rbs[j], atomCount)
    ensures RecordBonds(rbs, k, atomCount).Some? ==>
      forall j :: 0 <= j < k ==> RecordBonds(rbs, k, atomCount).value[j] == BondOfRecord(rbs[j], atomCount)
  {
    if k > 0 {
      RecordBondsAccepted(rbs, k - 1, atomCount);
    }
  }

  /**
   * A bond loop that succeeds accepted every record and appended their bonds, one per
   * record in record order, after the bonds that were there.
   */
  lemma {:induction false} ImportBondsSuccess(m: Mol, rbs: seq<RecordBond>, k: nat)
    requires k <= |rbs| && WellFormed(m)
    requires ImportBonds(m, rbs, k).failure.None?
    ensures RecordBonds(rbs, k, |m.atoms|).Some?
    ensures ImportBonds(m, rbs, k).mol.bonds == m.bonds + RecordBonds(rbs, k, |m.atoms|).value
  {
    if k > 0 {
      ImportBondsLast(m, rbs, k);
      ImportBondsSuccess(m, rbs, k - 1);
      var before := RecordBonds(rbs, k - 1, |m.atoms|).value;
      var last := BondOfRecord(rbs[k - 1], |m.atoms|);
      assert RecordBonds(rbs, k, |m.atoms|) == Some(before + [last]);
      assert (m.bonds + before) + [last] == m.bonds + (before + [last]);
    }
  }

  /** A bond loop that succeeds leaves the stereo centres, the chiral flag and the extension fields alone. */
  lemma {:induction false} ImportBondsFrame(m: Mol, rbs: seq<RecordBond>, k: nat)
    requires k <= |rbs| && WellFormed(m)
    requires ImportBonds(m, rbs, k).failure.None?
    ensures var r := ImportBonds(m, rbs, k).mol;
      r.stereos == m.stereos && r.chiral == m.chiral && r.polymer == m.polymer && r.v3000 == m.v3000
  {
    if k > 0 {
      ImportBondsLast(m, rbs, k);
      ImportBondsFrame(m, rbs, k - 1);
    }
  }

  /** A bond loop that succeeds changes the atoms' bond lists and nothing else about them. */
  lemma {:induction false} ImportBondsAtoms(m: Mol, rbs: seq<RecordBond>, k: nat)
    requires k <= |rbs| && WellFormed(m)
    requires ImportBonds(m, rbs, k).failure.None?
    ensures forall i :: 0 <= i < |m.atoms| ==>
      ImportBonds(m, rbs, k).mol.atoms[i] == m.atoms[i].(bonds := ImportBonds(m, rbs, k).mol.atoms[i].bonds)
  {
    if k > 0 {
      ImportBondsNext(m, rbs, k - 1);
      ImportBondsAtoms(m, rbs, k - 1);
      ImportBondsWellFormed(m, rbs, k - 1);
      ImportBondSuccess(ImportBonds(m, rbs, k - 1).mol, rbs[k - 1]);
    }
  }

  /** A bond loop over freshly created atoms succeeds only if every bond line names two of them. */
  lemma ImportBondsInRange(c: Ctab)
    requires ImportBonds(AtomsCreated(|c.atoms|), c.bonds, |c.bonds|).failure.None?
    ensures BondsInRange(c)
  {
    AtomsCreatedShape(|c.atoms|);
    ImportBondsSuccess(AtomsCreated(|c.atoms|), c.bonds, |c.bonds|);
    RecordBondsAccepted(c.bonds, |c.bonds|, |c.atoms|);
    forall j | 0 <= j < |c.bonds|
      ensures 1 <= c.bonds[j].atnum1 <= |c.atoms| && 1 <= c.bonds[j].atnum2 <= |c.atoms|
    {
      assert BondRecordAccepted(c.bonds[j], |c.atoms|);
    }
  }

  /** Once the bond loop has failed, later records are not looked at. */
  lemma {:induction false} ImportBondsStop(m: Mol, rbs: seq<RecordBond>, k: nat, k': nat)
    requires k <= k' <= |rbs|
    requires ImportBonds(m, rbs, k).failure.Some?
    ensures ImportBonds(m, rbs, k') == ImportBonds(m, rbs, k)
    decreases k' - k
  {
    if k' > k {
      ImportBondsStop(m, rbs, k, k' - 1);
      ImportBondsNext(m, rbs, k' - 1);
    }
  }

  /** One atom as the property pass leaves it, and the problem that stopped the pass, if any. */
  datatype AtomResult = AtomResult(atom: Atom, failure: Option<Issue>)

  /**
   * The property pass on one atom (ixa_read_mol.c:218-335): element, mass, charge,
   * coordinates, radical, then the implicit-hydrogen count from the types of its bonds.
   */
  function TranslateAtom(a: Atom, bonds: seq<Bond>, ra: RecordAtom, singletIsTriplet: bool): (r: AtomResult)
    ensures r.atom.bonds == a.bonds
    ensures 1 <= a.atomicNumber < TableSize ==> 1 <= r.atom.atomicNumber < TableSize
  {
    match SetElement(a, ra.symbol)
    case Refused(issue) => AtomResult(a, Some(issue))
    case Done(a1) =>
      match SetMass(a1, EncodeMass(ra.massDifference))
      case Refused(issue) => AtomResult(a1, Some(issue))
      case Done(a2) =>
        var a3 := a2.(charge := ra.charge, x := ra.x, y := ra.y, z := ra.z,
                      radical := RadicalOf(ra.radical, singletIsTriplet));
        HydrogenPass(a3, bonds, ra)
  }

  /** The implicit-hydrogen step of an atom pass (ixa_read_mol.c:270-334). */
  function HydrogenPass(a: Atom, bonds: seq<Bond>, ra: RecordAtom): (r: AtomResult)
    ensures r.atom.bonds == a.bonds && r.atom.atomicNumber == a.atomicNumber
  {
    match ImplicitHydrogens(ra.valence, ra.aliased, BondTypesOf(bonds, a.bonds))
    case KeepImplicit => AtomResult(a, None)
    case TooManyAromatic(n) => AtomResult(a, Some(AromaticBondCount(n)))
    case SetImplicit(c) =>
      match SetHydrogens(a, 0, c)
      case Refused(issue) => AtomResult(a, Some(issue))
      case Done(a4) => AtomResult(a4, None)
  }

  /** The atom an accepted record becomes, its bond list and hydrogens aside. */
  function RecordedAtom(a: Atom, ra: RecordAtom, singletIsTriplet: bool, atomicNumber: int): Atom {
    a.(atomicNumber := atomicNumber, mass := EncodeMass(ra.massDifference), charge := ra.charge,
       x := ra.x, y := ra.y, z := ra.z, radical := RadicalOf(ra.radical, singletIsTriplet))
  }

  /** The hydrogens an accepted record leaves, from the rule applied to the atom's bonds. */
  function RecordedHydrogens(h: Hydrogens, step: HydrogenStep): Hydrogens {
    if step.SetImplicit? then WithSlot(h, 0, step.count) else h
  }

  /** An atom pass in two steps: the element lookup, then the hydrogen step on the recorded atom. */
  lemma TranslateAtomSteps(a: Atom, bonds: seq<Bond>, ra: RecordAtom, singletIsTriplet: bool)
    ensures TranslateAtom(a, bonds, ra, singletIsTriplet) ==
      match ElementNumber(ra.symbol)
      case None => AtomResult(a, Some(ElementNotRecognised(ra.symbol)))
      case Some(k) => HydrogenPass(RecordedAtom(a, ra, singletIsTriplet, k), bonds, ra)
  {
    MassRoundTrip(ra.massDifference);
  }

  /**
   * A successful pass leaves the record's element, its translated mass, charge, coordinates
   * and radical, the same bond list, and in slot 0 what the implicit-hydrogen rule computes
   * from the atom's bonds.
   */
  lemma TranslateAtomSuccess(a: Atom, bonds: seq<Bond>, ra: RecordAtom, singletIsTriplet: bool)
    requires TranslateAtom(a, bonds, ra, singletIsTriplet).failure.None?
    ensures var step := ImplicitHydrogens(ra.valence, ra.aliased, BondTypesOf(bonds, a.bonds));
      && ElementNumber(ra.symbol).Some?
      && !step.TooManyAromatic?
      && TranslateAtom(a, bonds, ra, singletIsTriplet).atom ==
           RecordedAtom(a, ra, singletIsTriplet, ElementNumber(ra.symbol).value)
             .(hydrogens := RecordedHydrogens(a.hydrogens, step))
  {
    MassRoundTrip(ra.massDifference);
  }

  /**
   * The atom-property loop (ixa_read_mol.c:217-335) over the first `k` record atoms,
   * stopping at the first failure; pass `i` works on atom `i` of the molecule the earlier
   * passes left. Like ImportBonds it is three mutually recursive steps, so that proofs about
   * the loop unfold an atom pass only through ImportAtomsNext.
   */
  function ImportAtoms(m: Mol, ras: seq<RecordAtom>, singletIsTriplet: bool, k: nat): (r: Stage)
    requires k <= |ras| <= |m.atoms|
    ensures |r.mol.atoms| == |m.atoms| && r.mol.bonds == m.bonds && r.mol.stereos == m.stereos
    ensures r.mol.chiral == m.chiral && r.mol.polymer == m.polymer && r.mol.v3000 == m.v3000
    decreases k, 0
  {
    if k == 0 then Stage(m, None) else AfterAtom(m, ras, singletIsTriplet, k - 1)
  }

  /** The stage after atom pass `i`: the earlier failure if there was one, else pass `i`. */
  function AfterAtom(m: Mol, ras: seq<RecordAtom>, singletIsTriplet: bool, i: nat): (r: Stage)
    requires i < |ras| <= |m.atoms|
    ensures |r.mol.atoms| == |m.atoms| && r.mol.bonds == m.bonds && r.mol.stereos == m.stereos
    ensures r.mol.chiral == m.chiral && r.mol.polymer == m.polymer && r.mol.v3000 == m.v3000
    decreases i, 2
  {
    var prev := ImportAtoms(m, ras, singletIsTriplet, i);
    if prev.failure.Some? then prev else ImportAtomAt(m, ras, singletIsTriplet, i)
  }

  /** Atom pass `i` on the molecule the first `i` passes left: atom `i` becomes its translation. */
  function ImportAtomAt(m: Mol, ras: seq<RecordAtom>, singletIsTriplet: bool, i: nat): (r: Stage)
    requires i < |ras| <= |m.atoms|
    ensures |r.mol.atoms| == |m.atoms| && r.mol.bonds == m.bonds && r.mol.stereos == m.stereos
    ensures r.mol.chiral == m.chiral && r.mol.polymer == m.polymer && r.mol.v3000 == m.v3000
    decreases i, 1
  {
    var cur := ImportAtoms(m, ras, singletIsTriplet, i).mol;
    var t := TranslateAtom(cur.atoms[i], cur.bonds, ras[i], singletIsTriplet);
    Stage(cur.(atoms := cur.atoms[i := t.atom]), t.failure)
  }

  /** One more atom: the loop keeps an earlier failure, and otherwise translates atom `k` in place. */
  lemma ImportAtomsNext(m: Mol, ras: seq<RecordAtom>, singletIsTriplet: bool, k: nat)
    requires k < |ras| <= |m.atoms|
    ensures var prev := ImportAtoms(m, ras, singletIsTriplet, k);
      var t := TranslateAtom(prev.mol.atoms[k], prev.mol.bonds, ras[k], singletIsTriplet);
      ImportAtoms(m, ras, singletIsTriplet, k + 1) ==
        if prev.failure.Some? then prev else Stage(prev.mol.(atoms := prev.mol.atoms[k := t.atom]), t.failure)
  {
    assert ImportAtoms(m, ras, singletIsTriplet, k + 1) == AfterAtom(m, ras, singletIsTriplet, k);
    var cur := ImportAtoms(m, ras, singletIsTriplet, k).mol;
    var t := TranslateAtom(cur.atoms[k], cur.bonds, ras[k], singletIsTriplet);
    assert ImportAtomAt(m, ras, singletIsTriplet, k) == Stage(cur.(atoms := cur.atoms[k := t.atom]), t.failure);
  }

  /**
   * After `k` passes, the atoms from `k` on are untouched and each earlier atom is either
   * untouched or its own translation against the original bonds. Pass `i` thus sees atom
   * `i` as the loop started with it, whatever the earlier passes did.
   */
  lemma {:induction false} ImportAtomsShape(m: Mol, ras: seq<RecordAtom>, singletIsTriplet: bool, k: nat)
    requires k <= |ras| <= |m.atoms|
    ensures var r := ImportAtoms(m, ras, singletIsTriplet, k).mol;
      && (forall i :: k <= i < |m.atoms| ==> r.atoms[i] == m.atoms[i])
      && (forall i :: 0 <= i < k ==>
            || r.atoms[i] == m.atoms[i]
            || r.atoms[i] == TranslateAtom(m.atoms[i], m.bonds, ras[i], singletIsTriplet).atom)
  {
    if k > 0 {
      ImportAtomsShape(m, ras, singletIsTriplet, k - 1);
      ImportAtomsNext(m, ras, singletIsTriplet, k - 1);
    }
  }

  /** When the first `k` passes all succeed, each of them succeeded and left its atom's translation. */
  lemma {:induction false} ImportAtomsDone(m: Mol, ras: seq<RecordAtom>, singletIsTriplet: bool, k: nat)
    requires k <= |ras| <= |m.atoms|
    requires ImportAtoms(m, ras, singletIsTriplet, k).failure.None?
    ensures forall i :: 0 <= i < k ==>
      && TranslateAtom(m.atoms[i], m.bonds, ras[i], singletIsTriplet).failure.None?
      && ImportAtoms(m, ras, singletIsTriplet, k).mol.atoms[i] == TranslateAtom(m.atoms[i], m.bonds, ras[i], singletIsTriplet).atom
  {
    if k > 0 {
      var prev := ImportAtoms(m, ras, singletIsTriplet, k - 1);
      ImportAtomsNext(m, ras, singletIsTriplet, k - 1);
      assert prev.failure.None?;
      ImportAtomsShape(m, ras, singletIsTriplet, k - 1);
      ImportAtomsDone(m, ras, singletIsTriplet, k - 1);
      var t := TranslateAtom(m.atoms[k - 1], m.bonds, ras[k - 1], singletIsTriplet);
      var next := ImportAtoms(m, ras, singletIsTriplet, k).mol.atoms;
      assert next == prev.mol.atoms[k - 1 := t.atom] && t.failure.None?;
      forall i | 0 <= i < k
        ensures next[i] == TranslateAtom(m.atoms[i], m.bonds, ras[i], singletIsTriplet).atom
      {
        if i < k - 1 {
          assert next[i] == prev.mol.atoms[i];
        }
      }
    }
  }

  /** Once a pass has failed, the later passes do not run. */
  lemma {:induction false} ImportAtomsStop(m: Mol, ras: seq<RecordAtom>, singletIsTriplet: bool, k: nat, k': nat)
    requires k <= k' <= |ras| <= |m.atoms|
    requires ImportAtoms(m, ras, singletIsTriplet, k).failure.Some?
    ensures ImportAtoms(m, ras, singletIsTriplet, k') == ImportAtoms(m, ras, singletIsTriplet, k)
    decreases k' - k
  {
    if k' > k {
      ImportAtomsStop(m, ras, singletIsTriplet, k, k' - 1);
      ImportAtomsNext(m, ras, singletIsTriplet, k' - 1);
    }
  }

  /** Every stage of the atom-property loop keeps the arena invariant. */
  lemma ImportAtomsWellFormed(m: Mol, ras: seq<RecordAtom>, singletIsTriplet: bool, k: nat)
    requires k <= |ras| <= |m.atoms| && WellFormed(m)
    ensures WellFormed(ImportAtoms(m, ras, singletIsTriplet, k).mol)
  {
    ImportAtomsShape(m, ras, singletIsTriplet, k);
    var r := ImportAtoms(m, ras, singletIsTriplet, k).mol;
    forall i | 0 <= i < |r.atoms|
      ensures r.atoms[i].bonds == m.atoms[i].bonds && 1 <= r.atoms[i].atomicNumber < TableSize
    {
    }
  }

  /**
   * After a successful atom-property loop every atom carries its record's translated values
   * and the hydrogen count computed from its bonds, and keeps its bond list.
   */
  lemma ImportAtomsSuccess(m: Mol, ras: seq<RecordAtom>, singletIsTriplet: bool)
    requires |ras| <= |m.atoms|
    requires ImportAtoms(m, ras, singletIsTriplet, |ras|).failure.None?
    ensures var r := ImportAtoms(m, ras, singletIsTriplet, |ras|).mol;
      && (forall i :: |ras| <= i < |m.atoms| ==> r.atoms[i] == m.atoms[i])
      && (forall i :: 0 <= i < |ras| ==>
            && ElementNumber(ras[i].symbol).Some?
            && var step := ImplicitHydrogens(ras[i].valence, ras[i].aliased, BondTypesOf(m.bonds, m.atoms[i].bonds));
               && !step.TooManyAromatic?
               && r.atoms[i] == RecordedAtom(m.atoms[i], ras[i], singletIsTriplet, ElementNumber(ras[i].symbol).value)
                                  .(hydrogens := RecordedHydrogens(m.atoms[i].hydrogens, step)))
  {
    ImportAtomsShape(m, ras, singletIsTriplet, |ras|);
    ImportAtomsDone(m, ras, singletIsTriplet, |ras|);
    forall i | 0 <= i < |ras|
      ensures ElementNumber(ras[i].symbol).Some?
      ensures var step := ImplicitHydrogens(ras[i].valence, ras[i].aliased, BondTypesOf(m.bonds, m.atoms[i].bonds));
        && !step.TooManyAromatic?
        && TranslateAtom(m.atoms[i], m.bonds, ras[i], singletIsTriplet).atom ==
             RecordedAtom(m.atoms[i], ras[i], singletIsTriplet, ElementNumber(ras[i].symbol).value)
               .(hydrogens := RecordedHydrogens(m.atoms[i].hydrogens, step))
    {
      TranslateAtomSuccess(m.atoms[i], m.bonds, ras[i], singletIsTriplet);
    }
  }

  // ----- the whole import -----

  /** The molecule the import leaves and the messages it pushes, in order. */
  datatype ReadOutcome = ReadOutcome(mol: Mol, pushed: seq<Message>)

  /** The parser's error string, pushed as a warning when the parser returned data and err is 0. */
  function ParserWarning(p: ParseResult): seq<Message> {
    if p.errorString != "" && p.err == 0 then [Message(Warning, ParserMessage(p.errorString))] else []
  }

  /** What a phase pushes: its failure as one error entry, or nothing. */
  function Pushed(failure: Option<Issue>): (r: seq<Message>)
    ensures AnyError(r) <==> failure.Some?
  {
    if failure.Some? then Check(false, failure.value) else []
  }

  /**
   * The import proper, on a record with atoms and a status without errors
   * (ixa_read_mol.c:140-350): create one atom per record atom, run the bond loop, the atom
   * loop, set the chiral flag, then import the extension data when the record has any.
   */
  function ImportCtab(c: Ctab, singletIsTriplet: bool): (r: Stage)
    requires CtabWellFormed(c)
    ensures |r.mol.atoms| == |c.atoms|
  {
    var bondsDone := ImportBonds(AtomsCreated(|c.atoms|), c.bonds, |c.bonds|);
    if bondsDone.failure.Some? then bondsDone
    else
      var atomsDone := ImportAtoms(bondsDone.mol, c.atoms, singletIsTriplet, |c.atoms|);
      if atomsDone.failure.Some? then atomsDone
      else FinishCtab(atomsDone.mol, c)
  }

  /**
   * The tail of the import (ixa_read_mol.c:336-350): the chiral flag when the record sets it,
   * then the extension data when the record has any. Only the extension data can fail.
   */
  function FinishCtab(m: Mol, c: Ctab): (r: Stage)
    requires CtabWellFormed(c)
    ensures r.mol.atoms == m.atoms && r.mol.bonds == m.bonds && r.mol.stereos == m.stereos
    ensures r.mol.chiral == (c.chiral || m.chiral)
    ensures |c.sgroups| == 0 && c.v3000.None? ==>
      r.failure.None? && r.mol.polymer == m.polymer && r.mol.v3000 == m.v3000
  {
    var m' := if c.chiral then m.(chiral := true) else m;
    if |c.sgroups| > 0 || c.v3000.Some? then
      var e := ImportExt(m', c);
      Stage(e.mol, e.failure)
    else Stage(m', None)
  }

  /**
   * IXA_MOL_ReadMolfile after the parser call (ixa_read_mol.c:89-355). `priorError` is
   * whether the status object already held an error on entry: the status tests look at the
   * whole object, so such an error stops the import right after the first atom is created.
   */
  function ReadMolfile(p: ParseResult, priorError: bool, singletIsTriplet: bool): (r: ReadOutcome)
    requires p.data.Some? ==> CtabWellFormed(p.data.value)
    ensures p.data.None? ==> r.mol == EmptyMol && |r.pushed| == 1 && r.pushed[0].severity == Error
    ensures p.data.Some? && !priorError ==> |r.mol.atoms| == |p.data.value.atoms|
    ensures p.data.Some? && priorError && |p.data.value.atoms| > 0 ==> |r.mol.atoms| == 1
  {
    match p.data
    case None =>
      ReadOutcome(EmptyMol, [Message(Error, if p.errorString != "" then ParserMessage(p.errorString) else NoMolfileData)])
    case Some(c) =>
      var warn := ParserWarning(p);
      if |c.atoms| == 0 then ReadOutcome(EmptyMol, warn)
      else
        var s := ImportWithAtoms(c, priorError, singletIsTriplet);
        ReadOutcome(s.mol, warn + Pushed(s.failure))
  }

  /**
   * The block run for a record with atoms (ixa_read_mol.c:139-350). An error already in the
   * status stops it right after the first atom is created, without a new message.
   */
  function ImportWithAtoms(c: Ctab, priorError: bool, singletIsTriplet: bool): (r: Stage)
    requires CtabWellFormed(c) && |c.atoms| > 0
    ensures |r.mol.atoms| == if priorError then 1 else |c.atoms|
    ensures priorError ==> r.failure.None?
  {
    if priorError then Stage(AtomsCreated(1), None) else ImportCtab(c, singletIsTriplet)
  }

  /** The import proper leaves a well-formed molecule, whether it finishes or stops early. */
  lemma ImportCtabWellFormed(c: Ctab, singletIsTriplet: bool)
    requires CtabWellFormed(c)
    ensures WellFormed(ImportCtab(c, singletIsTriplet).mol)
  {
    var m0 := AtomsCreated(|c.atoms|);
    AtomsCreatedShape(|c.atoms|);
    ImportBondsWellFormed(m0, c.bonds, |c.bonds|);
    var bondsDone := ImportBonds(m0, c.bonds, |c.bonds|).mol;
    ImportAtomsWellFormed(bondsDone, c.atoms, singletIsTriplet, |c.atoms|);
    var atomsDone := ImportAtoms(bondsDone, c.atoms, singletIsTriplet, |c.atoms|).mol;
    var m := if c.chiral then atomsDone.(chiral := true) else atomsDone;
    ImportExtFrame(m, c);
  }

  /** Whatever the record, the import leaves a well-formed molecule. */
  lemma ReadMolfileWellFormed(p: ParseResult, priorError: bool, singletIsTriplet: bool)
    requires p.data.Some? ==> CtabWellFormed(p.data.value)
    ensures WellFormed(ReadMolfile(p, priorError, singletIsTriplet).mol)
  {
    EmptyMolWellFormed();
    AtomsCreatedShape(1);
    if p.data.Some? && !priorError && |p.data.value.atoms| > 0 {
      ImportCtabWellFormed(p.data.value, singletIsTriplet);
    }
  }

  /**
   * A record without atoms leaves the cleared molecule, not even the chiral flag set; a
   * missing record pushes exactly one error.
   */
  lemma ReadMolfileEmpty(p: ParseResult, priorError: bool, singletIsTriplet: bool)
    requires p.data.Some? ==> CtabWellFormed(p.data.value)
    ensures p.data.Some? && |p.data.value.atoms| == 0 ==>
      ReadMolfile(p, priorError, singletIsTriplet) == ReadOutcome(EmptyMol, ParserWarning(p))
    ensures p.data.None? ==>
      ReadMolfile(p, priorError, singletIsTriplet).mol == EmptyMol
      && AnyError(ReadMolfile(p, priorError, singletIsTriplet).pushed)
      && |ReadMolfile(p, priorError, singletIsTriplet).pushed| == 1
  {
    if p.data.None? {
      var e := ReadMolfile(p, priorError, singletIsTriplet).pushed;
      assert e[0].severity == Error;
    }
  }

  /**
   * A successful import of a record with atoms: one atom per record atom and one bond per
   * record bond, in record order; each bond joins the numbered atoms with the mapped order
   * and stereo; each atom carries its element, encoded mass, charge, coordinates, radical
   * and the implicit-hydrogen count computed from its bonds; the chiral flag is the record's.
   */
  lemma ReadMolfileSuccess(p: ParseResult, singletIsTriplet: bool)
    requires p.data.Some? && CtabWellFormed(p.data.value) && |p.data.value.atoms| > 0
    requires !AnyError(ReadMolfile(p, false, singletIsTriplet).pushed)
    ensures var c := p.data.value;
      var r := ReadMolfile(p, false, singletIsTriplet).mol;
      && |r.atoms| == |c.atoms| && |r.bonds| == |c.bonds| && r.stereos == []
      && r.chiral == c.chiral
      && RecordBonds(c.bonds, |c.bonds|, |c.atoms|) == Some(r.bonds)
      && (forall i :: 0 <= i < |c.atoms| ==>
            && ElementNumber(c.atoms[i].symbol).Some?
            && r.atoms[i].atomicNumber == ElementNumber(c.atoms[i].symbol).value
            && r.atoms[i].mass == EncodeMass(c.atoms[i].massDifference)
            && r.atoms[i].charge == c.atoms[i].charge
            && r.atoms[i].radical == RadicalOf(c.atoms[i].radical, singletIsTriplet)
            && r.atoms[i].x == c.atoms[i].x && r.atoms[i].y == c.atoms[i].y && r.atoms[i].z == c.atoms[i].z
            && var step := ImplicitHydrogens(c.atoms[i].valence, c.atoms[i].aliased, BondTypesOf(r.bonds, r.atoms[i].bonds));
               && !step.TooManyAromatic?
               && Slot(r.atoms[i].hydrogens, 0) == (if step.SetImplicit? then step.count else 0))
  {
    var c := p.data.value;
    AnyErrorAppend(ParserWarning(p), Pushed(ImportCtab(c, singletIsTriplet).failure));
    ImportCtabStages(c, singletIsTriplet);
    var m0 := AtomsCreated(|c.atoms|);
    AtomsCreatedShape(|c.atoms|);
    var bondsDone := ImportBonds(m0, c.bonds, |c.bonds|).mol;
    ImportBondsSuccess(m0, c.bonds, |c.bonds|);
    ImportBondsFrame(m0, c.bonds, |c.bonds|);
    ImportBondsAtoms(m0, c.bonds, |c.bonds|);
    ImportAtomsSuccess(bondsDone, c.atoms, singletIsTriplet);
    var r := ReadMolfile(p, false, singletIsTriplet).mol;
    assert bondsDone.bonds == m0.bonds + RecordBonds(c.bonds, |c.bonds|, |c.atoms|).value;
    assert r.bonds == RecordBonds(c.bonds, |c.bonds|, |c.atoms|).value;
    forall i | 0 <= i < |c.atoms|
      ensures r.atoms[i].bonds == bondsDone.atoms[i].bonds
    {
    }
  }

  /** The stages a successful import passes through: both loops succeed, and the result is theirs. */
  lemma ImportCtabStages(c: Ctab, singletIsTriplet: bool)
    requires CtabWellFormed(c) && ImportCtab(c, singletIsTriplet).failure.None?
    ensures var bondsDone := ImportBonds(AtomsCreated(|c.atoms|), c.bonds, |c.bonds|);
      && bondsDone.failure.None?
      && var atomsDone := ImportAtoms(bondsDone.mol, c.atoms, singletIsTriplet, |c.atoms|);
      && atomsDone.failure.None?
      && var r := ImportCtab(c, singletIsTriplet).mol;
      && r.atoms == atomsDone.mol.atoms && r.bonds == bondsDone.mol.bonds && r.stereos == bondsDone.mol.stereos
      && r.chiral == (c.chiral || bondsDone.mol.chiral)
  {
    var bondsDone := ImportBonds(AtomsCreated(|c.atoms|), c.bonds, |c.bonds|);
    if bondsDone.failure.None? {
      var atomsDone := ImportAtoms(bondsDone.mol, c.atoms, singletIsTriplet, |c.atoms|);
      if atomsDone.failure.None? {
        var m := if c.chiral then atomsDone.mol.(chiral := true) else atomsDone.mol;
        ImportExtFrame(m, c);
      }
    }
  }
}
