/**
 * The value-level model of an INCHIMOL (the IXA molecule arena): its atoms, bonds and
 * stereo centres, the extension records, the invariant that every operation keeps, and
 * the specification of bond creation and of the common-bond search.
 */
module MolModel {
  import opened Common
  import opened Handles
  import opened StereoCodes
  import opened IxaStatus
  import opened PeriodicTable

  /** Capacity of an atom's bonds[] list (MAXVAL in the InChI API header). */
  const MAX_BONDS: nat := 20

  // IXA_ATOM_RADICAL values
  const RADICAL_NONE: int := 0
  const RADICAL_SINGLET: int := 1
  const RADICAL_DOUBLET: int := 2
  const RADICAL_TRIPLET: int := 3

  /**
   * The four implicit-hydrogen slots of an atom, indexed 0..3 in the C array: any isotope
   * (where -1 means "deduce from valence"), protium, deuterium, tritium.
   */
  datatype Hydrogens = Hydrogens(anyIsotope: int, protium: int, deuterium: int, tritium: int)

  const NoHydrogens: Hydrogens := Hydrogens(0, 0, 0, 0)

  /** Slot `isotope` of the hydrogens array. */
  function Slot(h: Hydrogens, isotope: int): int
    requires 0 <= isotope <= 3
  {
    if isotope == 0 then h.anyIsotope
    else if isotope == 1 then h.protium
    else if isotope == 2 then h.deuterium
    else h.tritium
  }

  /** The hydrogens array with slot `isotope` overwritten by `count`. */
  function WithSlot(h: Hydrogens, isotope: int, count: int): (r: Hydrogens)
    requires 0 <= isotope <= 3
    ensures Slot(r, isotope) == count
    ensures forall other :: 0 <= other <= 3 && other != isotope ==> Slot(r, other) == Slot(h, other)
  {
    if isotope == 0 then h.(anyIsotope := count)
    else if isotope == 1 then h.(protium := count)
    else if isotope == 2 then h.(deuterium := count)
    else h.(tritium := count)
  }

  /**
   * INCHIMOL_ATOM. Coordinates are stored and returned, never computed with. `bonds` holds
   * the IDs of the atom's bonds; its length is the C bond_count.
   */
  datatype Atom = Atom(
    x: real, y: real, z: real,
    atomicNumber: int,
    hydrogens: Hydrogens,
    mass: int,
    radical: int,
    charge: int,
    bonds: seq<int>)

  /** INCHIMOL_BOND: the wedges are kept separately for each endpoint taken as reference. */
  datatype Bond = Bond(
    atom1: int, atom2: int,
    bondType: BondType,
    config: DblBondConfig,
    wedgeFromAtom1: Wedge,
    wedgeFromAtom2: Wedge)

  /** INCHIMOL_STEREO: the central entity is an atom ID or a bond ID depending on the topology. */
  datatype Stereo = Stereo(topology: Topology, centralEntity: int, vertices: seq<int>, parity: Parity)

  /**
   * INCHIMOL_SGROUP: one polymer unit. `alist` holds the member atoms; `blist` holds the two
   * endpoints of each crossing bond, so its length is twice the C `nb` (empty for a NULL list).
   */
  datatype SGroup = SGroup(
    id: int, sgType: int, subtype: int, conn: int, sgLabel: int,
    xbr1: seq<real>, xbr2: seq<real>,
    smt: string,
    alist: seq<int>,
    blist: seq<int>)

  /** INCHIMOL_POLYMER: `units` has the C `n` slots; a slot never filled stays None (a NULL pointer). */
  datatype Polymer = Polymer(units: seq<Option<SGroup>>)

  /** INCHIMOL_V3000: counters plus optional owned lists (None is a NULL pointer). */
  datatype V3000 = V3000(
    nCollections: int, nHapticBonds: int, nNonHapticBonds: int, nSgroups: int,
    nNonStarAtoms: int, nStarAtoms: int, nSteabs: int, nSterac: int, nSterel: int,
    n3dConstraints: int,
    atomIndexOrig: Option<seq<int>>,
    atomIndexFin: Option<seq<int>>,
    listsHapticBonds: Option<seq<seq<int>>>,
    listsSteabs: Option<seq<seq<int>>>,
    listsSterac: Option<seq<seq<int>>>,
    listsSterel: Option<seq<seq<int>>>)

  /** The whole INCHIMOL as a value. */
  datatype Mol = Mol(
    atoms: seq<Atom>,
    bonds: seq<Bond>,
    stereos: seq<Stereo>,
    chiral: bool,
    polymer: Option<Polymer>,
    v3000: Option<V3000>)

  /** A molecule after IXA_MOL_Create or MOL_Clear: everything zeroed. */
  const EmptyMol: Mol := Mol([], [], [], false, None, None)

  /** The atom MOL_CreateAtom appends (ixa_mol.c:254-265): carbon at the origin, all else zero. */
  const NewAtom: Atom := Atom(0.0, 0.0, 0.0, 6, NoHydrogens, 0, RADICAL_NONE, 0, [])

  /** The bond IXA_MOL_CreateBond appends (ixa_mol.c:939-944). */
  function NewBond(atom1: int, atom2: int): Bond {
    Bond(atom1, atom2, Single, Perceive, NoWedge, NoWedge)
  }

  /** Whether atom `id` is an endpoint of `b`. */
  predicate Touches(b: Bond, id: int) {
    b.atom1 == id || b.atom2 == id
  }

  /** The IDs of the bonds touching atom `id`, in creation order. */
  function Incident(bs: seq<Bond>, id: int): seq<int>
    decreases |bs|
  {
    if bs == [] then []
    else Incident(bs[..|bs| - 1], id) + (if Touches(bs[|bs| - 1], id) then [|bs|] else [])
  }

  /** A bond ID is incident to an atom exactly when that bond exists and touches the atom. */
  lemma {:induction false} IncidentMembers(bs: seq<Bond>, id: int, x: int)
    ensures x in Incident(bs, id) <==> 1 <= x <= |bs| && Touches(bs[x - 1], id)
    decreases |bs|
  {
    if bs != [] {
      var init := bs[..|bs| - 1];
      IncidentMembers(init, id, x);
      if 1 <= x <= |init| {
        assert bs[x - 1] == init[x - 1];
      }
    }
  }

  /** An atom no bond touches has an empty incident list. */
  lemma {:induction false} IncidentUntouched(bs: seq<Bond>, id: int)
    requires forall k :: 0 <= k < |bs| ==> !Touches(bs[k], id)
    ensures Incident(bs, id) == []
    decreases |bs|
  {
    if bs != [] {
      IncidentUntouched(bs[..|bs| - 1], id);
    }
  }

  /** Appending a bond extends the incident list of exactly its two endpoints. */
  lemma IncidentAppend(bs: seq<Bond>, b: Bond, id: int)
    ensures Incident(bs + [b], id) == Incident(bs, id) + (if Touches(b, id) then [|bs| + 1] else [])
  {
    assert (bs + [b])[..|bs|] == bs;
  }

  /** Incidence depends only on the endpoints, not on type, configuration or wedges. */
  lemma {:induction false} IncidentSameEndpoints(bs: seq<Bond>, bs': seq<Bond>, id: int)
    requires |bs| == |bs'|
    requires forall k :: 0 <= k < |bs| ==> bs[k].atom1 == bs'[k].atom1 && bs[k].atom2 == bs'[k].atom2
    ensures Incident(bs, id) == Incident(bs', id)
    decreases |bs|
  {
    if bs != [] {
      IncidentSameEndpoints(bs[..|bs| - 1], bs'[..|bs| - 1], id);
    }
  }

  /** A bond whose endpoints are two distinct atoms of a molecule with `atomCount` atoms. */
  predicate BondWellFormed(b: Bond, atomCount: nat) {
    ValidId(b.atom1, atomCount) && ValidId(b.atom2, atomCount) && b.atom1 != b.atom2
  }

  /**
   * The arena invariant: every atom's atomic number indexes the element table; every bond
   * joins two distinct existing atoms; every atom's bond list is exactly the list of bonds
   * touching it, in creation order, and fits the fixed capacity; every stereo centre has
   * four vertices.
   */
  predicate WellFormed(m: Mol) {
    && (forall i :: 0 <= i < |m.atoms| ==>
          1 <= m.atoms[i].atomicNumber < TableSize && |m.atoms[i].bonds| <= MAX_BONDS)
    && (forall k :: 0 <= k < |m.bonds| ==> BondWellFormed(m.bonds[k], |m.atoms|))
    && (forall id :: 1 <= id <= |m.atoms| ==> m.atoms[id - 1].bonds == Incident(m.bonds, id))
    && (forall s :: 0 <= s < |m.stereos| ==> |m.stereos[s].vertices| == 4)
  }

  /** Every ID in a well-formed atom's bond list names an existing bond that touches the atom. */
  lemma AtomBondsValid(m: Mol, i: nat, j: nat)
    requires WellFormed(m) && i < |m.atoms| && j < |m.atoms[i].bonds|
    ensures ValidId(m.atoms[i].bonds[j], |m.bonds|)
    ensures Touches(m.bonds[m.atoms[i].bonds[j] - 1], i + 1)
  {
    IncidentMembers(m.bonds, i + 1, m.atoms[i].bonds[j]);
  }

  /** Bonds are recorded symmetrically: each bond is in the lists of both of its endpoints. */
  lemma BondRecordedAtBothEnds(m: Mol, k: nat)
    requires WellFormed(m) && k < |m.bonds|
    ensures Pack(k) in m.atoms[m.bonds[k].atom1 - 1].bonds
    ensures Pack(k) in m.atoms[m.bonds[k].atom2 - 1].bonds
  {
    IncidentMembers(m.bonds, m.bonds[k].atom1, Pack(k));
    IncidentMembers(m.bonds, m.bonds[k].atom2, Pack(k));
  }

  lemma EmptyMolWellFormed()
    ensures WellFormed(EmptyMol)
  {
  }

  /** MOL_CreateAtom on the value: one carbon atom appended. */
  function CreateAtom(m: Mol): (r: Mol)
    ensures |r.atoms| == |m.atoms| + 1 && r.atoms[..|m.atoms|] == m.atoms && r.atoms[|m.atoms|] == NewAtom
    ensures r.bonds == m.bonds && r.stereos == m.stereos && r.chiral == m.chiral
    ensures r.polymer == m.polymer && r.v3000 == m.v3000
  {
    m.(atoms := m.atoms + [NewAtom])
  }

  /** Appending an atom keeps the invariant: no existing bond can touch the new ID. */
  lemma CreateAtomWellFormed(m: Mol)
    requires WellFormed(m)
    ensures WellFormed(CreateAtom(m))
  {
    var m' := CreateAtom(m);
    var n := |m.atoms|;
    IncidentUntouched(m.bonds, n + 1);
    TableSizeValue();
    forall i | 0 <= i < |m'.atoms|
      ensures m'.atoms[i].bonds == Incident(m'.bonds, i + 1) && |m'.atoms[i].bonds| <= MAX_BONDS
    {
      if i < n {
        assert m'.atoms[i] == m.atoms[i];
      }
    }
  }

  /** Outcome of IXA_MOL_CreateBond on the value. */
  datatype BondResult = Created(mol: Mol, id: int) | Rejected(issue: Issue)

  /** Whether some bond already in atom index `i1`'s list has `a2` as its second atom (ixa_mol.c:907-915). */
  predicate HasBondTo(m: Mol, i1: nat, a2: int)
    requires i1 < |m.atoms|
  {
    var list := m.atoms[i1].bonds;
    exists j :: 0 <= j < |list| && 1 <= list[j] <= |m.bonds| && m.bonds[list[j] - 1].atom2 == a2
  }

  /**
   * IXA_MOL_CreateBond (ixa_mol.c:869-952), checks in source order: both IDs, then the
   * capacity of atom1's and atom2's lists, then a self-loop, then a bond already listed at
   * atom1 whose second atom is atom2. On success the bond is appended and its ID is added
   * to both endpoints' lists.
   */
  function CreateBond(m: Mol, a1: int, a2: int): (r: BondResult)
    ensures r.Created? ==> ValidId(a1, |m.atoms|) && ValidId(a2, |m.atoms|) && a1 != a2
    ensures r.Created? ==> r.id == |m.bonds| + 1 && |r.mol.bonds| == r.id && |r.mol.atoms| == |m.atoms|
  {
    var u1 := Unpack(a1, |m.atoms|);
    var u2 := Unpack(a2, |m.atoms|);
    if u1.None? || u2.None? then Rejected(AtomIdInvalid)
    else
      var i1, i2 := u1.value, u2.value;
      if |m.atoms[i1].bonds| >= MAX_BONDS then Rejected(TooManyBonds)
      else if |m.atoms[i2].bonds| >= MAX_BONDS then Rejected(TooManyBonds)
      else if a1 == a2 then Rejected(SelfBond)
      else if HasBondTo(m, i1, a2) then Rejected(BondExists)
      else
        var id := Pack(|m.bonds|);
        var atoms1 := m.atoms[i1 := m.atoms[i1].(bonds := m.atoms[i1].bonds + [id])];
        var atoms2 := atoms1[i2 := atoms1[i2].(bonds := atoms1[i2].bonds + [id])];
        Created(m.(atoms := atoms2, bonds := m.bonds + [NewBond(a1, a2)]), id)
  }

  /** A successful bond creation keeps the arena invariant. */
  lemma CreateBondWellFormed(m: Mol, a1: int, a2: int)
    requires WellFormed(m)
    ensures CreateBond(m, a1, a2).Created? ==> WellFormed(CreateBond(m, a1, a2).mol)
  {
    var r := CreateBond(m, a1, a2);
    if r.Created? {
      var m' := r.mol;
      var nb := NewBond(a1, a2);
      forall i | 0 <= i < |m'.atoms|
        ensures m'.atoms[i].bonds == Incident(m'.bonds, i + 1) && |m'.atoms[i].bonds| <= MAX_BONDS
      {
        IncidentAppend(m.bonds, nb, i + 1);
      }
    }
  }

  /** What a successful IXA_MOL_CreateBond does (ixa_mol.c:939-951). */
  lemma CreateBondEffect(m: Mol, a1: int, a2: int)
    requires WellFormed(m) && CreateBond(m, a1, a2).Created?
    ensures var r := CreateBond(m, a1, a2);
      && r.id == |m.bonds| + 1
      && r.mol.bonds == m.bonds + [Bond(a1, a2, Single, Perceive, NoWedge, NoWedge)]
      && |r.mol.atoms| == |m.atoms|
      && r.mol.atoms[a1 - 1].bonds == m.atoms[a1 - 1].bonds + [r.id]
      && r.mol.atoms[a2 - 1].bonds == m.atoms[a2 - 1].bonds + [r.id]
      && (forall i :: 0 <= i < |m.atoms| && i != a1 - 1 && i != a2 - 1 ==> r.mol.atoms[i] == m.atoms[i])
      && r.mol.stereos == m.stereos && r.mol.chiral == m.chiral
  {
  }

  /**
   * The failure conditions of IXA_MOL_CreateBond, in the order they are checked. On every
   * failure nothing is created (the result carries no molecule).
   */
  lemma CreateBondRejections(m: Mol, a1: int, a2: int)
    requires WellFormed(m)
    ensures !ValidId(a1, |m.atoms|) || !ValidId(a2, |m.atoms|) ==> CreateBond(m, a1, a2) == Rejected(AtomIdInvalid)
    ensures ValidId(a1, |m.atoms|) && ValidId(a2, |m.atoms|) ==>
      ((|m.atoms[a1 - 1].bonds| == MAX_BONDS || |m.atoms[a2 - 1].bonds| == MAX_BONDS)
       <==> CreateBond(m, a1, a2) == Rejected(TooManyBonds))
    ensures ValidId(a1, |m.atoms|) && |m.atoms[a1 - 1].bonds| < MAX_BONDS ==>
      CreateBond(m, a1, a1) == Rejected(SelfBond)
  {
  }

  /**
   * A bond drawn from a1 to a2 already present is always detected, wherever it sits in a1's
   * list; once both lists have room, the duplicate is the reason given.
   */
  lemma SameOrientationDuplicateRejected(m: Mol, k: nat)
    requires WellFormed(m) && k < |m.bonds|
    ensures CreateBond(m, m.bonds[k].atom1, m.bonds[k].atom2).Rejected?
    ensures |m.atoms[m.bonds[k].atom1 - 1].bonds| < MAX_BONDS && |m.atoms[m.bonds[k].atom2 - 1].bonds| < MAX_BONDS ==>
      CreateBond(m, m.bonds[k].atom1, m.bonds[k].atom2) == Rejected(BondExists)
  {
    var a1, a2 := m.bonds[k].atom1, m.bonds[k].atom2;
    var i1 := a1 - 1;
    var list := m.atoms[i1].bonds;
    IncidentMembers(m.bonds, a1, Pack(k));
    var j :| 0 <= j < |list| && list[j] == Pack(k);
    assert HasBondTo(m, i1, a2);
  }

  /**
   * IXA_MOL_CreateBond succeeds exactly when both IDs are valid, both lists have room, the
   * atoms differ and no bond drawn from a1 to a2 exists yet.
   */
  lemma CreateBondSucceedsIff(m: Mol, a1: int, a2: int)
    requires WellFormed(m)
    ensures CreateBond(m, a1, a2).Created? <==>
      && ValidId(a1, |m.atoms|) && ValidId(a2, |m.atoms|)
      && |m.atoms[a1 - 1].bonds| < MAX_BONDS && |m.atoms[a2 - 1].bonds| < MAX_BONDS
      && a1 != a2
      && !(exists k :: 0 <= k < |m.bonds| && m.bonds[k].atom1 == a1 && m.bonds[k].atom2 == a2)
  {
    if exists k :: 0 <= k < |m.bonds| && m.bonds[k].atom1 == a1 && m.bonds[k].atom2 == a2 {
      var k :| 0 <= k < |m.bonds| && m.bonds[k].atom1 == a1 && m.bonds[k].atom2 == a2;
      SameOrientationDuplicateRejected(m, k);
    } else if ValidId(a1, |m.atoms|) && ValidId(a2, |m.atoms|) && a1 != a2 {
      var list := m.atoms[a1 - 1].bonds;
      forall j | 0 <= j < |list| && 1 <= list[j] <= |m.bonds|
        ensures m.bonds[list[j] - 1].atom2 != a2
      {
        IncidentMembers(m.bonds, a1, list[j]);
      }
    }
  }

  /**
   * The duplicate check looks only at bonds whose SECOND atom is a2, so the same pair
   * joined in the opposite orientation is accepted: one bond 1->2, then 2->1 succeeds.
   */
  lemma ReverseDuplicateAccepted()
    ensures var m0 := CreateAtom(CreateAtom(EmptyMol));
      var r1 := CreateBond(m0, 1, 2);
      r1.Created? && CreateBond(r1.mol, 2, 1).Created?
  {
    var m0 := CreateAtom(CreateAtom(EmptyMol));
    var r1 := CreateBond(m0, 1, 2);
    assert r1.Created?;
    var m1 := r1.mol;
    assert m1.atoms[1].bonds == [1];
    assert m1.bonds[0].atom2 == 2;
    assert !HasBondTo(m1, 1, 1);
  }

  /** Whether some entry of l1 at an index below `j` occurs in l2. */
  predicate CommonBefore(l1: seq<int>, l2: seq<int>, j: int)
    requires j <= |l1|
  {
    exists j' :: 0 <= j' < j && l1[j'] in l2
  }

  /**
   * IXA_MOL_GetCommonBond (ixa_mol.c:1170-1181), as a specification: the first entry of the
   * first list, in list order, that also occurs in the second list, or INVALID when none does.
   */
  function CommonBond(l1: seq<int>, l2: seq<int>): (r: int)
    ensures !CommonBefore(l1, l2, |l1|) ==> r == INVALID_ID
    ensures CommonBefore(l1, l2, |l1|) ==>
      exists j :: 0 <= j < |l1| && l1[j] == r && r in l2 && !CommonBefore(l1, l2, j)
    decreases |l1|
  {
    if l1 == [] then INVALID_ID
    else if l1[0] in l2 then
      assert !CommonBefore(l1, l2, 0);
      l1[0]
    else
      var r := CommonBond(l1[1..], l2);
      if CommonBefore(l1, l2, |l1|) then
        var j0 :| 0 <= j0 < |l1| && l1[j0] in l2;
        assert l1[1..][j0 - 1] == l1[j0];
        assert CommonBefore(l1[1..], l2, |l1| - 1);
        var j :| 0 <= j < |l1| - 1 && l1[1..][j] == r && r in l2 && !CommonBefore(l1[1..], l2, j);
        assert l1[j + 1] == r;
        assert !CommonBefore(l1, l2, j + 1) by {
          forall j' | 1 <= j' < j + 1
            ensures l1[j'] !in l2
          {
            assert l1[1..][j' - 1] == l1[j'];
          }
        }
        r
      else
        assert !CommonBefore(l1[1..], l2, |l1| - 1) by {
          forall j | 0 <= j < |l1| - 1
            ensures l1[1..][j] !in l2
          {
            assert l1[j + 1] == l1[1..][j];
          }
        }
        r
  }

  /** An entry found in the second list, with no earlier entry found there, is the common bond. */
  lemma CommonBondIsFirst(l1: seq<int>, l2: seq<int>, j: nat)
    requires j < |l1| && l1[j] in l2 && !CommonBefore(l1, l2, j)
    ensures CommonBond(l1, l2) == l1[j]
  {
    assert CommonBefore(l1, l2, |l1|);
    var r := CommonBond(l1, l2);
    var j0 :| 0 <= j0 < |l1| && l1[j0] == r && r in l2 && !CommonBefore(l1, l2, j0);
    assert j0 == j;
  }

  /** A well-formed atom's bond list never holds INVALID. */
  lemma NoInvalidInBonds(m: Mol, i: nat)
    requires WellFormed(m) && i < |m.atoms|
    ensures INVALID_ID !in m.atoms[i].bonds
  {
    IncidentMembers(m.bonds, i + 1, INVALID_ID);
  }

  /** The common bond found, if any, joins the two atoms. */
  lemma CommonBondFoundJoins(m: Mol, i1: nat, i2: nat)
    requires WellFormed(m) && i1 < |m.atoms| && i2 < |m.atoms|
    requires CommonBond(m.atoms[i1].bonds, m.atoms[i2].bonds) != INVALID_ID
    ensures var r := CommonBond(m.atoms[i1].bonds, m.atoms[i2].bonds);
      ValidId(r, |m.bonds|) && Touches(m.bonds[r - 1], i1 + 1) && Touches(m.bonds[r - 1], i2 + 1)
  {
    var l1, l2 := m.atoms[i1].bonds, m.atoms[i2].bonds;
    var r := CommonBond(l1, l2);
    IncidentMembers(m.bonds, i1 + 1, r);
    IncidentMembers(m.bonds, i2 + 1, r);
  }

  /** Whenever some bond joins the two atoms, a common bond is found. */
  lemma CommonBondComplete(m: Mol, i1: nat, i2: nat, k: nat)
    requires WellFormed(m) && i1 < |m.atoms| && i2 < |m.atoms|
    requires k < |m.bonds| && Touches(m.bonds[k], i1 + 1) && Touches(m.bonds[k], i2 + 1)
    ensures CommonBond(m.atoms[i1].bonds, m.atoms[i2].bonds) != INVALID_ID
  {
    var l1, l2 := m.atoms[i1].bonds, m.atoms[i2].bonds;
    IncidentMembers(m.bonds, i1 + 1, k + 1);
    IncidentMembers(m.bonds, i2 + 1, k + 1);
    var j :| 0 <= j < |l1| && l1[j] == k + 1;
    assert CommonBefore(l1, l2, |l1|);
    NoInvalidInBonds(m, i1);
  }
}
