/**
 * The per-entity checks of the IXA setters and getters, stated on single atoms, bonds and
 * stereo centres: what each accepts, what it stores, and what a later getter returns.
 */
module MolFields {
  import opened Common
  import opened Handles
  import opened StereoCodes
  import opened IxaStatus
  import opened PeriodicTable
  import opened MolModel

  /** The result of a validated setter or getter: the new value, or the reason it was refused. */
  datatype Change<T> = Done(value: T) | Refused(issue: Issue)

  /**
   * How a validated update of item `index` ends: an accepted change replaces that item and
   * reports nothing; a refused one leaves the list alone and pushes one error.
   */
  predicate Applied<T(==)>(before: seq<T>, index: int, c: Change<T>, after: seq<T>,
                       messagesBefore: seq<Message>, messagesAfter: seq<Message>)
  {
    match c
    case Done(v) => 0 <= index < |before| && after == before[index := v] && messagesAfter == messagesBefore
    case Refused(issue) => after == before && messagesAfter == messagesBefore + [Message(Error, issue)]
  }

  // ----- atoms -----

  /** IXA_MOL_SetAtomElement on one atom (ixa_mol.c:603-618). */
  function SetElement(a: Atom, symbol: string): (r: Change<Atom>)
    ensures r.Done? <==> InTable(symbol) || symbol == "D" || symbol == "T"
    ensures r.Refused? ==> r.issue == ElementNotRecognised(symbol)
    ensures r.Done? ==>
      && r.value == a.(atomicNumber := r.value.atomicNumber)
      && 1 <= r.value.atomicNumber < TableSize
      && (Elements[r.value.atomicNumber] == symbol || (symbol in {"D", "T"} && r.value.atomicNumber == 1))
  {
    match ElementNumber(symbol)
    case Some(k) => Done(a.(atomicNumber := k))
    case None => Refused(ElementNotRecognised(symbol))
  }

  /** IXA_MOL_SetAtomAtomicNumber on one atom (ixa_mol.c:651-657). */
  function SetAtomicNumber(a: Atom, n: int): (r: Change<Atom>)
    ensures r.Done? <==> 1 <= n <= 119
    ensures r.Done? ==> r.value == a.(atomicNumber := n)
    ensures r.Refused? ==> r.issue == AtomicNumberOutOfRange(n)
  {
    TableSizeValue();
    if 1 <= n < TableSize then Done(a.(atomicNumber := n)) else Refused(AtomicNumberOutOfRange(n))
  }

  /** Setting the element by the symbol of a valid atomic number stores that atomic number. */
  lemma ElementOfNumberRoundTrip(a: Atom, n: int)
    requires 1 <= n < TableSize
    ensures SetElement(a, Elements[n]).Done?
    ensures Elements[SetElement(a, Elements[n]).value.atomicNumber] == Elements[n]
  {
    SymbolOfNumberRoundTrip(n);
  }

  /** IXA_MOL_SetAtomHydrogens on one atom (ixa_mol.c:691-717). */
  function SetHydrogens(a: Atom, isotope: int, count: int): (r: Change<Atom>)
    ensures r.Done? <==> (isotope == 0 && count >= -1) || (1 <= isotope <= 3 && count >= 0)
    ensures !(0 <= isotope <= 3) ==> r == Refused(HydrogenIsotopeNotRecognised(isotope))
    ensures r.Done? ==> r.value == a.(hydrogens := r.value.hydrogens) && Slot(r.value.hydrogens, isotope) == count
  {
    if isotope == 0 then
      if count < -1 then Refused(ImplicitHydrogenNegative)
      else Done(a.(hydrogens := WithSlot(a.hydrogens, 0, count)))
    else if 1 <= isotope <= 3 then
      if count < 0 then Refused(IsotopicHydrogenNegative)
      else Done(a.(hydrogens := WithSlot(a.hydrogens, isotope, count)))
    else Refused(HydrogenIsotopeNotRecognised(isotope))
  }

  /** IXA_MOL_GetAtomHydrogens on one atom (ixa_mol.c:734-746). */
  function GetHydrogens(a: Atom, isotope: int): (r: Change<int>)
    ensures r.Done? <==> 0 <= isotope <= 3
    ensures r.Refused? ==> r.issue == HydrogenIsotopeNotRecognised(isotope)
  {
    if 0 <= isotope <= 3 then Done(Slot(a.hydrogens, isotope))
    else Refused(HydrogenIsotopeNotRecognised(isotope))
  }

  /**
   * After an accepted hydrogen count, the getter returns it for that slot, the other slots
   * read as before, and nothing else in the atom has changed.
   */
  lemma HydrogensRoundTrip(a: Atom, isotope: int, count: int, other: int)
    requires SetHydrogens(a, isotope, count).Done?
    ensures var a' := SetHydrogens(a, isotope, count).value;
      && GetHydrogens(a', isotope) == Done(count)
      && (other != isotope ==> GetHydrogens(a', other) == GetHydrogens(a, other))
      && a' == a.(hydrogens := a'.hydrogens)
  {
  }

  /** IXA_MOL_SetAtomMass on one atom (ixa_mol.c:763-783). */
  function SetMass(a: Atom, mass: int): (r: Change<Atom>)
    ensures r.Done? <==> mass >= 0
    ensures r.Done? ==> r.value == a.(mass := mass)
    ensures r.Refused? ==> r.issue == MassNegative
  {
    if mass < 0 then Refused(MassNegative) else Done(a.(mass := mass))
  }

  // ----- bonds -----

  /** IXA_MOL_SetBondWedge on one bond (ixa_mol.c:1072-1085): the reference atom picks the side. */
  function SetWedge(b: Bond, refAtom: int, w: Wedge): (r: Change<Bond>)
    ensures r.Done? <==> Touches(b, refAtom)
    ensures r.Refused? ==> r.issue == ReferenceAtomIllegal
    ensures r.Done? ==>
      && GetWedge(r.value, refAtom) == Done(w)
      && r.value.atom1 == b.atom1 && r.value.atom2 == b.atom2
      && r.value.bondType == b.bondType && r.value.config == b.config
  {
    if refAtom == b.atom1 then Done(b.(wedgeFromAtom1 := w))
    else if refAtom == b.atom2 then Done(b.(wedgeFromAtom2 := w))
    else Refused(ReferenceAtomIllegal)
  }

  /** IXA_MOL_GetBondWedge on one bond (ixa_mol.c:1101-1113). */
  function GetWedge(b: Bond, refAtom: int): (r: Change<Wedge>)
    ensures r.Done? <==> Touches(b, refAtom)
    ensures r.Refused? ==> r.issue == ReferenceAtomIllegal
    ensures r.Done? ==> r.value == b.wedgeFromAtom1 || r.value == b.wedgeFromAtom2
  {
    if refAtom == b.atom1 then Done(b.wedgeFromAtom1)
    else if refAtom == b.atom2 then Done(b.wedgeFromAtom2)
    else Refused(ReferenceAtomIllegal)
  }

  /**
   * For a bond between distinct atoms: a wedge is accepted exactly for an endpoint as
   * reference; the getter then returns it from that endpoint, the other endpoint's wedge
   * is unchanged, and so are the endpoints, the type and the configuration.
   */
  lemma WedgeRoundTrip(b: Bond, refAtom: int, w: Wedge, other: int)
    requires b.atom1 != b.atom2
    ensures SetWedge(b, refAtom, w).Done? <==> Touches(b, refAtom)
    ensures SetWedge(b, refAtom, w).Done? ==>
      var b' := SetWedge(b, refAtom, w).value;
      && GetWedge(b', refAtom) == Done(w)
      && (other != refAtom ==> GetWedge(b', other) == GetWedge(b, other))
      && b'.atom1 == b.atom1 && b'.atom2 == b.atom2
      && b'.bondType == b.bondType && b'.config == b.config
  {
  }

  /** MOL_GetBondOtherAtom on one bond (ixa_mol.c:335-343). */
  function OtherAtom(b: Bond, atom: int): (r: int)
    ensures Touches(b, atom) ==> Touches(b, r)
    ensures Touches(b, atom) && b.atom1 != b.atom2 ==> r != atom
    ensures !Touches(b, atom) ==> r == INVALID_ID
  {
    if b.atom1 == atom then b.atom2
    else if b.atom2 == atom then b.atom1
    else INVALID_ID
  }

  /**
   * For a bond between distinct atoms: the other atom of an endpoint is the opposite
   * endpoint, and asking again gives the first one back; a non-endpoint gives INVALID.
   */
  lemma OtherAtomInvolution(b: Bond, atom: int)
    requires b.atom1 != b.atom2
    ensures Touches(b, atom) ==>
      && OtherAtom(b, atom) != atom
      && Touches(b, OtherAtom(b, atom))
      && OtherAtom(b, OtherAtom(b, atom)) == atom
    ensures !Touches(b, atom) ==> OtherAtom(b, atom) == INVALID_ID
  {
  }

  // ----- stereo centres -----

  /** The centre MOL_CreateStereo plus IXA_MOL_CreateStereo* append (ixa_mol.c:1199-1208). */
  function NewStereo(topology: Topology, centre: int, v1: int, v2: int, v3: int, v4: int): (r: Stereo)
    ensures |r.vertices| == 4 && r.vertices[0] == v1 && r.vertices[1] == v2
    ensures r.vertices[2] == v3 && r.vertices[3] == v4
    ensures r.topology == topology && r.centralEntity == centre && r.parity == ParityNone
  {
    Stereo(topology, centre, [v1, v2, v3, v4], ParityNone)
  }

  /** IXA_MOL_GetStereoCentralAtom on one centre (ixa_mol.c:1332-1343). */
  function CentralAtom(s: Stereo): (r: Change<int>)
    ensures r.Done? <==> HasCentralAtom(s.topology)
    ensures r.Done? ==> r.value == s.centralEntity
    ensures r.Refused? ==> r.issue == (if s.topology == Rectangle then NoCentralAtom else UnexpectedTopology)
  {
    match s.topology
    case Tetrahedron => Done(s.centralEntity)
    case AntiRectangle => Done(s.centralEntity)
    case Rectangle => Refused(NoCentralAtom)
    case TopologyInvalid => Refused(UnexpectedTopology)
  }

  /** IXA_MOL_GetStereoCentralBond on one centre (ixa_mol.c:1359-1370). */
  function CentralBond(s: Stereo): (r: Change<int>)
    ensures r.Done? <==> HasCentralBond(s.topology)
    ensures r.Done? ==> r.value == s.centralEntity
    ensures r.Refused? ==> r.issue == (if s.topology == TopologyInvalid then UnexpectedTopology else NoCentralBond)
  {
    match s.topology
    case Tetrahedron => Refused(NoCentralBond)
    case AntiRectangle => Refused(NoCentralBond)
    case Rectangle => Done(s.centralEntity)
    case TopologyInvalid => Refused(UnexpectedTopology)
  }

  /**
   * The topology decides the kind of the central entity: a centre has a central atom or a
   * central bond, never both, and for a valid topology exactly one; the entity returned is
   * the one stored at creation.
   */
  lemma CentralEntityByTopology(s: Stereo)
    ensures CentralAtom(s).Done? <==> HasCentralAtom(s.topology)
    ensures CentralBond(s).Done? <==> HasCentralBond(s.topology)
    ensures !(CentralAtom(s).Done? && CentralBond(s).Done?)
    ensures s.topology != TopologyInvalid ==> CentralAtom(s).Done? || CentralBond(s).Done?
    ensures CentralAtom(s).Done? ==> CentralAtom(s).value == s.centralEntity
    ensures CentralBond(s).Done? ==> CentralBond(s).value == s.centralEntity
  {
  }

  /** IXA_MOL_GetStereoVertex on one centre, when no error was pending (ixa_mol.c:1404-1413). */
  function Vertex(s: Stereo, index: int): (r: Change<int>)
    requires |s.vertices| == 4
    ensures r.Done? <==> s.topology != TopologyInvalid && 0 <= index <= 3
    ensures r.Done? ==> r.value == s.vertices[index]
    ensures r.Refused? ==> r.issue == (if s.topology == TopologyInvalid then UnexpectedTopology else VertexIndexOutOfRange)
  {
    if VertexCount(s.topology) == 0 then Refused(UnexpectedTopology)
    else if index < 0 || index >= VertexCount(s.topology) then Refused(VertexIndexOutOfRange)
    else Done(s.vertices[index])
  }

  /** The four vertices given at creation come back in order for indices 0..3, and no other index is accepted. */
  lemma VertexRoundTrip(topology: Topology, centre: int, v1: int, v2: int, v3: int, v4: int, index: int)
    requires topology != TopologyInvalid
    ensures var s := NewStereo(topology, centre, v1, v2, v3, v4);
      && (Vertex(s, index).Done? <==> 0 <= index <= 3)
      && Vertex(s, 0) == Done(v1) && Vertex(s, 1) == Done(v2)
      && Vertex(s, 2) == Done(v3) && Vertex(s, 3) == Done(v4)
  {
  }

  // ----- the invariant under single-item updates -----

  /** Replacing an atom by one with the same bond list and a table atomic number keeps the invariant. */
  lemma ReplaceAtomWellFormed(m: Mol, i: nat, a: Atom)
    requires WellFormed(m) && i < |m.atoms|
    requires a.bonds == m.atoms[i].bonds && 1 <= a.atomicNumber < TableSize
    ensures WellFormed(m.(atoms := m.atoms[i := a]))
  {
  }

  /** Replacing a bond by one with the same endpoints keeps the invariant. */
  lemma ReplaceBondWellFormed(m: Mol, k: nat, b: Bond)
    requires WellFormed(m) && k < |m.bonds|
    requires b.atom1 == m.bonds[k].atom1 && b.atom2 == m.bonds[k].atom2
    ensures WellFormed(m.(bonds := m.bonds[k := b]))
  {
    forall id {
      IncidentSameEndpoints(m.bonds, m.bonds[k := b], id);
    }
  }

  /** Appending a stereo centre with four vertices keeps the invariant. */
  lemma AppendStereoWellFormed(m: Mol, s: Stereo)
    requires WellFormed(m) && |s.vertices| == 4
    ensures WellFormed(m.(stereos := m.stereos + [s]))
  {
  }
}
