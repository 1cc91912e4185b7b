/**
 * IXA_MOL_SetExtMoldataByMolfileExtInput (ixa_mol.c): the deep copy of a Molfile record's
 * polymer S-groups and V3000 block into the molecule's extension fields.
 *
 * A failure while copying S-groups is not rolled back: the units copied so far, and the unit
 * that failed, stay attached to the molecule.
 */
module ExtImport {
  import opened Common
  import opened IxaStatus
  import opened MolModel
  import opened MolfileRecord
  import opened IxaMol

  /** The function's return value: 0, or IXA_EXT_POLYMER_INVALID. */
  datatype ExtResult = ExtOk | PolymerInvalid

  /** A freshly allocated (calloc) list of `n` ints. */
  function Zeros(n: nat): (r: seq<int>)
    ensures |r| == n && forall i :: 0 <= i < |r| ==> r[i] == 0
  {
    seq(n, _ => 0)
  }

  // ----- polymer units -----

  /** The symbol of record atom `atnum` (1-based); None for a number outside the record. */
  function SymbolOf(ctab: Ctab, atnum: int): Option<string> {
    if 1 <= atnum <= |ctab.atoms| then Some(ctab.atoms[atnum - 1].symbol) else None
  }

  /** Whether bond number `ib` may be a crossing bond: it exists and neither endpoint is hydrogen. */
  predicate CrossingBondOk(ctab: Ctab, ib: int) {
    1 <= ib <= |ctab.bonds|
    && SymbolOf(ctab, ctab.bonds[ib - 1].atnum1) != Some("H")
    && SymbolOf(ctab, ctab.bonds[ib - 1].atnum2) != Some("H")
  }

  /** The endpoint list being filled, and the first problem met, if any. */
  datatype Fill = Fill(slots: seq<int>, failure: Option<Issue>)

  /**
   * The crossing-bond list after the first `m` entries of `blist` are processed: each bond
   * number is checked, its two endpoints are stored, then the endpoints are checked for
   * hydrogen; the first failure stops the fill.
   */
  function FillBlist(ctab: Ctab, blist: seq<int>, m: nat): (r: Fill)
    requires m <= |blist|
    ensures |r.slots| == 2 * |blist|
  {
    if m == 0 then Fill(Zeros(2 * |blist|), None)
    else
      var prev := FillBlist(ctab, blist, m - 1);
      if prev.failure.Some? then prev
      else
        var ib := blist[m - 1];
        if ib < 1 || ib > |ctab.bonds| then Fill(prev.slots, Some(PolymerInvalidBond))
        else
          var ia1, ia2 := ctab.bonds[ib - 1].atnum1, ctab.bonds[ib - 1].atnum2;
          var slots := prev.slots[2 * (m - 1) := ia1][2 * (m - 1) + 1 := ia2];
          if SymbolOf(ctab, ia1) == Some("H") || SymbolOf(ctab, ia2) == Some("H") then
            Fill(slots, Some(HydrogenEndGroup))
          else
            Fill(slots, None)
  }

  /** The fill succeeds exactly when every crossing bond is acceptable. */
  lemma {:induction false} FillBlistSucceeds(ctab: Ctab, blist: seq<int>, m: nat)
    requires m <= |blist|
    ensures FillBlist(ctab, blist, m).failure.None? <==> forall j :: 0 <= j < m ==> CrossingBondOk(ctab, blist[j])
  {
    if m > 0 {
      FillBlistSucceeds(ctab, blist, m - 1);
    }
  }

  /** After a successful fill, entries 2j and 2j+1 hold the endpoints of crossing bond j; the rest is still zero. */
  lemma {:induction false} FillBlistSlots(ctab: Ctab, blist: seq<int>, m: nat)
    requires m <= |blist|
    requires FillBlist(ctab, blist, m).failure.None?
    ensures forall j :: 0 <= j < m ==>
      1 <= blist[j] <= |ctab.bonds|
      && FillBlist(ctab, blist, m).slots[2 * j] == ctab.bonds[blist[j] - 1].atnum1
      && FillBlist(ctab, blist, m).slots[2 * j + 1] == ctab.bonds[blist[j] - 1].atnum2
    ensures forall i :: 2 * m <= i < 2 * |blist| ==> FillBlist(ctab, blist, m).slots[i] == 0
  {
    if m > 0 {
      FillBlistSlots(ctab, blist, m - 1);
    }
  }

  /** One unit as copied, and the problem that stopped its crossing-bond list, if any. */
  datatype UnitResult = UnitResult(unit: SGroup, failure: Option<Issue>)

  /** One S-group copied into an INCHIMOL_SGROUP. */
  function ImportUnit(ctab: Ctab, g: RecordSGroup): (r: UnitResult)
    ensures |r.unit.blist| == 2 * |g.blist|
  {
    var f := FillBlist(ctab, g.blist, |g.blist|);
    UnitResult(SGroup(g.id, g.sgType, g.subtype, g.conn, g.sgLabel, g.xbr1, g.xbr2, g.smt, g.alist, f.slots),
               f.failure)
  }

  /** The unit slots after the first `k` S-groups are copied; the first failure stops the copy. */
  datatype UnitsResult = UnitsResult(units: seq<Option<SGroup>>, failure: Option<Issue>)

  function ImportUnits(ctab: Ctab, k: nat): (r: UnitsResult)
    requires k <= |ctab.sgroups|
    ensures |r.units| == |ctab.sgroups|
  {
    if k == 0 then UnitsResult(seq(|ctab.sgroups|, _ => None), None)
    else
      var prev := ImportUnits(ctab, k - 1);
      if prev.failure.Some? then prev
      else
        var u := ImportUnit(ctab, ctab.sgroups[k - 1]);
        UnitsResult(prev.units[k - 1 := Some(u.unit)], u.failure)
  }

  /** Every unit of a polymer whose copy succeeded is the faithful copy of its S-group. */
  lemma {:induction false} ImportUnitsSuccess(ctab: Ctab, k: nat)
    requires k <= |ctab.sgroups|
    requires ImportUnits(ctab, k).failure.None?
    ensures forall j :: 0 <= j < k ==>
      ImportUnits(ctab, k).units[j] == Some(ImportUnit(ctab, ctab.sgroups[j]).unit)
      && ImportUnit(ctab, ctab.sgroups[j]).failure.None?
    ensures forall j :: k <= j < |ctab.sgroups| ==> ImportUnits(ctab, k).units[j].None?
  {
    if k > 0 {
      ImportUnitsSuccess(ctab, k - 1);
    }
  }

  /** The copy of the S-groups succeeds exactly when every crossing bond of every S-group is acceptable. */
  lemma {:induction false} ImportUnitsSucceeds(ctab: Ctab, k: nat)
    requires k <= |ctab.sgroups|
    ensures ImportUnits(ctab, k).failure.None? <==>
      forall j, b :: 0 <= j < k && 0 <= b < |ctab.sgroups[j].blist| ==> CrossingBondOk(ctab, ctab.sgroups[j].blist[b])
  {
    if k > 0 {
      ImportUnitsSucceeds(ctab, k - 1);
      var g := ctab.sgroups[k - 1];
      FillBlistSucceeds(ctab, g.blist, |g.blist|);
    }
  }

  /**
   * A failed copy is not rolled back: units before the failing one are complete copies, the
   * failing one is attached, and the later slots stay empty.
   */
  lemma {:induction false} ImportUnitsFailure(ctab: Ctab, k: nat)
    requires k <= |ctab.sgroups|
    requires ImportUnits(ctab, k).failure.Some?
    ensures exists f :: (0 <= f < k
      && ImportUnits(ctab, k).units[f] == Some(ImportUnit(ctab, ctab.sgroups[f]).unit)
      && ImportUnit(ctab, ctab.sgroups[f]).failure == ImportUnits(ctab, k).failure
      && (forall j :: 0 <= j < f ==> ImportUnits(ctab, k).units[j] == Some(ImportUnit(ctab, ctab.sgroups[j]).unit))
      && (forall j :: f < j < |ctab.sgroups| ==> ImportUnits(ctab, k).units[j].None?))
  {
    var prev := ImportUnits(ctab, k - 1);
    if prev.failure.Some? {
      ImportUnitsFailure(ctab, k - 1);
    } else {
      ImportUnitsSuccess(ctab, k - 1);
      var f := k - 1;
      assert ImportUnits(ctab, k).units[f] == Some(ImportUnit(ctab, ctab.sgroups[f]).unit);
    }
  }

  // ----- V3000 block -----

  /** A length-prefixed list copied with its own length formula. */
  function CopyList(lst: seq<int>, at: nat, header: nat): (r: seq<int>)
    requires ListWellFormed(lst, at, header)
    ensures |r| == lst[at] + header && r == lst[..|r|]
  {
    lst[..lst[at] + header]
  }

  /** A group of lists: copied when the count is non-zero and the lists are present, otherwise NULL. */
  function CopyLists(n: int, lists: Option<seq<seq<int>>>, at: nat, header: nat): (r: Option<seq<seq<int>>>)
    requires ListsWellFormed(n, lists, at, header)
    ensures r.Some? <==> n != 0 && lists.Some?
    ensures r.Some? ==> |r.value| == n && forall m :: 0 <= m < n ==> r.value[m] == CopyList(lists.value[m], at, header)
  {
    if n != 0 && lists.Some? then
      Some(seq(n, m requires 0 <= m < n => CopyList(lists.value[m], at, header)))
    else None
  }

  /** An atom index array as the corrected copy makes it: all n_atoms ints. */
  function CopyIndexArray(src: Option<seq<int>>, nAtoms: nat): (r: Option<seq<int>>)
    requires src.Some? ==> |src.value| == nAtoms
    ensures r == src
  {
    match src
    case None => None
    case Some(s) => assert s[..nAtoms] == s; Some(s[..nAtoms])
  }

  /** The V3000 block as copied into the molecule. */
  function ImportV3000(v: RecordV3000, nAtoms: nat): (r: V3000)
    requires V3000WellFormed(v, nAtoms)
    ensures r.nCollections == v.nCollections && r.nHapticBonds == v.nHapticBonds
    ensures r.nSteabs == v.nSteabs && r.nSterac == v.nSterac && r.nSterel == v.nSterel
    ensures r.atomIndexOrig == v.atomIndexOrig && r.atomIndexFin == v.atomIndexFin
  {
    V3000(v.nCollections, v.nHapticBonds, v.nNonHapticBonds, v.nSgroups,
          v.nNonStarAtoms, v.nStarAtoms, v.nSteabs, v.nSterac, v.nSterel, v.n3dConstraints,
          CopyIndexArray(v.atomIndexOrig, nAtoms),
          CopyIndexArray(v.atomIndexFin, nAtoms),
          CopyLists(v.nHapticBonds, v.hapticBonds, 2, 3),
          CopyLists(v.nSteabs, v.steabs, 1, 2),
          CopyLists(v.nSterac, v.sterac, 1, 2),
          CopyLists(v.nSterel, v.sterel, 1, 2))
  }

  /** Every copied haptic-bond list is the prefix its header announces (entry 2 plus three header entries). */
  lemma HapticListsCopied(v: RecordV3000, nAtoms: nat, m: nat)
    requires V3000WellFormed(v, nAtoms)
    requires ImportV3000(v, nAtoms).listsHapticBonds.Some? && m < |ImportV3000(v, nAtoms).listsHapticBonds.value|
    ensures v.hapticBonds.Some? && m < v.nHapticBonds
    ensures var src := v.hapticBonds.value[m];
      ImportV3000(v, nAtoms).listsHapticBonds.value[m] == src[..src[2] + 3]
  {
  }

  // ----- the memcpy of the atom index arrays, as written -----

  function Pow256(k: nat): nat
    ensures Pow256(k) >= 1
  {
    if k == 0 then 1 else 256 * Pow256(k - 1)
  }

  /**
   * The atom index array as ixa_mol.c:1593-1605 leaves it: the destination holds n ints
   * (calloc) but memcpy copies n BYTES, i.e. the first n/4 ints, the low n%4 bytes of the
   * next one (little-endian layout), and zeros after that.
   */
  function IndexArrayAsWritten(src: seq<int>, n: nat): (r: seq<int>)
    requires |src| == n
    ensures |r| == n
  {
    seq(n, i requires 0 <= i < n =>
      if i < n / 4 then src[i]
      else if i == n / 4 && n % 4 != 0 then src[i] % Pow256(n % 4)
      else 0)
  }

  /** Four atoms numbered 1..4: only the first index survives the byte-count copy. */
  lemma IndexArrayAsWrittenExample()
    ensures IndexArrayAsWritten([1, 2, 3, 4], 4) == [1, 0, 0, 0]
    ensures IndexArrayAsWritten([1, 2, 3, 4], 4) != CopyIndexArray(Some([1, 2, 3, 4]), 4).value
  {
    var r := IndexArrayAsWritten([1, 2, 3, 4], 4);
    assert r[1] == 0 && r[2] == 0 && r[3] == 0;
    assert r[0] == 1;
  }

  /** With two or more atoms, a non-zero last index is always lost by the byte-count copy. */
  lemma IndexArrayAsWrittenLosesLast(src: seq<int>, n: nat)
    requires |src| == n && n >= 2 && src[n - 1] != 0
    ensures IndexArrayAsWritten(src, n)[n - 1] == 0
    ensures IndexArrayAsWritten(src, n) != src
  {
    assert n / 4 < n - 1;
  }

  // ----- the whole import, as a function of the molecule and the record -----

  /** The molecule, the return value and the message pushed, if any. */
  datatype ExtOutcome = ExtOutcome(mol: Mol, result: ExtResult, failure: Option<Issue>)

  function WithV3000(m: Mol, ctab: Ctab): Mol
    requires CtabWellFormed(ctab)
  {
    match ctab.v3000
    case None => m
    case Some(v) => m.(v3000 := Some(ImportV3000(v, |ctab.atoms|)))
  }

  /**
   * IXA_MOL_SetExtMoldataByMolfileExtInput on the value (ixa_mol.c:1458-1699): the S-groups
   * are copied first, and the V3000 block only when they all succeed.
   */
  function ImportExt(m: Mol, ctab: Ctab): (r: ExtOutcome)
    requires CtabWellFormed(ctab)
    ensures r.mol.atoms == m.atoms && r.mol.bonds == m.bonds && r.mol.stereos == m.stereos
    ensures r.mol.chiral == m.chiral
    ensures r.result == ExtOk <==> r.failure.None?
    ensures |ctab.sgroups| == 0 ==> r.result == ExtOk && r.mol.polymer == m.polymer
    ensures r.result == PolymerInvalid ==> r.mol.v3000 == m.v3000
  {
    if |ctab.sgroups| > 0 then
      var u := ImportUnits(ctab, |ctab.sgroups|);
      var m1 := m.(polymer := Some(Polymer(u.units)));
      if u.failure.Some? then ExtOutcome(m1, PolymerInvalid, u.failure)
      else ExtOutcome(WithV3000(m1, ctab), ExtOk, None)
    else
      ExtOutcome(WithV3000(m, ctab), ExtOk, None)
  }

  /** Only the extension fields change, so well-formedness of the atom/bond/stereo arrays is kept. */
  lemma ImportExtFrame(m: Mol, ctab: Ctab)
    requires CtabWellFormed(ctab)
    ensures var r := ImportExt(m, ctab).mol;
      r.atoms == m.atoms && r.bonds == m.bonds && r.stereos == m.stereos && r.chiral == m.chiral
    ensures WellFormed(m) ==> WellFormed(ImportExt(m, ctab).mol)
  {
  }

  /**
   * The import fails exactly when some S-group names a crossing bond that does not exist or
   * ends at a hydrogen; it then reports that problem, keeps the partial polymer and does not
   * touch the V3000 field.
   */
  lemma ImportExtFailsIff(m: Mol, ctab: Ctab)
    requires CtabWellFormed(ctab)
    ensures ImportExt(m, ctab).result == PolymerInvalid <==>
      exists j, b :: 0 <= j < |ctab.sgroups| && 0 <= b < |ctab.sgroups[j].blist| && !CrossingBondOk(ctab, ctab.sgroups[j].blist[b])
    ensures ImportExt(m, ctab).result == PolymerInvalid ==>
      ImportExt(m, ctab).failure.Some? && ImportExt(m, ctab).mol.polymer.Some? && ImportExt(m, ctab).mol.v3000 == m.v3000
    ensures ImportExt(m, ctab).result == ExtOk <==> ImportExt(m, ctab).failure.None?
  {
    ImportUnitsSucceeds(ctab, |ctab.sgroups|);
  }

  /** On success every S-group is copied in order, and a present V3000 block is copied. */
  lemma ImportExtSuccess(m: Mol, ctab: Ctab)
    requires CtabWellFormed(ctab)
    requires ImportExt(m, ctab).result == ExtOk
    ensures var r := ImportExt(m, ctab).mol;
      (|ctab.sgroups| > 0 ==> (r.polymer.Some? && |r.polymer.value.units| == |ctab.sgroups|
        && forall j :: 0 <= j < |ctab.sgroups| ==> r.polymer.value.units[j] == Some(ImportUnit(ctab, ctab.sgroups[j]).unit)))
      && (|ctab.sgroups| == 0 ==> r.polymer == m.polymer)
      && (ctab.v3000.Some? ==> r.v3000 == Some(ImportV3000(ctab.v3000.value, |ctab.atoms|)))
      && (ctab.v3000.None? ==> r.v3000 == m.v3000)
  {
    if |ctab.sgroups| > 0 {
      ImportUnitsSuccess(ctab, |ctab.sgroups|);
    }
  }

  // ----- the copy as the C code performs it -----

  /** Copies `n` ints element by element into a fresh buffer (the corrected atom index copy). */
  method CopyInts(src: seq<int>, n: nat) returns (dst: seq<int>)
    requires n <= |src|
    ensures dst == src[..n]
  {
    var a := new int[n](_ => 0);
    var k := 0;
    while k < n
      invariant 0 <= k <= n
      invariant a[..k] == src[..k]
    {
      a[k] := src[k];
      k := k + 1;
    }
    assert a[..] == a[..n];
    dst := a[..];
  }

  /** The outer loop over a group of lists, each copied with its length formula. */
  method CopyListGroup(n: int, lists: Option<seq<seq<int>>>, at: nat, header: nat) returns (r: Option<seq<seq<int>>>)
    requires ListsWellFormed(n, lists, at, header)
    ensures r == CopyLists(n, lists, at, header)
  {
    if n != 0 && lists.Some? {
      var copied: seq<seq<int>> := [];
      var m := 0;
      while m < n
        invariant 0 <= m <= n
        invariant |copied| == m
        invariant forall j :: 0 <= j < m ==> copied[j] == CopyList(lists.value[j], at, header)
      {
        var mol_lst := lists.value[m];
        var nn := mol_lst[at] + header;
        var lst := CopyInts(mol_lst, nn);
        copied := copied + [lst];
        m := m + 1;
      }
      assert copied == seq(n, m requires 0 <= m < n => CopyList(lists.value[m], at, header));
      r := Some(copied);
    } else {
      r := None;
    }
  }

  method ImportV3000Record(v: RecordV3000, nAtoms: nat) returns (r: V3000)
    requires V3000WellFormed(v, nAtoms)
    ensures r == ImportV3000(v, nAtoms)
  {
    var orig, fin: Option<seq<int>> := None, None;
    if v.atomIndexOrig.Some? {
      var a := CopyInts(v.atomIndexOrig.value, nAtoms);
      orig := Some(a);
    }
    if v.atomIndexFin.Some? {
      var a := CopyInts(v.atomIndexFin.value, nAtoms);
      fin := Some(a);
    }
    var haptic := CopyListGroup(v.nHapticBonds, v.hapticBonds, 2, 3);
    var steabs := CopyListGroup(v.nSteabs, v.steabs, 1, 2);
    var sterac := CopyListGroup(v.nSterac, v.sterac, 1, 2);
    var sterel := CopyListGroup(v.nSterel, v.sterel, 1, 2);
    r := V3000(v.nCollections, v.nHapticBonds, v.nNonHapticBonds, v.nSgroups,
               v.nNonStarAtoms, v.nStarAtoms, v.nSteabs, v.nSterac, v.nSterel, v.n3dConstraints,
               orig, fin, haptic, steabs, sterac, sterel);
  }

  /** One S-group: the member atoms are copied, then the crossing-bond endpoints, stopping at the first bad bond. */
  method ImportUnitRecord(ctab: Ctab, g: RecordSGroup) returns (unit: SGroup, failure: Option<Issue>)
    requires BondsInRange(ctab)
    ensures UnitResult(unit, failure) == ImportUnit(ctab, g)
  {
    var alist := CopyInts(g.alist, |g.alist|);
    var nb := |g.blist|;
    var blist := new int[2 * nb](_ => 0);
    failure := None;
    var m := 0;
    while m < nb
      invariant 0 <= m <= nb
      invariant FillBlist(ctab, g.blist, m) == Fill(blist[..], None)
    {
      var ib := g.blist[m];
      if ib < 1 || ib > |ctab.bonds| {
        failure := Some(PolymerInvalidBond);
        break;
      }
      var ia1 := ctab.bonds[ib - 1].atnum1;
      var ia2 := ctab.bonds[ib - 1].atnum2;
      blist[2 * m] := ia1;
      blist[2 * m + 1] := ia2;
      if ctab.atoms[ia1 - 1].symbol == "H" || ctab.atoms[ia2 - 1].symbol == "H" {
        failure := Some(HydrogenEndGroup);
        break;
      }
      m := m + 1;
    }
    if failure.Some? {
      assert FillBlist(ctab, g.blist, |g.blist|) == FillBlist(ctab, g.blist, m + 1) by {
        FillBlistStops(ctab, g.blist, m + 1, |g.blist|);
      }
    }
    unit := SGroup(g.id, g.sgType, g.subtype, g.conn, g.sgLabel, g.xbr1, g.xbr2, g.smt, alist, blist[..]);
  }

  /** Once the fill has failed, processing further entries changes nothing. */
  lemma {:induction false} FillBlistStops(ctab: Ctab, blist: seq<int>, m: nat, m': nat)
    requires m <= m' <= |blist|
    requires FillBlist(ctab, blist, m).failure.Some?
    ensures FillBlist(ctab, blist, m') == FillBlist(ctab, blist, m)
    decreases m' - m
  {
    if m' > m {
      FillBlistStops(ctab, blist, m, m' - 1);
    }
  }

  /**
   * IXA_MOL_SetExtMoldataByMolfileExtInput (ixa_mol.c:1458-1699). S-groups are copied into
   * unit slots that are attached as they are filled; the first bad crossing bond pushes an
   * error and returns, leaving what was copied. The V3000 block is copied afterwards.
   */
  method SetExtMoldataByMolfileExtInput(st: Status, mol: Molecule, ctab: Ctab) returns (r: ExtResult)
    requires CtabWellFormed(ctab) && BondsInRange(ctab)
    modifies st, mol
    ensures var e := ImportExt(old(mol.Value()), ctab);
      mol.Value() == e.mol && r == e.result
      && st.messages == old(st.messages) + (if e.failure.Some? then [Message(Error, e.failure.value)] else [])
  {
    var nsgroups := |ctab.sgroups|;
    if nsgroups > 0 {
      var units: seq<Option<SGroup>> := seq(nsgroups, _ => None);
      mol.polymer := Some(Polymer(units));
      var k := 0;
      while k < nsgroups
        invariant 0 <= k <= nsgroups
        invariant ImportUnits(ctab, k) == UnitsResult(units, None)
        invariant mol.Value() == old(mol.Value()).(polymer := Some(Polymer(units)))
        invariant st.messages == old(st.messages)
      {
        var unit, failure := ImportUnitRecord(ctab, ctab.sgroups[k]);
        units := units[k := Some(unit)];
        mol.polymer := Some(Polymer(units));
        if failure.Some? {
          ImportUnitsStop(ctab, k + 1);
          st.Push(Error, failure.value);
          return PolymerInvalid;
        }
        k := k + 1;
      }
    }
    if ctab.v3000.Some? {
      var v := ImportV3000Record(ctab.v3000.value, |ctab.atoms|);
      mol.v3000 := Some(v);
    }
    r := ExtOk;
  }

  /** Once a unit has failed, the remaining S-groups are not processed. */
  lemma {:induction false} ImportUnitsStop(ctab: Ctab, k: nat)
    requires k <= |ctab.sgroups|
    requires ImportUnits(ctab, k).failure.Some?
    ensures ImportUnits(ctab, |ctab.sgroups|) == ImportUnits(ctab, k)
  {
    ImportUnitsStopFrom(ctab, k, |ctab.sgroups|);
  }

  lemma {:induction false} ImportUnitsStopFrom(ctab: Ctab, k: nat, k': nat)
    requires k <= k' <= |ctab.sgroups|
    requires ImportUnits(ctab, k).failure.Some?
    ensures ImportUnits(ctab, k') == ImportUnits(ctab, k)
    decreases k' - k
  {
    if k' > k {
      ImportUnitsStopFrom(ctab, k, k' - 1);
    }
  }
}
