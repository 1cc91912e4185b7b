/**
 * The part of a parsed Molfile record (MOL_FMT_DATA) that the IXA import reads. The parser
 * that fills it is not part of this model; a record is the import's input.
 */
module MolfileRecord {
  import opened Common

  /** One atom line: symbol, coordinates and the raw codes the import translates. */
  datatype RecordAtom = RecordAtom(
    symbol: string,
    x: real, y: real, z: real,
    massDifference: int,   // raw isotope code; stored in a signed char by the import
    charge: int,
    radical: int,
    valence: int,          // 0 when the record declares no special valence
    aliased: bool)         // atom_aliased_flag

  /** One bond line: 1-based atom numbers, multiplicity code and stereo code. */
  datatype RecordBond = RecordBond(atnum1: int, atnum2: int, bondType: int, bondStereo: int)

  /** One S-group (polymer unit) record; `blist` holds 1-based bond numbers. */
  datatype RecordSGroup = RecordSGroup(
    id: int, sgType: int, subtype: int, conn: int, sgLabel: int,
    xbr1: seq<real>, xbr2: seq<real>,
    smt: string,
    alist: seq<int>,
    blist: seq<int>)

  /**
   * The V3000 extension block. Each list of a haptic-bond group starts with a header whose
   * entry 2 counts the members that follow the three header entries; each stereo-collection
   * list has its member count at entry 1, after two header entries.
   */
  datatype RecordV3000 = RecordV3000(
    nCollections: int, nHapticBonds: int, nNonHapticBonds: int, nSgroups: int,
    nNonStarAtoms: int, nStarAtoms: int, nSteabs: int, nSterac: int, nSterel: int,
    n3dConstraints: int,
    atomIndexOrig: Option<seq<int>>,
    atomIndexFin: Option<seq<int>>,
    hapticBonds: Option<seq<seq<int>>>,
    steabs: Option<seq<seq<int>>>,
    sterac: Option<seq<seq<int>>>,
    sterel: Option<seq<seq<int>>>)

  /** The connection table: n_atoms and n_bonds are the lengths of the two blocks. */
  datatype Ctab = Ctab(
    atoms: seq<RecordAtom>,
    bonds: seq<RecordBond>,
    chiral: bool,
    sgroups: seq<RecordSGroup>,
    v3000: Option<RecordV3000>)

  /** What the Molfile reader hands back: the record (None for a NULL result), err and error_string. */
  datatype ParseResult = ParseResult(data: Option<Ctab>, err: int, errorString: string)

  // MDL bond stereo codes (INPUT_STEREO_*)
  const INPUT_STEREO_SNGL_UP: int := 1
  const INPUT_STEREO_DBLE_EITHER: int := 3
  const INPUT_STEREO_SNGL_EITHER: int := 4
  const INPUT_STEREO_SNGL_DOWN: int := 6

  /** Flag added to an isotope mass difference to mark it as a difference. */
  const ISOTOPIC_SHIFT_FLAG: int := 10000
  /** Mass-difference code meaning "isotope mass equals the rounded average mass". */
  const ZERO_ATW_DIFF: int := 127

  /** A length-prefixed list whose length field sits at `at` and counts entries after `header` header entries. */
  predicate ListWellFormed(lst: seq<int>, at: nat, header: nat)
  {
    at < |lst| && 0 <= lst[at] + header <= |lst|
  }

  /** A group of `n` such lists, present only when both the count and the lists are given. */
  predicate ListsWellFormed(n: int, lists: Option<seq<seq<int>>>, at: nat, header: nat)
  {
    n >= 0 &&
    (lists.Some? ==> n <= |lists.value| && forall m :: 0 <= m < n ==> ListWellFormed(lists.value[m], at, header))
  }

  /**
   * What the import relies on without checking: the atom index arrays have n_atoms entries,
   * and every list it copies is long enough for the length its own header states.
   */
  predicate V3000WellFormed(v: RecordV3000, nAtoms: nat)
  {
    && (v.atomIndexOrig.Some? ==> |v.atomIndexOrig.value| == nAtoms)
    && (v.atomIndexFin.Some? ==> |v.atomIndexFin.value| == nAtoms)
    && ListsWellFormed(v.nHapticBonds, v.hapticBonds, 2, 3)
    && ListsWellFormed(v.nSteabs, v.steabs, 1, 2)
    && ListsWellFormed(v.nSterac, v.sterac, 1, 2)
    && ListsWellFormed(v.nSterel, v.sterel, 1, 2)
  }

  predicate CtabWellFormed(c: Ctab)
  {
    c.v3000.Some? ==> V3000WellFormed(c.v3000.value, |c.atoms|)
  }

  /** Every bond line names two atoms of the record (the S-group import reads their symbols). */
  predicate BondsInRange(c: Ctab)
  {
    forall k :: 0 <= k < |c.bonds| ==>
      1 <= c.bonds[k].atnum1 <= |c.atoms| && 1 <= c.bonds[k].atnum2 <= |c.atoms|
  }
}
