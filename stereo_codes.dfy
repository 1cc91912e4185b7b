/**
 * Enumerations of the IXA interface and the two pure decision tables of ixa_mol.c:
 * GetStereo (bond type and wedges to an InChI 2D bond-stereo code) and GetVertexCount.
 */
module StereoCodes {
  import opened Common

  /** IXA_BOND_TYPE. */
  datatype BondType = Single | Double | Triple | Aromatic

  /** IXA_BOND_WEDGE: the wedge drawn on a bond as seen from one of its endpoints. */
  datatype Wedge = NoWedge | Up | Down | Either

  /**
   * IXA_DBLBOND_CONFIG: left to perception, defined even or odd, or either. The molecule
   * store passes any of them through unchecked.
   */
  datatype DblBondConfig = Perceive | ConfigEven | ConfigOdd | ConfigEither

  /** IXA_STEREO_TOPOLOGY, including the INVALID value returned for a bad stereo ID. */
  datatype Topology = Tetrahedron | Rectangle | AntiRectangle | TopologyInvalid

  /** IXA_STEREO_PARITY. */
  datatype Parity = ParityNone | Even | Odd | ParityUnknown

  // inchi_BondStereo2D codes (inchi_api.h)
  const STEREO_NONE: int := 0
  const STEREO_SINGLE_1UP: int := 1
  const STEREO_SINGLE_1EITHER: int := 4
  const STEREO_SINGLE_1DOWN: int := 6
  const STEREO_SINGLE_2UP: int := -1
  const STEREO_SINGLE_2EITHER: int := -4
  const STEREO_SINGLE_2DOWN: int := -6
  const STEREO_DOUBLE_EITHER: int := 3

  /** The one-sided code of a wedge drawn from the reference atom. */
  function OneSided(w: Wedge): int {
    match w
    case NoWedge => STEREO_NONE
    case Up => STEREO_SINGLE_1UP
    case Down => STEREO_SINGLE_1DOWN
    case Either => STEREO_SINGLE_1EITHER
  }

  /**
   * GetStereo (ixa_mol.c:65-103). For a single bond the wedge seen from the reference atom
   * wins; when there is none, the wedge seen from the other atom gives a two-sided code.
   * Any other bond type yields NONE or DOUBLE_EITHER.
   */
  function GetStereo(bondType: BondType, direction: Wedge, reverseDirection: Wedge): (r: int)
    ensures r in {STEREO_NONE, STEREO_SINGLE_1UP, STEREO_SINGLE_1EITHER, STEREO_SINGLE_1DOWN,
                  STEREO_SINGLE_2UP, STEREO_SINGLE_2EITHER, STEREO_SINGLE_2DOWN, STEREO_DOUBLE_EITHER}
    ensures r < 0 <==> bondType == Single && direction == NoWedge && reverseDirection != NoWedge
    ensures r == STEREO_DOUBLE_EITHER <==> bondType != Single && direction != NoWedge
  {
    if bondType == Single then
      match direction
      case NoWedge =>
        (match reverseDirection
         case NoWedge => STEREO_NONE
         case Up => STEREO_SINGLE_2UP
         case Down => STEREO_SINGLE_2DOWN
         case Either => STEREO_SINGLE_2EITHER)
      case Up => STEREO_SINGLE_1UP
      case Down => STEREO_SINGLE_1DOWN
      case Either => STEREO_SINGLE_1EITHER
    else if direction == NoWedge then STEREO_NONE
    else STEREO_DOUBLE_EITHER
  }

  /** A single bond with a wedge at the reference atom gets that wedge's one-sided code, whatever the far side says. */
  lemma SingleNearWedgeWins(direction: Wedge, reverseDirection: Wedge)
    requires direction != NoWedge
    ensures GetStereo(Single, direction, reverseDirection) == OneSided(direction)
    ensures GetStereo(Single, direction, reverseDirection) > 0
  {
  }

  /** With no near wedge, the far wedge gives exactly the negated one-sided code (a "2" code). */
  lemma SingleFarWedgeIsNegated(reverseDirection: Wedge)
    ensures GetStereo(Single, NoWedge, reverseDirection) == -OneSided(reverseDirection)
    ensures reverseDirection != NoWedge ==> GetStereo(Single, NoWedge, reverseDirection) < 0
  {
  }

  /** Non-single bonds: NONE exactly when the near wedge is NONE, otherwise DOUBLE_EITHER. */
  lemma NonSingleStereo(bondType: BondType, direction: Wedge, reverseDirection: Wedge)
    requires bondType != Single
    ensures GetStereo(bondType, direction, reverseDirection) == STEREO_NONE <==> direction == NoWedge
    ensures direction != NoWedge ==> GetStereo(bondType, direction, reverseDirection) == STEREO_DOUBLE_EITHER
  {
  }

  /** A bond has no stereo code exactly when it carries no wedge that GetStereo looks at. */
  lemma NoStereoIff(bondType: BondType, direction: Wedge, reverseDirection: Wedge)
    ensures GetStereo(bondType, direction, reverseDirection) == STEREO_NONE <==>
      direction == NoWedge && (bondType != Single || reverseDirection == NoWedge)
  {
  }

  /** Which side a decoded single-bond code was drawn from, and with which wedge. */
  datatype WedgeSide = Near(w: Wedge) | Far(w: Wedge) | NoSide

  /** Reads a single-bond code back: positive codes are near-side, negative ones far-side. */
  function DecodeSingle(code: int): Option<WedgeSide> {
    if code == STEREO_NONE then Some(NoSide)
    else if code == STEREO_SINGLE_1UP then Some(Near(Up))
    else if code == STEREO_SINGLE_1DOWN then Some(Near(Down))
    else if code == STEREO_SINGLE_1EITHER then Some(Near(Either))
    else if code == STEREO_SINGLE_2UP then Some(Far(Up))
    else if code == STEREO_SINGLE_2DOWN then Some(Far(Down))
    else if code == STEREO_SINGLE_2EITHER then Some(Far(Either))
    else None
  }

  /**
   * Round trip for single bonds: the code GetStereo produces decodes to the wedge that decided it,
   * so the code loses exactly the far wedge when a near wedge is present.
   */
  lemma SingleStereoRoundTrip(direction: Wedge, reverseDirection: Wedge)
    ensures DecodeSingle(GetStereo(Single, direction, reverseDirection)) ==
      Some(if direction != NoWedge then Near(direction)
           else if reverseDirection != NoWedge then Far(reverseDirection)
           else NoSide)
  {
  }

  /** GetVertexCount (ixa_mol.c:106-119): 4 for the three topologies, 0 (with an error) otherwise. */
  function VertexCount(topology: Topology): (r: int)
    ensures r == 4 || r == 0
    ensures r == 0 <==> topology == TopologyInvalid
  {
    match topology
    case Tetrahedron => 4
    case Rectangle => 4
    case AntiRectangle => 4
    case TopologyInvalid => 0
  }

  /** Only rectangle stereo centres are bond-centred (ixa_mol.c:1332-1370). */
  predicate HasCentralBond(topology: Topology) {
    topology == Rectangle
  }

  /** Tetrahedron and antirectangle stereo centres are atom-centred (ixa_mol.c:1332-1343). */
  predicate HasCentralAtom(topology: Topology) {
    topology == Tetrahedron || topology == AntiRectangle
  }

  /** Every valid topology has exactly one kind of centre, never both. */
  lemma CentreKindExclusive(topology: Topology)
    ensures HasCentralAtom(topology) ==> !HasCentralBond(topology)
    ensures topology != TopologyInvalid <==> HasCentralAtom(topology) || HasCentralBond(topology)
    ensures HasCentralAtom(topology) || HasCentralBond(topology) <==> VertexCount(topology) == 4
  {
  }
}
