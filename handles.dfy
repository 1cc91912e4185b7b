/**
 * Atom, bond and stereo IDs (ixa_mol.c:122-185). An ID is the array index plus one, so
 * the value 0 is never a valid ID; every accessor turns the ID back into an index and
 * checks it against the current element count before touching the array.
 */
module Handles {
  import opened Common

  /** IXA_ATOMID_INVALID, IXA_BONDID_INVALID and IXA_STEREOID_INVALID. */
  const INVALID_ID: int := 0

  /** MOL_PackAtom, MOL_PackBond, MOL_PackStereo: index to ID. */
  function Pack(index: int): (r: int)
    ensures index >= 0 ==> r != INVALID_ID && ValidId(r, index + 1)
  {
    index + 1
  }

  /** MOL_UnpackAtom/Bond/Stereo: ID to index, None when the index is outside 0 .. count - 1. */
  function Unpack(id: int, count: nat): (r: Option<nat>)
    ensures r.Some? <==> 1 <= id <= count
    ensures r.Some? ==> r.value < count && Pack(r.value) == id
  {
    var index := id - 1;
    if index < 0 || index >= count then None else Some(index)
  }

  /** Whether `id` names one of the first `count` elements. */
  predicate ValidId(id: int, count: nat) {
    1 <= id <= count
  }

  /**
   * IXA_MOL_GetAtomId / GetBondId / GetStereoId (ixa_mol.c:423-433, 965-975, 1276-1286):
   * the ID of index `index`, or INVALID for a negative index or one past the count.
   */
  function IdOfIndex(index: int, count: nat): (r: int)
    ensures r != INVALID_ID <==> 0 <= index < count
    ensures r != INVALID_ID ==> ValidId(r, count)
  {
    if index < 0 then INVALID_ID
    else if index >= count then INVALID_ID
    else Pack(index)
  }

  /**
   * IXA_MOL_GetAtomIndex / GetBondIndex / GetStereoIndex (ixa_mol.c:436-448, 978-990, 1289-1301):
   * the index of `id`, or -1 when the ID is rejected.
   */
  function IndexOfId(id: int, count: nat): (r: int)
    ensures -1 <= r < count
    ensures r >= 0 <==> ValidId(id, count)
  {
    match Unpack(id, count)
    case None => -1
    case Some(i) => i
  }

  /** Index -> ID -> index is the identity on every index in range. */
  lemma IndexIdRoundTrip(index: int, count: nat)
    requires 0 <= index < count
    ensures IndexOfId(IdOfIndex(index, count), count) == index
  {
  }

  /** ID -> index -> ID is the identity on every accepted ID. */
  lemma IdIndexRoundTrip(id: int, count: nat)
    requires ValidId(id, count)
    ensures IdOfIndex(IndexOfId(id, count), count) == id
  {
  }

  /** The ID 0 is never accepted, whatever the count. */
  lemma InvalidIdRejected(count: nat)
    ensures Unpack(INVALID_ID, count).None?
    ensures IndexOfId(INVALID_ID, count) == -1
  {
  }

  /** An ID that is valid stays valid when the count grows: appending never invalidates IDs. */
  lemma ValidIdMonotone(id: int, count: nat, count': nat)
    requires ValidId(id, count) && count <= count'
    ensures ValidId(id, count') && Unpack(id, count') == Unpack(id, count)
  {
  }
}
