/**
 * The IXA status object: an append-only list of (severity, message) entries. Every
 * operation reports failures by pushing an entry; callers test for errors afterwards.
 */
module IxaStatus {
  import opened Common

  /** The messages the modelled code pushes, one constructor per message text. */
  datatype Issue =
    | AtomIdInvalid                       // "Atom ID is invalid"
    | BondIdInvalid                       // "Bond ID is invalid"
    | StereoIdInvalid                     // "Stereo ID is invalid"
    | BondIndexOutOfRange(index: int)     // "Bond index %d is out of range"
    | ElementNotRecognised(symbol: string)
    | AtomicNumberOutOfRange(number: int)
    | ImplicitHydrogenNegative            // count below -1 in slot 0
    | IsotopicHydrogenNegative            // negative count in slots 1..3
    | HydrogenIsotopeNotRecognised(isotope: int)
    | MassNegative
    | TooManyBonds
    | SelfBond                            // "A bond cannot join an atom to itself"
    | BondExists                          // "A bond already exists between the atoms"
    | ReferenceAtomIllegal
    | NoCentralAtom
    | NoCentralBond
    | UnexpectedTopology
    | VertexIndexOutOfRange
    | BondTypeNotRecognised(bondType: int)
    | StereoTypeNotRecognised(stereo: int)
    | AromaticBondCount(count: int)       // "Atom cannot have %d aromatic bonds"
    | PolymerInvalidBond                  // "Polymer unit refers to invalid bond"
    | HydrogenEndGroup                    // "Hydrogen as polymer end group is not supported"
    | ParserMessage(text: string)         // the Molfile reader's own error string
    | NoMolfileData                       // "No molfile data or failed to read"

  datatype Message = Message(severity: Severity, issue: Issue)

  /** Whether a list of messages holds an error entry. */
  predicate AnyError(messages: seq<Message>) {
    exists k :: 0 <= k < |messages| && messages[k].severity == Error
  }

  /** What a validity check pushes: nothing when it passes, one error entry when it fails. */
  function Check(ok: bool, issue: Issue): (r: seq<Message>)
    ensures AnyError(r) <==> !ok
    ensures |r| <= 1
  {
    if ok then [] else
      var r := [Message(Error, issue)];
      assert r[0].severity == Error;
      r
  }

  /** Appending messages never removes an error that is already there. */
  lemma AnyErrorAppend(messages: seq<Message>, more: seq<Message>)
    ensures AnyError(messages + more) <==> AnyError(messages) || AnyError(more)
  {
    var all := messages + more;
    if AnyError(messages) {
      var k :| 0 <= k < |messages| && messages[k].severity == Error;
      assert all[k] == messages[k];
    }
    if AnyError(more) {
      var k :| 0 <= k < |more| && more[k].severity == Error;
      assert all[|messages| + k] == more[k];
    }
    if AnyError(all) {
      var k :| 0 <= k < |all| && all[k].severity == Error;
      if k >= |messages| {
        assert more[k - |messages|] == all[k];
      } else {
        assert messages[k] == all[k];
      }
    }
  }

  class Status {
    var messages: seq<Message>

    constructor ()
      ensures messages == []
    {
      messages := [];
    }

    /** IXA_STATUS_HasError. */
    predicate HasError()
      reads this
    {
      AnyError(messages)
    }

    /** STATUS_PushMessage. */
    method Push(severity: Severity, issue: Issue)
      modifies this
      ensures messages == old(messages) + [Message(severity, issue)]
      ensures HasError() <==> old(HasError()) || severity == Error
    {
      messages := messages + [Message(severity, issue)];
      AnyErrorAppend(old(messages), [Message(severity, issue)]);
      assert [Message(severity, issue)][0].severity == severity;
    }
  }
}
