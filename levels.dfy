/**
 * The ordered enumerations shared by every generation of the matcher:
 * security clearance, the nationality a candidate holds and the
 * nationality a role demands. Each is an integer enumeration in the
 * source, so comparisons between them compare the underlying values.
 */
module Levels {

  datatype Clearance = BPSS | CTC | SC | DV

  datatype Nationality = RestOfWorld | DualNational | BritishNational

  datatype NationalityRequirement = NoRestriction | DualRequired | BritishRequired

  function ClearanceValue(c: Clearance): (v: int)
    ensures 1 <= v <= 4
  {
    match c
    case BPSS => 1
    case CTC => 2
    case SC => 3
    case DV => 4
  }

  function NationalityValue(n: Nationality): (v: int)
    ensures 1 <= v <= 3
  {
    match n
    case RestOfWorld => 1
    case DualNational => 2
    case BritishNational => 3
  }

  function RequirementValue(n: NationalityRequirement): (v: int)
    ensures 1 <= v <= 3
  {
    match n
    case NoRestriction => 1
    case DualRequired => 2
    case BritishRequired => 3
  }

  /** `held < required` on the clearance enumeration. */
  predicate ClearanceBelow(held: Clearance, required: Clearance)
  {
    ClearanceValue(held) < ClearanceValue(required)
  }

  /** `requirement > held`, comparing the two enumerations by value. */
  predicate RequirementExceeds(required: NationalityRequirement, held: Nationality)
  {
    RequirementValue(required) > NationalityValue(held)
  }

  /** The values are distinct, so the clearance order is a strict total order: BPSS < CTC < SC < DV. */
  lemma ClearanceOrderTotal(a: Clearance, b: Clearance)
    ensures a == b || ClearanceBelow(a, b) || ClearanceBelow(b, a)
    ensures !(ClearanceBelow(a, b) && ClearanceBelow(b, a))
  {
  }

  /**
   * A requirement is met exactly by the nationalities at or above it:
   * anybody meets "no restriction", dual and British nationals meet
   * "dual national", only British nationals meet "British national".
   */
  lemma RequirementMeaning(required: NationalityRequirement, held: Nationality)
    ensures !RequirementExceeds(NoRestriction, held)
    ensures RequirementExceeds(DualRequired, held) <==> held == RestOfWorld
    ensures RequirementExceeds(BritishRequired, held) <==> held != BritishNational
  {
  }
}
