/**
 * The candidate and role records of the current matcher. The module that
 * declares them in the repository is not part of this model, so only the
 * fields the scoring rules and the allocation loop read are kept, already
 * converted from their CSV strings. One record carries the fields of the
 * standard, generalist and SEFS variants; each specialism reads its own.
 */
module Models {
  import opened Levels
  import opened Wrappers

  /** Year groups, compared by the value `CohortValue` gives them. */
  datatype Cohort = One | Two | Three | SixMonth

  function CohortValue(c: Cohort): (v: int)
    ensures 1 <= v <= 4
  {
    match c
    case One => 1
    case Two => 2
    case Three => 3
    case SixMonth => 4
  }

  /** A travel requirement, ordered by its tier. */
  datatype Travel = Travel(tier: nat)

  /** A SEFS role's demand on one competency: primary, additional or not needed. */
  datatype Level = P | A | N

  datatype Candidate = Candidate(
    uid: string,
    clearanceHeld: Clearance,
    yearGroup: Cohort,
    priorDepartments: set<string>,
    firstLocation: string,
    secondLocation: string,
    canRelocate: bool,
    hasRelocated: bool,
    wantsLineManagement: bool,
    wantsPrivateOffice: bool,
    noDefence: bool,
    noImmigration: bool,
    primarySkill: string,
    secondarySkill: string,
    lastRoleSecondarySkill: string,
    nationality: Nationality,
    hasPassport: bool,
    // generalist fields
    workingPatterns: set<string>,
    accessibilityNeeds: set<string>,
    primaryAnchor: string,
    secondaryAnchor: string,
    deptPrefs: set<string>,
    travel: Travel,
    matchPreferences: set<Option<string>>,
    // SEFS field
    notRequiredSkill: string,
    paired: bool)

  datatype Role = Role(
    uid: string,
    clearance: Clearance,
    nationalityRequirement: NationalityRequirement,
    passportRequirement: bool,
    fromAnywhere: bool,
    locations: set<string>,
    department: string,
    priorityRole: int,
    suitableYearGroups: set<Cohort>,
    privateOfficeRole: bool,
    lineManagementRole: bool,
    immigrationRole: bool,
    defenceRole: bool,
    skillFocus: string,
    secondaryFocus: string,
    // generalist fields
    workingPatterns: set<string>,
    accessibilityAdjustment: set<string>,
    travel: Travel,
    anchor: string,
    // SEFS field
    skills: map<string, Level>,
    paired: bool,
    noMatch: bool)

  function CandidateUids(cs: seq<Candidate>): (uids: seq<string>)
    ensures |uids| == |cs| && forall i :: 0 <= i < |cs| ==> uids[i] == cs[i].uid
  {
    seq(|cs|, i requires 0 <= i < |cs| => cs[i].uid)
  }

  function RoleUids(rs: seq<Role>): (uids: seq<string>)
    ensures |uids| == |rs| && forall i :: 0 <= i < |rs| ==> uids[i] == rs[i].uid
  {
    seq(|rs|, i requires 0 <= i < |rs| => rs[i].uid)
  }

  /**
   * A lookup in a `{x.uid: x for x in items}` dictionary, as the position
   * of the item found: later items overwrite earlier ones with the same
   * uid, so it is the last position holding the uid.
   */
  function UidIndex(uids: seq<string>, uid: string): (k: Option<nat>)
    ensures k.Some? ==> k.value < |uids| && uids[k.value] == uid
                        && forall j :: k.value < j < |uids| ==> uids[j] != uid
    ensures k.None? <==> uid !in uids
  {
    if uids == [] then None
    else if uids[|uids| - 1] == uid then Some(|uids| - 1)
    else
      assert uids == uids[..|uids| - 1] + [uids[|uids| - 1]];
      UidIndex(uids[..|uids| - 1], uid)
  }

  /** With distinct uids the dictionary finds each item at its own position. */
  lemma UidIndexDistinct(uids: seq<string>, i: nat)
    requires forall a, b :: 0 <= a < b < |uids| ==> uids[a] != uids[b]
    requires i < |uids|
    ensures UidIndex(uids, uids[i]) == Some(i)
  {
  }
}
