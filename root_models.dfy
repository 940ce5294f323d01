/**
 * The records of the first matcher (matching/models.py): plain holders
 * of a name, a clearance, a location, a skill table and an e-mail
 * address, read through getters.
 */
module RootModels {
  import opened Levels

  /** A skill table: skill name to level, 0 to 5. */
  type Skills = map<string, int>

  datatype RootCandidate = RootCandidate(
    name: string,
    clearance: Clearance,
    currentLocation: string,
    currentSkills: Skills,
    emailAddress: string,
    canRelocate: bool,
    preferredLocations: set<string>)

  /**
   * A role. `skillGrowth` lists the skill table's items in the
   * dictionary's order, each name once.
   */
  datatype RootRole = RootRole(
    name: string,
    clearanceRequired: Clearance,
    location: string,
    skillGrowth: seq<(string, int)>,
    ownerEmailAddress: string)

  /** Every level in a skill table lies between 0 and 5. */
  predicate LevelsInRange(skills: Skills)
  {
    forall name :: name in skills ==> 0 <= skills[name] <= 5
  }

  /** Every level of a role's skill growth lies between 0 and 5. */
  predicate GrowthInRange(items: seq<(string, int)>)
  {
    forall k :: 0 <= k < |items| ==> 0 <= items[k].1 <= 5
  }
}
