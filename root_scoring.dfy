/**
 * The scoring functions of the first matcher (matching/scoring.py). Each
 * returns -1 for a pair that should be disallowed and a non-negative
 * value otherwise; a skill the role develops but the candidate's table
 * lacks is a `KeyError`, here `None`.
 */
module RootScoring {
  import opened Wrappers
  import opened Levels
  import opened RootModels

  /** `_score_skill`: the room the candidate has to grow times the growth the role offers. */
  function SkillPoints(candidateLevel: int, roleLevel: int): (p: int)
    ensures 0 <= candidateLevel <= 5 && 0 <= roleLevel <= 5 ==> 0 <= p <= 25
    ensures roleLevel == 0 || candidateLevel == 5 ==> p == 0
  {
    (5 - candidateLevel) * roleLevel
  }

  /** The sum of `SkillPoints` over the items, or `None` at the first name the candidate's table lacks. */
  function SkillsOver(skills: Skills, items: seq<(string, int)>): Option<int>
  {
    if items == [] then Some(0)
    else if items[0].0 !in skills then None
    else
      match SkillsOver(skills, items[1..])
      case None => None
      case Some(rest) => Some(SkillPoints(skills[items[0].0], items[0].1) + rest)
  }

  /** `score_skills`. */
  function ScoreSkills(c: RootCandidate, r: RootRole): Option<int>
  {
    SkillsOver(c.currentSkills, r.skillGrowth)
  }

  /**
   * The sum exists exactly when the candidate has a level for every
   * skill the role develops, and it is never negative when the levels
   * are in range.
   */
  lemma {:induction false} SkillsOverSpec(skills: Skills, items: seq<(string, int)>)
    ensures SkillsOver(skills, items).Some? <==> forall k :: 0 <= k < |items| ==> items[k].0 in skills
    ensures LevelsInRange(skills) && GrowthInRange(items) && SkillsOver(skills, items).Some? ==>
              0 <= SkillsOver(skills, items).value <= 25 * |items|
  {
    if items != [] {
      SkillsOverSpec(skills, items[1..]);
      assert forall k :: 1 <= k < |items| ==> items[k] == items[1..][k - 1];
      if LevelsInRange(skills) && GrowthInRange(items) && items[0].0 in skills {
        assert GrowthInRange(items[1..]);
        assert 0 <= SkillPoints(skills[items[0].0], items[0].1) <= 25;
      }
    }
  }

  /** `score_location`: -1 for a candidate who cannot move and is elsewhere, else 1 for a preferred location and 0 otherwise. */
  function ScoreLocation(c: RootCandidate, r: RootRole): int
  {
    if !c.canRelocate && c.currentLocation != r.location then -1
    else if r.location in c.preferredLocations then 1
    else 0
  }

  /** `score_clearance`: 1 when the clearance held is at least the one required, else -1. */
  function ScoreClearance(c: RootCandidate, r: RootRole): int
  {
    if ClearanceValue(c.clearance) >= ClearanceValue(r.clearanceRequired) then 1 else -1
  }

  /**
   * The module's convention: every scoring function gives -1 exactly
   * when it disallows the pair and a non-negative value otherwise.
   */
  lemma ScoringConvention(c: RootCandidate, r: RootRole)
    requires LevelsInRange(c.currentSkills) && GrowthInRange(r.skillGrowth)
    ensures ScoreSkills(c, r).Some? ==> ScoreSkills(c, r).value >= 0
    ensures ScoreLocation(c, r) == -1 <==> !c.canRelocate && c.currentLocation != r.location
    ensures ScoreLocation(c, r) != -1 ==> ScoreLocation(c, r) == (if r.location in c.preferredLocations then 1 else 0)
    ensures ScoreClearance(c, r) == -1 <==> ClearanceBelow(c.clearance, r.clearanceRequired)
    ensures ScoreClearance(c, r) in {-1, 1}
  {
    SkillsOverSpec(c.currentSkills, r.skillGrowth);
  }
}
