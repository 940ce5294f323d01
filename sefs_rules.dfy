/**
 * The SEFS specialism (fast_stream_22/specialism/SEFS/models.py): a role
 * grades five competencies P, A or N, and the SEFS skill rule replaces the
 * base skill sweep with a sum over the candidate's primary and secondary
 * competencies, weighted 1.0 and 0.8.
 */
module SefsRules {
  import opened Models
  import PairRules

  const BroadThinking: string := "Broad Thinking"
  const BuildingApplying: string := "Building and Applying Knowledge"
  const Communicating: string := "Communicating Science & Engineering for Government"
  const Oversight: string := "Technical Oversight and Management"
  const Developing: string := "Developing the GSE community"

  const Competencies: set<string> := {BroadThinking, BuildingApplying, Communicating, Oversight, Developing}

  /** `SefsRole.skills`: each of the five competencies mapped to the level the role gives it. */
  function RoleSkills(broadThinking: Level, buildingApplying: Level, communicating: Level,
                      oversight: Level, developing: Level): (skills: map<string, Level>)
    ensures skills.Keys == Competencies
    ensures skills[BroadThinking] == broadThinking && skills[BuildingApplying] == buildingApplying
    ensures skills[Communicating] == communicating && skills[Oversight] == oversight
    ensures skills[Developing] == developing
  {
    map[BroadThinking := broadThinking, BuildingApplying := buildingApplying,
        Communicating := communicating, Oversight := oversight, Developing := developing]
  }

  /** The skill lookups of the rule find their keys (otherwise the source raises `KeyError`). */
  predicate SefsReady(c: Candidate, r: Role)
  {
    c.primarySkill in r.skills && c.secondarySkill in r.skills && c.notRequiredSkill in r.skills
  }

  /**
   * The valence dictionary `{primary: 1.0, secondary: 0.8}` as its items in
   * order, with valences in tenths. Equal skills leave one key holding the
   * later value 0.8.
   */
  function ValenceEntries(c: Candidate): (entries: seq<(string, int)>)
    ensures 1 <= |entries| <= 2
    ensures forall k :: 0 <= k < |entries| ==> entries[k].0 in {c.primarySkill, c.secondarySkill}
  {
    if c.primarySkill == c.secondarySkill then [(c.secondarySkill, 8)]
    else [(c.primarySkill, 10), (c.secondarySkill, 8)]
  }

  /** `int(scoring_weights["skill"] * valence)`: 20 for valence 1.0 and 16 for 0.8. */
  function EntryPoints(tenths: int): int
  {
    PairRules.SkillWeight * tenths / 10
  }

  /** The running `skill_score` after the first `n` items of the valence dictionary. */
  function RawScoreUpTo(entries: seq<(string, int)>, r: Role, n: nat): int
    requires n <= |entries|
    requires forall k :: 0 <= k < |entries| ==> entries[k].0 in r.skills
  {
    if n == 0 then 0
    else
      RawScoreUpTo(entries, r, n - 1)
      + (if r.skills[entries[n - 1].0] == P then EntryPoints(entries[n - 1].1) else 0)
  }

  /** The skill score before it is halved or applied. */
  function RawScore(c: Candidate, r: Role): int
    requires SefsReady(c, r)
  {
    RawScoreUpTo(ValenceEntries(c), r, |ValenceEntries(c)|)
  }

  /** The skill score for a year group other than the first, after any halving. */
  function SefsSkillScore(c: Candidate, r: Role): int
    requires SefsReady(c, r)
  {
    var raw := RawScore(c, r);
    if r.skills[c.notRequiredSkill] == P then raw / 2 else raw
  }

  /** The raw score: 20 for a P primary competency and 16 for a P secondary one; a shared competency counts 16 only. */
  lemma RawScoreClosedForm(c: Candidate, r: Role)
    requires SefsReady(c, r)
    ensures RawScore(c, r)
         == (if c.primarySkill != c.secondarySkill && r.skills[c.primarySkill] == P then 20 else 0)
          + (if r.skills[c.secondarySkill] == P then 16 else 0)
  {
    var entries := ValenceEntries(c);
    assert RawScoreUpTo(entries, r, 1) == (if r.skills[entries[0].0] == P then EntryPoints(entries[0].1) else 0);
    if |entries| == 2 {
      assert RawScoreUpTo(entries, r, 2) == RawScoreUpTo(entries, r, 1)
           + (if r.skills[entries[1].0] == P then EntryPoints(entries[1].1) else 0);
    }
  }

  /** The rule can only ever add 8, 10, 16, 18, 20 or 36 points, or disqualify on 0. */
  lemma SefsSkillScoreValues(c: Candidate, r: Role)
    requires SefsReady(c, r)
    ensures SefsSkillScore(c, r) in {0, 8, 10, 16, 18, 20, 36}
    ensures c.primarySkill == c.secondarySkill ==> SefsSkillScore(c, r) <= 16
    ensures SefsSkillScore(c, r) == 0 <==>
              (r.skills[c.secondarySkill] != P
               && (c.primarySkill == c.secondarySkill || r.skills[c.primarySkill] != P))
  {
    RawScoreClosedForm(c, r);
  }
}
