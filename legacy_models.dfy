/**
 * The oldest evaluator (fast_stream_22/matching/models.py): candidate and
 * role records of that generation, already converted from their CSV
 * strings, and `Pair`, which starts from a priority bonus and runs nine
 * rules in a fixed order, with no early exit and no threshold.
 */
module LegacyModels {
  import opened Levels
  import PairRules
  import LegacyPair

  type PairState = LegacyPair.PairState

  datatype LegacyCandidate = LegacyCandidate(
    uid: string,
    clearance: Clearance,
    yearGroup: int,
    priorDepartments: set<string>,
    firstPreferenceLocation: string,
    secondPreferenceLocation: string,
    canRelocate: bool,
    wantsLineManagement: bool,
    wantsPrivateOffice: bool,
    noDefence: bool,
    noImmigration: bool,
    preferredOfficeAttendance: string,
    primarySkill: string,
    secondarySkill: string,
    nationality: Nationality,
    hasPassport: bool)

  datatype LegacyRole = LegacyRole(
    uid: string,
    clearance: Clearance,
    nationalityRequirement: NationalityRequirement,
    passportRequirement: bool,
    location: string,
    department: string,
    priorityRole: bool,
    suitableYearGroups: set<int>,
    privateOfficeRole: bool,
    lineManagementRole: bool,
    officeArrangements: string,
    travelRequirements: string,
    defenceRole: bool,
    immigrationRole: bool,
    skillFocus: string,
    secondaryFocus: string)

  /** The `priority` entry of this class's weights; the other entries equal the current matcher's. */
  const PriorityWeight: int := 10

  // ---------------------------------------------------------------
  // The rules, as functions of the evaluator's state
  // ---------------------------------------------------------------

  /** The state `__init__` leaves: the priority bonus, not disqualified. */
  function Start(r: LegacyRole): PairState
  {
    LegacyPair.PairState(if r.priorityRole then PriorityWeight else 0, false)
  }

  /** A candidate who cannot relocate, offered a role away from the first preference. */
  predicate LocationRefused(c: LegacyCandidate, r: LegacyRole)
  {
    r.location != c.firstPreferenceLocation && !c.canRelocate
  }

  /** The points `_score_location` adds: none on a refusal, else by the first and second preferences. */
  function LocationPoints(c: LegacyCandidate, r: LegacyRole): int
  {
    if LocationRefused(c, r) then 0
    else if r.location == c.firstPreferenceLocation || c.firstPreferenceLocation == "Any" then PairRules.FirstLocationWeight
    else if r.location == c.secondPreferenceLocation || c.secondPreferenceLocation == "Any" then PairRules.SecondLocationWeight
    else 0
  }

  function LocationStep(s: PairState, c: LegacyCandidate, r: LegacyRole): PairState
  {
    if LocationRefused(c, r) then LegacyPair.Disqualify(s, true)
    else s.(score := s.score + LocationPoints(c, r))
  }

  predicate EthicsFails(c: LegacyCandidate, r: LegacyRole)
  {
    (c.noImmigration && r.immigrationRole) || (c.noDefence && r.defenceRole)
  }

  predicate StretchRefused(c: LegacyCandidate, r: LegacyRole)
  {
    (!c.wantsPrivateOffice && r.privateOfficeRole) || (!c.wantsLineManagement && r.lineManagementRole)
  }

  /** The points `_stretch_check` adds: none on a refusal, else 10 per wanted-and-offered dimension. */
  function StretchPoints(c: LegacyCandidate, r: LegacyRole): int
  {
    if StretchRefused(c, r) then 0
    else
      (if c.wantsPrivateOffice && r.privateOfficeRole then PairRules.StretchWeight else 0)
      + (if c.wantsLineManagement && r.lineManagementRole then PairRules.StretchWeight else 0)
  }

  /**
   * `_check_travel` hands the setter `travel_requirements and not
   * has_passport`; an empty requirement string is falsy and so never
   * disqualifies.
   */
  predicate TravelFails(c: LegacyCandidate, r: LegacyRole)
  {
    r.travelRequirements != "" && !c.hasPassport
  }

  /** Step `k` (0 to 3) of the skill sweep: skill `k / 2` against focus `k % 2`, worth `20 - 5k` on a match. */
  function SweepTerm(c: LegacyCandidate, r: LegacyRole, k: nat): int
    requires k < 4
  {
    var skill := if k / 2 == 0 then c.primarySkill else c.secondarySkill;
    var focus := if k % 2 == 0 then r.skillFocus else r.secondaryFocus;
    if skill == focus then PairRules.SkillWeight - 5 * k else 0
  }

  function SweepUpTo(c: LegacyCandidate, r: LegacyRole, n: nat): int
    requires n <= 4
  {
    if n == 0 then 0 else SweepUpTo(c, r, n - 1) + SweepTerm(c, r, n - 1)
  }

  /** The points the whole sweep of `_score_skill` adds. */
  function SkillPoints(c: LegacyCandidate, r: LegacyRole): int
  {
    SweepUpTo(c, r, 4)
  }

  /** The nine rules in the order `score_pair` calls them. */
  function RunRules(s: PairState, c: LegacyCandidate, r: LegacyRole): PairState
  {
    var s1 := LocationStep(s, c, r);
    var s2 := LegacyPair.Disqualify(s1, ClearanceBelow(c.clearance, r.clearance));
    var s3 := s2.(score := s2.score + (if r.department !in c.priorDepartments then PairRules.DepartmentWeight else 0));
    var s4 := LegacyPair.Disqualify(s3, EthicsFails(c, r));
    var s5 := LegacyPair.Disqualify(s4, c.yearGroup !in r.suitableYearGroups);
    var s6 := s5.(score := s5.score + SkillPoints(c, r));
    var s7 := if StretchRefused(c, r) then LegacyPair.Disqualify(s6, true) else s6.(score := s6.score + StretchPoints(c, r));
    var s8 := LegacyPair.Disqualify(s7, RequirementExceeds(r.nationalityRequirement, c.nationality));
    LegacyPair.Disqualify(s8, TravelFails(c, r))
  }

  /** Some rule disqualifies the pair. */
  predicate Unsuitable(c: LegacyCandidate, r: LegacyRole)
  {
    LocationRefused(c, r) || ClearanceBelow(c.clearance, r.clearance) || EthicsFails(c, r)
    || c.yearGroup !in r.suitableYearGroups || StretchRefused(c, r)
    || RequirementExceeds(r.nationalityRequirement, c.nationality) || TravelFails(c, r)
  }

  /** The score of the pair: priority, location, department, skill and stretch points. */
  function PairScore(c: LegacyCandidate, r: LegacyRole): int
  {
    (if r.priorityRole then PriorityWeight else 0) + LocationPoints(c, r)
    + (if r.department !in c.priorDepartments then PairRules.DepartmentWeight else 0)
    + SkillPoints(c, r) + StretchPoints(c, r)
  }

  // ---------------------------------------------------------------
  // Lemmas
  // ---------------------------------------------------------------

  /**
   * `score_pair` on a fresh pair: the score is the sum of the five kinds
   * of points, and the pair is disqualified exactly when some rule
   * refuses it; no rule is skipped and no threshold applies.
   */
  lemma EvaluateSpec(c: LegacyCandidate, r: LegacyRole)
    ensures RunRules(Start(r), c, r).score == PairScore(c, r)
    ensures RunRules(Start(r), c, r).disqualified <==> Unsuitable(c, r)
  {
  }

  /**
   * The location chain: a refusal scores nothing; otherwise the first
   * preference (or "Any") is worth 10, then the second preference (or
   * "Any") 5, and anything else nothing.
   */
  lemma LocationChain(c: LegacyCandidate, r: LegacyRole)
    ensures LocationRefused(c, r) ==> LocationPoints(c, r) == 0
    ensures !LocationRefused(c, r) && (r.location == c.firstPreferenceLocation || c.firstPreferenceLocation == "Any")
            ==> LocationPoints(c, r) == 10
    ensures !LocationRefused(c, r) && r.location != c.firstPreferenceLocation && c.firstPreferenceLocation != "Any"
            && (r.location == c.secondPreferenceLocation || c.secondPreferenceLocation == "Any")
            ==> LocationPoints(c, r) == 5
    ensures LocationPoints(c, r) in {0, 5, 10}
  {
  }

  /** A candidate offered the first preference is never refused on location, whether or not the candidate can move. */
  lemma FirstPreferenceAccepted(c: LegacyCandidate, r: LegacyRole)
    requires r.location == c.firstPreferenceLocation
    ensures !LocationRefused(c, r) && LocationPoints(c, r) == PairRules.FirstLocationWeight
  {
  }

  /** The sweep adds 20, 15, 10 and 5 for its four matches, so it lies between 0 and 50. */
  lemma {:induction false} SkillPointsRange(c: LegacyCandidate, r: LegacyRole)
    ensures SkillPoints(c, r)
         == (if c.primarySkill == r.skillFocus then 20 else 0)
          + (if c.primarySkill == r.secondaryFocus then 15 else 0)
          + (if c.secondarySkill == r.skillFocus then 10 else 0)
          + (if c.secondarySkill == r.secondaryFocus then 5 else 0)
    ensures 0 <= SkillPoints(c, r) <= 50
  {
    assert SweepUpTo(c, r, 1) == SweepTerm(c, r, 0);
    assert SweepUpTo(c, r, 2) == SweepUpTo(c, r, 1) + SweepTerm(c, r, 1);
    assert SweepUpTo(c, r, 3) == SweepUpTo(c, r, 2) + SweepTerm(c, r, 2);
    assert SweepUpTo(c, r, 4) == SweepUpTo(c, r, 3) + SweepTerm(c, r, 3);
  }

  /** Step `2i + j` of the sweep, as the nested loops see it. */
  lemma SweepStep(c: LegacyCandidate, r: LegacyRole, i: nat, j: nat)
    requires i < 2 && j < 2
    ensures SweepUpTo(c, r, 2 * i + j + 1)
         == SweepUpTo(c, r, 2 * i + j)
          + if [c.primarySkill, c.secondarySkill][i] == [r.skillFocus, r.secondaryFocus][j]
            then PairRules.SkillWeight - 5 * (2 * i + j) else 0
  {
    var k := 2 * i + j;
    assert k / 2 == i && k % 2 == j;
  }

  /** Travel disqualifies exactly a candidate without a passport, for a role with a travel requirement. */
  lemma TravelMeaning(c: LegacyCandidate, r: LegacyRole)
    ensures TravelFails(c, r) <==> (|r.travelRequirements| > 0 && !c.hasPassport)
  {
  }

  /** With the stretch check passed, every offered stretch dimension earns its 10 points. */
  lemma StretchAccepted(c: LegacyCandidate, r: LegacyRole)
    ensures !StretchRefused(c, r) ==>
              StretchPoints(c, r) == (if r.privateOfficeRole then 10 else 0) + (if r.lineManagementRole then 10 else 0)
    ensures 0 <= StretchPoints(c, r) <= 20
  {
  }

  /** The nationality check, in the integer values of the two enumerations. */
  lemma NationalityCheck(c: LegacyCandidate, r: LegacyRole)
    ensures RequirementExceeds(r.nationalityRequirement, c.nationality)
        <==> RequirementValue(r.nationalityRequirement) > NationalityValue(c.nationality)
  {
  }

  // ---------------------------------------------------------------
  // The object
  // ---------------------------------------------------------------

  class Pair {
    const candidate: LegacyCandidate
    const role: LegacyRole
    var score: int
    var disqualified: bool

    function State(): PairState
      reads this
    {
      LegacyPair.PairState(score, disqualified)
    }

    /** `__init__`: the priority bonus. */
    constructor (c: LegacyCandidate, r: LegacyRole)
      ensures candidate == c && role == r && State() == Start(r)
    {
      candidate := c;
      role := r;
      score := 0;
      disqualified := false;
      new;
      if r.priorityRole {
        score := score + PriorityWeight;
      }
    }

    /** The `disqualified` setter. */
    method SetDisqualified(value: bool)
      modifies this
      ensures State() == LegacyPair.Disqualify(old(State()), value)
    {
      if disqualified || value {
        disqualified := true;
      } else {
        disqualified := false;
      }
    }

    method ScoreLocation()
      modifies this
      ensures State() == LocationStep(old(State()), candidate, role)
    {
      if role.location != candidate.firstPreferenceLocation && !candidate.canRelocate {
        SetDisqualified(true);
      } else if role.location == candidate.firstPreferenceLocation || candidate.firstPreferenceLocation == "Any" {
        score := score + PairRules.FirstLocationWeight;
      } else if role.location == candidate.secondPreferenceLocation || candidate.secondPreferenceLocation == "Any" {
        score := score + PairRules.SecondLocationWeight;
      }
    }

    method ScoreClearance()
      modifies this
      ensures State() == LegacyPair.Disqualify(old(State()), ClearanceBelow(candidate.clearance, role.clearance))
    {
      SetDisqualified(ClearanceValue(candidate.clearance) < ClearanceValue(role.clearance));
    }

    method CheckNationality()
      modifies this
      ensures State() == LegacyPair.Disqualify(old(State()), RequirementExceeds(role.nationalityRequirement, candidate.nationality))
    {
      SetDisqualified(RequirementValue(role.nationalityRequirement) > NationalityValue(candidate.nationality));
    }

    method CheckTravel()
      modifies this
      ensures State() == LegacyPair.Disqualify(old(State()), TravelFails(candidate, role))
    {
      SetDisqualified(|role.travelRequirements| > 0 && !candidate.hasPassport);
    }

    method ScoreDepartment()
      modifies this
      ensures State() == old(State()).(score := old(score) + if role.department !in candidate.priorDepartments then PairRules.DepartmentWeight else 0)
    {
      if role.department !in candidate.priorDepartments {
        score := score + PairRules.DepartmentWeight;
      }
    }

    method EthicalCheck()
      modifies this
      ensures State() == LegacyPair.Disqualify(old(State()), EthicsFails(candidate, role))
    {
      SetDisqualified((candidate.noImmigration && role.immigrationRole) || (candidate.noDefence && role.defenceRole));
    }

    method AppropriateForYearGroup()
      modifies this
      ensures State() == LegacyPair.Disqualify(old(State()), candidate.yearGroup !in role.suitableYearGroups)
    {
      SetDisqualified(candidate.yearGroup !in role.suitableYearGroups);
    }

    /** `_score_skill`: the four-step sweep with a bonus falling by 5; this generation has no repeat penalty. */
    method ScoreSkill()
      modifies this
      ensures State() == old(State()).(score := old(score) + SkillPoints(candidate, role))
    {
      var bonus := PairRules.SkillWeight;
      var skills := [candidate.primarySkill, candidate.secondarySkill];
      var foci := [role.skillFocus, role.secondaryFocus];
      for i := 0 to 2
        invariant bonus == PairRules.SkillWeight - 10 * i
        invariant score == old(score) + SweepUpTo(candidate, role, 2 * i)
        invariant disqualified == old(disqualified)
      {
        for j := 0 to 2
          invariant bonus == PairRules.SkillWeight - 5 * (2 * i + j)
          invariant score == old(score) + SweepUpTo(candidate, role, 2 * i + j)
          invariant disqualified == old(disqualified)
        {
          SweepStep(candidate, role, i, j);
          if skills[i] == foci[j] {
            score := score + bonus;
          }
          bonus := bonus - 5;
        }
      }
    }

    method StretchCheck()
      modifies this
      ensures State() == if StretchRefused(candidate, role) then LegacyPair.Disqualify(old(State()), true)
                         else old(State()).(score := old(score) + StretchPoints(candidate, role))
    {
      if (!candidate.wantsPrivateOffice && role.privateOfficeRole)
         || (!candidate.wantsLineManagement && role.lineManagementRole) {
        SetDisqualified(true);
      } else {
        if candidate.wantsPrivateOffice && role.privateOfficeRole {
          score := score + PairRules.StretchWeight;
        }
        if candidate.wantsLineManagement && role.lineManagementRole {
          score := score + PairRules.StretchWeight;
        }
      }
    }

    /** `score_pair`: the nine rules in their fixed order; returns the score. */
    method ScorePair() returns (result: int)
      modifies this
      ensures State() == RunRules(old(State()), candidate, role)
      ensures result == score
    {
      ScoreLocation();
      ScoreClearance();
      ScoreDepartment();
      EthicalCheck();
      AppropriateForYearGroup();
      ScoreSkill();
      StretchCheck();
      CheckNationality();
      CheckTravel();
      result := score;
    }
  }

  /**
   * A new pair, scored: disqualified exactly when some rule refuses it,
   * and scoring the sum of its points in every case.
   */
  method EvaluatePair(c: LegacyCandidate, r: LegacyRole) returns (disqualified: bool, score: int)
    ensures disqualified <==> Unsuitable(c, r)
    ensures score == PairScore(c, r)
  {
    var pair := new Pair(c, r);
    score := pair.ScorePair();
    disqualified := pair.disqualified;
    EvaluateSpec(c, r);
  }
}
