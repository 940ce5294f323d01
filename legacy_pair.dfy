/**
 * The older evaluator generation (fast_stream_22/matching/pair.py):
 * `BasePair` with its class-level registry of scoring method names and a
 * `score_pair` that runs every registered rule with no early exit, and
 * `Pair`, whose rules are those of the current matcher without the
 * year-only bonus and the relocation bump, and whose `_check_score`
 * applies a fixed threshold of 20.
 *
 * The rules read `from_anywhere()`, `locations` and
 * `last_role_secondary_skill`, which only the current candidate and role
 * records carry, so they are evaluated on `Models.Candidate` and
 * `Models.Role` with the predicates of module PairRules.
 */
module LegacyPair {
  import opened Models
  import opened Seqs
  import opened PairRules

  /** The threshold of `Pair._check_score`. */
  const PairMinScore: int := 20

  /** The methods `Pair` registers. */
  datatype LegacyRule =
    | CheckLocation | ScoreLocation | ScoreClearance | CheckNationality | CheckPassport
    | ScoreDepartment | EthicalCheck | AppropriateForYearGroup | ScoreSkill | StretchCheck

  const PairRuleSet: set<LegacyRule> :=
    {CheckLocation, ScoreLocation, ScoreClearance, CheckNationality, CheckPassport,
     ScoreDepartment, EthicalCheck, AppropriateForYearGroup, ScoreSkill, StretchCheck}

  /** `order` lists each rule of `Pair` exactly once. */
  predicate IsEnumeration(order: seq<LegacyRule>)
  {
    NoDup(order) && forall x :: x in order <==> x in PairRuleSet
  }

  /** An evaluator's `_score` and `_disqualified`. */
  datatype PairState = PairState(score: int, disqualified: bool)

  const Fresh: PairState := PairState(0, false)

  /** The `disqualified` setter: once true it stays true. */
  function Disqualify(s: PairState, value: bool): (s': PairState)
    ensures s'.disqualified == (s.disqualified || value)
    ensures s'.score == s.score
  {
    if s.disqualified || value then s.(disqualified := true) else s.(disqualified := false)
  }

  /** Whether a rule, run on its own, disqualifies the pair. */
  predicate Fails(rule: LegacyRule, c: Candidate, r: Role)
  {
    match rule
    case CheckLocation => LocationFails(c, r)
    case ScoreClearance => ClearanceFails(c.clearanceHeld, r)
    case CheckNationality => NationalityFails(c, r)
    case CheckPassport => PassportFails(c, r)
    case EthicalCheck => EthicsFails(c, r)
    case AppropriateForYearGroup => YearGroupFails(c, r)
    case StretchCheck => StretchRefused(c, r)
    case _ => false
  }

  /** The points a rule adds; the stretch rule adds its bonus only when it does not disqualify. */
  function Points(rule: LegacyRule, c: Candidate, r: Role): int
  {
    match rule
    case ScoreLocation => LocationScore(InitialWeights, c, r)
    case ScoreDepartment => DepartmentBonus(c, r)
    case ScoreSkill => SkillDelta(c, r)
    case StretchCheck => if StretchRefused(c, r) then 0 else StretchBonus(c, r)
    case _ => 0
  }

  /**
   * One rule method as written: `_check_location` assigns `_disqualified`
   * directly, so for a candidate who cannot relocate it overwrites any
   * earlier verdict; every other check goes through the setter.
   */
  function StepAsWritten(rule: LegacyRule, s: PairState, c: Candidate, r: Role): PairState
  {
    match rule
    case CheckLocation => if c.canRelocate then s else s.(disqualified := !LocationAcceptable(c, r))
    case StretchCheck =>
      if StretchRefused(c, r) then Disqualify(s, true) else s.(score := s.score + StretchBonus(c, r))
    case _ => Disqualify(s, Fails(rule, c, r)).(score := s.score + Points(rule, c, r))
  }

  /** One rule method with the location check routed through the setter like the others. */
  function Step(rule: LegacyRule, s: PairState, c: Candidate, r: Role): PairState
  {
    if rule == CheckLocation then Disqualify(s, LocationFails(c, r)) else StepAsWritten(rule, s, c, r)
  }

  /** The loop of `score_pair` as written: every rule, in order, with no early exit. */
  function RunAsWritten(order: seq<LegacyRule>, s: PairState, c: Candidate, r: Role): PairState
  {
    if order == [] then s else RunAsWritten(order[1..], StepAsWritten(order[0], s, c, r), c, r)
  }

  /** The same loop over the corrected rule. */
  function Run(order: seq<LegacyRule>, s: PairState, c: Candidate, r: Role): PairState
  {
    if order == [] then s else Run(order[1..], Step(order[0], s, c, r), c, r)
  }

  /** `Pair._check_score`. */
  function ApplyThreshold(s: PairState): PairState
  {
    if s.score < PairMinScore then Disqualify(s, true) else s
  }

  /** `score_pair` as written, on a fresh evaluator. */
  function EvaluateAsWritten(order: seq<LegacyRule>, c: Candidate, r: Role): PairState
  {
    ApplyThreshold(RunAsWritten(order, Fresh, c, r))
  }

  /** `score_pair` with the corrected location check, on a fresh evaluator. */
  function Evaluate(order: seq<LegacyRule>, c: Candidate, r: Role): PairState
  {
    ApplyThreshold(Run(order, Fresh, c, r))
  }

  function SumPoints(order: seq<LegacyRule>, c: Candidate, r: Role): int
  {
    if order == [] then 0 else Points(order[0], c, r) + SumPoints(order[1..], c, r)
  }

  predicate AnyFails(order: seq<LegacyRule>, c: Candidate, r: Role)
  {
    exists k :: 0 <= k < |order| && Fails(order[k], c, r)
  }

  /** The score of a pair: location, department, skill and stretch points. */
  function PairScore(c: Candidate, r: Role): int
  {
    LocationScore(InitialWeights, c, r) + DepartmentBonus(c, r) + SkillDelta(c, r)
    + (if StretchRefused(c, r) then 0 else StretchBonus(c, r))
  }

  /** Some rule of `Pair` disqualifies the pair. */
  predicate PairFails(c: Candidate, r: Role)
  {
    exists x :: x in PairRuleSet && Fails(x, c, r)
  }

  // ---------------------------------------------------------------
  // Lemmas
  // ---------------------------------------------------------------

  /** Whatever the order, the corrected loop disqualifies exactly when some rule fails. */
  lemma {:induction false} RunVerdict(order: seq<LegacyRule>, s: PairState, c: Candidate, r: Role)
    ensures Run(order, s, c, r).disqualified == (s.disqualified || AnyFails(order, c, r))
  {
    if order != [] {
      RunVerdict(order[1..], Step(order[0], s, c, r), c, r);
      if AnyFails(order, c, r) && !Fails(order[0], c, r) {
        var k :| 0 <= k < |order| && Fails(order[k], c, r);
        assert Fails(order[1..][k - 1], c, r);
      }
      if AnyFails(order[1..], c, r) {
        var k :| 0 <= k < |order[1..]| && Fails(order[1..][k], c, r);
        assert Fails(order[k + 1], c, r);
      }
    }
  }

  /** Whatever the order, both loops add up the points of every rule they run. */
  lemma {:induction false} RunScore(order: seq<LegacyRule>, s: PairState, c: Candidate, r: Role)
    ensures Run(order, s, c, r).score == s.score + SumPoints(order, c, r)
    ensures RunAsWritten(order, s, c, r).score == s.score + SumPoints(order, c, r)
  {
    if order != [] {
      RunScore(order[1..], Step(order[0], s, c, r), c, r);
      RunScore(order[1..], StepAsWritten(order[0], s, c, r), c, r);
    }
  }

  /** The points of a list of distinct rules are those of the scoring rules it holds. */
  lemma {:induction false} SumPointsDistinct(order: seq<LegacyRule>, c: Candidate, r: Role)
    requires NoDup(order)
    ensures SumPoints(order, c, r)
         == (if ScoreLocation in order then Points(ScoreLocation, c, r) else 0)
          + (if ScoreDepartment in order then Points(ScoreDepartment, c, r) else 0)
          + (if ScoreSkill in order then Points(ScoreSkill, c, r) else 0)
          + (if StretchCheck in order then Points(StretchCheck, c, r) else 0)
  {
    if order != [] {
      NoDupTail(order);
      SumPointsDistinct(order[1..], c, r);
      assert forall x :: x in order <==> x == order[0] || x in order[1..];
    }
  }

  lemma AnyFailsMeaning(order: seq<LegacyRule>, c: Candidate, r: Role)
    requires forall x :: x in order <==> x in PairRuleSet
    ensures AnyFails(order, c, r) <==> PairFails(c, r)
  {
    if PairFails(c, r) {
      var x :| x in PairRuleSet && Fails(x, c, r);
      var k :| 0 <= k < |order| && order[k] == x;
    }
  }

  /**
   * With the location check going through the setter, every enumeration
   * of the rules gives the same result: the pair scores `PairScore`, and
   * it is disqualified exactly when some rule fails or that score is
   * below 20.
   */
  lemma EvaluateSpec(order: seq<LegacyRule>, c: Candidate, r: Role)
    requires IsEnumeration(order)
    ensures Evaluate(order, c, r).score == PairScore(c, r)
    ensures Evaluate(order, c, r).disqualified <==> PairFails(c, r) || PairScore(c, r) < PairMinScore
  {
    RunVerdict(order, Fresh, c, r);
    RunScore(order, Fresh, c, r);
    SumPointsDistinct(order, c, r);
    AnyFailsMeaning(order, c, r);
    assert ScoreLocation in PairRuleSet && ScoreDepartment in PairRuleSet;
    assert ScoreSkill in PairRuleSet && StretchCheck in PairRuleSet;
  }

  /** Two enumerations of the rules reach the same result. */
  lemma EvaluateOrderFree(order1: seq<LegacyRule>, order2: seq<LegacyRule>, c: Candidate, r: Role)
    requires IsEnumeration(order1) && IsEnumeration(order2)
    ensures Evaluate(order1, c, r) == Evaluate(order2, c, r)
  {
    EvaluateSpec(order1, c, r);
    EvaluateSpec(order2, c, r);
  }

  /**
   * As written, a location check that runs last decides the loop's
   * verdict alone for a candidate who cannot relocate: every earlier
   * disqualification is overwritten.
   */
  lemma {:induction false} AsWrittenLocationLast(prefix: seq<LegacyRule>, s: PairState, c: Candidate, r: Role)
    requires !c.canRelocate
    ensures RunAsWritten(prefix + [CheckLocation], s, c, r).disqualified == LocationFails(c, r)
  {
    if prefix == [] {
      assert [CheckLocation][1..] == [];
    } else {
      assert (prefix + [CheckLocation])[1..] == prefix[1..] + [CheckLocation];
      AsWrittenLocationLast(prefix[1..], StepAsWritten(prefix[0], s, c, r), c, r);
    }
  }

  /**
   * The verdict as written depends on the set's iteration order: take a
   * candidate who cannot relocate, at an acceptable location and with a
   * high enough score, but under-cleared for the role. The candidate is
   * disqualified when the location check comes first and accepted when
   * the same rules run with it last. With the corrected check both
   * orders disqualify.
   */
  lemma AsWrittenOrderMatters(rest: seq<LegacyRule>, c: Candidate, r: Role)
    requires IsEnumeration([CheckLocation] + rest)
    requires !c.canRelocate && LocationAcceptable(c, r)
    requires ClearanceFails(c.clearanceHeld, r)
    requires PairScore(c, r) >= PairMinScore
    ensures IsEnumeration(rest + [CheckLocation])
    ensures EvaluateAsWritten([CheckLocation] + rest, c, r).disqualified
    ensures !EvaluateAsWritten(rest + [CheckLocation], c, r).disqualified
    ensures Evaluate([CheckLocation] + rest, c, r).disqualified
    ensures Evaluate(rest + [CheckLocation], c, r).disqualified
  {
    var first := [CheckLocation] + rest;
    NoDupTail(first);
    assert first[1..] == rest;
    NoDupSnoc(rest, CheckLocation);
    assert forall x :: x in rest + [CheckLocation] <==> x in first;
    LocationFirstDisqualifies(rest, c, r);
    LocationLastAccepts(rest, c, r);
  }

  lemma LocationFirstDisqualifies(rest: seq<LegacyRule>, c: Candidate, r: Role)
    requires IsEnumeration([CheckLocation] + rest)
    requires ClearanceFails(c.clearanceHeld, r)
    ensures EvaluateAsWritten([CheckLocation] + rest, c, r).disqualified
    ensures Evaluate([CheckLocation] + rest, c, r).disqualified
  {
    var first := [CheckLocation] + rest;
    assert first[1..] == rest;
    NoDupTail(first);
    EvaluateSpec(first, c, r);
    AsWrittenLocationFirst(rest, c, r);
    assert ScoreClearance in PairRuleSet;
  }

  lemma LocationLastAccepts(rest: seq<LegacyRule>, c: Candidate, r: Role)
    requires IsEnumeration(rest + [CheckLocation])
    requires !c.canRelocate && LocationAcceptable(c, r)
    requires ClearanceFails(c.clearanceHeld, r)
    requires PairScore(c, r) >= PairMinScore
    ensures !EvaluateAsWritten(rest + [CheckLocation], c, r).disqualified
    ensures Evaluate(rest + [CheckLocation], c, r).disqualified
  {
    var last := rest + [CheckLocation];
    AsWrittenLocationLast(rest, Fresh, c, r);
    RunScore(last, Fresh, c, r);
    EvaluateSpec(last, c, r);
    assert ScoreClearance in PairRuleSet;
  }

  /** Without the location check in the list, the two loops agree. */
  lemma {:induction false} RunsAgree(order: seq<LegacyRule>, s: PairState, c: Candidate, r: Role)
    requires CheckLocation !in order
    ensures RunAsWritten(order, s, c, r) == Run(order, s, c, r)
  {
    if order != [] {
      assert order[0] != CheckLocation && CheckLocation !in order[1..];
      RunsAgree(order[1..], Step(order[0], s, c, r), c, r);
    }
  }

  /** When the location check comes first and only once, the code as written gives the corrected result. */
  lemma AsWrittenLocationFirst(rest: seq<LegacyRule>, c: Candidate, r: Role)
    requires CheckLocation !in rest
    ensures EvaluateAsWritten([CheckLocation] + rest, c, r) == Evaluate([CheckLocation] + rest, c, r)
  {
    var order := [CheckLocation] + rest;
    assert order[0] == CheckLocation && order[1..] == rest;
    assert StepAsWritten(CheckLocation, Fresh, c, r) == Step(CheckLocation, Fresh, c, r);
    RunsAgree(rest, Step(CheckLocation, Fresh, c, r), c, r);
  }

  // ---------------------------------------------------------------
  // The objects
  // ---------------------------------------------------------------

  /**
   * The class-level `scoring_method_names` set. Every subclass adds the
   * decorated names its scan finds to this one shared set, so it
   * accumulates across subclasses.
   */
  class ScoringRegistry {
    var names: set<string>

    constructor ()
      ensures names == {}
    {
      names := {};
    }

    /** `__init_subclass__`: add the decorated names of the new class; nothing is removed. */
    method RegisterSubclass(decorated: set<string>)
      modifies this
      ensures names == old(names) + decorated
    {
      names := names + decorated;
    }
  }

  /** A `Pair` evaluator, one method per rule. */
  class Pair {
    const candidate: Candidate
    const role: Role
    var score: int
    var disqualified: bool

    function State(): PairState
      reads this
    {
      PairState(score, disqualified)
    }

    constructor (c: Candidate, r: Role)
      ensures candidate == c && role == r && State() == Fresh
    {
      candidate := c;
      role := r;
      score := 0;
      disqualified := false;
    }

    /** The `disqualified` setter. */
    method SetDisqualified(value: bool)
      modifies this
      ensures State() == Disqualify(old(State()), value)
    {
      if disqualified || value {
        disqualified := true;
      } else {
        disqualified := false;
      }
    }

    /** `_check_location`, assigning the flag directly. */
    method CheckLocation()
      modifies this
      ensures State() == StepAsWritten(LegacyRule.CheckLocation, old(State()), candidate, role)
    {
      if !candidate.canRelocate {
        disqualified := !(role.fromAnywhere
                          || candidate.firstLocation in role.locations
                          || candidate.secondLocation in role.locations);
      }
    }

    /** `_score_location` with the class's fixed weights. */
    method ScoreLocation()
      modifies this
      ensures State() == StepAsWritten(LegacyRule.ScoreLocation, old(State()), candidate, role)
    {
      if role.fromAnywhere {
        score := score + FirstLocationWeight;
      } else if candidate.firstLocation in role.locations || candidate.firstLocation == "Any" {
        score := score + FirstLocationWeight;
      } else if candidate.secondLocation in role.locations || candidate.secondLocation == "Any" {
        score := score + SecondLocationWeight;
      }
    }

    method ScoreClearance()
      modifies this
      ensures State() == StepAsWritten(LegacyRule.ScoreClearance, old(State()), candidate, role)
    {
      SetDisqualified(ClearanceFails(candidate.clearanceHeld, role));
    }

    method CheckNationality()
      modifies this
      ensures State() == StepAsWritten(LegacyRule.CheckNationality, old(State()), candidate, role)
    {
      SetDisqualified(NationalityFails(candidate, role));
    }

    method CheckPassport()
      modifies this
      ensures State() == StepAsWritten(LegacyRule.CheckPassport, old(State()), candidate, role)
    {
      SetDisqualified(role.passportRequirement && !candidate.hasPassport);
    }

    method ScoreDepartment()
      modifies this
      ensures State() == StepAsWritten(LegacyRule.ScoreDepartment, old(State()), candidate, role)
    {
      if role.department !in candidate.priorDepartments {
        score := score + DepartmentWeight;
      }
    }

    method EthicalCheck()
      modifies this
      ensures State() == StepAsWritten(LegacyRule.EthicalCheck, old(State()), candidate, role)
    {
      SetDisqualified((candidate.noImmigration && role.immigrationRole) || (candidate.noDefence && role.defenceRole));
    }

    method AppropriateForYearGroup()
      modifies this
      ensures State() == StepAsWritten(LegacyRule.AppropriateForYearGroup, old(State()), candidate, role)
    {
      SetDisqualified(candidate.yearGroup !in role.suitableYearGroups);
    }

    /** `_score_skill`: the repeat penalty, then the four-step sweep with a bonus falling by 5. */
    method ScoreSkill()
      modifies this
      ensures State() == StepAsWritten(LegacyRule.ScoreSkill, old(State()), candidate, role)
    {
      if role.secondaryFocus == candidate.lastRoleSecondarySkill {
        score := score - SkillRepeatPenalty;
      }
      var start := score;
      var bonus := SkillWeight;
      var skills := [candidate.primarySkill, candidate.secondarySkill];
      var foci := [role.skillFocus, role.secondaryFocus];
      for i := 0 to 2
        invariant bonus == SkillWeight - 10 * i
        invariant score == start + SweepUpTo(candidate, role, 2 * i)
        invariant disqualified == old(disqualified)
      {
        for j := 0 to 2
          invariant bonus == SkillWeight - 5 * (2 * i + j)
          invariant score == start + SweepUpTo(candidate, role, 2 * i + j)
          invariant disqualified == old(disqualified)
        {
          SweepStep(candidate, role, i, j);
          if skills[i] == foci[j] {
            score := score + bonus;
          }
          bonus := bonus - 5;
        }
      }
    }

    /** `_stretch_check`: refuse an unwanted stretch role, otherwise 10 per matched dimension. */
    method StretchCheck()
      modifies this
      ensures State() == StepAsWritten(LegacyRule.StretchCheck, old(State()), candidate, role)
    {
      if (!candidate.wantsPrivateOffice && role.privateOfficeRole)
         || (!candidate.wantsLineManagement && role.lineManagementRole) {
        SetDisqualified(true);
      } else {
        if candidate.wantsPrivateOffice && role.privateOfficeRole {
          score := score + StretchWeight;
        }
        if candidate.wantsLineManagement && role.lineManagementRole {
          score := score + StretchWeight;
        }
      }
    }

    /** Calls the method a registered name stands for. */
    method Apply(rule: LegacyRule)
      modifies this
      ensures State() == StepAsWritten(rule, old(State()), candidate, role)
    {
      match rule
      case CheckLocation => CheckLocation();
      case ScoreLocation => ScoreLocation();
      case ScoreClearance => ScoreClearance();
      case CheckNationality => CheckNationality();
      case CheckPassport => CheckPassport();
      case ScoreDepartment => ScoreDepartment();
      case EthicalCheck => EthicalCheck();
      case AppropriateForYearGroup => AppropriateForYearGroup();
      case ScoreSkill => ScoreSkill();
      case StretchCheck => StretchCheck();
    }

    /** `Pair._check_score`. */
    method CheckScore()
      modifies this
      ensures State() == ApplyThreshold(old(State()))
    {
      if score < PairMinScore {
        SetDisqualified(true);
      }
    }

    /** `score_pair`: every rule of the enumeration, then `_check_score`; returns the score. */
    method ScorePair(order: seq<LegacyRule>) returns (result: int)
      modifies this
      ensures State() == ApplyThreshold(RunAsWritten(order, old(State()), candidate, role))
      ensures result == score
    {
      for i := 0 to |order|
        invariant RunAsWritten(order[i..], State(), candidate, role)
               == RunAsWritten(order, old(State()), candidate, role)
      {
        assert order[i..][0] == order[i] && order[i..][1..] == order[i + 1..];
        Apply(order[i]);
      }
      assert order[|order|..] == [];
      CheckScore();
      result := score;
    }
  }
}
