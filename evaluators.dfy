/**
 * The pair evaluator objects of the current matcher (`BasePair`, with the
 * `GeneralistPair` and `SefsPair` overlays selected by `specialism`): one
 * method per rule, each updating the running score, the disqualification
 * flag and the generalist `methods_called` set in place, and `score_pair`
 * as a loop over an enumeration of the rules. Every method is proved to do
 * what `Scoring.Step` / `Scoring.EvaluateFrom` say, so the lemmas of
 * module Scoring apply to these objects.
 */
module Evaluators {
  import opened Levels
  import opened Models
  import opened Wrappers
  import opened PairRules
  import opened Scoring
  import SR = SefsRules
  import GR = GeneralistRules

  /**
   * The class-level `scoring_weights` table, as far as it changes: one
   * object shared by every evaluator of a class. (`Pair` and `SefsPair`
   * inherit the base table and so share one; `GeneralistPair` has its own.)
   */
  class SharedWeights {
    var firstLocation: int
    var secondLocation: int

    function Value(): Weights
      reads this
    {
      Weights(firstLocation, secondLocation)
    }

    constructor ()
      ensures Value() == InitialWeights
    {
      firstLocation := FirstLocationWeight;
      secondLocation := SecondLocationWeight;
    }
  }

  class PairEvaluator {
    const specialism: Specialism
    const candidate: Candidate
    const role: Role
    const weights: SharedWeights
    var score: int
    var disqualified: bool
    var methodsCalled: set<Rule>

    /** The evaluator's state as the value module Scoring reasons about. */
    function State(): Eval
      reads this
    {
      Eval(score, disqualified, methodsCalled)
    }

    predicate Valid()
    {
      Ready(specialism, candidate, role)
    }

    constructor (sp: Specialism, c: Candidate, r: Role, w: SharedWeights)
      requires Ready(sp, c, r)
      ensures Valid()
      ensures specialism == sp && candidate == c && role == r && weights == w
      ensures State() == Fresh
    {
      specialism := sp;
      candidate := c;
      role := r;
      weights := w;
      score := 0;
      disqualified := false;
      methodsCalled := {};
    }

    /** The `disqualified` setter. */
    method SetDisqualified(value: bool)
      modifies this
      ensures State() == Disqualify(old(State()), value)
    {
      if disqualified || value {
        disqualified := true;
      } else {
        disqualified := false;
      }
    }

    /** The generalist `register_method_called` bookkeeping after a tracked rule. */
    method RecordIfRaised(rule: Rule, before: int)
      modifies this
      ensures State() == Record(specialism, rule, before, old(State()))
    {
      if Tracked(specialism, rule) && score > before {
        methodsCalled := methodsCalled + {rule};
      }
    }

    /** `_check_location`, which assigns `_disqualified` without the setter. */
    method CheckLocation()
      requires Valid()
      modifies this
      ensures (State(), weights.Value())
           == Step(specialism, Rule.CheckLocation, old(State()), old(weights.Value()), candidate, role)
    {
      if !candidate.canRelocate {
        var goodLocation := role.fromAnywhere
                            || !({candidate.firstLocation, candidate.secondLocation} !! role.locations);
        disqualified := !goodLocation;
      }
    }

    /** `_score_location`: bump the shared weights for a relocated candidate, then score the location chain. */
    method ScoreLocation()
      requires Valid()
      modifies this, weights
      ensures (State(), weights.Value())
           == Step(specialism, Rule.ScoreLocation, old(State()), old(weights.Value()), candidate, role)
    {
      var before := score;
      if candidate.hasRelocated {
        weights.firstLocation := weights.firstLocation + HasRelocatedWeight;
        weights.secondLocation := weights.secondLocation + HasRelocatedWeight;
      }
      if role.fromAnywhere {
        score := score + weights.firstLocation;
      } else if candidate.firstLocation in role.locations || candidate.firstLocation == "Any" {
        score := score + weights.firstLocation;
      } else if candidate.secondLocation in role.locations || candidate.secondLocation == "Any" {
        score := score + weights.secondLocation;
      }
      RecordIfRaised(Rule.ScoreLocation, before);
    }

    method CheckClearance()
      requires Valid()
      modifies this
      ensures (State(), weights.Value())
           == Step(specialism, Rule.CheckClearance, old(State()), old(weights.Value()), candidate, role)
    {
      // the generalist candidate reports its clearance through its own property
      var held := if specialism == Generalist then GR.GeneralistClearance(candidate.clearanceHeld)
                  else candidate.clearanceHeld;
      SetDisqualified(ClearanceBelow(held, role.clearance));
    }

    method CheckNationality()
      requires Valid()
      modifies this
      ensures (State(), weights.Value())
           == Step(specialism, Rule.CheckNationality, old(State()), old(weights.Value()), candidate, role)
    {
      SetDisqualified(RequirementExceeds(role.nationalityRequirement, candidate.nationality));
    }

    method CheckPassport()
      requires Valid()
      modifies this
      ensures (State(), weights.Value())
           == Step(specialism, Rule.CheckPassport, old(State()), old(weights.Value()), candidate, role)
    {
      SetDisqualified(role.passportRequirement && !candidate.hasPassport);
    }

    method CheckYearGroup()
      requires Valid()
      modifies this
      ensures (State(), weights.Value())
           == Step(specialism, Rule.CheckYearGroup, old(State()), old(weights.Value()), candidate, role)
    {
      SetDisqualified(candidate.yearGroup !in role.suitableYearGroups);
    }

    method CheckEthics()
      requires Valid()
      modifies this
      ensures (State(), weights.Value())
           == Step(specialism, Rule.CheckEthics, old(State()), old(weights.Value()), candidate, role)
    {
      SetDisqualified((candidate.noImmigration && role.immigrationRole)
                      || (candidate.noDefence && role.defenceRole));
    }

    method CheckStretch()
      requires Valid()
      modifies this
      ensures (State(), weights.Value())
           == Step(specialism, Rule.CheckStretch, old(State()), old(weights.Value()), candidate, role)
    {
      if (!candidate.wantsPrivateOffice && role.privateOfficeRole)
         || (!candidate.wantsLineManagement && role.lineManagementRole) {
        SetDisqualified(true);
      }
    }

    method ScoreStretch()
      requires Valid()
      modifies this
      ensures (State(), weights.Value())
           == Step(specialism, Rule.ScoreStretch, old(State()), old(weights.Value()), candidate, role)
    {
      if candidate.wantsPrivateOffice && role.privateOfficeRole {
        score := score + StretchWeight;
      }
      if candidate.wantsLineManagement && role.lineManagementRole {
        score := score + StretchWeight;
      }
    }

    method ScoreYearOnly()
      requires Valid()
      modifies this
      ensures (State(), weights.Value())
           == Step(specialism, Rule.ScoreYearOnly, old(State()), old(weights.Value()), candidate, role)
    {
      var yearGroups := role.suitableYearGroups;
      if |yearGroups| == 1 && candidate.yearGroup in yearGroups {
        score := score + YearAppropriateWeight;
      }
    }

    /** The base rule rewards a new department; the generalist one a preferred department. */
    method ScoreDepartment()
      requires Valid()
      modifies this
      ensures (State(), weights.Value())
           == Step(specialism, Rule.ScoreDepartment, old(State()), old(weights.Value()), candidate, role)
    {
      var before := score;
      if specialism == Generalist {
        if role.department in candidate.deptPrefs {
          score := score + DepartmentWeight;
        }
      } else if role.department !in candidate.priorDepartments {
        score := score + DepartmentWeight;
      }
      RecordIfRaised(Rule.ScoreDepartment, before);
    }

    /**
     * `_score_skill`. The base sweep walks (primary, secondary) against
     * (focus, secondary focus) with a bonus falling by 5 at every step;
     * the SEFS class replaces it.
     */
    method ScoreSkill()
      requires Valid()
      modifies this
      ensures (State(), weights.Value())
           == Step(specialism, Rule.ScoreSkill, old(State()), old(weights.Value()), candidate, role)
    {
      if specialism == Sefs {
        SefsScoreSkill();
      } else {
        BaseScoreSkill();
      }
    }

    /** The base `_score_skill`: the repeat penalty, the four-step sweep, then the bookkeeping. */
    method BaseScoreSkill()
      modifies this
      ensures State()
           == Record(specialism, Rule.ScoreSkill, old(score), old(State()).(score := old(score) + SkillDelta(candidate, role)))
    {
      var before := score;
      if role.secondaryFocus == candidate.lastRoleSecondarySkill {
        score := score - SkillRepeatPenalty;
      }
      var start := score;
      var bonus := SkillWeight;
      var skills := [candidate.primarySkill, candidate.secondarySkill];
      var foci := [role.skillFocus, role.secondaryFocus];
      for i := 0 to 2
        invariant bonus == SkillWeight - 10 * i
        invariant score == start + SweepUpTo(candidate, role, 2 * i)
        invariant disqualified == old(disqualified) && methodsCalled == old(methodsCalled)
      {
        for j := 0 to 2
          invariant bonus == SkillWeight - 5 * (2 * i + j)
          invariant score == start + SweepUpTo(candidate, role, 2 * i + j)
          invariant disqualified == old(disqualified) && methodsCalled == old(methodsCalled)
        {
          SweepStep(candidate, role, i, j);
          if skills[i] == foci[j] {
            score := score + bonus;
          }
          bonus := bonus - 5;
        }
      }
      RecordIfRaised(Rule.ScoreSkill, before);
    }

    /** `SefsPair._score_skill`: the valence loop, the halving, then disqualify on 0 or add. */
    method SefsScoreSkill()
      requires Valid() && specialism == Sefs
      modifies this
      ensures State() == SefsSkillStep(old(State()), candidate, role)
    {
      if candidate.yearGroup != One {
        var entries := SR.ValenceEntries(candidate);
        var skillScore := 0;
        for k := 0 to |entries|
          invariant skillScore == SR.RawScoreUpTo(entries, role, k)
        {
          var (skill, valence) := entries[k];
          if role.skills[skill] == P {
            skillScore := skillScore + SR.EntryPoints(valence);
          }
        }
        if role.skills[candidate.notRequiredSkill] == P {
          skillScore := skillScore / 2;
        }
        if skillScore == 0 {
          SetDisqualified(true);
        } else {
          score := score + skillScore;
        }
      }
    }

    method CheckAccessibility()
      requires Valid()
      modifies this
      ensures (State(), weights.Value())
           == Step(specialism, Rule.CheckAccessibility, old(State()), old(weights.Value()), candidate, role)
    {
      SetDisqualified(!(candidate.accessibilityNeeds <= role.accessibilityAdjustment));
    }

    method CheckTravel()
      requires Valid()
      modifies this
      ensures (State(), weights.Value())
           == Step(specialism, Rule.CheckTravel, old(State()), old(weights.Value()), candidate, role)
    {
      SetDisqualified(role.travel.tier > candidate.travel.tier);
    }

    method CheckPriorDepartments()
      requires Valid()
      modifies this
      ensures (State(), weights.Value())
           == Step(specialism, Rule.CheckPriorDepartments, old(State()), old(weights.Value()), candidate, role)
    {
      SetDisqualified(role.department in candidate.priorDepartments);
    }

    method CheckWorkingPattern()
      requires Valid()
      modifies this
      ensures (State(), weights.Value())
           == Step(specialism, Rule.CheckWorkingPattern, old(State()), old(weights.Value()), candidate, role)
    {
      SetDisqualified(!(candidate.workingPatterns <= role.workingPatterns));
    }

    method ScoreAnchor()
      requires Valid()
      modifies this
      ensures (State(), weights.Value())
           == Step(specialism, Rule.ScoreAnchor, old(State()), old(weights.Value()), candidate, role)
    {
      var before := score;
      if role.anchor in {candidate.primaryAnchor, candidate.secondaryAnchor} {
        score := score + GR.AnchorWeight;
      }
      RecordIfRaised(Rule.ScoreAnchor, before);
    }

    /** Calls the method registered for `rule`. */
    method Apply(rule: Rule)
      requires Valid()
      modifies this, weights
      ensures (State(), weights.Value())
           == Step(specialism, rule, old(State()), old(weights.Value()), candidate, role)
    {
      match rule
      case CheckLocation => CheckLocation();
      case ScoreLocation => ScoreLocation();
      case CheckClearance => CheckClearance();
      case CheckNationality => CheckNationality();
      case CheckPassport => CheckPassport();
      case CheckYearGroup => CheckYearGroup();
      case CheckEthics => CheckEthics();
      case CheckStretch => CheckStretch();
      case ScoreStretch => ScoreStretch();
      case ScoreYearOnly => ScoreYearOnly();
      case ScoreDepartment => ScoreDepartment();
      case ScoreSkill => ScoreSkill();
      case CheckAccessibility => CheckAccessibility();
      case CheckTravel => CheckTravel();
      case CheckPriorDepartments => CheckPriorDepartments();
      case CheckWorkingPattern => CheckWorkingPattern();
      case ScoreAnchor => ScoreAnchor();
    }

    /** `_check_score`. */
    method CheckScore()
      modifies this
      ensures State() == Scoring.CheckScore(specialism, old(State()), candidate)
    {
      if !(score >= MinScore(specialism, candidate.yearGroup)) {
        SetDisqualified(true);
      }
    }

    /** `_score_preferences`: 10 points for each preference whose rule is in `methods_called`. */
    method ScorePreferences()
      modifies this
      ensures State() == Scoring.ScorePreferences(old(State()), candidate)
    {
      var prefs := candidate.matchPreferences;
      var left := prefs;
      ghost var start := score;
      while left != {}
        invariant left <= prefs
        invariant score == start + GR.PreferenceWeight * |set p | p in prefs - left && PreferenceMet(p, methodsCalled)|
        invariant disqualified == old(disqualified) && methodsCalled == old(methodsCalled)
        decreases |left|
      {
        var p :| p in left;
        ghost var metBefore := set q | q in prefs - left && PreferenceMet(q, methodsCalled);
        ghost var metAfter := set q | q in prefs - (left - {p}) && PreferenceMet(q, methodsCalled);
        if PreferenceRule(p).Some? && PreferenceRule(p).value in methodsCalled {
          score := score + GR.PreferenceWeight;
          assert metAfter == metBefore + {p};
        } else {
          assert metAfter == metBefore;
        }
        left := left - {p};
      }
      assert prefs - left == prefs;
    }

    /** The loop of the base `score_pair`: run each rule, returning once the pair is disqualified. */
    method RunScoringMethods(order: seq<Rule>)
      requires Valid()
      modifies this, weights
      ensures (State(), weights.Value())
           == RunRules(specialism, order, old(State()), old(weights.Value()), candidate, role)
    {
      var i := 0;
      while i < |order|
        invariant 0 <= i <= |order|
        invariant RunRules(specialism, order[i..], State(), weights.Value(), candidate, role)
               == RunRules(specialism, order, old(State()), old(weights.Value()), candidate, role)
      {
        assert order[i..][0] == order[i] && order[i..][1..] == order[i + 1..];
        Apply(order[i]);
        if disqualified {
          return;
        }
        i := i + 1;
      }
      assert order[i..] == [];
    }

    /**
     * `score_pair`, with the rules in the enumeration `order`: the base loop
     * and `_check_score` when the loop ran to its end, then for the
     * generalist class the preference bonus. Returns the final score.
     */
    method ScorePair(order: seq<Rule>) returns (result: int)
      requires Valid()
      modifies this, weights
      ensures (State(), weights.Value())
           == EvaluateFrom(specialism, order, old(State()), old(weights.Value()), candidate, role)
      ensures result == score
    {
      RunScoringMethods(order);
      if !disqualified {
        CheckScore();
      }
      if specialism == Generalist {
        ScorePreferences();
      }
      result := score;
    }
  }

  /**
   * A fresh evaluator run over any enumeration of its class's rules ends in
   * the verdict `Scoring.Ineligible` describes and, when acceptable, with
   * the rules' points plus the generalist preference bonus.
   */
  method EvaluatePair(sp: Specialism, order: seq<Rule>, c: Candidate, r: Role, w: SharedWeights)
    returns (disqualified: bool, score: int)
    requires Ready(sp, c, r)
    requires IsEnumeration(order, RuleSet(sp))
    modifies w
    ensures disqualified <==> Ineligible(sp, old(w.Value()), c, r)
    ensures !disqualified ==>
              score == BaseScore(sp, old(w.Value()), c, r)
                       + (if sp == Generalist then PreferenceBonus(c.matchPreferences, EarnedRules(sp, old(w.Value()), c, r))
                          else 0)
    ensures !disqualified ==> w.Value() == AfterRelocation(old(w.Value()), c)
  {
    var pair := new PairEvaluator(sp, c, r, w);
    score := pair.ScorePair(order);
    disqualified := pair.disqualified;
    EvaluateSpec(sp, order, old(w.Value()), c, r);
  }
}
