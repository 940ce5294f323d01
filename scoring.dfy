/**
 * The behaviour of one evaluation of a candidate against a role in the
 * current matcher (`BasePair.score_pair` in fast_stream_22/specialism/pair.py
 * and its generalist and SEFS overlays), as functions on the evaluator's
 * state: a running score, the sticky disqualification flag and, for the
 * generalist specialism, the set of scoring rules that raised the score.
 *
 * The source discovers its rules by reflection and runs them in set
 * iteration order; here a specialism has a set of rules and an
 * evaluation takes any enumeration of it. The lemmas at the end show
 * that the verdict and the score do not depend on the enumeration.
 */
module Scoring {
  import opened Levels
  import opened Models
  import opened Wrappers
  import opened Seqs
  import opened PairRules
  import GR = GeneralistRules
  import SR = SefsRules

  /** The three evaluator classes: `Pair`, `GeneralistPair` and `SefsPair`. */
  datatype Specialism = Standard | Generalist | Sefs

  /** The registered scoring methods. */
  datatype Rule =
    | CheckLocation | ScoreLocation | CheckClearance | CheckNationality | CheckPassport
    | CheckYearGroup | CheckEthics | CheckStretch | ScoreStretch | ScoreYearOnly
    | ScoreDepartment | ScoreSkill
    | CheckAccessibility | CheckTravel | CheckPriorDepartments | CheckWorkingPattern | ScoreAnchor

  const BaseRules: set<Rule> :=
    {CheckLocation, ScoreLocation, CheckClearance, CheckNationality, CheckPassport,
     CheckYearGroup, CheckEthics, CheckStretch, ScoreStretch, ScoreYearOnly,
     ScoreDepartment, ScoreSkill}

  const GeneralistExtraRules: set<Rule> :=
    {CheckAccessibility, CheckTravel, CheckPriorDepartments, CheckWorkingPattern, ScoreAnchor}

  /**
   * The rules a class registers: the subclass scan sees inherited rules,
   * so the generalist class has the base rules (with its own versions of
   * some) plus its five extra ones; SEFS replaces only the skill rule.
   */
  function RuleSet(sp: Specialism): (rules: set<Rule>)
    ensures BaseRules <= rules
    ensures sp == Generalist <==> CheckAccessibility in rules
  {
    if sp == Generalist then BaseRules + GeneralistExtraRules else BaseRules
  }

  /** `order` lists each rule of `rules` exactly once. */
  predicate IsEnumeration(order: seq<Rule>, rules: set<Rule>)
  {
    NoDup(order) && forall x :: x in order <==> x in rules
  }

  /** The rules the generalist `register_method_called` decorator wraps. */
  predicate Tracked(sp: Specialism, rule: Rule)
  {
    sp == Generalist && rule in {ScoreDepartment, ScoreAnchor, ScoreSkill, ScoreLocation}
  }

  /** An evaluator's state: `_score`, `_disqualified` and the generalist `methods_called`. */
  datatype Eval = Eval(score: int, disqualified: bool, called: set<Rule>)

  const Fresh: Eval := Eval(0, false, {})

  /** The `disqualified` setter: once true it stays true. */
  function Disqualify(e: Eval, value: bool): (e': Eval)
    ensures e'.disqualified == (e.disqualified || value)
    ensures e'.score == e.score && e'.called == e.called
  {
    if e.disqualified || value then e.(disqualified := true) else e.(disqualified := false)
  }

  /**
   * Beyond the first year the SEFS rule looks the candidate's skills up in
   * the role's table, which raises unless the keys are there.
   */
  predicate Ready(sp: Specialism, c: Candidate, r: Role)
  {
    sp == Sefs && c.yearGroup != One ==> SR.SefsReady(c, r)
  }

  /** The clearance a candidate reports to the clearance check. */
  function ReportedClearance(sp: Specialism, c: Candidate): Clearance
  {
    if sp == Generalist then GR.GeneralistClearance(c.clearanceHeld) else c.clearanceHeld
  }

  /** The minimum acceptable score for the candidate's year group. */
  function MinScore(sp: Specialism, y: Cohort): int
  {
    if sp == Generalist then GR.GeneralistMinScore(y) else BaseMinScore(y)
  }

  /** When running `rule` from a state that is not yet disqualified leaves it disqualified. */
  predicate Fails(sp: Specialism, rule: Rule, c: Candidate, r: Role)
    requires Ready(sp, c, r)
  {
    match rule
    case CheckLocation => LocationFails(c, r)
    case CheckClearance => ClearanceFails(ReportedClearance(sp, c), r)
    case CheckNationality => NationalityFails(c, r)
    case CheckPassport => PassportFails(c, r)
    case CheckYearGroup => YearGroupFails(c, r)
    case CheckEthics => EthicsFails(c, r)
    case CheckStretch => StretchRefused(c, r)
    case ScoreSkill => sp == Sefs && c.yearGroup != One && SR.SefsSkillScore(c, r) == 0
    case CheckAccessibility => GR.AccessibilityFails(c, r)
    case CheckTravel => GR.TravelFails(c, r)
    case CheckPriorDepartments => GR.PriorDepartmentFails(c, r)
    case CheckWorkingPattern => GR.WorkingPatternFails(c, r)
    case _ => false
  }

  /**
   * The points `rule` adds, given the shared weights `w` as they were when
   * the evaluation began (the location rule bumps them before scoring).
   */
  function Delta(sp: Specialism, rule: Rule, w: Weights, c: Candidate, r: Role): int
    requires Ready(sp, c, r)
  {
    match rule
    case ScoreLocation => LocationScore(AfterRelocation(w, c), c, r)
    case ScoreStretch => StretchBonus(c, r)
    case ScoreYearOnly => YearOnlyBonus(c, r)
    case ScoreDepartment => if sp == Generalist then GR.DeptPrefBonus(c, r) else DepartmentBonus(c, r)
    case ScoreSkill =>
      if sp != Sefs then SkillDelta(c, r)
      else if c.yearGroup == One then 0
      else SR.SefsSkillScore(c, r)
    case ScoreAnchor => GR.AnchorBonus(c, r)
    case _ => 0
  }

  /** `register_method_called`: keep the rule's name when the score strictly rose across it. */
  function Record(sp: Specialism, rule: Rule, before: int, e: Eval): Eval
  {
    if Tracked(sp, rule) && e.score > before then e.(called := e.called + {rule}) else e
  }

  /** The SEFS skill rule: nothing for the first year; otherwise a zero score disqualifies and any other is added. */
  function SefsSkillStep(e: Eval, c: Candidate, r: Role): Eval
    requires c.yearGroup != One ==> SR.SefsReady(c, r)
  {
    if c.yearGroup == One then e
    else
      var points := SR.SefsSkillScore(c, r);
      if points == 0 then Disqualify(e, true) else e.(score := e.score + points)
  }

  /** One call of a rule method: the new evaluator state and the new shared weights. */
  function Step(sp: Specialism, rule: Rule, e: Eval, w: Weights, c: Candidate, r: Role): (Eval, Weights)
    requires Ready(sp, c, r)
  {
    match rule
    case CheckLocation =>
      // assigns the flag directly, not through the sticky setter
      (if c.canRelocate then e else e.(disqualified := !LocationAcceptable(c, r)), w)
    case ScoreLocation =>
      var w' := AfterRelocation(w, c);
      (Record(sp, rule, e.score, e.(score := e.score + LocationScore(w', c, r))), w')
    case ScoreSkill =>
      if sp == Sefs then (SefsSkillStep(e, c, r), w)
      else (Record(sp, rule, e.score, e.(score := e.score + SkillDelta(c, r))), w)
    case ScoreStretch => (e.(score := e.score + StretchBonus(c, r)), w)
    case ScoreYearOnly => (e.(score := e.score + YearOnlyBonus(c, r)), w)
    case ScoreDepartment =>
      var points := if sp == Generalist then GR.DeptPrefBonus(c, r) else DepartmentBonus(c, r);
      (Record(sp, rule, e.score, e.(score := e.score + points)), w)
    case ScoreAnchor => (Record(sp, rule, e.score, e.(score := e.score + GR.AnchorBonus(c, r))), w)
    case CheckStretch => (if StretchRefused(c, r) then Disqualify(e, true) else e, w)
    case _ => (Disqualify(e, Fails(sp, rule, c, r)), w)
  }

  /** The loop of `score_pair`: run each rule, returning as soon as the pair is disqualified. */
  function RunRules(sp: Specialism, order: seq<Rule>, e: Eval, w: Weights, c: Candidate, r: Role): (Eval, Weights)
    requires Ready(sp, c, r)
    decreases |order|
  {
    if order == [] then (e, w)
    else
      var (e1, w1) := Step(sp, order[0], e, w, c, r);
      if e1.disqualified then (e1, w1) else RunRules(sp, order[1..], e1, w1, c, r)
  }

  /** `_check_score`: disqualify a score below the year group's minimum. */
  function CheckScore(sp: Specialism, e: Eval, c: Candidate): Eval
  {
    if !(e.score >= MinScore(sp, c.yearGroup)) then Disqualify(e, true) else e
  }

  /** The rules the generalist preference names refer to; other names refer to none. */
  function PreferenceRule(p: Option<string>): Option<Rule>
  {
    match p
    case Some("Anchor") => Some(ScoreAnchor)
    case Some("Location") => Some(ScoreLocation)
    case Some("Department") => Some(ScoreDepartment)
    case Some("Skill") => Some(ScoreSkill)
    case _ => None
  }

  predicate PreferenceMet(p: Option<string>, called: set<Rule>)
  {
    PreferenceRule(p).Some? && PreferenceRule(p).value in called
  }

  /** `_score_preferences`: 10 points for each distinct preference whose rule raised the score. */
  function PreferenceBonus(prefs: set<Option<string>>, called: set<Rule>): int
  {
    GR.PreferenceWeight * |set p | p in prefs && PreferenceMet(p, called)|
  }

  function ScorePreferences(e: Eval, c: Candidate): Eval
  {
    e.(score := e.score + PreferenceBonus(c.matchPreferences, e.called))
  }

  /**
   * `score_pair` from state `e`: the rule loop, `_check_score` when the loop
   * did not return early, and for the generalist class the preference bonus
   * afterwards whatever the verdict. (After an early return the state is
   * disqualified, and on a disqualified state `_check_score` changes
   * nothing, so testing the flag is the same as testing for the return.)
   */
  function EvaluateFrom(sp: Specialism, order: seq<Rule>, e: Eval, w: Weights, c: Candidate, r: Role): (Eval, Weights)
    requires Ready(sp, c, r)
  {
    var (e1, w1) := RunRules(sp, order, e, w, c, r);
    var e2 := if e1.disqualified then e1 else CheckScore(sp, e1, c);
    (if sp == Generalist then ScorePreferences(e2, c) else e2, w1)
  }

  /** `score_pair` on a freshly constructed evaluator. */
  function Evaluate(sp: Specialism, order: seq<Rule>, w: Weights, c: Candidate, r: Role): (Eval, Weights)
    requires Ready(sp, c, r)
  {
    EvaluateFrom(sp, order, Fresh, w, c, r)
  }

  // ---------------------------------------------------------------
  // Closed forms
  // ---------------------------------------------------------------

  function SumDelta(sp: Specialism, rules: seq<Rule>, w: Weights, c: Candidate, r: Role): int
    requires Ready(sp, c, r)
  {
    if rules == [] then 0 else Delta(sp, rules[0], w, c, r) + SumDelta(sp, rules[1..], w, c, r)
  }

  /** The tracked rules among `rules` that add points. */
  function Earned(sp: Specialism, rules: seq<Rule>, w: Weights, c: Candidate, r: Role): set<Rule>
    requires Ready(sp, c, r)
  {
    set x | x in rules && Tracked(sp, x) && Delta(sp, x, w, c, r) > 0
  }

  predicate AnyFails(sp: Specialism, rules: seq<Rule>, c: Candidate, r: Role)
    requires Ready(sp, c, r)
  {
    exists x :: x in rules && Fails(sp, x, c, r)
  }

  /** The rules an early-exit run executes: up to and including the first that fails. */
  function Ran(sp: Specialism, order: seq<Rule>, c: Candidate, r: Role): (ran: seq<Rule>)
    requires Ready(sp, c, r)
    ensures ran <= order
    ensures !AnyFails(sp, order, c, r) ==> ran == order
  {
    if order == [] then []
    else if Fails(sp, order[0], c, r) then [order[0]]
    else [order[0]] + Ran(sp, order[1..], c, r)
  }

  /** The rules that can add points; all the others only check. */
  predicate IsScoringRule(x: Rule)
  {
    x in {ScoreLocation, ScoreStretch, ScoreYearOnly, ScoreDepartment, ScoreSkill, ScoreAnchor}
  }

  /** The scoring rules of a specialism, once each. */
  function ScoringRules(sp: Specialism): seq<Rule>
  {
    [ScoreLocation, ScoreStretch, ScoreYearOnly, ScoreDepartment, ScoreSkill]
    + (if sp == Generalist then [ScoreAnchor] else [])
  }

  /**
   * The score the rules give a pair before `_check_score` and the
   * preference bonus: location, stretch, single-year, department and skill
   * points, and for the generalist class anchor points.
   */
  function BaseScore(sp: Specialism, w: Weights, c: Candidate, r: Role): int
    requires Ready(sp, c, r)
  {
    SumDelta(sp, ScoringRules(sp), w, c, r)
  }

  /** The tracked rules that add points for this pair. */
  function EarnedRules(sp: Specialism, w: Weights, c: Candidate, r: Role): set<Rule>
    requires Ready(sp, c, r)
  {
    Earned(sp, ScoringRules(sp), w, c, r)
  }

  /** Some rule of the specialism disqualifies the pair. */
  predicate RuleFails(sp: Specialism, c: Candidate, r: Role)
    requires Ready(sp, c, r)
  {
    exists x :: x in RuleSet(sp) && Fails(sp, x, c, r)
  }

  /** The pair is unacceptable: a rule fails, or the rules' score is below the minimum. */
  predicate Ineligible(sp: Specialism, w: Weights, c: Candidate, r: Role)
    requires Ready(sp, c, r)
  {
    RuleFails(sp, c, r) || BaseScore(sp, w, c, r) < MinScore(sp, c.yearGroup)
  }

  // ---------------------------------------------------------------
  // Lemmas
  // ---------------------------------------------------------------

  /** On a state that is not disqualified, a rule adds its points, fails exactly per `Fails`, and records as tracked. */
  lemma StepClean(sp: Specialism, rule: Rule, e: Eval, w: Weights, c: Candidate, r: Role)
    requires Ready(sp, c, r)
    requires !e.disqualified
    ensures Step(sp, rule, e, w, c, r).0
         == Eval(e.score + Delta(sp, rule, w, c, r), Fails(sp, rule, c, r),
                 e.called + (if Tracked(sp, rule) && Delta(sp, rule, w, c, r) > 0 then {rule} else {}))
    ensures Step(sp, rule, e, w, c, r).1 == (if rule == ScoreLocation then AfterRelocation(w, c) else w)
  {
  }

  /** Every rule but the direct-assignment location check keeps a disqualified state disqualified. */
  lemma StepSticky(sp: Specialism, rule: Rule, e: Eval, w: Weights, c: Candidate, r: Role)
    requires Ready(sp, c, r)
    requires e.disqualified && rule != CheckLocation
    ensures Step(sp, rule, e, w, c, r).0.disqualified
  {
  }

  /** Only the location rule reads the shared weights. */
  lemma {:induction false} SumDeltaIgnoresWeights(sp: Specialism, rules: seq<Rule>, w1: Weights, w2: Weights,
                                                  c: Candidate, r: Role)
    requires Ready(sp, c, r)
    requires ScoreLocation !in rules
    ensures SumDelta(sp, rules, w1, c, r) == SumDelta(sp, rules, w2, c, r)
    ensures Earned(sp, rules, w1, c, r) == Earned(sp, rules, w2, c, r)
  {
    if rules != [] {
      assert rules == [rules[0]] + rules[1..];
      SumDeltaIgnoresWeights(sp, rules[1..], w1, w2, c, r);
    }
  }

  lemma EarnedCons(sp: Specialism, x: Rule, rest: seq<Rule>, w: Weights, c: Candidate, r: Role)
    requires Ready(sp, c, r)
    ensures Earned(sp, [x] + rest, w, c, r)
         == (if Tracked(sp, x) && Delta(sp, x, w, c, r) > 0 then {x} else {}) + Earned(sp, rest, w, c, r)
  {
  }

  lemma SumDeltaCons(sp: Specialism, x: Rule, rest: seq<Rule>, w: Weights, c: Candidate, r: Role)
    requires Ready(sp, c, r)
    ensures SumDelta(sp, [x] + rest, w, c, r) == Delta(sp, x, w, c, r) + SumDelta(sp, rest, w, c, r)
  {
    assert ([x] + rest)[0] == x;
    assert ([x] + rest)[1..] == rest;
  }

  /** From a state that is not disqualified, the rule loop disqualifies exactly when some listed rule fails. */
  lemma {:induction false} RunRulesVerdict(sp: Specialism, order: seq<Rule>, e: Eval, w: Weights,
                                           c: Candidate, r: Role)
    requires Ready(sp, c, r)
    requires !e.disqualified
    ensures RunRules(sp, order, e, w, c, r).0.disqualified == AnyFails(sp, order, c, r)
    decreases |order|
  {
    if order != [] {
      var x := order[0];
      StepClean(sp, x, e, w, c, r);
      var s := Step(sp, x, e, w, c, r);
      assert order == [x] + order[1..];
      if !s.0.disqualified {
        RunRulesVerdict(sp, order[1..], s.0, s.1, c, r);
      }
    }
  }

  /**
   * The loop's score: the points of the rules that ran, reckoned with the
   * weights the evaluation started from. The location rule runs at most
   * once, so the bump it makes is never seen by a later rule.
   */
  lemma {:induction false} RunRulesScore(sp: Specialism, order: seq<Rule>, e: Eval, w: Weights,
                                         c: Candidate, r: Role)
    requires Ready(sp, c, r)
    requires !e.disqualified && NoDup(order)
    ensures RunRules(sp, order, e, w, c, r).0.score == e.score + SumDelta(sp, Ran(sp, order, c, r), w, c, r)
    decreases |order|
  {
    if order != [] {
      var x := order[0];
      StepClean(sp, x, e, w, c, r);
      var s := Step(sp, x, e, w, c, r);
      if !Fails(sp, x, c, r) {
        var rest := order[1..];
        NoDupTail(order);
        RunRulesScore(sp, rest, s.0, s.1, c, r);
        var ranRest := Ran(sp, rest, c, r);
        if x == ScoreLocation {
          assert ScoreLocation !in rest;
          assert ScoreLocation !in ranRest;
          SumDeltaIgnoresWeights(sp, ranRest, s.1, w, c, r);
        }
        SumDeltaCons(sp, x, ranRest, w, c, r);
      } else {
        SumDeltaCons(sp, x, [], w, c, r);
      }
    }
  }

  /** Likewise the rules recorded in `methods_called` are those that ran and earned points. */
  lemma {:induction false} RunRulesCalled(sp: Specialism, order: seq<Rule>, e: Eval, w: Weights,
                                         c: Candidate, r: Role)
    requires Ready(sp, c, r)
    requires !e.disqualified && NoDup(order)
    ensures RunRules(sp, order, e, w, c, r).0.called == e.called + Earned(sp, Ran(sp, order, c, r), w, c, r)
    decreases |order|
  {
    if order != [] {
      var x := order[0];
      StepClean(sp, x, e, w, c, r);
      var s := Step(sp, x, e, w, c, r);
      if !Fails(sp, x, c, r) {
        var rest := order[1..];
        NoDupTail(order);
        RunRulesCalled(sp, rest, s.0, s.1, c, r);
        var ranRest := Ran(sp, rest, c, r);
        if x == ScoreLocation {
          assert ScoreLocation !in rest;
          assert ScoreLocation !in ranRest;
          SumDeltaIgnoresWeights(sp, ranRest, s.1, w, c, r);
        }
        EarnedCons(sp, x, ranRest, w, c, r);
      } else {
        EarnedCons(sp, x, [], w, c, r);
      }
    }
  }

  /** The loop bumps the shared weights exactly when the location rule ran. */
  lemma {:induction false} RunRulesWeights(sp: Specialism, order: seq<Rule>, e: Eval, w: Weights,
                                           c: Candidate, r: Role)
    requires Ready(sp, c, r)
    requires !e.disqualified && NoDup(order)
    ensures RunRules(sp, order, e, w, c, r).1
         == (if ScoreLocation in Ran(sp, order, c, r) then AfterRelocation(w, c) else w)
    decreases |order|
  {
    if order != [] {
      var x := order[0];
      StepClean(sp, x, e, w, c, r);
      var s := Step(sp, x, e, w, c, r);
      if !Fails(sp, x, c, r) {
        var rest := order[1..];
        NoDupTail(order);
        RunRulesWeights(sp, rest, s.0, s.1, c, r);
        if x == ScoreLocation {
          assert ScoreLocation !in rest;
          assert ScoreLocation !in Ran(sp, rest, c, r);
        }
        assert Ran(sp, order, c, r) == [x] + Ran(sp, rest, c, r);
      } else {
        assert Ran(sp, order, c, r) == [x];
      }
    }
  }

  lemma {:induction false} SumDeltaAppend(sp: Specialism, a: seq<Rule>, b: seq<Rule>, w: Weights, c: Candidate, r: Role)
    requires Ready(sp, c, r)
    ensures SumDelta(sp, a + b, w, c, r) == SumDelta(sp, a, w, c, r) + SumDelta(sp, b, w, c, r)
  {
    if a != [] {
      assert (a + b)[0] == a[0];
      assert (a + b)[1..] == a[1..] + b;
      SumDeltaAppend(sp, a[1..], b, w, c, r);
    } else {
      assert a + b == b;
    }
  }

  /** The sum of the rules' points does not depend on the order they are listed in. */
  lemma {:induction false} SumDeltaPermutation(sp: Specialism, a: seq<Rule>, b: seq<Rule>, w: Weights,
                                               c: Candidate, r: Role)
    requires Ready(sp, c, r)
    requires multiset(a) == multiset(b)
    ensures SumDelta(sp, a, w, c, r) == SumDelta(sp, b, w, c, r)
    decreases |a|
  {
    if a == [] {
      assert |b| == |multiset(b)| == 0;
    } else {
      var x := a[0];
      var i := PermutationSplit(a, b);
      var rest := b[..i] + b[i + 1..];
      SumDeltaPermutation(sp, a[1..], rest, w, c, r);
      SumDeltaAppend(sp, b[..i], [x] + b[i + 1..], w, c, r);
      SumDeltaAppend(sp, b[..i], b[i + 1..], w, c, r);
      SumDeltaCons(sp, x, b[i + 1..], w, c, r);
      SumDeltaCons(sp, x, a[1..], w, c, r);
      assert b[..i] + ([x] + b[i + 1..]) == b;
    }
  }

  /** Check rules add no points. */
  lemma DeltaOfCheck(sp: Specialism, x: Rule, w: Weights, c: Candidate, r: Role)
    requires Ready(sp, c, r)
    requires !IsScoringRule(x)
    ensures Delta(sp, x, w, c, r) == 0
  {
  }

  /** Dropping the check rules from a list keeps its points. */
  lemma {:induction false} SumDeltaScoringOnly(sp: Specialism, rules: seq<Rule>, w: Weights, c: Candidate, r: Role)
    requires Ready(sp, c, r)
    ensures SumDelta(sp, rules, w, c, r) == SumDelta(sp, Filter(rules, IsScoringRule), w, c, r)
  {
    if rules != [] {
      var x := rules[0];
      SumDeltaScoringOnly(sp, rules[1..], w, c, r);
      var tail := Filter(rules[1..], IsScoringRule);
      assert Filter(rules, IsScoringRule) == (if IsScoringRule(x) then [x] else []) + tail;
      if IsScoringRule(x) {
        SumDeltaCons(sp, x, tail, w, c, r);
      } else {
        DeltaOfCheck(sp, x, w, c, r);
        assert [] + tail == tail;
      }
    }
  }

  lemma ScoringRulesDistinct(sp: Specialism)
    ensures NoDup(ScoringRules(sp))
    ensures forall x :: x in ScoringRules(sp) <==> x in RuleSet(sp) && IsScoringRule(x)
  {
  }

  /** The scoring rules of an enumeration are, as a set, the specialism's scoring rules. */
  lemma ScoringFilterElements(sp: Specialism, order: seq<Rule>)
    requires IsEnumeration(order, RuleSet(sp))
    ensures NoDup(Filter(order, IsScoringRule))
    ensures forall x :: x in Filter(order, IsScoringRule) <==> x in ScoringRules(sp)
  {
    FilterNoDup(order, IsScoringRule);
    ScoringRulesDistinct(sp);
  }

  /** The tracked rules are scoring rules of the generalist class. */
  lemma TrackedIsScoring(sp: Specialism, x: Rule)
    requires Tracked(sp, x)
    ensures x in ScoringRules(sp) && x in RuleSet(sp)
  {
  }

  /** The points earned by the rules do not depend on the enumeration. */
  lemma EnumerationSumsAgree(sp: Specialism, order: seq<Rule>, w: Weights, c: Candidate, r: Role)
    requires Ready(sp, c, r)
    requires IsEnumeration(order, RuleSet(sp))
    ensures SumDelta(sp, order, w, c, r) == BaseScore(sp, w, c, r)
  {
    var scoring := Filter(order, IsScoringRule);
    ScoringFilterElements(sp, order);
    ScoringRulesDistinct(sp);
    DistinctSameElements(scoring, ScoringRules(sp));
    SumDeltaScoringOnly(sp, order, w, c, r);
    SumDeltaPermutation(sp, scoring, ScoringRules(sp), w, c, r);
  }

  /** The rules recorded by the generalist decorator do not depend on the enumeration. */
  lemma EnumerationEarnedAgree(sp: Specialism, order: seq<Rule>, w: Weights, c: Candidate, r: Role)
    requires Ready(sp, c, r)
    requires IsEnumeration(order, RuleSet(sp))
    ensures Earned(sp, order, w, c, r) == EarnedRules(sp, w, c, r)
  {
    forall x | Tracked(sp, x) ensures x in order && x in ScoringRules(sp) {
      TrackedIsScoring(sp, x);
    }
  }

  /** Some rule of an enumeration fails exactly when some rule of the specialism does. */
  lemma EnumerationFails(sp: Specialism, order: seq<Rule>, c: Candidate, r: Role)
    requires Ready(sp, c, r)
    requires IsEnumeration(order, RuleSet(sp))
    ensures AnyFails(sp, order, c, r) <==> RuleFails(sp, c, r)
  {
  }

  /** When no rule fails, the loop runs every rule, location scoring among them. */
  lemma CleanRunRan(sp: Specialism, order: seq<Rule>, c: Candidate, r: Role)
    requires Ready(sp, c, r)
    requires IsEnumeration(order, RuleSet(sp))
    requires !RuleFails(sp, c, r)
    ensures Ran(sp, order, c, r) == order && ScoreLocation in order
  {
    EnumerationFails(sp, order, c, r);
  }

  lemma CleanRunScore(sp: Specialism, order: seq<Rule>, w: Weights, c: Candidate, r: Role)
    requires Ready(sp, c, r)
    requires IsEnumeration(order, RuleSet(sp))
    requires !RuleFails(sp, c, r)
    ensures RunRules(sp, order, Fresh, w, c, r).0.score == BaseScore(sp, w, c, r)
  {
    CleanRunRan(sp, order, c, r);
    RunRulesScore(sp, order, Fresh, w, c, r);
    EnumerationSumsAgree(sp, order, w, c, r);
  }

  lemma CleanRunCalled(sp: Specialism, order: seq<Rule>, w: Weights, c: Candidate, r: Role)
    requires Ready(sp, c, r)
    requires IsEnumeration(order, RuleSet(sp))
    requires !RuleFails(sp, c, r)
    ensures RunRules(sp, order, Fresh, w, c, r).0.called == EarnedRules(sp, w, c, r)
  {
    CleanRunRan(sp, order, c, r);
    RunRulesCalled(sp, order, Fresh, w, c, r);
    EnumerationEarnedAgree(sp, order, w, c, r);
    assert Fresh.called + EarnedRules(sp, w, c, r) == EarnedRules(sp, w, c, r);
  }

  /** When no rule fails, the loop runs every rule and keeps the rules' points. */
  lemma {:induction false} CleanRun(sp: Specialism, order: seq<Rule>, w: Weights, c: Candidate, r: Role)
    requires Ready(sp, c, r)
    requires IsEnumeration(order, RuleSet(sp))
    requires !RuleFails(sp, c, r)
    ensures !RunRules(sp, order, Fresh, w, c, r).0.disqualified
    ensures RunRules(sp, order, Fresh, w, c, r).0.score == BaseScore(sp, w, c, r)
    ensures RunRules(sp, order, Fresh, w, c, r).0.called == EarnedRules(sp, w, c, r)
    ensures RunRules(sp, order, Fresh, w, c, r).1 == AfterRelocation(w, c)
  {
    CleanRunRan(sp, order, c, r);
    EnumerationFails(sp, order, c, r);
    RunRulesVerdict(sp, order, Fresh, w, c, r);
    CleanRunScore(sp, order, w, c, r);
    CleanRunCalled(sp, order, w, c, r);
    RunRulesWeights(sp, order, Fresh, w, c, r);
  }

  /** When a rule fails, the loop ends disqualified, with the weights bumped or not. */
  lemma {:induction false} FailedRun(sp: Specialism, order: seq<Rule>, w: Weights, c: Candidate, r: Role)
    requires Ready(sp, c, r)
    requires IsEnumeration(order, RuleSet(sp))
    requires RuleFails(sp, c, r)
    ensures var (e, w') := RunRules(sp, order, Fresh, w, c, r);
            e.disqualified && (w' == w || w' == AfterRelocation(w, c))
  {
    EnumerationFails(sp, order, c, r);
    RunRulesVerdict(sp, order, Fresh, w, c, r);
    RunRulesWeights(sp, order, Fresh, w, c, r);
  }

  /**
   * The verdict of `score_pair`, whatever order the rules run in: the pair
   * is disqualified exactly when some rule of its specialism fails or the
   * points of all its rules fall below the year group's minimum. The
   * generalist preference bonus, which comes after the threshold, never
   * changes the verdict. An acceptable pair scores the rules' points plus
   * that bonus, and leaves the shared weights bumped for a relocated
   * candidate.
   */
  lemma {:induction false} EvaluateSpec(sp: Specialism, order: seq<Rule>, w: Weights, c: Candidate, r: Role)
    requires Ready(sp, c, r)
    requires IsEnumeration(order, RuleSet(sp))
    ensures var (e, w') := Evaluate(sp, order, w, c, r);
            && (e.disqualified <==> Ineligible(sp, w, c, r))
            && (!e.disqualified ==>
                  e.score == BaseScore(sp, w, c, r)
                             + (if sp == Generalist
                                then PreferenceBonus(c.matchPreferences, EarnedRules(sp, w, c, r))
                                else 0))
            && (!e.disqualified ==> w' == AfterRelocation(w, c))
            && (w' == w || w' == AfterRelocation(w, c))
  {
    if RuleFails(sp, c, r) {
      FailedRun(sp, order, w, c, r);
    } else {
      CleanRun(sp, order, w, c, r);
    }
  }

  /** Any two enumerations of a specialism's rules reach the same verdict, and the same outcome when acceptable. */
  lemma OrderIndependent(sp: Specialism, order1: seq<Rule>, order2: seq<Rule>, w: Weights, c: Candidate, r: Role)
    requires Ready(sp, c, r)
    requires IsEnumeration(order1, RuleSet(sp)) && IsEnumeration(order2, RuleSet(sp))
    ensures Evaluate(sp, order1, w, c, r).0.disqualified == Evaluate(sp, order2, w, c, r).0.disqualified
    ensures !Evaluate(sp, order1, w, c, r).0.disqualified ==>
              (Evaluate(sp, order1, w, c, r).0.score == Evaluate(sp, order2, w, c, r).0.score
               && Evaluate(sp, order1, w, c, r).1 == Evaluate(sp, order2, w, c, r).1)
  {
    EvaluateSpec(sp, order1, w, c, r);
    EvaluateSpec(sp, order2, w, c, r);
  }

  /** The minimum score check: One 15, Two 20, Three 25, six-month 0, or 20 for the generalist class. */
  lemma MinScoreTable(sp: Specialism)
    ensures MinScore(sp, One) == 15 && MinScore(sp, Two) == 20 && MinScore(sp, Three) == 25
    ensures MinScore(sp, SixMonth) == (if sp == Generalist then 20 else 0)
  {
  }

  /** The preference bonus: 10 per distinct preference naming a recorded rule, so at most 10 per element. */
  lemma {:induction false} PreferenceBonusBounds(prefs: set<Option<string>>, called: set<Rule>)
    ensures 0 <= PreferenceBonus(prefs, called) <= GR.PreferenceWeight * |prefs|
    ensures (forall p :: p in prefs ==> PreferenceMet(p, called))
            ==> PreferenceBonus(prefs, called) == GR.PreferenceWeight * |prefs|
    ensures PreferenceBonus(prefs - {None}, called) == PreferenceBonus(prefs, called)
  {
    var met := set p | p in prefs && PreferenceMet(p, called);
    assert prefs == met + (prefs - met) && met * (prefs - met) == {};
    var metWithout := set p | p in prefs - {None} && PreferenceMet(p, called);
    assert metWithout == met;
    if forall p :: p in prefs ==> PreferenceMet(p, called) {
      assert met == prefs;
    }
  }

  /** A preference counts only if the rule it names raised the score during the run. */
  lemma PreferenceNeedsEarnedRule(sp: Specialism, rules: seq<Rule>, w: Weights, c: Candidate, r: Role, p: Option<string>)
    requires Ready(sp, c, r)
    requires PreferenceMet(p, Earned(sp, rules, w, c, r))
    ensures sp == Generalist
    ensures Delta(sp, PreferenceRule(p).value, w, c, r) > 0
  {
  }
}
