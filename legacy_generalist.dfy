/**
 * The older generalist overlay (fast_stream_22/matching/generalist/models.py):
 * four rules taking the candidate and role as arguments, the
 * `register_method_called` bookkeeping around the two scoring ones, the
 * preference bonus, and the set edits the candidate and role
 * constructors make. The rules are evaluated on the current records with
 * the predicates of module GeneralistRules, which state the same checks.
 */
module LegacyGeneralist {
  import opened Models
  import opened Wrappers
  import opened Seqs
  import GR = GeneralistRules
  import PairRules

  /** The overlay's rules. */
  datatype GeneralistRule = CheckTravel | CheckPriorDepartments | ScoreDepartment | ScoreAnchor

  const GeneralistRuleSet: set<GeneralistRule> := {CheckTravel, CheckPriorDepartments, ScoreDepartment, ScoreAnchor}

  predicate IsEnumeration(order: seq<GeneralistRule>)
  {
    NoDup(order) && forall x :: x in order <==> x in GeneralistRuleSet
  }

  /** The `__name__` the decorator records for a scoring rule. */
  function MethodName(rule: GeneralistRule): string
  {
    match rule
    case CheckTravel => "_check_travel"
    case CheckPriorDepartments => "_check_prior_departments"
    case ScoreDepartment => "_score_department"
    case ScoreAnchor => "_score_anchor"
  }

  /** An evaluator's `_score`, `_disqualified` and `methods_called`. */
  datatype GeneralistState = GeneralistState(score: int, disqualified: bool, called: set<string>)

  const Fresh: GeneralistState := GeneralistState(0, false, {})

  function Disqualify(s: GeneralistState, value: bool): (s': GeneralistState)
    ensures s'.disqualified == (s.disqualified || value)
    ensures s'.score == s.score && s'.called == s.called
  {
    if s.disqualified || value then s.(disqualified := true) else s.(disqualified := false)
  }

  /** `register_method_called`: keep the name when the score strictly rose across the call. */
  function Record(name: string, before: int, s: GeneralistState): GeneralistState
  {
    if s.score > before then s.(called := s.called + {name}) else s
  }

  predicate Fails(rule: GeneralistRule, c: Candidate, r: Role)
  {
    match rule
    case CheckTravel => GR.TravelFails(c, r)
    case CheckPriorDepartments => GR.PriorDepartmentFails(c, r)
    case _ => false
  }

  function Points(rule: GeneralistRule, c: Candidate, r: Role): (p: int)
    ensures p >= 0
  {
    match rule
    case ScoreDepartment => GR.DeptPrefBonus(c, r)
    case ScoreAnchor => GR.AnchorBonus(c, r)
    case _ => 0
  }

  function Step(rule: GeneralistRule, s: GeneralistState, c: Candidate, r: Role): GeneralistState
  {
    match rule
    case CheckTravel => Disqualify(s, GR.TravelFails(c, r))
    case CheckPriorDepartments => Disqualify(s, GR.PriorDepartmentFails(c, r))
    case _ => Record(MethodName(rule), s.score, s.(score := s.score + Points(rule, c, r)))
  }

  function Run(order: seq<GeneralistRule>, s: GeneralistState, c: Candidate, r: Role): GeneralistState
  {
    if order == [] then s else Run(order[1..], Step(order[0], s, c, r), c, r)
  }

  /** The rule names the preference values refer to; other values refer to none. */
  function PreferenceName(p: Option<string>): Option<string>
  {
    match p
    case Some("Anchor") => Some("_score_anchor")
    case Some("Location") => Some("_score_location")
    case Some("Department") => Some("_score_department")
    case Some("Skill") => Some("_score_skill")
    case _ => None
  }

  predicate PreferenceMet(p: Option<string>, called: set<string>)
  {
    PreferenceName(p).Some? && PreferenceName(p).value in called
  }

  /** `_score_preferences`: 10 per distinct preference whose rule was recorded. */
  function PreferenceBonus(prefs: set<Option<string>>, called: set<string>): int
  {
    GR.PreferenceWeight * |set p | p in prefs && PreferenceMet(p, called)|
  }

  /** `score_pair`: the rules, then the preference bonus. */
  function ScorePairFrom(order: seq<GeneralistRule>, s: GeneralistState, c: Candidate, r: Role): GeneralistState
  {
    var s1 := Run(order, s, c, r);
    s1.(score := s1.score + PreferenceBonus(c.matchPreferences, s1.called))
  }

  function SumPoints(order: seq<GeneralistRule>, c: Candidate, r: Role): int
  {
    if order == [] then 0 else Points(order[0], c, r) + SumPoints(order[1..], c, r)
  }

  /** The names recorded for the rules of `order` that add points. */
  function Earned(order: seq<GeneralistRule>, c: Candidate, r: Role): set<string>
  {
    set x | x in order && Points(x, c, r) > 0 :: MethodName(x)
  }

  /** The names recorded for this pair over all four rules. */
  function EarnedNames(c: Candidate, r: Role): set<string>
  {
    (if GR.DeptPrefBonus(c, r) > 0 then {"_score_department"} else {})
    + (if GR.AnchorBonus(c, r) > 0 then {"_score_anchor"} else {})
  }

  // ---------------------------------------------------------------
  // Lemmas
  // ---------------------------------------------------------------

  /** A scoring rule records its name exactly when it adds points; the two checks record nothing. */
  lemma StepRecords(rule: GeneralistRule, s: GeneralistState, c: Candidate, r: Role)
    ensures Step(rule, s, c, r).called
         == s.called + (if Points(rule, c, r) > 0 then {MethodName(rule)} else {})
    ensures Step(rule, s, c, r).score == s.score + Points(rule, c, r)
    ensures Step(rule, s, c, r).disqualified == (s.disqualified || Fails(rule, c, r))
  {
  }

  /** In any order, the rules add their points, record the names of those that scored, and disqualify on any failure. */
  lemma {:induction false} RunSpec(order: seq<GeneralistRule>, s: GeneralistState, c: Candidate, r: Role)
    ensures Run(order, s, c, r).score == s.score + SumPoints(order, c, r)
    ensures Run(order, s, c, r).called == s.called + Earned(order, c, r)
    ensures Run(order, s, c, r).disqualified == (s.disqualified || exists k :: 0 <= k < |order| && Fails(order[k], c, r))
  {
    if order != [] {
      var s1 := Step(order[0], s, c, r);
      StepRecords(order[0], s, c, r);
      RunSpec(order[1..], s1, c, r);
      assert forall x :: x in order <==> x == order[0] || x in order[1..];
      assert Earned(order, c, r)
          == (if Points(order[0], c, r) > 0 then {MethodName(order[0])} else {}) + Earned(order[1..], c, r);
      if exists k :: 0 <= k < |order[1..]| && Fails(order[1..][k], c, r) {
        var k :| 0 <= k < |order[1..]| && Fails(order[1..][k], c, r);
        assert Fails(order[k + 1], c, r);
      }
      if exists k :: 0 <= k < |order| && Fails(order[k], c, r) {
        var k :| 0 <= k < |order| && Fails(order[k], c, r);
        if k > 0 {
          assert Fails(order[1..][k - 1], c, r);
        }
      }
    }
  }

  lemma {:induction false} SumPointsDistinct(order: seq<GeneralistRule>, c: Candidate, r: Role)
    requires NoDup(order)
    ensures SumPoints(order, c, r)
         == (if ScoreDepartment in order then GR.DeptPrefBonus(c, r) else 0)
          + (if ScoreAnchor in order then GR.AnchorBonus(c, r) else 0)
  {
    if order != [] {
      NoDupTail(order);
      SumPointsDistinct(order[1..], c, r);
      assert forall x :: x in order <==> x == order[0] || x in order[1..];
    }
  }

  /**
   * `score_pair` on a fresh evaluator, over any enumeration of the rules:
   * disqualified exactly when the travel tier or a prior department
   * fails, with the department and anchor points, the names of the rules
   * that scored, and 10 more per preference naming one of those rules.
   */
  lemma ScorePairSpec(order: seq<GeneralistRule>, c: Candidate, r: Role)
    requires IsEnumeration(order)
    ensures var s := ScorePairFrom(order, Fresh, c, r);
            (s.disqualified <==> GR.TravelFails(c, r) || GR.PriorDepartmentFails(c, r))
            && s.called == EarnedNames(c, r)
            && s.score == GR.DeptPrefBonus(c, r) + GR.AnchorBonus(c, r)
                          + PreferenceBonus(c.matchPreferences, EarnedNames(c, r))
  {
    RunSpec(order, Fresh, c, r);
    SumPointsDistinct(order, c, r);
    assert ScoreDepartment in GeneralistRuleSet && ScoreAnchor in GeneralistRuleSet;
    assert CheckTravel in GeneralistRuleSet && CheckPriorDepartments in GeneralistRuleSet;
    var i :| 0 <= i < |order| && order[i] == CheckTravel;
    var j :| 0 <= j < |order| && order[j] == CheckPriorDepartments;
    if exists k :: 0 <= k < |order| && Fails(order[k], c, r) {
      var k :| 0 <= k < |order| && Fails(order[k], c, r);
      assert order[k] in {CheckTravel, CheckPriorDepartments};
    }
    var e := Earned(order, c, r);
    forall n ensures n in e <==> n in EarnedNames(c, r) {
      if n in EarnedNames(c, r) {
        var x := if n == "_score_department" then ScoreDepartment else ScoreAnchor;
        assert x in order && MethodName(x) == n;
      }
    }
  }

  /**
   * The bonus counts each distinct preference value once: two equal
   * preferences, or two missing ones, yield at most 10, and a missing or
   * unknown preference never counts.
   */
  lemma {:induction false} PreferenceBonusBounds(prefs: set<Option<string>>, called: set<string>)
    ensures 0 <= PreferenceBonus(prefs, called) <= GR.PreferenceWeight * |prefs|
    ensures PreferenceBonus(prefs - {None}, called) == PreferenceBonus(prefs, called)
  {
    var met := set p | p in prefs && PreferenceMet(p, called);
    assert met <= prefs;
    SubsetCard(met, prefs);
    var metWithout := set p | p in prefs - {None} && PreferenceMet(p, called);
    assert metWithout == met;
  }

  lemma SubsetCard<T>(a: set<T>, b: set<T>)
    requires a <= b
    ensures |a| <= |b|
  {
    assert b == a + (b - a);
  }

  /** The location and skill preferences never count, because this overlay has no rule that records those names. */
  lemma UnrecordedPreferences(order: seq<GeneralistRule>, c: Candidate, r: Role)
    requires IsEnumeration(order)
    ensures !PreferenceMet(Some("Location"), ScorePairFrom(order, Fresh, c, r).called)
    ensures !PreferenceMet(Some("Skill"), ScorePairFrom(order, Fresh, c, r).called)
  {
    ScorePairSpec(order, c, r);
  }

  // ---------------------------------------------------------------
  // Constructor fix-ups
  // ---------------------------------------------------------------

  /** `_fix_previous_departments`: discard "wg" then "sg" when the candidate cannot relocate. */
  method FixPreviousDepartments(prior: set<string>, canRelocate: bool) returns (fixed: set<string>)
    ensures fixed == GR.FixPriorDepartments(prior, canRelocate)
  {
    fixed := prior;
    if !canRelocate {
      var devolved := ["wg", "sg"];
      for k := 0 to 2
        invariant forall d :: d in fixed <==> d in prior && d !in devolved[..k]
      {
        assert devolved[..k + 1] == devolved[..k] + [devolved[k]];
        fixed := fixed - {devolved[k]};
      }
      assert devolved[..2] == devolved;
      assert forall d :: d in devolved <==> d in GR.DevolvedDepartments;
    }
  }

  /** The role constructor adds six-month candidates to a role suitable for the second year. */
  method WidenYearGroups(groups: set<Cohort>) returns (widened: set<Cohort>)
    ensures widened == GR.WidenYearGroups(groups)
  {
    widened := groups;
    if Two in widened {
      widened := widened + {SixMonth};
    }
  }

  // ---------------------------------------------------------------
  // The object
  // ---------------------------------------------------------------

  /** A `GeneralistPair`; its rules take the candidate and the role as arguments. */
  class GeneralistPair {
    var score: int
    var disqualified: bool
    var methodsCalled: set<string>

    function State(): GeneralistState
      reads this
    {
      GeneralistState(score, disqualified, methodsCalled)
    }

    constructor ()
      ensures State() == Fresh
    {
      score := 0;
      disqualified := false;
      methodsCalled := {};
    }

    method SetDisqualified(value: bool)
      modifies this
      ensures State() == Disqualify(old(State()), value)
    {
      if disqualified || value {
        disqualified := true;
      } else {
        disqualified := false;
      }
    }

    /** The bookkeeping `register_method_called` adds once the wrapped rule has run. */
    method RegisterMethodCalled(name: string, before: int)
      modifies this
      ensures State() == Record(name, before, old(State()))
    {
      if score > before {
        methodsCalled := methodsCalled + {name};
      }
    }

    method CheckTravel(c: Candidate, r: Role)
      modifies this
      ensures State() == Step(GeneralistRule.CheckTravel, old(State()), c, r)
    {
      SetDisqualified(r.travel.tier > c.travel.tier);
    }

    method CheckPriorDepartments(c: Candidate, r: Role)
      modifies this
      ensures State() == Step(GeneralistRule.CheckPriorDepartments, old(State()), c, r)
    {
      SetDisqualified(r.department in c.priorDepartments);
    }

    method ScoreDepartment(c: Candidate, r: Role)
      modifies this
      ensures State() == Step(GeneralistRule.ScoreDepartment, old(State()), c, r)
    {
      var before := score;
      if r.department in c.deptPrefs {
        score := score + PairRules.DepartmentWeight;
      }
      RegisterMethodCalled("_score_department", before);
    }

    method ScoreAnchor(c: Candidate, r: Role)
      modifies this
      ensures State() == Step(GeneralistRule.ScoreAnchor, old(State()), c, r)
    {
      var before := score;
      if r.anchor in {c.primaryAnchor, c.secondaryAnchor} {
        score := score + GR.AnchorWeight;
      }
      RegisterMethodCalled("_score_anchor", before);
    }

    method Apply(rule: GeneralistRule, c: Candidate, r: Role)
      modifies this
      ensures State() == Step(rule, old(State()), c, r)
    {
      match rule
      case CheckTravel => CheckTravel(c, r);
      case CheckPriorDepartments => CheckPriorDepartments(c, r);
      case ScoreDepartment => ScoreDepartment(c, r);
      case ScoreAnchor => ScoreAnchor(c, r);
    }

    /** `_score_preferences`: walk the preference set, adding 10 for each whose rule was recorded. */
    method ScorePreferences(c: Candidate)
      modifies this
      ensures State() == old(State()).(score := old(score) + PreferenceBonus(c.matchPreferences, old(methodsCalled)))
    {
      var prefs := c.matchPreferences;
      var left := prefs;
      while left != {}
        invariant left <= prefs
        invariant score == old(score) + GR.PreferenceWeight * |set p | p in prefs - left && PreferenceMet(p, methodsCalled)|
        invariant disqualified == old(disqualified) && methodsCalled == old(methodsCalled)
        decreases |left|
      {
        var p :| p in left;
        ghost var metBefore := set q | q in prefs - left && PreferenceMet(q, methodsCalled);
        ghost var metAfter := set q | q in prefs - (left - {p}) && PreferenceMet(q, methodsCalled);
        if PreferenceName(p).Some? && PreferenceName(p).value in methodsCalled {
          score := score + GR.PreferenceWeight;
          assert metAfter == metBefore + {p};
        } else {
          assert metAfter == metBefore;
        }
        left := left - {p};
      }
      assert prefs - left == prefs;
    }

    /** `score_pair`: the rules in the enumeration `order`, then the preference bonus; returns the score. */
    method ScorePair(order: seq<GeneralistRule>, c: Candidate, r: Role) returns (result: int)
      modifies this
      ensures State() == ScorePairFrom(order, old(State()), c, r)
      ensures result == score
    {
      for i := 0 to |order|
        invariant Run(order[i..], State(), c, r) == Run(order, old(State()), c, r)
      {
        assert order[i..][0] == order[i] && order[i..][1..] == order[i + 1..];
        Apply(order[i], c, r);
      }
      assert order[|order|..] == [];
      ScorePreferences(c);
      result := score;
    }
  }

  /** A new evaluator scored over any enumeration of the rules. */
  method EvaluatePair(order: seq<GeneralistRule>, c: Candidate, r: Role) returns (disqualified: bool, score: int)
    requires IsEnumeration(order)
    ensures disqualified <==> GR.TravelFails(c, r) || GR.PriorDepartmentFails(c, r)
    ensures score == GR.DeptPrefBonus(c, r) + GR.AnchorBonus(c, r)
                     + PreferenceBonus(c.matchPreferences, EarnedNames(c, r))
  {
    var pair := new GeneralistPair();
    score := pair.ScorePair(order, c, r);
    disqualified := pair.disqualified;
    ScorePairSpec(order, c, r);
  }
}
