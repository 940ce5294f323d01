/**
 * What the generalist specialism (fast_stream_22/specialism/generalist/models.py)
 * adds to the base rules: the fix-ups its candidate and role constructors
 * apply, the clearance it reports, its minimum scores, and the checks and
 * bonuses of its extra rules.
 */
module GeneralistRules {
  import opened Levels
  import opened Models
  import opened Wrappers
  import Text
  import PairRules

  const AnchorWeight: int := 15
  const PreferenceWeight: int := 10

  /** The devolved governments a candidate who cannot relocate may visit again. */
  const DevolvedDepartments: set<string> := {"wg", "sg"}

  /** A generalist candidate reports DV clearance as SC; other levels are reported as held. */
  function GeneralistClearance(held: Clearance): (reported: Clearance)
    ensures reported != DV
    ensures held != DV ==> reported == held
  {
    if held == DV then SC else held
  }

  /**
   * Against any required level, the reported clearance fails exactly when
   * the held one does, except that DV holders now fail DV roles.
   */
  lemma GeneralistClearanceFails(held: Clearance, required: Clearance)
    ensures ClearanceBelow(GeneralistClearance(held), required)
        <==> (ClearanceBelow(held, required) || (held == DV && required == DV))
  {
  }

  /** `_fix_previous_departments`: drop "wg" and "sg" when the candidate cannot relocate. */
  function FixPriorDepartments(prior: set<string>, canRelocate: bool): (fixed: set<string>)
    ensures fixed <= prior
    ensures !canRelocate ==> fixed == prior - DevolvedDepartments
    ensures canRelocate ==> fixed == prior
  {
    if canRelocate then prior else prior - DevolvedDepartments
  }

  /**
   * The generalist candidate constructor on an already-read base record:
   * working patterns come from the office-attendance preference and
   * accessibility needs from their comma list, the preferences become the
   * set `{match_pref_2, match_pref_1}`, prior departments are fixed with the
   * original relocation flag, and only afterwards is a six-month candidate
   * made unable to relocate.
   */
  function MakeGeneralistCandidate(base: Candidate, officeAttendance: string, accessibility: string,
                                   pref1: Option<string>, pref2: Option<string>): (c: Candidate)
    ensures c.priorDepartments == FixPriorDepartments(base.priorDepartments, base.canRelocate)
    ensures c.canRelocate == (base.canRelocate && base.yearGroup != SixMonth)
    ensures c.matchPreferences == {pref1, pref2}
    ensures c.workingPatterns == Text.CommaSet(officeAttendance)
    ensures c.accessibilityNeeds == Text.CommaSet(accessibility)
  {
    var fixedBase := base.(workingPatterns := Text.CommaSet(officeAttendance),
                           accessibilityNeeds := Text.CommaSet(accessibility),
                           matchPreferences := {pref2, pref1});
    var fixed := fixedBase.(priorDepartments := FixPriorDepartments(fixedBase.priorDepartments, fixedBase.canRelocate));
    if fixed.yearGroup == SixMonth then fixed.(canRelocate := false) else fixed
  }

  /**
   * Because the fix-up runs first, a six-month candidate who could
   * relocate keeps the devolved governments as prior departments even
   * though the candidate is then recorded as unable to relocate.
   */
  lemma SixMonthKeepsDevolvedPriors(base: Candidate, officeAttendance: string, accessibility: string,
                                    pref1: Option<string>, pref2: Option<string>)
    requires base.yearGroup == SixMonth && base.canRelocate
    ensures var c := MakeGeneralistCandidate(base, officeAttendance, accessibility, pref1, pref2);
            !c.canRelocate && c.priorDepartments == base.priorDepartments
  {
  }

  /** Preferences with equal values, or both missing, collapse to one element. */
  lemma PreferencesCollapse(base: Candidate, officeAttendance: string, accessibility: string, pref: Option<string>)
    ensures |MakeGeneralistCandidate(base, officeAttendance, accessibility, pref, pref).matchPreferences| == 1
  {
    assert {pref, pref} == {pref};
  }

  /** A role suitable for the second year becomes suitable for six-month candidates too. */
  function WidenYearGroups(groups: set<Cohort>): (widened: set<Cohort>)
    ensures groups <= widened
    ensures widened - groups <= {SixMonth}
    ensures SixMonth in widened <==> (SixMonth in groups || Two in groups)
  {
    if Two in groups then groups + {SixMonth} else groups
  }

  /** The generalist role constructor on an already-read base record. */
  function MakeGeneralistRole(base: Role, officeArrangement: string, accessibility: string, anchor: string): (r: Role)
    ensures r.suitableYearGroups == WidenYearGroups(base.suitableYearGroups)
    ensures r.workingPatterns == Text.CommaSet(officeArrangement)
    ensures r.accessibilityAdjustment == Text.CommaSet(accessibility)
    ensures r.anchor == anchor
  {
    base.(workingPatterns := Text.CommaSet(officeArrangement),
          accessibilityAdjustment := Text.CommaSet(accessibility),
          anchor := anchor,
          suitableYearGroups := WidenYearGroups(base.suitableYearGroups))
  }

  /** The generalist `min_score` table: the base table with six-month set to the second year's value. */
  function GeneralistMinScore(y: Cohort): (m: int)
    ensures y == SixMonth ==> m == PairRules.BaseMinScore(Two)
    ensures y != SixMonth ==> m == PairRules.BaseMinScore(y)
  {
    if y == SixMonth then PairRules.BaseMinScore(Two) else PairRules.BaseMinScore(y)
  }

  predicate AccessibilityFails(c: Candidate, r: Role)
  {
    !(c.accessibilityNeeds <= r.accessibilityAdjustment)
  }

  predicate TravelFails(c: Candidate, r: Role)
  {
    r.travel.tier > c.travel.tier
  }

  predicate PriorDepartmentFails(c: Candidate, r: Role)
  {
    r.department in c.priorDepartments
  }

  predicate WorkingPatternFails(c: Candidate, r: Role)
  {
    !(c.workingPatterns <= r.workingPatterns)
  }

  /** The generalist `_score_department`: 10 points for one of the candidate's preferred departments. */
  function DeptPrefBonus(c: Candidate, r: Role): int
  {
    if r.department in c.deptPrefs then PairRules.DepartmentWeight else 0
  }

  /** `_score_anchor`: 15 points when the role's anchor is one the candidate seeks. */
  function AnchorBonus(c: Candidate, r: Role): int
  {
    if r.anchor in {c.primaryAnchor, c.secondaryAnchor} then AnchorWeight else 0
  }

  /**
   * An empty accessibility or working-pattern string is read as the set
   * holding the empty string, so such a candidate passes the subset check
   * only against a role whose own list also produced the empty string.
   */
  lemma EmptyListStillDemands(c: Candidate, r: Role)
    requires c.accessibilityNeeds == Text.CommaSet("")
    ensures AccessibilityFails(c, r) <==> "" !in r.accessibilityAdjustment
  {
    Text.EmptyCommaSet();
  }
}
