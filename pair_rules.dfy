/**
 * The comparisons and amounts behind the rules of the current pair
 * evaluator (`BasePair` in fast_stream_22/specialism/pair.py). Each check
 * is a predicate saying when the pair must be disqualified; each scoring
 * rule is a function giving the points it adds.
 */
module PairRules {
  import opened Levels
  import opened Models

  // The class-level `scoring_weights` table.
  const FirstLocationWeight: int := 10
  const SecondLocationWeight: int := 5
  const DepartmentWeight: int := 10
  const SkillWeight: int := 20
  const StretchWeight: int := 10
  const YearAppropriateWeight: int := 5
  const HasRelocatedWeight: int := 10

  /** Points taken off when a role repeats the candidate's last secondary skill. */
  const SkillRepeatPenalty: int := 5

  /**
   * The two entries of `scoring_weights` that the location rule changes.
   * The table is shared by every pair of one class, so these values move
   * from one evaluation to the next.
   */
  datatype Weights = Weights(firstLocation: int, secondLocation: int)

  const InitialWeights: Weights := Weights(FirstLocationWeight, SecondLocationWeight)

  /** What `_score_location` does to the shared table before scoring a candidate. */
  function AfterRelocation(w: Weights, c: Candidate): (w': Weights)
    ensures c.hasRelocated ==>
              w'.firstLocation == w.firstLocation + HasRelocatedWeight
              && w'.secondLocation == w.secondLocation + HasRelocatedWeight
    ensures !c.hasRelocated ==> w' == w
  {
    if c.hasRelocated
    then Weights(w.firstLocation + HasRelocatedWeight, w.secondLocation + HasRelocatedWeight)
    else w
  }

  /** Every relocated candidate scored so far has raised both location weights by the same 10. */
  lemma WeightsAfterRelocations(cs: seq<Candidate>, w: Weights, n: nat)
    requires n == |set i | 0 <= i < |cs| && cs[i].hasRelocated|
    ensures FoldRelocations(cs, w)
         == Weights(w.firstLocation + HasRelocatedWeight * n, w.secondLocation + HasRelocatedWeight * n)
  {
    RelocationsCount(cs);
    FoldRelocationsCount(cs, w);
  }

  /** How many candidates of `cs` have relocated, counted from the back. */
  function Relocations(cs: seq<Candidate>): nat
  {
    if cs == [] then 0 else Relocations(cs[..|cs| - 1]) + if cs[|cs| - 1].hasRelocated then 1 else 0
  }

  lemma {:induction false} RelocationsCount(cs: seq<Candidate>)
    ensures Relocations(cs) == |set i | 0 <= i < |cs| && cs[i].hasRelocated|
  {
    if cs != [] {
      var last := |cs| - 1;
      RelocationsCount(cs[..last]);
      var before := set i | 0 <= i < last && cs[..last][i].hasRelocated;
      var all := set i | 0 <= i < |cs| && cs[i].hasRelocated;
      assert before == set i | 0 <= i < last && cs[i].hasRelocated;
      if cs[last].hasRelocated {
        assert all == before + {last};
      } else {
        assert all == before;
      }
    }
  }

  lemma {:induction false} FoldRelocationsCount(cs: seq<Candidate>, w: Weights)
    ensures FoldRelocations(cs, w)
         == Weights(w.firstLocation + HasRelocatedWeight * Relocations(cs),
                    w.secondLocation + HasRelocatedWeight * Relocations(cs))
  {
    if cs != [] {
      FoldRelocationsCount(cs[..|cs| - 1], w);
    }
  }

  /** The shared weights after scoring the location of each candidate of `cs` in turn. */
  function FoldRelocations(cs: seq<Candidate>, w: Weights): Weights
  {
    if cs == [] then w else AfterRelocation(FoldRelocations(cs[..|cs| - 1], w), cs[|cs| - 1])
  }

  /** `min_score.get(year_group, 0)` on the base table. */
  function BaseMinScore(y: Cohort): (m: int)
    ensures y == One ==> m == 15
    ensures y == Two ==> m == 20
    ensures y == Three ==> m == 25
    ensures y == SixMonth ==> m == 0
  {
    match y
    case One => 15
    case Two => 20
    case Three => 25
    case SixMonth => 0
  }

  /**
   * The role can be done from anywhere, or one of the candidate's two
   * preferred locations is among the role's locations.
   */
  predicate LocationAcceptable(c: Candidate, r: Role)
  {
    r.fromAnywhere || !({c.firstLocation, c.secondLocation} !! r.locations)
  }

  /** `_check_location` disqualifies a candidate who cannot relocate and whose role is not acceptable. */
  predicate LocationFails(c: Candidate, r: Role)
  {
    !c.canRelocate && !LocationAcceptable(c, r)
  }

  /** The points `_score_location` adds, with the weights after any relocation bump. */
  function LocationScore(w: Weights, c: Candidate, r: Role): int
  {
    if r.fromAnywhere then w.firstLocation
    else if c.firstLocation in r.locations || c.firstLocation == "Any" then w.firstLocation
    else if c.secondLocation in r.locations || c.secondLocation == "Any" then w.secondLocation
    else 0
  }

  /**
   * The location score never exceeds the first-location weight when that
   * is the larger one, and it is zero only for a role that neither
   * preferred location names (and that is not location-free).
   */
  lemma LocationScoreBounds(w: Weights, c: Candidate, r: Role)
    requires 0 < w.secondLocation <= w.firstLocation
    ensures 0 <= LocationScore(w, c, r) <= w.firstLocation
    ensures LocationScore(w, c, r) == 0 <==>
              (!r.fromAnywhere && c.firstLocation !in r.locations && c.firstLocation != "Any"
               && c.secondLocation !in r.locations && c.secondLocation != "Any")
  {
  }

  /** A role that passes the location check scores at least the second-location weight. */
  lemma {:induction false} AcceptableLocationScores(w: Weights, c: Candidate, r: Role)
    requires 0 < w.secondLocation <= w.firstLocation
    requires LocationAcceptable(c, r)
    ensures LocationScore(w, c, r) >= w.secondLocation
  {
    if !r.fromAnywhere && c.firstLocation !in r.locations {
      assert c.secondLocation in {c.firstLocation, c.secondLocation} * r.locations;
    }
  }

  predicate ClearanceFails(held: Clearance, r: Role)
  {
    ClearanceBelow(held, r.clearance)
  }

  predicate NationalityFails(c: Candidate, r: Role)
  {
    RequirementExceeds(r.nationalityRequirement, c.nationality)
  }

  predicate PassportFails(c: Candidate, r: Role)
  {
    r.passportRequirement && !c.hasPassport
  }

  predicate YearGroupFails(c: Candidate, r: Role)
  {
    c.yearGroup !in r.suitableYearGroups
  }

  predicate EthicsFails(c: Candidate, r: Role)
  {
    (c.noImmigration && r.immigrationRole) || (c.noDefence && r.defenceRole)
  }

  /** An unwanted private-office or line-management role. */
  predicate StretchRefused(c: Candidate, r: Role)
  {
    (!c.wantsPrivateOffice && r.privateOfficeRole) || (!c.wantsLineManagement && r.lineManagementRole)
  }

  /** `_score_stretch`: 10 for each stretch dimension both wanted and offered. */
  function StretchBonus(c: Candidate, r: Role): int
  {
    (if c.wantsPrivateOffice && r.privateOfficeRole then StretchWeight else 0)
    + (if c.wantsLineManagement && r.lineManagementRole then StretchWeight else 0)
  }

  /**
   * Once the stretch check has passed, every stretch dimension the role
   * offers is one the candidate wants, so each earns its 10 points.
   */
  lemma StretchBonusWhenAccepted(c: Candidate, r: Role)
    requires !StretchRefused(c, r)
    ensures StretchBonus(c, r)
         == (if r.privateOfficeRole then StretchWeight else 0) + (if r.lineManagementRole then StretchWeight else 0)
    ensures 0 <= StretchBonus(c, r) <= 2 * StretchWeight
  {
  }

  /** `_score_year_only`: 5 points when the role suits only the candidate's year group. */
  function YearOnlyBonus(c: Candidate, r: Role): int
  {
    if |r.suitableYearGroups| == 1 && c.yearGroup in r.suitableYearGroups then YearAppropriateWeight else 0
  }

  lemma {:induction false} YearOnlyBonusMeaning(c: Candidate, r: Role)
    ensures YearOnlyBonus(c, r) == (if r.suitableYearGroups == {c.yearGroup} then YearAppropriateWeight else 0)
  {
    if |r.suitableYearGroups| == 1 && c.yearGroup in r.suitableYearGroups {
      var rest := r.suitableYearGroups - {c.yearGroup};
      assert |rest| == 0;
      assert r.suitableYearGroups == {c.yearGroup} + rest;
    }
  }

  /** The base `_score_department`: 10 points for a department the candidate has not been in. */
  function DepartmentBonus(c: Candidate, r: Role): int
  {
    if r.department !in c.priorDepartments then DepartmentWeight else 0
  }

  /**
   * Step `k` (0 to 3) of the skill sweep compares skill `k / 2` of
   * (primary, secondary) with focus `k % 2` of (skill focus, secondary
   * focus); a match earns `20 - 5k`.
   */
  function SweepTerm(c: Candidate, r: Role, k: nat): int
    requires k < 4
  {
    var skill := if k / 2 == 0 then c.primarySkill else c.secondarySkill;
    var focus := if k % 2 == 0 then r.skillFocus else r.secondaryFocus;
    if skill == focus then SkillWeight - 5 * k else 0
  }

  /** The points the first `n` steps of the sweep earn. */
  function SweepUpTo(c: Candidate, r: Role, n: nat): int
    requires n <= 4
  {
    if n == 0 then 0 else SweepUpTo(c, r, n - 1) + SweepTerm(c, r, n - 1)
  }

  /** Step `2i + j` of the sweep, as the nested loops over skills `i` and foci `j` see it. */
  lemma SweepStep(c: Candidate, r: Role, i: nat, j: nat)
    requires i < 2 && j < 2
    ensures SweepUpTo(c, r, 2 * i + j + 1)
         == SweepUpTo(c, r, 2 * i + j)
          + if [c.primarySkill, c.secondarySkill][i] == [r.skillFocus, r.secondaryFocus][j]
            then SkillWeight - 5 * (2 * i + j) else 0
  {
    var k := 2 * i + j;
    assert k / 2 == i && k % 2 == j;
  }

  function RepeatPenalty(c: Candidate, r: Role): int
  {
    if r.secondaryFocus == c.lastRoleSecondarySkill then SkillRepeatPenalty else 0
  }

  /** The net change `_score_skill` makes to the score. */
  function SkillDelta(c: Candidate, r: Role): int
  {
    SweepUpTo(c, r, 4) - RepeatPenalty(c, r)
  }

  /** The sweep adds 20, 15, 10 and 5 for the four matches, in that order. */
  lemma SweepClosedForm(c: Candidate, r: Role)
    ensures SweepUpTo(c, r, 4)
         == (if c.primarySkill == r.skillFocus then 20 else 0)
          + (if c.primarySkill == r.secondaryFocus then 15 else 0)
          + (if c.secondarySkill == r.skillFocus then 10 else 0)
          + (if c.secondarySkill == r.secondaryFocus then 5 else 0)
  {
    assert SweepTerm(c, r, 0) == (if c.primarySkill == r.skillFocus then 20 else 0);
    assert SweepTerm(c, r, 1) == (if c.primarySkill == r.secondaryFocus then 15 else 0);
    assert SweepTerm(c, r, 2) == (if c.secondarySkill == r.skillFocus then 10 else 0);
    assert SweepTerm(c, r, 3) == (if c.secondarySkill == r.secondaryFocus then 5 else 0);
    assert SweepUpTo(c, r, 1) == SweepTerm(c, r, 0);
    assert SweepUpTo(c, r, 2) == SweepUpTo(c, r, 1) + SweepTerm(c, r, 1);
    assert SweepUpTo(c, r, 3) == SweepUpTo(c, r, 2) + SweepTerm(c, r, 2);
    assert SweepUpTo(c, r, 4) == SweepUpTo(c, r, 3) + SweepTerm(c, r, 3);
  }

  /** The skill rule's net contribution lies between -5 and 50. */
  lemma SkillDeltaRange(c: Candidate, r: Role)
    ensures -SkillRepeatPenalty <= SkillDelta(c, r) <= 50
  {
    SweepClosedForm(c, r);
  }

  /** The maximum of 50 needs both candidate skills to equal both role foci, so the four are one skill. */
  lemma SkillDeltaMaximum(c: Candidate, r: Role)
    requires SkillDelta(c, r) == 50
    ensures c.primarySkill == c.secondarySkill == r.skillFocus == r.secondaryFocus
    ensures r.secondaryFocus != c.lastRoleSecondarySkill
  {
    SweepClosedForm(c, r);
  }
}
