# fs-rotation matching core in Dafny

This project models the part of the Fast Stream rotation matcher that decides which candidate may take which role,
and how well they fit. It also models the loop that hands each cohort's candidates to departmental bids, round after
round. It covers four generations of that code:

- **The current matcher** (`fast_stream_22/specialism/`, `fast_stream_22/matching/match.py`).
  - An evaluator object runs every registered rule method of its pair class: the base `Pair`, `GeneralistPair` or
    `SefsPair`. It returns as soon as the pair is disqualified, then applies the minimum score of the candidate's
    year group.
  - `Matching` builds the score grid of a round, rejects roles nobody may take, inverts the grid into a cost matrix
    for an assignment solver and converts the solver's answer back to uids.
  - `Process` prepares a shortlist of roles from each department's bid, plays up to five rounds per cohort, marks
    the paired records, counts the bids and records the pairings.
  - `IterationOutcome` summarises the result.
- **The older evaluator** (`fast_stream_22/matching/pair.py`): the same rule-method scheme without the early exit,
  with a fixed threshold of 20.
- **The oldest evaluator** (`fast_stream_22/matching/models.py`): nine rules called in a fixed order, with a priority
  bonus. It also includes the older generalist overlay (`fast_stream_22/matching/generalist/models.py`).
- **The first matcher** (`matching/`): scoring functions combined by a weight map into a grid, masked and handed to the
  solver.

Each Python class whose fields its methods update is a Dafny `class`. The class has those fields, one method per
Python method, and loops where the source loops. Each rule, scoring and bookkeeping method is proved equal to a
specification function on values: `Scoring.Step`, `Scoring.RunRules`, `LegacyPair.StepAsWritten`, `MatchRound.Grid`,
`Rounds.Shortlist`, and so on. What the source promises is then proved about those functions as lemmas. The round and
cohort drivers of `Process` (`Attempt`, `PlayRound`, `SolveRound`, `MatchCohort`, `Compute`) are specified by the
properties they keep instead. Two examples:

- The verdict of `score_pair` does not depend on the order in which the rule set is visited.
- A department never puts forward more roles than its bid allows.

Candidate and role attributes that the process flips (`paired`, `no_match`) are boolean lists beside the
constant records. `Process.Candidates()` and `Process.Roles()` rebuild the Python lists from them.

The module that declares the current candidate and role records, `fast_stream_22/specialism/models.py`, is not part
of this model. `Models` keeps only the fields the rules and the process read, already converted from CSV text.

## Model

| member | source | states |
|---|---|---|
| `Levels.ClearanceOrderTotal` | fast_stream_22/matching/models.py:11-15 | clearance levels compare by their integer values BPSS 1 < CTC 2 < SC 3 < DV 4, a strict total order |
| `Levels.RequirementMeaning` | fast_stream_22/matching/models.py:18-27 | `requirement > held`: nobody fails "no restriction"; only rest-of-world fails "dual national"; everyone but British nationals fails "British national" |
| `Models.CohortValue` | fast_stream_22/matching/match.py:100-102 | each cohort has a sort value between 1 and 4 (One, Two, Three, six-month), which `compute` sorts by |
| `Models.UidIndex` | fast_stream_22/matching/match.py:73-77 | a `{x.uid: x}` lookup finds the last item with that uid, and finds nothing exactly when the uid is absent (`KeyError`) |
| `Models.UidIndexDistinct` | fast_stream_22/matching/match.py:73-77 | with distinct uids, the dictionary finds every record at its own position |
| `Bids.DepartmentLowered` | fast_stream_22/matching/match.py:51-53 | with lower-casing on the letters A to Z, the `department` property keeps the name's length and is already lower case, so lowering it again is the identity |
| `Bids.MinNumberBounds` | fast_stream_22/matching/match.py:42-49 | `min_number` of a bid of n ≥ 0 lies in 0..n, and is below n once n ≥ 2 |
| `Bids.MinNumberRounds` | fast_stream_22/matching/match.py:46-49 | from 5 on, `min_number` is within half a unit of 0.8·n: `-2 <= 5*min - 4*n <= 2` |
| `Bids.LookupSpec` | fast_stream_22/matching/match.py:262 | `cohort_bids[dept]` raises `KeyError` exactly when the department is not a key; otherwise it finds one of the items filed under that key |
| `Bids.DictSetLookup` | fast_stream_22/matching/match.py:182-186 | after `d[key] = v`, key finds v and every other key finds what it found before |
| `Bids.LastOpenBid` | fast_stream_22/matching/match.py:181-186 | the bid found is open (of the cohort, `count < number`) and of the department |
| `Bids.LastOpenBidSpec` | fast_stream_22/matching/match.py:181-186 | no later bid is both open and of the department; when nothing is found, no bid is both |
| `Bids.CohortBidsNoDup` | fast_stream_22/matching/match.py:181-186 | the comprehension has one entry per department |
| `Bids.CohortBidsLookup` | fast_stream_22/matching/match.py:181-186 | `_cohort_bids(cohort)[dept]` is the last open bid of that cohort and department, and there is none when no such bid exists |
| `Bids.CohortBidsEntries` | fast_stream_22/matching/match.py:181-186 | every entry is an open bid of the cohort, filed under its own department |
| `Bids.BidOrder` | fast_stream_22/matching/match.py:205-207 | the bids visited are exactly the values of `_cohort_bids` (as a multiset) |
| `Bids.BidOrderOpen` | fast_stream_22/matching/match.py:205-207 | every visited bid is open and is the entry of its own department |
| `Bids.CohortBidsValuesDistinct` | fast_stream_22/matching/match.py:181-186 | the dictionary holds each bid at most once |
| `Bids.BidOrderDepartmentsDistinct` | fast_stream_22/matching/match.py:205-207 | two visited bids are of different departments |
| `Bids.BidOrderAscending` | fast_stream_22/matching/match.py:205-207 | `sorted(..., key=number)` visits the bids in ascending `number` |
| `Bids.CohortOrderElements` | fast_stream_22/matching/match.py:100-102 | `compute` visits exactly the cohorts that have a bid |
| `Bids.CohortOrderSorted` | fast_stream_22/matching/match.py:100-102 | each such cohort is visited once; junior first, or senior first when `senior_to_junior` holds |
| `Bids.AllCohortsListed` | fast_stream_22/matching/match.py:100-102 | every cohort value is among those `compute` can visit |
| `PairRules.AfterRelocation` | fast_stream_22/specialism/pair.py:107-113 | for a relocated candidate, both location weights rise by `has_relocated` (10); otherwise the weights are unchanged |
| `PairRules.WeightsAfterRelocations` | fast_stream_22/specialism/pair.py:107-113 | the class-level table is shared: after scoring a list of candidates, both location weights have risen by 10 per relocated candidate |
| `PairRules.BaseMinScore` | fast_stream_22/specialism/pair.py:51 | `min_score.get(year, 0)`: One 15, Two 20, Three 25; six-month has no entry, so 0 |
| `PairRules.LocationScoreBounds` | fast_stream_22/specialism/pair.py:115-126 | the location points lie between 0 and the first-location weight; they are 0 exactly when the role is not from anywhere and neither preference matches or is "Any" |
| `PairRules.AcceptableLocationScores` | fast_stream_22/specialism/pair.py:89-126 | a role that passes `_check_location` earns at least the second-location weight |
| `PairRules.StretchBonusWhenAccepted` | fast_stream_22/specialism/pair.py:161-175 | when the stretch check passes, the stretch points are 10 per offered stretch dimension, 0 to 20 |
| `PairRules.YearOnlyBonusMeaning` | fast_stream_22/specialism/pair.py:178-186 | 5 points exactly when the role suits only the candidate's year group |
| `PairRules.SweepClosedForm` | fast_stream_22/specialism/pair.py:197-202 | the nested skill loop adds 20, 15, 10 and 5 for primary/skill-focus, primary/secondary-focus, secondary/skill-focus, secondary/secondary-focus |
| `PairRules.SkillDeltaRange` | fast_stream_22/specialism/pair.py:194-202 | the net skill contribution, repeat penalty included, lies between -5 and 50 |
| `PairRules.SkillDeltaMaximum` | fast_stream_22/specialism/pair.py:194-202 | 50 points need both skills to equal both foci, and no repeat of the last secondary skill |
| `GeneralistRules.GeneralistClearance` | fast_stream_22/specialism/generalist/models.py:78-80 | a generalist reports DV as SC and every other level as held |
| `GeneralistRules.GeneralistClearanceFails` | fast_stream_22/specialism/generalist/models.py:78-80 | so a DV holder fails a DV role, which the base class would accept |
| `GeneralistRules.FixPriorDepartments` | fast_stream_22/specialism/generalist/models.py:67-76 | a candidate who cannot relocate loses "wg" and "sg" from the prior departments and nothing else; otherwise nothing changes |
| `GeneralistRules.MakeGeneralistCandidate` | fast_stream_22/specialism/generalist/models.py:31-65 | the prior departments are fixed using the base `can_relocate`, before a six-month candidate's `can_relocate` is cleared; preferences are the set of the two; working patterns and accessibility needs are read as comma sets |
| `GeneralistRules.SixMonthKeepsDevolvedPriors` | fast_stream_22/specialism/generalist/models.py:62-65 | a six-month candidate who could relocate keeps "wg"/"sg" as prior departments even though `can_relocate` ends up false |
| `GeneralistRules.PreferencesCollapse` | fast_stream_22/specialism/generalist/models.py:48 | two equal preferences, or two missing ones, form a one-element set |
| `GeneralistRules.WidenYearGroups` | fast_stream_22/specialism/generalist/models.py:92-93 | the role's year groups only grow, by six-month at most, and include six-month exactly when they held it or the second year |
| `GeneralistRules.MakeGeneralistRole` | fast_stream_22/specialism/generalist/models.py:87-93 | the role's year groups are widened, working patterns and adjustments are read as comma sets, and the anchor is kept |
| `GeneralistRules.GeneralistMinScore` | fast_stream_22/specialism/generalist/models.py:121-124 | the base table, with six-month given the second year's minimum |
| `GeneralistRules.EmptyListStillDemands` | fast_stream_22/specialism/generalist/models.py:22-27 | an empty accessibility field reads as `{""}`, so such a candidate passes only roles whose adjustments contain the empty item |
| `Text.CommaSetItems` | fast_stream_22/specialism/generalist/models.py:10-14 | every item read from a comma list is free of commas, and neither starts nor ends with a character Python's `str.strip()` removes |
| `Text.EmptyCommaSet` | fast_stream_22/specialism/generalist/models.py:22-27 | an empty field reads as the one-element set holding the empty string |
| `SefsRules.RoleSkills` | fast_stream_22/specialism/SEFS/models.py:33-39 | the role's competency table has exactly the five competencies, each mapped to its constructor argument |
| `SefsRules.ValenceEntries` | fast_stream_22/specialism/SEFS/models.py:52-55 | the valence dictionary has one or two entries; a secondary skill equal to the primary overwrites its valence |
| `SefsRules.RawScoreClosedForm` | fast_stream_22/specialism/SEFS/models.py:56-60 | the raw skill score is 20 for a "P" primary competency plus 16 for a "P" secondary one; a competency given twice counts 16 only |
| `SefsRules.SefsSkillScoreValues` | fast_stream_22/specialism/SEFS/models.py:56-66 | after halving, the score is one of 0, 8, 10, 16, 18, 20, 36 (at most 16 when both skills are one); it is 0, which disqualifies, exactly when neither competency counts as "P" |
| `Scoring.RuleSet` | fast_stream_22/specialism/pair.py:53-58 | every class registers the base rules; only the generalist class has the accessibility check |
| `Scoring.Disqualify` | fast_stream_22/specialism/pair.py:217-222 | the setter: once true the flag stays true; score and `methods_called` are untouched |
| `Scoring.Ran` | fast_stream_22/specialism/pair.py:81-84 | the rules an early-exit run executes are a prefix of the order, and all of it when no rule fails |
| `Scoring.StepClean` | fast_stream_22/specialism/pair.py:88-202 | on a pair not yet disqualified, each rule adds its points, disqualifies exactly when it fails, records itself when tracked and scoring, and only the location rule bumps the weights |
| `Scoring.StepSticky` | fast_stream_22/specialism/pair.py:217-222 | every rule but `_check_location`, which assigns the flag directly, keeps a disqualified pair disqualified |
| `Scoring.SumDeltaIgnoresWeights` | fast_stream_22/specialism/pair.py:106-126 | only the location rule reads the shared weights |
| `Scoring.RunRulesVerdict` | fast_stream_22/specialism/pair.py:81-84 | from a clean state, the loop ends disqualified exactly when some listed rule fails |
| `Scoring.RunRulesScore` | fast_stream_22/specialism/pair.py:81-84 | the loop's score is the points of the rules it ran |
| `Scoring.RunRulesCalled` | fast_stream_22/specialism/generalist/models.py:100-109 | `methods_called` gains exactly the tracked rules that ran and raised the score |
| `Scoring.RunRulesWeights` | fast_stream_22/specialism/pair.py:106-113 | the shared weights are bumped exactly when the location rule ran |
| `Scoring.SumDeltaPermutation` | fast_stream_22/specialism/pair.py:73 | the sum of the rules' points does not depend on the order the set is visited in |
| `Scoring.SumDeltaScoringOnly` | fast_stream_22/specialism/pair.py:128-168 | the check rules add no points |
| `Scoring.EnumerationSumsAgree` | fast_stream_22/specialism/pair.py:66-73 | any enumeration of the rule set sums to the pair's base score |
| `Scoring.EnumerationEarnedAgree` | fast_stream_22/specialism/generalist/models.py:100-109 | any enumeration records the same rules |
| `Scoring.EnumerationFails` | fast_stream_22/specialism/pair.py:66-73 | some rule of an enumeration fails exactly when some rule of the class does |
| `Scoring.CleanRun` | fast_stream_22/specialism/pair.py:81-85 | when no rule fails, every rule runs: the score is the base score, the recorded rules are the earned ones, and the weights are bumped for a relocated candidate |
| `Scoring.FailedRun` | fast_stream_22/specialism/pair.py:81-84 | when a rule fails, the run ends disqualified, with the weights bumped or not |
| `Scoring.EvaluateSpec` | fast_stream_22/specialism/pair.py:75-86 | for every enumeration, `score_pair` disqualifies exactly when some rule fails or the base score is below the year group's minimum; an accepted pair scores the base score plus, for generalists, the preference bonus |
| `Scoring.OrderIndependent` | fast_stream_22/specialism/pair.py:66-86 | two enumerations of the rule set give the same verdict, and the same score and weights when the pair is accepted |
| `Scoring.MinScoreTable` | fast_stream_22/specialism/generalist/models.py:121-124 | the minimum scores are One 15, Two 20, Three 25; six-month is 0 for the base and SEFS classes and 20 for generalists |
| `Scoring.PreferenceBonusBounds` | fast_stream_22/specialism/generalist/models.py:200-209 | 10 points per distinct met preference: between 0 and 10·(number of preferences), the full amount when all are met, and a missing preference never counts |
| `Scoring.PreferenceNeedsEarnedRule` | fast_stream_22/specialism/generalist/models.py:200-209 | a preference counts only for generalists, and only if the rule it names raised the score |
| `Evaluators.SharedWeights.constructor` | fast_stream_22/specialism/pair.py:42-50 | the class-level weights start at first location 10 and second location 5 |
| `Evaluators.PairEvaluator.constructor` | fast_stream_22/specialism/pair.py:60-64 | a new evaluator has score 0, is not disqualified, and has recorded nothing |
| `Evaluators.PairEvaluator.SetDisqualified` | fast_stream_22/specialism/pair.py:217-222 | the flag becomes `old or value` |
| `Evaluators.PairEvaluator.RecordIfRaised` | fast_stream_22/specialism/generalist/models.py:100-109 | a tracked rule's name is added when the score strictly rose across it |
| `Evaluators.PairEvaluator.CheckLocation` | fast_stream_22/specialism/pair.py:88-103 | a candidate who cannot relocate gets the flag set, by direct assignment, to "not acceptable": not from anywhere and neither preference is in the locations |
| `Evaluators.PairEvaluator.ScoreLocation` | fast_stream_22/specialism/pair.py:105-126 | bumps the shared weights for a relocated candidate, then adds first-location points for anywhere or a first-preference match, else second-location points |
| `Evaluators.PairEvaluator.CheckClearance` | fast_stream_22/specialism/pair.py:128-130 | disqualifies when the reported clearance is below the role's |
| `Evaluators.PairEvaluator.CheckNationality` | fast_stream_22/specialism/pair.py:132-141 | disqualifies when the requirement exceeds the nationality held |
| `Evaluators.PairEvaluator.CheckPassport` | fast_stream_22/specialism/pair.py:143-147 | disqualifies when a passport is required and not held |
| `Evaluators.PairEvaluator.CheckYearGroup` | fast_stream_22/specialism/pair.py:149-153 | disqualifies when the year group is not among the role's |
| `Evaluators.PairEvaluator.CheckEthics` | fast_stream_22/specialism/pair.py:155-159 | disqualifies an immigration role for a no-immigration candidate, or a defence role for a no-defence candidate |
| `Evaluators.PairEvaluator.CheckStretch` | fast_stream_22/specialism/pair.py:161-168 | disqualifies an unwanted private-office or line-management role, and otherwise changes nothing |
| `Evaluators.PairEvaluator.ScoreStretch` | fast_stream_22/specialism/pair.py:170-175 | adds 10 per stretch dimension both wanted and offered |
| `Evaluators.PairEvaluator.ScoreYearOnly` | fast_stream_22/specialism/pair.py:177-186 | adds 5 when the role suits only the candidate's year group |
| `Evaluators.PairEvaluator.ScoreDepartment` | fast_stream_22/specialism/pair.py:188-191 | adds 10 for a department not visited before; the generalist override adds 10 for a preferred department and records itself |
| `Evaluators.PairEvaluator.ScoreSkill` | fast_stream_22/specialism/pair.py:193-202 | dispatches to the base sweep or the SEFS override, per the evaluator's class |
| `Evaluators.PairEvaluator.BaseScoreSkill` | fast_stream_22/specialism/pair.py:193-202 | the repeat penalty, then the nested loops with a bonus falling from 20 by 5 per step; the new score is old + `SkillDelta` |
| `Evaluators.PairEvaluator.SefsScoreSkill` | fast_stream_22/specialism/SEFS/models.py:42-66 | nothing for the first year; otherwise the valence loop and the halving, then disqualify on 0 or add the score |
| `Evaluators.PairEvaluator.CheckAccessibility` | fast_stream_22/specialism/generalist/models.py:130-140 | disqualifies when the needs are not a subset of the role's adjustments |
| `Evaluators.PairEvaluator.CheckTravel` | fast_stream_22/specialism/generalist/models.py:142-151 | disqualifies when the role's travel tier exceeds the candidate's |
| `Evaluators.PairEvaluator.CheckPriorDepartments` | fast_stream_22/specialism/generalist/models.py:153-160 | disqualifies a department the candidate has been in |
| `Evaluators.PairEvaluator.CheckWorkingPattern` | fast_stream_22/specialism/generalist/models.py:162-173 | disqualifies when the candidate's patterns are not a subset of the role's |
| `Evaluators.PairEvaluator.ScoreAnchor` | fast_stream_22/specialism/generalist/models.py:181-188 | adds 15 when the role's anchor is one the candidate seeks, and records itself when it scored |
| `Evaluators.PairEvaluator.Apply` | fast_stream_22/specialism/pair.py:81-82 | calls the method the rule names; the new state is `Scoring.Step` of that rule |
| `Evaluators.PairEvaluator.CheckScore` | fast_stream_22/specialism/pair.py:204-211 | disqualifies a score below the year group's minimum (0 when the table has no entry) |
| `Evaluators.PairEvaluator.ScorePreferences` | fast_stream_22/specialism/generalist/models.py:200-209 | adds 10 for each distinct preference whose rule is in `methods_called` |
| `Evaluators.PairEvaluator.RunScoringMethods` | fast_stream_22/specialism/pair.py:81-84 | the loop runs the rules in order and stops at the first disqualification; its result is `Scoring.RunRules` |
| `Evaluators.PairEvaluator.ScorePair` | fast_stream_22/specialism/pair.py:75-86 | the rule loop, the threshold unless already disqualified, and the generalist preference bonus; returns the score |
| `Evaluators.EvaluatePair` | fast_stream_22/specialism/pair.py:60-86 | a fresh evaluator, for any enumeration of its rules, is disqualified exactly when the pair is ineligible; otherwise it scores the base score plus the generalist bonus and bumps the weights for a relocated candidate |
| `MatchRound.CellOf` | fast_stream_22/matching/match.py:316-322 | `score_or_disqualify` gives `DISALLOWED` exactly for a disqualified evaluator, else its score |
| `MatchRound.EvaluateBumps` | fast_stream_22/specialism/pair.py:107-113 | one evaluation raises both location weights by 10 or leaves them, and leaves them for a candidate who has not relocated |
| `MatchRound.RowShape` | fast_stream_22/matching/match.py:297-299 | a candidate's row has one cell per role, and only raises the weights in steps of 10 |
| `MatchRound.RowKeepsWeights` | fast_stream_22/matching/match.py:297-299 | a row of a candidate who has not relocated leaves the weights alone |
| `MatchRound.RowCell` | fast_stream_22/matching/match.py:297-299 | each cell of such a row is the verdict on that pair at the starting weights |
| `MatchRound.GridShape` | fast_stream_22/matching/match.py:297-300 | the grid has one row per candidate and one cell per role, and building it only raises the weights |
| `MatchRound.GridKeepsWeights` | fast_stream_22/matching/match.py:297-300 | with no relocated candidate, building the grid leaves the weights alone |
| `MatchRound.GridCell` | fast_stream_22/matching/match.py:297-300 | with no relocated candidate, cell (i, j) is the verdict on candidate i and role j |
| `MatchRound.GridVerdict` | fast_stream_22/matching/match.py:297-300 | with no relocated candidate, cell (i, j) is `DISALLOWED` exactly when the pair is ineligible at the starting weights, and otherwise holds the pair's score at those weights |
| `MatchRound.GridVerdictAt` | fast_stream_22/matching/match.py:297-300 | in general, cell (i, j) is `DISALLOWED` exactly when the pair is ineligible at the shared weights in force when it is scored (`WeightsAt`: those the rows above and the cells to its left leave), and otherwise holds the pair's score at those weights |
| `MatchRound.RowCellAt` | fast_stream_22/matching/match.py:297-299 | each cell of a row is the verdict on its pair at the weights the cells to its left leave |
| `MatchRound.GridRowAt` | fast_stream_22/matching/match.py:297-300 | row i of the grid is candidate i's row, started from the weights the rows above it leave |
| `MatchRound.GridLength` | fast_stream_22/matching/match.py:297-300 | the grid has one row per candidate |
| `MatchRound.RejectedSpec` | fast_stream_22/matching/match.py:302-314 | a role is returned exactly when its column is all `DISALLOWED`, and it is returned flagged `no_match` |
| `MatchRound.RejectedEmpty` | fast_stream_22/matching/match.py:302-314 | nothing is rejected exactly when no column is all `DISALLOWED` |
| `MatchRound.NoCandidatesRejectsAll` | fast_stream_22/matching/match.py:309-311 | with no candidates every column is vacuously all `DISALLOWED`, so every role is rejected |
| `MatchRound.CostOf` | fast_stream_22/matching/match.py:324-327 | `DISALLOWED` stays forbidden; a score x costs `sys.maxsize - x` |
| `MatchRound.CostMatrix` | fast_stream_22/matching/match.py:324-327 | the intended cost matrix keeps the grid's shape and inverts each cell |
| `MatchRound.CostMatrixAsWritten` | fast_stream_22/matching/match.py:324-327 | the code's matrix is the intended one whenever some cell is `DISALLOWED` |
| `MatchRound.CostReversesOrder` | fast_stream_22/matching/match.py:326 | a higher score costs less |
| `MatchRound.AssignmentSize` | fast_stream_22/matching/match.py:328 | an assignment (distinct rows, distinct columns, in range) has at most one pair per candidate |
| `MatchRound.FullAssignmentCoversRows` | fast_stream_22/matching/match.py:276-277 | an assignment as long as the candidate list pairs every candidate |
| `MatchRound.CostIsComplementOfScore` | fast_stream_22/matching/match.py:324-328 | an assignment of allowed cells costs `sys.maxsize` per pair less its total score |
| `MatchRound.CheaperMeansHigherScore` | fast_stream_22/matching/match.py:324-328 | between assignments of the same size, the cheaper one has the higher total score, so a cost-minimising solver maximises the score |
| `MatchRound.AsWrittenPrefersLowScores` | fast_stream_22/matching/match.py:324-328 | on a grid without `DISALLOWED`, the code's matrix makes the low-scoring pairing the cheaper one |
| `MatchRound.ConvertPairRoundTrip` | fast_stream_22/matching/match.py:349-351 | with distinct uids, looking the converted uids up again gives back the solver's indices |
| `MatchRound.ConvertAll` | fast_stream_22/matching/match.py:337 | one uid pair per solver pair, in the solver's order |
| `MatchRound.Matching.constructor` | fast_stream_22/matching/match.py:287-300 | scores every pair, candidates outer and roles inner, through evaluators sharing the class weights; the grid and the weights afterwards are `MatchRound.Grid` |
| `MatchRound.Matching.RejectImpossibleRoles` | fast_stream_22/matching/match.py:302-314 | flags and returns, in column order, exactly the roles whose column is all `DISALLOWED`; nothing else changes |
| `MatchRound.Matching.Match` | fast_stream_22/matching/match.py:324-328 | what the solver returns on the round's cost matrix is a set of (candidate, role) index pairs within the grid, no candidate and no role used twice |
| `MatchRound.Matching.ReportPairs` | fast_stream_22/matching/match.py:330-347 | `None` exactly when the solver raises `UnsolvableMatrix`; otherwise a valid assignment, converted to uids |
| `Rounds.MaskPaired` | fast_stream_22/matching/match.py:159-167 | `mask_paired` keeps exactly the items not yet paired |
| `Rounds.MaskPairedOrder` | fast_stream_22/matching/match.py:167 | masking works item by item, so it keeps the order of what it keeps |
| `Rounds.AllCandidatesSpec` | fast_stream_22/matching/match.py:135-142 | `all_candidates` is every unpaired candidate, once each, in list order |
| `Rounds.UnrejectedUnpairedSpec` | fast_stream_22/matching/match.py:152 | the roles neither rejected nor paired, once each, in list order |
| `Rounds.AllRolesMembers` | fast_stream_22/matching/match.py:144-155 | `all_roles` is every role neither paired nor rejected, each once |
| `Rounds.AllRolesPriority` | fast_stream_22/matching/match.py:151-155 | highest `priority_role` first |
| `Rounds.AllRolesStable` | fast_stream_22/matching/match.py:151-155 | roles of equal priority keep their list order, since `sorted` is stable |
| `Rounds.RoundCandidatesSpec` | fast_stream_22/matching/match.py:200 | the round's candidates are exactly the unpaired candidates of the cohort, in order |
| `Rounds.ShortlistUpToMembers` | fast_stream_22/matching/match.py:205-220 | every role a prefix of the bid loop shortlists is a suitable role of the department of the bid that put it forward |
| `Rounds.ShortlistMembers` | fast_stream_22/matching/match.py:199-221 | a shortlisted role is unpaired, not rejected, suitable for the cohort, and its department has an open bid |
| `Rounds.SliceInDepartment` | fast_stream_22/matching/match.py:212-214 | a bid's slice is all of its department, and holds none of any other |
| `Rounds.ShortlistGathered` | fast_stream_22/matching/match.py:205-220 | a department's shortlisted roles are the slices of its bids, in bid order |
| `Rounds.BidOrderDepartment` | fast_stream_22/matching/match.py:205-207 | a department with an entry is visited at exactly one position of the bid order |
| `Rounds.ShortlistDepartment` | fast_stream_22/matching/match.py:205-220 | a department's shortlisted roles are the first `shortlist_length` of its suitable roles, or none without an open bid |
| `Rounds.ShortlistCapped` | fast_stream_22/matching/match.py:208-214 | a department puts forward at most `min_number` roles in round 0, at most `number - count` after, and none without an open bid |
| `Allocation.Route` | fast_stream_22/matching/match.py:258-262 | a pair finds its candidate, role and bid positions through the uid dictionaries and `cohort_bids`; `None` exactly when a lookup raises `KeyError` |
| `Allocation.CountAt` | fast_stream_22/matching/match.py:262 | `count += 1` on one bid and nothing else |
| `Allocation.CommittedStep` | fast_stream_22/matching/match.py:258-273 | a routed pair with room extends the committed prefix: candidate and role marked, bid counted, within its number |
| `Allocation.OverfilledNoRoom` | fast_stream_22/matching/match.py:263-264 | a count that overfills its bid means the solver's pairs do not fit the bids |
| `Allocation.MissingNotRouted` | fast_stream_22/matching/match.py:259-262 | a pair that misses a key leaves the routing incomplete |
| `Allocation.HitOfRouted` | fast_stream_22/matching/match.py:258-259 | a pair whose uids are found marks its candidate's position |
| `Allocation.FullRoundMarks` | fast_stream_22/matching/match.py:258-277 | when the solver's pairs cover every candidate of the round and all are committed, every candidate of the round is marked paired, given distinct candidate uids |
| `Allocation.RoundCoversCohort` | fast_stream_22/matching/match.py:199-200 | if every candidate the round lists ends up paired, every candidate of the cohort is paired |
| `Allocation.CommittedWithin` | fast_stream_22/matching/match.py:262-264 | every bid counted on the way stays within its number |
| `Allocation.BidsMetSpec` | fast_stream_22/matching/match.py:240-242 | the final verdict checks exactly the last open bid of each department, against its `min_number` |
| `Allocation.RejectFlags` | fast_stream_22/matching/match.py:309-312 | a shortlisted role whose column is all `DISALLOWED` becomes `no_match`; other flags are unchanged |
| `Allocation.RejectFlagsNone` | fast_stream_22/matching/match.py:309-312 | with no all-`DISALLOWED` column, no flag changes |
| `Allocation.Process.constructor` | fast_stream_22/matching/match.py:64-82 | the process holds the lists, the bids, an empty `pairings`, the pair class and five rounds |
| `Allocation.Process.MarkCandidate` | fast_stream_22/matching/match.py:259 | the candidate the uid dictionary finds is marked paired; `None` for `KeyError`; nothing else changes |
| `Allocation.Process.MarkRole` | fast_stream_22/matching/match.py:260-261 | the role the uid dictionary finds is marked paired; `None` for `KeyError`; nothing else changes |
| `Allocation.Process.CountBid` | fast_stream_22/matching/match.py:262 | the department's bid gains one count; `None` for `KeyError`; nothing else changes |
| `Allocation.Process.CommitPair` | fast_stream_22/matching/match.py:258-273 | marks, counts and scores one pair; fails with `KeyError` exactly when the route is missing, and with `ValueError` when the count overfills |
| `Allocation.Process.Score` | fast_stream_22/matching/match.py:269-271 | the recorded score is a fresh evaluator's `score_pair` on the two records, sharing the class weights |
| `Allocation.Process.Commit` | fast_stream_22/matching/match.py:257-273 | every solver pair committed in order; success means every pair was routed with room, and the results carry the pairs' uids in order |
| `Allocation.Process.PrepareRound` | fast_stream_22/matching/match.py:188-221 | returns the round's candidates and shortlisted roles as `Rounds.RoundCandidates` and `Rounds.Shortlist` |
| `Allocation.Process.RejectRound` | fast_stream_22/matching/match.py:251-252 | builds the round's grid and flags the impossible roles; reports whether any was rejected |
| `Allocation.Process.FlagRejected` | fast_stream_22/matching/match.py:309-312 | sets `no_match` on the process's own role objects, per `Allocation.RejectFlags` |
| `Allocation.Process.PairOff` | fast_stream_22/matching/match.py:169-179 | a second `Matching` of the same lists, solved; its pairs as uids, or `None` for `UnsolvableMatrix` |
| `Allocation.Process.SolveRound` | fast_stream_22/matching/match.py:251-256 | either some role is rejected, or the solver fails, or it answers with a valid assignment converted to uids |
| `Allocation.Process.CommitRound` | fast_stream_22/matching/match.py:256-275 | commits the pairs and extends `pairings[cohort]`, touching no other cohort |
| `Allocation.Process.PlayRound` | fast_stream_22/matching/match.py:251-283 | one round: retry the same round after a rejection, finish with success when the solver pairs every candidate, else move to the next round; bids stay within their numbers; with distinct candidate uids, success leaves every candidate of the round marked paired |
| `Allocation.Process.Attempt` | fast_stream_22/matching/match.py:235-283 | one pass of `match_cohort`: "too many failures" exactly past 20; after round 5, the bid verdict; out of roles for an empty shortlist, or a later round with more candidates than roles; with distinct candidate uids, a `True` from a round means every candidate of the cohort is paired |
| `Allocation.Process.MatchCohort` | fast_stream_22/matching/match.py:223-283 | paired flags only grow, other cohorts' pairings are untouched, this cohort's only grow; success leaves every bid within its number; a `False` verdict means some bid is below its minimum |
| `Allocation.Process.ResetRoles` | fast_stream_22/matching/match.py:125-133 | every role's `no_match` is cleared; nothing else changes |
| `Allocation.Process.ComputeCohort` | fast_stream_22/matching/match.py:84-91 | `match_cohort`, then `reset_roles`: other cohorts keep their pairings; on success the bids stay within their numbers, a `False` verdict means some bid is below its minimum, and every role is matchable again |
| `Allocation.Process.Compute` | fast_stream_22/matching/match.py:93-104 | one verdict per cohort in `compute`'s order; cohorts without a bid keep their pairings; bids stay within their numbers and roles end matchable |
| `Outcome.SuccessesUpTo` | fast_stream_22/matching/match.py:373-379 | the success count never exceeds the number of bids |
| `Outcome.SuccessesCounted` | fast_stream_22/matching/match.py:373-379 | the running count is the number of bids that reach 80% |
| `Outcome.SuccessMeetsMinimum` | fast_stream_22/matching/match.py:42-49 | a successful bid has reached its `min_number` |
| `Outcome.MinimumShortOfSuccess` | fast_stream_22/matching/match.py:42-49 | the converse fails: a bid of 8 filled to its minimum of 6 is below 80% |
| `Outcome.AllResults` | fast_stream_22/matching/match.py:366-368 | every cohort's results are among all the results |
| `Outcome.ScoreSumAppend` | fast_stream_22/matching/match.py:366-368 | score sums add over concatenation |
| `Outcome.TotalScoreFlat` | fast_stream_22/matching/match.py:366-368 | the total, cohort by cohort, is the sum over all results taken together |
| `Outcome.IterationOutcome.constructor` | fast_stream_22/matching/match.py:356-371 | `total_score` is the sum of every result's score; `success_count` is the number of successful bids |
| `Outcome.IterationOutcome.CountSuccess` | fast_stream_22/matching/match.py:373-379 | adds one per bid with `count / number >= 0.8`; a zero `number` is skipped |
| `LegacyPair.Disqualify` | fast_stream_22/matching/pair.py:65-70 | the setter: once true the flag stays true; the score is untouched |
| `LegacyPair.RunVerdict` | fast_stream_22/matching/pair.py:48-49 | with the location check through the setter, the loop disqualifies exactly when some rule fails, in any order |
| `LegacyPair.RunScore` | fast_stream_22/matching/pair.py:48-49 | both loops, as written and corrected, add the points of every rule |
| `LegacyPair.SumPointsDistinct` | fast_stream_22/matching/pair.py:95-171 | the points of distinct rules are those of the location, department, skill and stretch rules they hold |
| `LegacyPair.AnyFailsMeaning` | fast_stream_22/matching/pair.py:86-171 | some rule of the set fails exactly when the pair fails one of the checks |
| `LegacyPair.EvaluateSpec` | fast_stream_22/matching/pair.py:42-51 | with the corrected location check: score is the rules' points; disqualified exactly when a check fails or the score is below 20 |
| `LegacyPair.EvaluateOrderFree` | fast_stream_22/matching/pair.py:40-51 | with the corrected location check, two enumerations give the same result |
| `LegacyPair.AsWrittenLocationLast` | fast_stream_22/matching/pair.py:86-93 | as written, a location check run last fixes the flag to the location verdict alone |
| `LegacyPair.AsWrittenOrderMatters` | fast_stream_22/matching/pair.py:86-93 | as written, a pair failing clearance is disqualified when the location check comes first and accepted when it comes last |
| `LegacyPair.LocationFirstDisqualifies` | fast_stream_22/matching/pair.py:110-112 | a clearance failure after the location check disqualifies, as written and corrected |
| `LegacyPair.LocationLastAccepts` | fast_stream_22/matching/pair.py:86-93 | a location check last clears an earlier clearance failure as written, but not when corrected |
| `LegacyPair.RunsAgree` | fast_stream_22/matching/pair.py:86-93 | without the location check the two loops agree |
| `LegacyPair.AsWrittenLocationFirst` | fast_stream_22/matching/pair.py:86-93 | with a single location check at the front, the code as written gives the corrected result |
| `LegacyPair.ScoringRegistry.constructor` | fast_stream_22/matching/pair.py:19 | the registry starts empty |
| `LegacyPair.ScoringRegistry.RegisterSubclass` | fast_stream_22/matching/pair.py:21-25 | each subclass adds its decorated names to one shared set; nothing is removed |
| `LegacyPair.Pair.constructor` | fast_stream_22/matching/pair.py:27-31 | score 0, not disqualified |
| `LegacyPair.Pair.SetDisqualified` | fast_stream_22/matching/pair.py:65-70 | the flag becomes `old or value` |
| `LegacyPair.Pair.CheckLocation` | fast_stream_22/matching/pair.py:86-93 | for a candidate who cannot relocate, the flag is assigned "not acceptable" directly, clearing an earlier disqualification |
| `LegacyPair.Pair.ScoreLocation` | fast_stream_22/matching/pair.py:95-108 | 10 for anywhere or the first preference, 5 for the second |
| `LegacyPair.Pair.ScoreClearance` | fast_stream_22/matching/pair.py:110-112 | disqualifies a clearance below the role's |
| `LegacyPair.Pair.CheckNationality` | fast_stream_22/matching/pair.py:114-123 | disqualifies when the requirement exceeds the nationality held |
| `LegacyPair.Pair.CheckPassport` | fast_stream_22/matching/pair.py:125-129 | disqualifies a required passport not held |
| `LegacyPair.Pair.ScoreDepartment` | fast_stream_22/matching/pair.py:131-134 | adds 10 for a department not visited before |
| `LegacyPair.Pair.EthicalCheck` | fast_stream_22/matching/pair.py:136-140 | disqualifies an unwanted immigration or defence role |
| `LegacyPair.Pair.AppropriateForYearGroup` | fast_stream_22/matching/pair.py:142-146 | disqualifies a year group the role does not suit |
| `LegacyPair.Pair.ScoreSkill` | fast_stream_22/matching/pair.py:148-157 | the repeat penalty, then the nested loops with a bonus falling from 20 by 5 |
| `LegacyPair.Pair.StretchCheck` | fast_stream_22/matching/pair.py:159-171 | refuses an unwanted stretch role, and otherwise adds 10 per wanted and offered dimension |
| `LegacyPair.Pair.Apply` | fast_stream_22/matching/pair.py:48-49 | calls the method a registered name stands for |
| `LegacyPair.Pair.CheckScore` | fast_stream_22/matching/pair.py:173-175 | disqualifies a score below 20 |
| `LegacyPair.Pair.ScorePair` | fast_stream_22/matching/pair.py:42-51 | every rule of the enumeration with no early exit, then the threshold; returns the score |
| `LegacyModels.EvaluateSpec` | fast_stream_22/matching/models.py:143-153 | the nine rules score the priority, location, department, skill and stretch points, and disqualify exactly when some check fails |
| `LegacyModels.LocationChain` | fast_stream_22/matching/models.py:155-170 | a refusal earns nothing; otherwise 10 for the first preference or "Any", else 5 for the second or "Any"; always 0, 5 or 10 |
| `LegacyModels.FirstPreferenceAccepted` | fast_stream_22/matching/models.py:155-165 | a role at the first-preference location is never refused and earns 10 |
| `LegacyModels.SkillPointsRange` | fast_stream_22/matching/models.py:204-210 | the sweep adds 20, 15, 10 and 5 for its four matches, so between 0 and 50 |
| `LegacyModels.TravelMeaning` | fast_stream_22/matching/models.py:185-188 | travel disqualifies exactly a candidate without a passport, for a role with a non-empty travel requirement |
| `LegacyModels.StretchAccepted` | fast_stream_22/matching/models.py:212-223 | when the stretch check passes, each offered dimension earns 10; 0 to 20 in all |
| `LegacyModels.NationalityCheck` | fast_stream_22/matching/models.py:175-183 | the nationality check compares the integer values of the two enumerations |
| `LegacyModels.Pair.constructor` | fast_stream_22/matching/models.py:135-141 | a priority role starts with 10 points |
| `LegacyModels.Pair.SetDisqualified` | fast_stream_22/matching/models.py:229-234 | the flag becomes `old or value` |
| `LegacyModels.Pair.ScoreLocation` | fast_stream_22/matching/models.py:155-170 | refuses a candidate who cannot move to a role away from the first preference, else scores the preferences |
| `LegacyModels.Pair.ScoreClearance` | fast_stream_22/matching/models.py:172-173 | disqualifies a clearance below the role's |
| `LegacyModels.Pair.CheckNationality` | fast_stream_22/matching/models.py:175-183 | disqualifies when the requirement exceeds the nationality held |
| `LegacyModels.Pair.CheckTravel` | fast_stream_22/matching/models.py:185-188 | disqualifies a travel requirement without a passport |
| `LegacyModels.Pair.ScoreDepartment` | fast_stream_22/matching/models.py:190-192 | adds 10 for a department not visited before |
| `LegacyModels.Pair.EthicalCheck` | fast_stream_22/matching/models.py:194-197 | disqualifies an unwanted immigration or defence role |
| `LegacyModels.Pair.AppropriateForYearGroup` | fast_stream_22/matching/models.py:199-202 | disqualifies a year group the role does not suit |
| `LegacyModels.Pair.ScoreSkill` | fast_stream_22/matching/models.py:204-210 | the nested loops with a bonus falling from 20 by 5, without a repeat penalty |
| `LegacyModels.Pair.StretchCheck` | fast_stream_22/matching/models.py:212-223 | refuses an unwanted stretch role, and otherwise adds 10 per wanted and offered dimension |
| `LegacyModels.Pair.ScorePair` | fast_stream_22/matching/models.py:143-153 | the nine rules in their fixed order; returns the score |
| `LegacyModels.EvaluatePair` | fast_stream_22/matching/models.py:135-153 | a new pair is disqualified exactly when some check fails, and scores the priority, location, department, skill and stretch points |
| `LegacyGeneralist.Disqualify` | fast_stream_22/matching/pair.py:65-70 | the setter: sticky flag; score and recorded names untouched |
| `LegacyGeneralist.Points` | fast_stream_22/matching/generalist/models.py:123-135 | a rule never takes points away |
| `LegacyGeneralist.StepRecords` | fast_stream_22/matching/generalist/models.py:69-80 | a scoring rule records its name exactly when it adds points, the checks record nothing, and a failing check disqualifies |
| `LegacyGeneralist.RunSpec` | fast_stream_22/matching/pair.py:48-49 | in any order, the rules add their points, record the names of those that scored, and disqualify on any failure |
| `LegacyGeneralist.SumPointsDistinct` | fast_stream_22/matching/generalist/models.py:123-135 | the points of distinct rules are the department and anchor points they hold |
| `LegacyGeneralist.ScorePairSpec` | fast_stream_22/matching/generalist/models.py:158-161 | for every enumeration: disqualified exactly on a travel or prior-department failure; the recorded names are those of the scoring rules that scored; the score is the department, anchor and preference points |
| `LegacyGeneralist.PreferenceBonusBounds` | fast_stream_22/matching/generalist/models.py:147-156 | the bonus lies between 0 and 10 per preference, and a missing preference never counts |
| `LegacyGeneralist.UnrecordedPreferences` | fast_stream_22/matching/generalist/models.py:147-156 | the "Location" and "Skill" preferences never count in this model, because it does not record those rules |
| `LegacyGeneralist.FixPreviousDepartments` | fast_stream_22/matching/generalist/models.py:44-53 | the `for department in ("wg", "sg")` loop removes exactly the devolved departments when the candidate cannot relocate |
| `LegacyGeneralist.WidenYearGroups` | fast_stream_22/matching/generalist/models.py:65-66 | the role constructor adds six-month to a role suitable for the second year, as `GeneralistRules.WidenYearGroups` states |
| `LegacyGeneralist.GeneralistPair.constructor` | fast_stream_22/matching/generalist/models.py:95-97 | score 0, not disqualified, nothing recorded |
| `LegacyGeneralist.GeneralistPair.SetDisqualified` | fast_stream_22/matching/pair.py:65-70 | the flag becomes `old or value` |
| `LegacyGeneralist.GeneralistPair.RegisterMethodCalled` | fast_stream_22/matching/generalist/models.py:69-80 | the name is added when the score strictly rose across the wrapped call |
| `LegacyGeneralist.GeneralistPair.CheckTravel` | fast_stream_22/matching/generalist/models.py:99-108 | disqualifies when the role's travel tier exceeds the candidate's |
| `LegacyGeneralist.GeneralistPair.CheckPriorDepartments` | fast_stream_22/matching/generalist/models.py:110-121 | disqualifies a department already visited |
| `LegacyGeneralist.GeneralistPair.ScoreDepartment` | fast_stream_22/matching/generalist/models.py:123-129 | adds 10 for a preferred department, recording its name when it scored |
| `LegacyGeneralist.GeneralistPair.ScoreAnchor` | fast_stream_22/matching/generalist/models.py:131-135 | adds 15 for a sought anchor, recording its name when it scored |
| `LegacyGeneralist.GeneralistPair.Apply` | fast_stream_22/matching/pair.py:48-49 | calls the rule a registered name stands for |
| `LegacyGeneralist.GeneralistPair.ScorePreferences` | fast_stream_22/matching/generalist/models.py:147-156 | walks the preference set, adding 10 per preference whose rule was recorded |
| `LegacyGeneralist.GeneralistPair.ScorePair` | fast_stream_22/matching/generalist/models.py:158-161 | the rules in the enumeration's order, then the preference bonus; returns the score |
| `LegacyGeneralist.EvaluatePair` | fast_stream_22/matching/generalist/models.py:158-161 | a new pair, scored over any enumeration, is disqualified exactly on a travel or prior-department failure, and its score is the department and anchor points plus the preference bonus |
| `RootScoring.SkillPoints` | matching/scoring.py:17-24 | `(5 - level) * growth` is 0 to 25 for levels 0 to 5, and 0 when the role offers no growth or the candidate is at 5 |
| `RootScoring.SkillsOverSpec` | matching/scoring.py:10-14 | `score_skills` succeeds exactly when every skill the role grows is in the candidate's table, and is then non-negative for levels in range |
| `RootScoring.ScoringConvention` | matching/scoring.py:5-41 | the module's convention: the location score is -1 exactly for an immobile candidate elsewhere, else 1 or 0 by preference; clearance is -1 below the required level, else 1; skills are non-negative |
| `RootMatch.DisallowBlocked` | matching/match.py:30-35 | the intended mask, cell by cell (see Findings), keeps the grid's shape |
| `RootMatch.Unmasked` | matching/match.py:30-35 | a helper with no counterpart in the source: it reads the mask back, keeping the shape, so that the mask's round trip can be stated |
| `RootMatch.DisallowBlockedSpec` | matching/match.py:30-31 | under the intended mask, a cell becomes `DISALLOWED` exactly when it is negative, and keeps its value otherwise |
| `RootMatch.DisallowBlockedAsWrittenSpec` | matching/match.py:30-31 | `np.vectorize` without `otypes`, as written: `ValueError` exactly for a grid of size 0, `TypeError` exactly when the first element is non-negative and some element is negative, and otherwise the intended mask |
| `RootMatch.AsWrittenMaskRaises` | matching/match.py:30-31 | on [[3, -1]] the code raises `TypeError`, where the intended mask disallows the second cell |
| `RootMatch.AsWrittenMaskEmpty` | matching/match.py:30-31 | on `[]` and `[[]]` the code raises `ValueError`, where the intended mask returns the grid unchanged |
| `RootMatch.UnmaskedRoundTrip` | matching/match.py:30-35 | a grid with no negative cell survives the intended mask and the read-back unchanged |
| `RootMatch.GridLayoutAsWritten` | matching/match.py:22-23 | the comprehension, roles outer and candidates inner, reshaped to candidates × roles |
| `RootMatch.GridLayout` | matching/match.py:20-23 | the intended grid: cell (i, j) scores candidate i against role j |
| `RootMatch.LayoutAsWrittenCell` | matching/match.py:22-23 | cell (i, j) of the code's grid is entry `i·|roles| + j` of the flat list, which pairs candidate `k mod |candidates|` with role `k div |candidates|` |
| `RootMatch.LayoutAsWrittenTransposes` | matching/match.py:22-23 | for two candidates and two roles, the code's cell (0, 1) pairs candidate 1 with role 0, where the intended cell pairs candidate 0 with role 1 |
| `RootMatch.AsWrittenAlwaysRaises` | matching/match.py:38-42 | every call `generate_grid` makes raises `TypeError` |
| `RootMatch.MatchVerdict` | matching/match.py:38-42 | as intended: `DISALLOWED` exactly when some weighted score is 0, otherwise the sum of the weighted scores |
| `RootMatch.GridWeightsVerdict` | matching/match.py:21 | with the grid's weights, `DISALLOWED` exactly when the skills or location score is 0, so a location score of -1 does not disallow; otherwise skills + location |

## Left out

- The assignment solver (`Munkres().compute`) is not modelled. It is a parameter of the process, only required to answer with distinct in-range (row, column) pairs or with `None`, which stands for `UnsolvableMatrix`. Its optimality is not modelled. `MatchRound.CheaperMeansHigherScore` says what optimal would mean for the intended cost matrix; on a grid with no `DISALLOWED` cell the code's own matrix does not have that property (see Findings).
- `random.shuffle` in `Matching.__init__` is taken as the identity, so the model covers one fixed order of candidates and roles.
- Python's set iteration order of `scoring_methods` is an arbitrary enumeration `order` of the rule set. Every lemma about the current evaluator quantifies over it. The process fixes one enumeration.
- numpy is left out. `np.reshape` and `tolist` are read as nested sequences, and `np.all` on a column as a quantifier. The one place where numpy's typing changes the outcome, `np.vectorize` in `_disallow_blocked`, is modelled as written by `RootMatch.DisallowBlockedAsWritten`: the output type from the first element, and the error on a grid of size 0 (see Findings).
- `Allocation.UniqueUids`: the uid dictionaries keep the last record per uid, so with duplicate candidate uids `mark_paired` can mark a record other than the one the solver paired. The "every candidate is paired" clauses of `PlayRound` and `Attempt` are stated for distinct uids only.
- Logging, `print`, the `DEBUG` environment switch of `register_scoring_method`, CSV reading, the CLI, and `np.savetxt` of an unsolvable grid are I/O and are left out.
- Floating point is written as exact arithmetic. `min_number` is `round(0.8 n)`, which never meets a half-way value. The SEFS valences 1.0 and 0.8 become 20 and 16 points. The success bound 0.8 becomes `5 * count >= 4 * number`.
- `compute`'s final tallies (`total_bids`, `dept_bids_mapping`, `min_bids`) are only printed, so they are left out.
- `Process.compute` is a `for` loop over the cohorts. `match_cohort` stays a recursive method, as in the source; it terminates by `decreases max_rounds - round, 21 - failures`, with no fuel bound.
- `MatchRound.Matching.Match` hands the solver the intended cost matrix `CostMatrix` (every score inverted) on every grid. On a grid with no `DISALLOWED` cell the code passes the raw scores, as `MatchRound.CostMatrixAsWritten` states (Findings, last row). So `ReportPairs`, `Process.PairOff` and `Process.SolveRound` model the corrected program on such grids. No proof depends on the choice, since the solver is a parameter and both matrices have the same shape.
- `Bids.DepartmentLowered`: `Text.Lower` lowers the letters A to Z only. Python's `str.lower` also lowers other Unicode letters and can change a string's length (`'İ'.lower()` has two code points), so the length and idempotence claims hold of the model only.
- `Allocation.Process.Compute`: raised exceptions end the loop with a `Failure`. The contract does not restate each cohort's verdict in the result list.
- `Allocation.Process.MatchCohort`: a `True` verdict is stated through the rounds' contracts (`Allocation.Process.Attempt`), not as a closed formula over the bids.
- The current candidate and role records come from `fast_stream_22/specialism/models.py`, which is not part of this model.
  - `Models` keeps the fields the code reads, with assumed types.
  - `Cohort` is ordered One < Two < Three < SixMonth.
  - `Travel` is a tier compared by value.
  - SEFS `year_group == 1` is read as the first cohort.
- `SefsRules.SefsReady`: the SEFS rule looks up competencies in the role's table, and a missing one raises `KeyError`. The evaluator requires the lookups to succeed instead of modelling the exception.
- `RootScoring.ScoreSkills`: a `KeyError` for a skill the candidate does not have becomes `None`.
- The older evaluator `fast_stream_22/matching/pair.py` reads fields (`locations`, `from_anywhere()`, `last_role_secondary_skill`) that its own `models.py` does not define, so it is modelled over the current `Models` records.
- `BasePair._check_score` in `fast_stream_22/matching/pair.py` is left out. It raises `NotImplementedError`, and only its override in `Pair` runs.
- The older generalist overlay (`fast_stream_22/matching/generalist/models.py`) cannot run as written:
  - it reads `scoring_weights` and `min_score` from a `BasePair` that has neither;
  - it calls `super().__init__()` without arguments;
  - it passes the records to rule methods that take none.
  So the model keeps its rule bodies, decorator, preference bonus and `score_pair` over explicit arguments.
- Its `_score_skill` and `_score_location` delegate to base methods that do not exist and would raise `AttributeError`. They are left out, so `LegacyGeneralist.UnrecordedPreferences` holds of the model only.
- `GeneralistCandidate`'s handling of the department preference strings (`_stringify_department`, the `replace(" ", ",")` of prior departments) is left out; `dept_prefs` and `prior_departments` are taken as already-read sets.
- `matching/match.py`'s `get_candidate_and_role_pair` and `process_matches` are I/O wrappers and a direct solver call, and are left out.

## Findings

| source | as written | input that shows it | evidently intended | confidence | as-written member | corrected member |
|---|---|---|---|---|---|---|
| fast_stream_22/matching/pair.py:86-93 | `_check_location` assigns `self._disqualified` directly; with no early exit in `score_pair`, it clears any disqualification earlier rules made, so the verdict depends on set iteration order | a candidate who cannot relocate, in an acceptable location, without the clearance the role needs: disqualified if the location check runs first, accepted if it runs last | go through the sticky `disqualified` setter like every other check | not executed; high | `LegacyPair.AsWrittenOrderMatters` | `LegacyPair.EvaluateOrderFree` |
| matching/match.py:38-42 | `map(lambda f, weight: ...)` over `items()` calls a two-argument lambda with one tuple | any candidate and role with the two-function weight map of `generate_grid` | unpack each `(function, weight)` item | not executed; high | `RootMatch.AsWrittenAlwaysRaises` | `RootMatch.MatchVerdict` |
| matching/match.py:20-23 | the comprehension runs roles outer and candidates inner, but the result is reshaped to candidates × roles | two candidates and two roles: cell (0, 1) pairs candidate 1 with role 0 | candidates outer, roles inner, so cell (i, j) is candidate i against role j | not executed; high | `RootMatch.LayoutAsWrittenTransposes` | `RootMatch.GridLayout` |
| matching/match.py:30-31 | `np.vectorize` without `otypes` takes the output type from the lambda's result on the first element, and refuses inputs of size 0 | [[3, -1]]: the first result 3 makes the output an integer array, and `DISALLOWED` cannot be cast into it (`TypeError`); `[]` raises `ValueError` | every negative cell becomes `DISALLOWED`, whatever the first cell, and an empty grid stays empty (`otypes=[object]`) | not executed; medium (depends on numpy's `vectorize` typing) | `RootMatch.AsWrittenMaskRaises` | `RootMatch.DisallowBlockedSpec` |
| fast_stream_22/matching/match.py:324-328 | the inversion is applied only when `type(x) is int`; a grid with no `DISALLOWED` cell is an integer numpy array whose elements are numpy integers, so the scores pass through as costs and the solver minimises the score | grid [[30, 10], [10, 30]]: the code's costs choose the pairing with score 20 over the one with 60 | invert every score cell | not executed; medium (depends on numpy's element types) | `MatchRound.AsWrittenPrefersLowScores` | `MatchRound.CheaperMeansHigherScore` |
