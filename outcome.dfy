/**
 * The summary of one iteration of the matcher (`IterationOutcome` in
 * fast_stream_22/matching/match.py): the total score of the pairings made
 * and the number of bids that reached the success bound.
 */
module Outcome {
  import opened Models
  import opened Bids
  import opened Allocation

  // ---------------------------------------------------------------
  // Success of a bid
  // ---------------------------------------------------------------

  /**
   * `count / number >= 0.8` in exact arithmetic: for a positive `number`
   * that is `5 * count >= 4 * number`, for a negative one the division
   * flips the comparison, and a zero `number` raises the
   * `ZeroDivisionError` that `count_success` swallows, so that bid never
   * counts.
   */
  predicate Successful(b: Bid)
  {
    if b.number > 0 then 5 * b.count >= 4 * b.number
    else if b.number < 0 then 5 * b.count <= 4 * b.number
    else false
  }

  /** The successful bids among the first `n`. */
  function SuccessesUpTo(bids: seq<Bid>, n: nat): (c: nat)
    requires n <= |bids|
    ensures c <= n
  {
    if n == 0 then 0 else SuccessesUpTo(bids, n - 1) + (if Successful(bids[n - 1]) then 1 else 0)
  }

  /** The positions of the successful bids among the first `n`. */
  function SuccessfulPositions(bids: seq<Bid>, n: nat): set<nat>
    requires n <= |bids|
  {
    set k: nat | k < n && Successful(bids[k])
  }

  /** The running count is the number of successful bids. */
  lemma {:induction false} SuccessesCounted(bids: seq<Bid>, n: nat)
    requires n <= |bids|
    ensures SuccessesUpTo(bids, n) == |SuccessfulPositions(bids, n)|
  {
    if n > 0 {
      SuccessesCounted(bids, n - 1);
      var before := SuccessfulPositions(bids, n - 1);
      if Successful(bids[n - 1]) {
        assert SuccessfulPositions(bids, n) == before + {n - 1};
        assert n - 1 !in before;
      } else {
        assert SuccessfulPositions(bids, n) == before;
      }
    }
  }

  /** A successful bid of a positive number has also reached its `min_number`. */
  lemma SuccessMeetsMinimum(b: Bid)
    requires b.number > 0 && Successful(b)
    ensures b.count >= MinNumber(b.number)
  {
    if b.number >= 5 {
      assert 5 * MinNumber(b.number) <= 4 * b.number + 2;
    }
  }

  /**
   * The converse fails: `min_number` rounds 80% to the nearest whole
   * number, so a bid of 8 filled to its minimum of 6 is below the bound.
   */
  lemma MinimumShortOfSuccess(b: Bid)
    requires b.number == 8 && b.count == 6
    ensures b.count >= MinNumber(b.number) && !Successful(b)
  {
    assert MinNumber(8) == 6;
  }

  // ---------------------------------------------------------------
  // Total score
  // ---------------------------------------------------------------

  /** The scores of a list of results, added up. */
  function ScoreSum(results: seq<Pairing>): int
  {
    if results == [] then 0 else results[0].score + ScoreSum(results[1..])
  }

  /** The results of every cohort, cohort after cohort. */
  function AllResults(outcomes: seq<(Cohort, seq<Pairing>)>): (rs: seq<Pairing>)
    ensures forall k :: 0 <= k < |outcomes| ==> |outcomes[k].1| <= |rs|
  {
    if outcomes == [] then [] else outcomes[0].1 + AllResults(outcomes[1..])
  }

  /** `total_score`: cohort by cohort, the sum of the scores of its results. */
  function TotalScore(outcomes: seq<(Cohort, seq<Pairing>)>): int
  {
    if outcomes == [] then 0 else ScoreSum(outcomes[0].1) + TotalScore(outcomes[1..])
  }

  lemma {:induction false} ScoreSumAppend(a: seq<Pairing>, b: seq<Pairing>)
    ensures ScoreSum(a + b) == ScoreSum(a) + ScoreSum(b)
  {
    if a != [] {
      assert (a + b)[1..] == a[1..] + b;
      ScoreSumAppend(a[1..], b);
    } else {
      assert a + b == b;
    }
  }

  /** The total is the sum of the scores of all results taken together, as the nested generator reads them. */
  lemma {:induction false} TotalScoreFlat(outcomes: seq<(Cohort, seq<Pairing>)>)
    ensures TotalScore(outcomes) == ScoreSum(AllResults(outcomes))
  {
    if outcomes != [] {
      TotalScoreFlat(outcomes[1..]);
      ScoreSumAppend(outcomes[0].1, AllResults(outcomes[1..]));
    }
  }

  // ---------------------------------------------------------------
  // The outcome object
  // ---------------------------------------------------------------

  /**
   * An iteration's outcome. The cohort outcomes are the `pairings`
   * dictionary as its items, in insertion order; the success bound is the
   * default 0.8.
   */
  class IterationOutcome {
    const bids: seq<Bid>
    const outcomes: seq<(Cohort, seq<Pairing>)>
    const iteration: nat
    const totalScore: int
    var successCount: nat

    constructor (bids: seq<Bid>, outcomes: seq<(Cohort, seq<Pairing>)>, iteration: nat)
      ensures this.bids == bids && this.outcomes == outcomes && this.iteration == iteration
      ensures totalScore == ScoreSum(AllResults(outcomes))
      ensures successCount == |SuccessfulPositions(bids, |bids|)|
    {
      this.bids := bids;
      this.outcomes := outcomes;
      this.iteration := iteration;
      totalScore := TotalScore(outcomes);
      successCount := 0;
      new;
      TotalScoreFlat(outcomes);
      CountSuccess();
      SuccessesCounted(bids, |bids|);
    }

    /** `count_success`: one more for every successful bid. */
    method CountSuccess()
      modifies this
      ensures successCount == old(successCount) + SuccessesUpTo(bids, |bids|)
    {
      for n := 0 to |bids|
        invariant successCount == old(successCount) + SuccessesUpTo(bids, n)
      {
        if Successful(bids[n]) {
          successCount := successCount + 1;
        }
      }
    }
  }
}
