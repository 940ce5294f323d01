/**
 * The allocation loop (`Process` in fast_stream_22/matching/match.py):
 * cohort by cohort, rounds of matching between the cohort's unpaired
 * candidates and a shortlist of roles capped by the departments' bids,
 * with a retry after rejections, a further round after a partial match,
 * and the exits the source raises. Commits mark candidates and roles
 * paired and count the pairs against the bids.
 */
module Allocation {
  import opened Wrappers
  import opened Models
  import opened Seqs
  import opened Bids
  import opened PairRules
  import opened Scoring
  import opened Evaluators
  import opened MatchRound
  import opened Rounds

  /** The exceptions `match_cohort` lets out. */
  datatype MatchError =
    | TooManyFailures  // `Exception("Too many failures")` once more than 20 retries failed
    | OutOfRoles       // `OutOfRolesException`
    | Unsolvable       // `UnsolvableMatrix` from the solver
    | Overfilled       // `ValueError`: a bid's count went past its number
    | MissingKey       // `KeyError` from one of the uid or department dictionaries

  /** An entry of `pairings[cohort]`: candidate uid, role uid and the pair's score when committed. */
  datatype Pairing = Pairing(candidate: string, role: string, score: int)

  /** The candidate and role uids of each pairing, in order. */
  function UidPairs(qs: seq<Pairing>): (ps: seq<(string, string)>)
    ensures |ps| == |qs| && forall l :: 0 <= l < |qs| ==> ps[l] == (qs[l].candidate, qs[l].role)
  {
    seq(|qs|, l requires 0 <= l < |qs| => (qs[l].candidate, qs[l].role))
  }

  lemma UidPairsAppend(qs: seq<Pairing>, q: Pairing)
    ensures UidPairs(qs + [q]) == UidPairs(qs) + [(q.candidate, q.role)]
  {
  }

  /** The items at the given positions, in that order. */
  function Pick<T>(xs: seq<T>, positions: seq<nat>): (r: seq<T>)
    requires forall k :: 0 <= k < |positions| ==> positions[k] < |xs|
    ensures |r| == |positions| && forall k :: 0 <= k < |positions| ==> r[k] == xs[positions[k]]
  {
    seq(|positions|, k requires 0 <= k < |positions| => xs[positions[k]])
  }

  // ---------------------------------------------------------------
  // The records with the flags the process keeps beside them
  // ---------------------------------------------------------------

  /** The candidates with their `paired` attributes set as `paired` says. */
  function WithPaired(cs: seq<Candidate>, paired: seq<bool>): (r: seq<Candidate>)
    requires |paired| == |cs|
    ensures |r| == |cs| && forall i :: 0 <= i < |cs| ==> r[i] == cs[i].(paired := paired[i])
  {
    seq(|cs|, i requires 0 <= i < |cs| => cs[i].(paired := paired[i]))
  }

  /** The roles with their `paired` and `no_match` attributes set as the two flag lists say. */
  function WithFlags(rs: seq<Role>, paired: seq<bool>, noMatch: seq<bool>): (r: seq<Role>)
    requires |paired| == |rs| && |noMatch| == |rs|
    ensures |r| == |rs| && forall j :: 0 <= j < |rs| ==> r[j] == rs[j].(paired := paired[j], noMatch := noMatch[j])
  {
    seq(|rs|, j requires 0 <= j < |rs| => rs[j].(paired := paired[j], noMatch := noMatch[j]))
  }

  /** The `paired` attributes of the candidates. */
  function CandidateFlags(cs: seq<Candidate>): (f: seq<bool>)
    ensures |f| == |cs| && forall i :: 0 <= i < |cs| ==> f[i] == cs[i].paired
  {
    seq(|cs|, i requires 0 <= i < |cs| => cs[i].paired)
  }

  /** The `paired` attributes of the roles. */
  function RoleFlags(rs: seq<Role>): (f: seq<bool>)
    ensures |f| == |rs| && forall j :: 0 <= j < |rs| ==> f[j] == rs[j].paired
  {
    seq(|rs|, j requires 0 <= j < |rs| => rs[j].paired)
  }

  /** The `no_match` attributes of the roles. */
  function NoMatchFlags(rs: seq<Role>): (f: seq<bool>)
    ensures |f| == |rs| && forall j :: 0 <= j < |rs| ==> f[j] == rs[j].noMatch
  {
    seq(|rs|, j requires 0 <= j < |rs| => rs[j].noMatch)
  }

  /** Setting each flag to the value it has gives back the records. */
  lemma FlagsRoundTrip(cs: seq<Candidate>, rs: seq<Role>)
    ensures WithPaired(cs, CandidateFlags(cs)) == cs
    ensures WithFlags(rs, RoleFlags(rs), NoMatchFlags(rs)) == rs
  {
  }

  /** Flags do not enter any rule, so every pair of the flagged records is as ready as the records. */
  lemma FlagsKeepReady(sp: Specialism, cs: seq<Candidate>, rs: seq<Role>, cands: seq<nat>, roles: seq<nat>,
                       paired: seq<bool>, rolePaired: seq<bool>, noMatch: seq<bool>)
    requires AllReady(sp, cs, rs)
    requires |paired| == |cs| && |rolePaired| == |rs| && |noMatch| == |rs|
    requires forall k :: 0 <= k < |cands| ==> cands[k] < |cs|
    requires forall k :: 0 <= k < |roles| ==> roles[k] < |rs|
    ensures AllReady(sp, Pick(WithPaired(cs, paired), cands), Pick(WithFlags(rs, rolePaired, noMatch), roles))
  {
    var cs', rs' := Pick(WithPaired(cs, paired), cands), Pick(WithFlags(rs, rolePaired, noMatch), roles);
    forall i, j | 0 <= i < |cs'| && 0 <= j < |rs'| ensures Ready(sp, cs'[i], rs'[j]) {
      assert Ready(sp, cs[cands[i]], rs[roles[j]]);
    }
  }

  // ---------------------------------------------------------------
  // How the process's state may change: flags set, counts raised
  // ---------------------------------------------------------------

  /** A flag once set stays set. */
  predicate Grows(before: seq<bool>, after: seq<bool>)
  {
    |after| == |before| && forall i :: 0 <= i < |before| ==> before[i] ==> after[i]
  }

  /** Only `count` changes, and it never goes down. */
  predicate BidsEvolve(before: seq<Bid>, after: seq<Bid>)
  {
    |after| == |before| &&
    forall k :: 0 <= k < |before| ==>
      after[k] == before[k].(count := after[k].count) && before[k].count <= after[k].count
  }

  /** Every bid whose count moved is within its number: the over-fill check passed for it. */
  predicate CountsWithin(before: seq<Bid>, after: seq<Bid>)
    requires |after| == |before|
  {
    forall k :: 0 <= k < |before| && after[k].count != before[k].count ==> after[k].count <= after[k].number
  }

  lemma GrowsTransitive(a: seq<bool>, b: seq<bool>, c: seq<bool>)
    requires Grows(a, b) && Grows(b, c)
    ensures Grows(a, c)
  {
  }

  lemma BidsEvolveTransitive(a: seq<Bid>, b: seq<Bid>, c: seq<Bid>)
    requires BidsEvolve(a, b) && BidsEvolve(b, c)
    ensures BidsEvolve(a, c)
    ensures CountsWithin(a, b) && CountsWithin(b, c) ==> CountsWithin(a, c)
  {
  }

  // ---------------------------------------------------------------
  // The commit loop of `match_cohort`, stated through where each pair goes
  // ---------------------------------------------------------------

  /** A dictionary of bid positions that all lie inside `bids`. */
  predicate IntoBids(d: Dict, bids: seq<Bid>)
  {
    forall l :: 0 <= l < |d| ==> d[l].1 < |bids|
  }

  /** `cohort_bids[department].count += 1` on the bid at position `k`. */
  function CountAt(bs: seq<Bid>, k: nat): (bs': seq<Bid>)
    requires k < |bs|
    ensures BidsEvolve(bs, bs') && bs'[k].count == bs[k].count + 1
    ensures forall j :: 0 <= j < |bs| && j != k ==> bs'[j] == bs[j]
  {
    bs[k := bs[k].(count := bs[k].count + 1)]
  }

  /**
   * Where the dictionaries send the pair `p`: the candidate position
   * `candidate_mapping` finds, the role position `all_roles_mapping`
   * finds, and the bid `cohort_bids` holds for that role's department. None
   * when one of the three lookups raises `KeyError`.
   */
  function Route(cs: seq<Candidate>, rs: seq<Role>, d: Dict, p: (string, string)): (t: Option<(nat, nat, nat)>)
    ensures t.None? <==> p.0 !in CandidateUids(cs) || p.1 !in RoleUids(rs)
                         || Lookup(d, rs[UidIndex(RoleUids(rs), p.1).value].department).None?
    ensures t.Some? ==> UidIndex(CandidateUids(cs), p.0) == Some(t.value.0) && t.value.0 < |cs|
                        && UidIndex(RoleUids(rs), p.1) == Some(t.value.1) && t.value.1 < |rs|
                        && Lookup(d, rs[t.value.1].department) == Some(t.value.2)
  {
    match UidIndex(CandidateUids(cs), p.0)
    case None => None
    case Some(ci) =>
      match UidIndex(RoleUids(rs), p.1)
      case None => None
      case Some(ri) =>
        match Lookup(d, rs[ri].department)
        case None => None
        case Some(k) => Some((ci, ri, k))
  }

  /** Where each of the pairs goes. */
  function Routes(cs: seq<Candidate>, rs: seq<Role>, d: Dict, pairs: seq<(string, string)>)
    : (ts: seq<Option<(nat, nat, nat)>>)
    ensures |ts| == |pairs| && forall l :: 0 <= l < |pairs| ==> ts[l] == Route(cs, rs, d, pairs[l])
  {
    seq(|pairs|, l requires 0 <= l < |pairs| => Route(cs, rs, d, pairs[l]))
  }

  type Routing = seq<Option<(nat, nat, nat)>>

  /** Every one of the first `n` pairs finds its candidate, its role and its bid. */
  predicate AllRouted(ts: Routing, n: nat)
    requires n <= |ts|
  {
    forall l :: 0 <= l < n ==> ts[l].Some?
  }

  /** How many of the first `n` pairs go to the bid at position `k`. */
  function Tally(ts: Routing, n: nat, k: nat): nat
    requires n <= |ts|
  {
    if n == 0 then 0
    else Tally(ts, n - 1, k) + (if ts[n - 1].Some? && ts[n - 1].value.2 == k then 1 else 0)
  }

  /** No bid that receives some of the first `n` pairs receives more than its number leaves room for. */
  predicate Room(bs: seq<Bid>, ts: Routing, n: nat)
    requires n <= |ts|
  {
    forall k :: 0 <= k < |bs| && Tally(ts, n, k) > 0 ==> bs[k].count + Tally(ts, n, k) <= bs[k].number
  }

  /** The candidate positions the first `n` pairs mark. */
  function CandidateHits(ts: Routing, n: nat): set<nat>
    requires n <= |ts|
  {
    if n == 0 then {}
    else CandidateHits(ts, n - 1) + (if ts[n - 1].Some? then {ts[n - 1].value.0} else {})
  }

  /** The role positions the first `n` pairs mark. */
  function RoleHits(ts: Routing, n: nat): set<nat>
    requires n <= |ts|
  {
    if n == 0 then {}
    else RoleHits(ts, n - 1) + (if ts[n - 1].Some? then {ts[n - 1].value.1} else {})
  }

  lemma {:induction false} TallyMonotone(ts: Routing, n: nat, m: nat, k: nat)
    requires n <= m <= |ts|
    ensures Tally(ts, n, k) <= Tally(ts, m, k)
    decreases m - n
  {
    if n < m {
      TallyMonotone(ts, n, m - 1, k);
    }
  }

  /** Each of the first `n` pairs that finds its candidate and role marks them. */
  lemma {:induction false} HitsContain(ts: Routing, n: nat, l: nat)
    requires l < n <= |ts| && ts[l].Some?
    ensures ts[l].value.0 in CandidateHits(ts, n) && ts[l].value.1 in RoleHits(ts, n)
  {
    if l < n - 1 {
      HitsContain(ts, n - 1, l);
    }
  }

  /**
   * The state after the first `n` pairs of a routing went through the
   * commit loop, starting from flags `c0`, `r0` and bids `b0`: all of them
   * were routed and found room, exactly their candidates and roles are
   * newly marked, and each bid counts the pairs it received.
   */
  predicate Committed(c0: seq<bool>, r0: seq<bool>, b0: seq<Bid>, ts: Routing, n: nat,
                      c: seq<bool>, r: seq<bool>, b: seq<Bid>)
    requires n <= |ts|
  {
    Grows(c0, c) && Grows(r0, r) && BidsEvolve(b0, b) && AllRouted(ts, n) && Room(b0, ts, n)
    && (forall i :: 0 <= i < |c| ==> c[i] == (c0[i] || i in CandidateHits(ts, n)))
    && (forall j :: 0 <= j < |r| ==> r[j] == (r0[j] || j in RoleHits(ts, n)))
    && (forall k :: 0 <= k < |b| ==> b[k].count == b0[k].count + Tally(ts, n, k))
  }

  lemma CommittedStart(c0: seq<bool>, r0: seq<bool>, b0: seq<Bid>, ts: Routing)
    ensures Committed(c0, r0, b0, ts, 0, c0, r0, b0)
  {
  }

  /** A pair that is routed and finds room extends the committed prefix by one. */
  lemma CommittedStep(c0: seq<bool>, r0: seq<bool>, b0: seq<Bid>, ts: Routing, n: nat,
                      c: seq<bool>, r: seq<bool>, b: seq<Bid>)
    requires n < |ts| && Committed(c0, r0, b0, ts, n, c, r, b) && ts[n].Some?
    requires ts[n].value.0 < |c| && ts[n].value.1 < |r| && ts[n].value.2 < |b|
    requires b[ts[n].value.2].count + 1 <= b[ts[n].value.2].number
    ensures var (ci, ri, k) := ts[n].value;
            Committed(c0, r0, b0, ts, n + 1, c[ci := true], r[ri := true], CountAt(b, k))
  {
    var (ci, ri, k) := ts[n].value;
    var b' := CountAt(b, k);
    forall l | 0 <= l < |b0| && Tally(ts, n + 1, l) > 0
      ensures b0[l].count + Tally(ts, n + 1, l) <= b0[l].number
    {
      if l != k {
        assert Tally(ts, n + 1, l) == Tally(ts, n, l);
      }
    }
  }

  /** A pair whose count overfills its bid leaves no room for all the pairs. */
  lemma OverfilledNoRoom(c0: seq<bool>, r0: seq<bool>, b0: seq<Bid>, ts: Routing, n: nat,
                         c: seq<bool>, r: seq<bool>, b: seq<Bid>)
    requires n < |ts| && Committed(c0, r0, b0, ts, n, c, r, b) && ts[n].Some? && ts[n].value.2 < |b|
    requires b[ts[n].value.2].count + 1 > b[ts[n].value.2].number
    ensures !Room(b0, ts, |ts|)
  {
    var k := ts[n].value.2;
    TallyMonotone(ts, n + 1, |ts|, k);
  }

  /** A pair that misses a key leaves the routing incomplete. */
  lemma MissingNotRouted(ts: Routing, n: nat)
    requires n < |ts| && ts[n].None?
    ensures !AllRouted(ts, |ts|)
  {
  }

  /** Every bid counted on the way stayed within its number. */
  lemma CommittedWithin(c0: seq<bool>, r0: seq<bool>, b0: seq<Bid>, ts: Routing, n: nat,
                        c: seq<bool>, r: seq<bool>, b: seq<Bid>)
    requires n <= |ts| && Committed(c0, r0, b0, ts, n, c, r, b)
    ensures CountsWithin(b0, b)
  {
  }

  // ---------------------------------------------------------------
  // The round state machine of `match_cohort`
  // ---------------------------------------------------------------

  /** Positions that all lie below `n`. */
  predicate Within(positions: seq<nat>, n: nat)
  {
    forall k :: 0 <= k < |positions| ==> positions[k] < n
  }

  /** A routed pair marks its candidate's position. */
  lemma {:induction false} HitOfRouted(ts: Routing, n: nat, k: nat)
    requires k < n <= |ts| && ts[k].Some?
    ensures ts[k].value.0 in CandidateHits(ts, n)
  {
    if k < n - 1 {
      HitOfRouted(ts, n - 1, k);
    }
  }

  /** No two candidate records share a uid. */
  predicate UniqueUids(cs: seq<Candidate>)
  {
    forall a, b :: 0 <= a < b < |cs| ==> cs[a].uid != cs[b].uid
  }

  /**
   * When the solver pairs every candidate of the round and every pair is
   * committed, every candidate of the round has been marked paired,
   * provided no two candidates share a uid (the uid dictionary marks the
   * last record with a uid).
   */
  lemma FullRoundMarks(cs: seq<Candidate>, p0: seq<bool>, rs: seq<Role>, rview: seq<Role>, d: Dict,
                       cands: seq<nat>, shortlisted: seq<nat>, ps: Assignment, pairs: seq<(string, string)>,
                       r0: seq<bool>, b0: seq<Bid>, c: seq<bool>, r: seq<bool>, b: seq<Bid>)
    requires |p0| == |cs| && Within(cands, |cs|) && Within(shortlisted, |rview|) && UniqueUids(cs)
    requires IsAssignment(|cands|, |shortlisted|, ps) && |ps| == |cands|
    requires pairs == ConvertAll(Pick(WithPaired(cs, p0), cands), Pick(rview, shortlisted), ps)
    requires Committed(p0, r0, b0, Routes(cs, rs, d, pairs), |pairs|, c, r, b)
    ensures forall i :: 0 <= i < |cands| ==> c[cands[i]]
  {
    var ts := Routes(cs, rs, d, pairs);
    var view := Pick(WithPaired(cs, p0), cands);
    var uids := CandidateUids(cs);
    assert forall a, b :: 0 <= a < b < |uids| ==> uids[a] != uids[b];
    forall i | 0 <= i < |cands| ensures c[cands[i]] {
      FullAssignmentCoversRows(ps, |cands|, |shortlisted|, i);
      var k :| 0 <= k < |ps| && ps[k].0 == i;
      assert pairs[k].0 == uids[cands[i]] by {
        assert pairs[k] == ConvertPair(view, Pick(rview, shortlisted), ps[k]);
        assert view[i] == WithPaired(cs, p0)[cands[i]];
      }
      UidIndexDistinct(uids, cands[i]);
      assert ts[k].Some? && ts[k].value.0 == cands[i];
      HitOfRouted(ts, |pairs|, k);
    }
  }

  /**
   * If every candidate `round_candidates` lists ends up paired, every
   * candidate of the cohort is paired: the others were paired already.
   */
  lemma RoundCoversCohort(cs: seq<Candidate>, p0: seq<bool>, p1: seq<bool>, cohort: Cohort)
    requires |p0| == |cs| && Grows(p0, p1)
    requires var cands := RoundCandidates(WithPaired(cs, p0), cohort);
             forall k :: 0 <= k < |cands| ==> cands[k] < |p1| && p1[cands[k]]
    ensures forall i :: 0 <= i < |cs| && cs[i].yearGroup == cohort ==> p1[i]
  {
    var view := WithPaired(cs, p0);
    var cands := RoundCandidates(view, cohort);
    RoundCandidatesSpec(view, cohort);
    forall i | 0 <= i < |cs| && cs[i].yearGroup == cohort ensures p1[i] {
      if !p0[i] {
        assert view[i] == cs[i].(paired := p0[i]);
        assert i in cands;
        var k :| 0 <= k < |cands| && cands[k] == i;
      }
    }
  }

  /**
   * What `match_cohort` returns once the rounds run out: whether every bid
   * of `_cohort_bids` (the cohort's open bids, one per department) reached
   * its `min_number`.
   */
  predicate BidsMet(bids: seq<Bid>, cohort: Cohort)
  {
    var d := CohortBids(bids, cohort);
    forall l :: 0 <= l < |d| ==> d[l].1 < |bids| && bids[d[l].1].count >= MinNumber(bids[d[l].1].number)
  }

  /** The bids counted are exactly the last open bid of each department. */
  lemma BidsMetSpec(bids: seq<Bid>, cohort: Cohort)
    ensures BidsMet(bids, cohort) <==>
              forall dept :: LastOpenBid(bids, cohort, dept, |bids|).Some? ==>
                var k := LastOpenBid(bids, cohort, dept, |bids|).value;
                bids[k].count >= MinNumber(bids[k].number)
  {
    var d := CohortBids(bids, cohort);
    if BidsMet(bids, cohort) {
      forall dept | LastOpenBid(bids, cohort, dept, |bids|).Some?
        ensures var k := LastOpenBid(bids, cohort, dept, |bids|).value;
                bids[k].count >= MinNumber(bids[k].number)
      {
        CohortBidsLookup(bids, cohort, |bids|, dept);
        LookupSpec(d, dept);
        var k := LastOpenBid(bids, cohort, dept, |bids|).value;
        var l :| 0 <= l < |d| && d[l] == (dept, k);
      }
    } else {
      var l :| 0 <= l < |d| && !(d[l].1 < |bids| && bids[d[l].1].count >= MinNumber(bids[d[l].1].number));
      CohortBidsEntries(bids, cohort, l);
      var (dept, k) := d[l];
      CohortBidsLookup(bids, cohort, |bids|, dept);
      DictItemsLookup(d, l);
    }
  }

  /** The round's candidate positions lie inside the candidate list. */
  lemma RoundCandidatesWithin(cs: seq<Candidate>, cohort: Cohort)
    ensures Within(RoundCandidates(cs, cohort), |cs|)
  {
    RoundCandidatesSpec(cs, cohort);
    var r := RoundCandidates(cs, cohort);
    forall k | 0 <= k < |r| ensures r[k] < |cs| {
      assert r[k] in r;
    }
  }

  /** The shortlisted positions lie inside the role list. */
  lemma ShortlistWithin(rs: seq<Role>, bids: seq<Bid>, cohort: Cohort, round: nat)
    ensures Within(Shortlist(rs, bids, cohort, round), |rs|)
  {
    var s := Shortlist(rs, bids, cohort, round);
    forall k | 0 <= k < |s| ensures s[k] < |rs| {
      ShortlistMembers(rs, bids, cohort, round, s[k]);
    }
  }

  /** The dictionary of the cohort's bids holds positions inside the bid list. */
  lemma CohortBidsInto(bids: seq<Bid>, cohort: Cohort)
    ensures IntoBids(CohortBids(bids, cohort), bids)
  {
    var d := CohortBids(bids, cohort);
    forall l | 0 <= l < |d| ensures d[l].1 < |bids| {
      CohortBidsEntries(bids, cohort, l);
    }
  }

  /**
   * The `no_match` flags after `reject_impossible_roles` went over the
   * first `n` columns: a column that is all `DISALLOWED` flags the role
   * shortlisted at that position.
   */
  function RejectFlags(noMatch: seq<bool>, shortlisted: seq<nat>, grid: seq<seq<Cell>>, n: nat): (f: seq<bool>)
    requires n <= |shortlisted| && Within(shortlisted, |noMatch|)
    ensures |f| == |noMatch|
    ensures forall i :: 0 <= i < |noMatch| ==>
              f[i] == (noMatch[i] || exists j :: 0 <= j < n && shortlisted[j] == i && ColumnDisallowed(grid, j))
  {
    if n == 0 then noMatch
    else
      var f := RejectFlags(noMatch, shortlisted, grid, n - 1);
      if ColumnDisallowed(grid, n - 1) then f[shortlisted[n - 1] := true] else f
  }

  /** With no column all `DISALLOWED`, no flag changes. */
  lemma {:induction false} RejectFlagsNone(noMatch: seq<bool>, shortlisted: seq<nat>, grid: seq<seq<Cell>>, n: nat)
    requires n <= |shortlisted| && Within(shortlisted, |noMatch|)
    requires forall j :: 0 <= j < n ==> !ColumnDisallowed(grid, j)
    ensures RejectFlags(noMatch, shortlisted, grid, n) == noMatch
  {
    if n > 0 {
      RejectFlagsNone(noMatch, shortlisted, grid, n - 1);
    }
  }

  /** How a pass of `match_cohort` ends: an exception, a returned verdict, or the recursive call it makes. */
  datatype Step =
    | Raise(error: MatchError)
    | Finish(matched: bool)
    | Again(round: nat, failures: nat)

  /** What the two `Matching`s of a round give: some role rejected, the solver failing, or the solver's pairs as uids. */
  datatype Solution = SomeRejected | NoSolution | Solved(pairs: seq<(string, string)>)

  // ---------------------------------------------------------------
  // The process
  // ---------------------------------------------------------------

  /**
   * The process object. The candidate and role records keep what the
   * rules read; the attributes the process flips (`paired` on both,
   * `no_match` on roles) are held in flag lists beside them, position by
   * position, and the bids carry their own `count`.
   */
  class Process {
    const candidates: seq<Candidate>
    const roles: seq<Role>
    var candidatePaired: seq<bool>
    var rolePaired: seq<bool>
    var roleNoMatch: seq<bool>
    var bids: seq<Bid>
    /** `pairings`, a `defaultdict(list)` keyed by cohort. */
    var pairings: map<Cohort, seq<Pairing>>
    const seniorToJunior: bool
    /** The pair class (`pair_type`) and the order in which its rule set is visited. */
    const specialism: Specialism
    const order: seq<Rule>
    /** The class-level `scoring_weights` every evaluator shares. */
    const weights: SharedWeights
    /** The assignment solver every round hands its cost matrix to. */
    const solver: Solver
    const maxRounds: nat

    /** One flag per record. */
    predicate Shaped()
      reads this
    {
      |candidatePaired| == |candidates| && |rolePaired| == |roles| && |roleNoMatch| == |roles|
    }

    /** What the constant parts guarantee: every pair can be evaluated, the rule order visits the pair class's rules, the solver answers with assignments. */
    ghost predicate Static()
    {
      AllReady(specialism, candidates, roles) && IsEnumeration(order, RuleSet(specialism)) && SolverSound(solver)
    }

    ghost predicate Valid()
      reads this
    {
      Shaped() && Static()
    }

    /** The candidate list the Python process holds, flags included. */
    function Candidates(): seq<Candidate>
      requires Shaped()
      reads this
    {
      WithPaired(candidates, candidatePaired)
    }

    /** The role list the Python process holds, flags included. */
    function Roles(): seq<Role>
      requires Shaped()
      reads this
    {
      WithFlags(roles, rolePaired, roleNoMatch)
    }

    constructor (cs: seq<Candidate>, rs: seq<Role>, bs: seq<Bid>, seniorToJunior: bool, sp: Specialism,
                 order: seq<Rule>, w: SharedWeights, solver: Solver)
      requires AllReady(sp, cs, rs) && IsEnumeration(order, RuleSet(sp)) && SolverSound(solver)
      ensures Valid()
      ensures Candidates() == cs && Roles() == rs && bids == bs && pairings == map[]
      ensures this.seniorToJunior == seniorToJunior && specialism == sp && this.order == order
      ensures weights == w && this.solver == solver && maxRounds == 5
    {
      candidates := cs;
      roles := rs;
      candidatePaired := CandidateFlags(cs);
      rolePaired := RoleFlags(rs);
      roleNoMatch := NoMatchFlags(rs);
      bids := bs;
      pairings := map[];
      this.seniorToJunior := seniorToJunior;
      specialism := sp;
      this.order := order;
      weights := w;
      this.solver := solver;
      maxRounds := 5;
      FlagsRoundTrip(cs, rs);
    }

    /** `pairings[cohort]`, empty for a cohort not yet seen. */
    function PairingsOf(cohort: Cohort): seq<Pairing>
      reads this
    {
      if cohort in pairings then pairings[cohort] else []
    }

    /** `candidate_mapping[uid].mark_paired()`: the position the uid dictionary finds, marked; None for `KeyError`. */
    method MarkCandidate(uid: string) returns (ci: Option<nat>)
      requires Shaped()
      modifies this
      ensures Shaped() && rolePaired == old(rolePaired) && roleNoMatch == old(roleNoMatch)
      ensures bids == old(bids) && pairings == old(pairings)
      ensures ci == UidIndex(CandidateUids(candidates), uid)
      ensures candidatePaired == if ci.Some? then old(candidatePaired)[ci.value := true] else old(candidatePaired)
      ensures Grows(old(candidatePaired), candidatePaired)
    {
      ci := UidIndex(CandidateUids(candidates), uid);
      if ci.Some? {
        candidatePaired := candidatePaired[ci.value := true];
      }
    }

    /** `all_roles_mapping[uid].mark_paired()`: the position the uid dictionary finds, marked; None for `KeyError`. */
    method MarkRole(uid: string) returns (ri: Option<nat>)
      requires Shaped()
      modifies this
      ensures Shaped() && candidatePaired == old(candidatePaired) && roleNoMatch == old(roleNoMatch)
      ensures bids == old(bids) && pairings == old(pairings)
      ensures ri == UidIndex(RoleUids(roles), uid)
      ensures rolePaired == if ri.Some? then old(rolePaired)[ri.value := true] else old(rolePaired)
      ensures Grows(old(rolePaired), rolePaired)
    {
      ri := UidIndex(RoleUids(roles), uid);
      if ri.Some? {
        rolePaired := rolePaired[ri.value := true];
      }
    }

    /** `cohort_bids[department].count += 1`: the bid position `d` holds for the department, counted; None for `KeyError`. */
    method CountBid(d: Dict, department: string) returns (k: Option<nat>)
      requires IntoBids(d, bids)
      modifies this
      ensures candidatePaired == old(candidatePaired) && rolePaired == old(rolePaired)
      ensures roleNoMatch == old(roleNoMatch) && pairings == old(pairings)
      ensures k == Lookup(d, department) && (k.Some? ==> k.value < |old(bids)|)
      ensures bids == if k.Some? then CountAt(old(bids), k.value) else old(bids)
      ensures BidsEvolve(old(bids), bids)
    {
      k := Lookup(d, department);
      if k.Some? {
        LookupSpec(d, department);
        assert k.value in Values(d);
        bids := CountAt(bids, k.value);
      }
    }

    /**
     * One pass of the commit loop: mark the candidate `candidate_mapping`
     * finds, mark the role `all_roles_mapping` finds, count the pair
     * against the bid of the role's department, raise `ValueError` if that
     * overfills it, and score the pair with a fresh evaluator. A lookup
     * that misses raises `KeyError`; changes made before an exception stay.
     */
    method CommitPair(d: Dict, p: (string, string)) returns (outcome: Result<Pairing, MatchError>)
      requires Valid() && IntoBids(d, bids)
      modifies this, weights
      ensures Valid() && pairings == old(pairings) && IntoBids(d, bids) && roleNoMatch == old(roleNoMatch)
      ensures Grows(old(candidatePaired), candidatePaired) && Grows(old(rolePaired), rolePaired)
              && BidsEvolve(old(bids), bids)
      ensures outcome == Failure(MissingKey) <==> Route(candidates, roles, d, p).None?
      ensures Route(candidates, roles, d, p).Some? ==>
                var (ci, ri, k) := Route(candidates, roles, d, p).value;
                k < |bids|
                && candidatePaired == old(candidatePaired)[ci := true]
                && rolePaired == old(rolePaired)[ri := true]
                && bids == CountAt(old(bids), k)
                && (outcome.Success? <==> old(bids)[k].count + 1 <= old(bids)[k].number)
      ensures outcome.Failure? ==> outcome.error == MissingKey || outcome.error == Overfilled
      ensures outcome.Success? ==> outcome.value.candidate == p.0 && outcome.value.role == p.1
    {
      var ci := MarkCandidate(p.0);
      if ci.None? {
        return Failure(MissingKey);
      }
      var ri := MarkRole(p.1);
      if ri.None? {
        return Failure(MissingKey);
      }
      var k := CountBid(d, roles[ri.value].department);
      if k.None? {
        return Failure(MissingKey);
      }
      if bids[k.value].count > bids[k.value].number {
        return Failure(Overfilled);
      }
      var score := Score(ci.value, ri.value);
      outcome := Success(Pairing(p.0, p.1, score));
    }

    /** A new evaluator of the process's pair class, scored on the two records. */
    method Score(ci: nat, ri: nat) returns (score: int)
      requires Valid() && ci < |candidates| && ri < |roles|
      modifies weights
      ensures (score, weights.Value())
              == var (e, w) := Evaluate(specialism, order, old(weights.Value()), Candidates()[ci], Roles()[ri]);
                 (e.score, w)
    {
      var c, r := Candidates()[ci], Roles()[ri];
      assert Ready(specialism, candidates[ci], roles[ri]);
      var pair := new PairEvaluator(specialism, c, r, weights);
      score := pair.ScorePair(order);
    }

    /**
     * The body of the commit loop: `CommitPair` on the `n`-th pair, seen
     * as extending the prefix of `ts` committed since flags `c0`, `r0` and
     * bids `b0`, or as the reason the whole routing fails.
     */
    method CommitNext(d: Dict, pairs: seq<(string, string)>, n: nat,
                      ghost ts: Routing, ghost c0: seq<bool>, ghost r0: seq<bool>, ghost b0: seq<Bid>)
      returns (outcome: Result<Pairing, MatchError>)
      requires Valid() && IntoBids(d, bids) && n < |pairs| && ts == Routes(candidates, roles, d, pairs)
      requires Committed(c0, r0, b0, ts, n, candidatePaired, rolePaired, bids)
      modifies this, weights
      ensures Valid() && pairings == old(pairings) && IntoBids(d, bids) && roleNoMatch == old(roleNoMatch)
      ensures Grows(c0, candidatePaired) && Grows(r0, rolePaired) && BidsEvolve(b0, bids)
      ensures outcome.Failure? ==>
                (outcome.error == MissingKey && !AllRouted(ts, |ts|))
                || (outcome.error == Overfilled && !Room(b0, ts, |ts|))
      ensures outcome.Success? ==>
                Committed(c0, r0, b0, ts, n + 1, candidatePaired, rolePaired, bids)
                && outcome.value.candidate == pairs[n].0 && outcome.value.role == pairs[n].1
    {
      ghost var c, r, b := candidatePaired, rolePaired, bids;
      outcome := CommitPair(d, pairs[n]);
      GrowsTransitive(c0, c, candidatePaired);
      GrowsTransitive(r0, r, rolePaired);
      BidsEvolveTransitive(b0, b, bids);
      if outcome.Failure? {
        if outcome.error == Overfilled {
          OverfilledNoRoom(c0, r0, b0, ts, n, c, r, b);
        } else {
          MissingNotRouted(ts, n);
        }
      } else {
        CommittedStep(c0, r0, b0, ts, n, c, r, b);
      }
    }

    /**
     * The commit loop of `match_cohort` over the solver's `pairs`, with
     * `cohort_bids` as `d`. It succeeds exactly when every lookup finds its
     * key and no bid receives more pairs than its number leaves room for;
     * it then marked every candidate and role the pairs named, raised each
     * bid's count by the pairs it received, and scored the pairs in order.
     * Whatever happens, only flags, counts and the weights change.
     */
    method Commit(d: Dict, pairs: seq<(string, string)>) returns (result: Result<seq<Pairing>, MatchError>)
      requires Valid() && IntoBids(d, bids)
      modifies this, weights
      ensures Valid() && pairings == old(pairings) && roleNoMatch == old(roleNoMatch)
      ensures Grows(old(candidatePaired), candidatePaired) && Grows(old(rolePaired), rolePaired)
              && BidsEvolve(old(bids), bids)
      ensures var ts := Routes(candidates, roles, d, pairs);
              result.Success? <==> AllRouted(ts, |pairs|) && Room(old(bids), ts, |pairs|)
      ensures result == Failure(MissingKey) ==> !AllRouted(Routes(candidates, roles, d, pairs), |pairs|)
      ensures result.Failure? ==> result.error == MissingKey || result.error == Overfilled
      ensures result.Success? ==>
                Committed(old(candidatePaired), old(rolePaired), old(bids), Routes(candidates, roles, d, pairs), |pairs|,
                          candidatePaired, rolePaired, bids)
      ensures result.Success? ==> UidPairs(result.value) == pairs
    {
      ghost var ts := Routes(candidates, roles, d, pairs);
      CommittedStart(candidatePaired, rolePaired, bids, ts);
      var scored: seq<Pairing> := [];
      for n := 0 to |pairs|
        invariant Valid() && pairings == old(pairings) && IntoBids(d, bids) && roleNoMatch == old(roleNoMatch)
        invariant Committed(old(candidatePaired), old(rolePaired), old(bids), ts, n, candidatePaired, rolePaired, bids)
        invariant UidPairs(scored) == pairs[..n]
      {
        var outcome := CommitNext(d, pairs, n, ts, old(candidatePaired), old(rolePaired), old(bids));
        if outcome.Failure? {
          return Failure(outcome.error);
        }
        UidPairsAppend(scored, outcome.value);
        TakeSnoc(pairs, n);
        scored := scored + [outcome.value];
      }
      assert pairs[..|pairs|] == pairs;
      return Success(scored);
    }

    /** `_prepare_round`: the round's candidates and the shortlisted roles, as positions in the process's lists. */
    method PrepareRound(cohort: Cohort, round: nat) returns (cands: seq<nat>, shortlisted: seq<nat>)
      requires Shaped()
      ensures cands == RoundCandidates(Candidates(), cohort)
      ensures shortlisted == Shortlist(Roles(), bids, cohort, round)
    {
      var rs := Roles();
      cands := RoundCandidates(Candidates(), cohort);
      var suitable := SuitableRoles(rs, cohort);
      BidOrderInRange(bids, cohort);
      var order := BidOrder(bids, cohort);
      shortlisted := [];
      for n := 0 to |order|
        invariant shortlisted == ShortlistUpTo(suitable, rs, bids, order, round, n)
      {
        var bid := bids[order[n]];
        var length := if round == 0 then MinNumber(bid.number) else bid.number - bid.count;
        var departmental := Slice(Filter(suitable, InDepartment(rs, Department(bid))), length);
        shortlisted := shortlisted + departmental;
      }
    }

    /**
     * The round's first `Matching` and its `reject_impossible_roles`: score
     * the round's candidates against the shortlisted roles, and set
     * `no_match` on each shortlisted role whose column is all `DISALLOWED`
     * (the Matching holds the process's own role objects). True when some
     * role was rejected.
     */
    method RejectRound(cands: seq<nat>, shortlisted: seq<nat>) returns (rejected: bool)
      requires Valid() && Within(cands, |candidates|) && Within(shortlisted, |roles|)
      modifies this, weights
      ensures Valid() && candidatePaired == old(candidatePaired) && rolePaired == old(rolePaired)
      ensures bids == old(bids) && pairings == old(pairings)
      ensures var (grid, w) := Grid(specialism, order, Pick(old(Candidates()), cands), Pick(old(Roles()), shortlisted),
                                    old(weights.Value()));
              weights.Value() == w
              && roleNoMatch == RejectFlags(old(roleNoMatch), shortlisted, grid, |shortlisted|)
              && (rejected <==> exists j :: 0 <= j < |shortlisted| && ColumnDisallowed(grid, j))
              && (!rejected ==> roleNoMatch == old(roleNoMatch))
    {
      var cs, rs := Pick(Candidates(), cands), Pick(Roles(), shortlisted);
      FlagsKeepReady(specialism, candidates, roles, cands, shortlisted, candidatePaired, rolePaired, roleNoMatch);
      var m := new Matching(specialism, order, cs, rs, weights);
      var rejects := m.RejectImpossibleRoles();
      RejectedEmpty(rs, m.scoreGrid, |rs|);
      FlagRejected(shortlisted, m.scoreGrid);
      rejected := rejects != [];
      if !rejected {
        RejectFlagsNone(old(roleNoMatch), shortlisted, m.scoreGrid, |shortlisted|);
      }
    }

    /** The rejected roles' `no_match`, set through the process's own role objects. */
    method FlagRejected(shortlisted: seq<nat>, grid: seq<seq<Cell>>)
      requires Shaped() && Within(shortlisted, |roles|)
      modifies this
      ensures Shaped() && candidatePaired == old(candidatePaired) && rolePaired == old(rolePaired)
      ensures bids == old(bids) && pairings == old(pairings)
      ensures roleNoMatch == RejectFlags(old(roleNoMatch), shortlisted, grid, |shortlisted|)
    {
      for j := 0 to |shortlisted|
        invariant candidatePaired == old(candidatePaired) && rolePaired == old(rolePaired) && |roleNoMatch| == |roles|
        invariant bids == old(bids) && pairings == old(pairings)
        invariant roleNoMatch == RejectFlags(old(roleNoMatch), shortlisted, grid, j)
      {
        if ColumnDisallowed(grid, j) {
          roleNoMatch := roleNoMatch[shortlisted[j] := true];
        }
      }
    }

    /** `pair_off`: a second `Matching` of the same lists, solved; its pairs as uids, or None for `UnsolvableMatrix`. */
    method PairOff(cands: seq<nat>, shortlisted: seq<nat>) returns (pairs: Option<seq<(string, string)>>)
      requires Valid() && Within(cands, |candidates|) && Within(shortlisted, |roles|)
      modifies weights
      ensures var cs, rs := Pick(Candidates(), cands), Pick(Roles(), shortlisted);
              var (grid, w) := Grid(specialism, order, cs, rs, old(weights.Value()));
              weights.Value() == w
              && (pairs.None? <==> solver(CostMatrix(grid)).None?)
              && (pairs.Some? ==> IsAssignment(|cs|, |rs|, solver(CostMatrix(grid)).value)
                                  && pairs.value == ConvertAll(cs, rs, solver(CostMatrix(grid)).value))
    {
      var cs, rs := Pick(Candidates(), cands), Pick(Roles(), shortlisted);
      FlagsKeepReady(specialism, candidates, roles, cands, shortlisted, candidatePaired, rolePaired, roleNoMatch);
      var m := new Matching(specialism, order, cs, rs, weights);
      pairs := m.ReportPairs(solver);
    }

    /**
     * The matching part of a round: the first `Matching` and its
     * rejections, then, when nothing was rejected, the second `Matching`
     * and the solver. Only rejection changes flags; the solved pairs are
     * an assignment of the round's candidates to the shortlisted roles, as
     * uids.
     */
    method SolveRound(cands: seq<nat>, shortlisted: seq<nat>) returns (sol: Solution, ghost ps: Assignment)
      requires Valid() && Within(cands, |candidates|) && Within(shortlisted, |roles|)
      modifies this, weights
      ensures Valid() && candidatePaired == old(candidatePaired) && rolePaired == old(rolePaired)
      ensures bids == old(bids) && pairings == old(pairings)
      ensures !sol.SomeRejected? ==> roleNoMatch == old(roleNoMatch)
      ensures sol.Solved? ==>
                IsAssignment(|cands|, |shortlisted|, ps)
                && sol.pairs == ConvertAll(Pick(Candidates(), cands), Pick(Roles(), shortlisted), ps)
    {
      ps := [];
      var rejected := RejectRound(cands, shortlisted);
      if rejected {
        return SomeRejected, ps;
      }
      ghost var w := weights.Value();
      var pairs := PairOff(cands, shortlisted);
      if pairs.None? {
        return NoSolution, ps;
      }
      ps := solver(CostMatrix(Grid(specialism, order, Pick(Candidates(), cands), Pick(Roles(), shortlisted), w).0)).value;
      sol := Solved(pairs.value);
    }

    /**
     * The commit loop of a round followed by recording its pairings under
     * the cohort; a failed commit records nothing.
     */
    method CommitRound(cohort: Cohort, d: Dict, pairs: seq<(string, string)>)
      returns (committed: Result<seq<Pairing>, MatchError>)
      requires Valid() && d == CohortBids(bids, cohort)
      modifies this, weights
      ensures Valid() && roleNoMatch == old(roleNoMatch)
      ensures Grows(old(candidatePaired), candidatePaired) && Grows(old(rolePaired), rolePaired)
              && BidsEvolve(old(bids), bids)
      ensures forall y :: y != cohort ==> PairingsOf(y) == old(PairingsOf(y))
      ensures committed.Failure? ==>
                (committed.error == MissingKey || committed.error == Overfilled) && pairings == old(pairings)
      ensures committed.Success? ==>
                CountsWithin(old(bids), bids) && UidPairs(committed.value) == pairs
                && PairingsOf(cohort) == old(PairingsOf(cohort)) + committed.value
      ensures committed.Success? ==>
                Committed(old(candidatePaired), old(rolePaired), old(bids), Routes(candidates, roles, d, pairs), |pairs|,
                          candidatePaired, rolePaired, bids)
    {
      CohortBidsInto(bids, cohort);
      ghost var cp, rp, bs := candidatePaired, rolePaired, bids;
      committed := Commit(d, pairs);
      if committed.Failure? {
        return;
      }
      CommittedWithin(cp, rp, bs, Routes(candidates, roles, d, pairs), |pairs|, candidatePaired, rolePaired, bids);
      pairings := pairings[cohort := PairingsOf(cohort) + committed.value];
    }

    /**
     * A round of `match_cohort` past its guards, on the round's candidates
     * and shortlist: reject and retry, solve, commit, record the pairings,
     * and finish or go on to the next round.
     */
    method PlayRound(cohort: Cohort, round: nat, failures: nat, cands: seq<nat>, shortlisted: seq<nat>)
      returns (step: Step)
      requires Valid() && Within(cands, |candidates|) && Within(shortlisted, |roles|)
      modifies this, weights
      ensures Valid() && Grows(old(candidatePaired), candidatePaired) && Grows(old(rolePaired), rolePaired)
              && BidsEvolve(old(bids), bids)
      ensures forall y :: y != cohort ==> PairingsOf(y) == old(PairingsOf(y))
      ensures old(PairingsOf(cohort)) <= PairingsOf(cohort)
      ensures step != Raise(OutOfRoles) && step != Raise(TooManyFailures)
      ensures step.Again? ==> (step.round == round && step.failures == failures + 1) || (step.round == round + 1 && step.failures == 0)
      ensures step.Again? && step.round == round ==>
                candidatePaired == old(candidatePaired) && rolePaired == old(rolePaired) && bids == old(bids)
                && pairings == old(pairings)
      ensures step.Finish? ==> step.matched
      ensures step.Finish? || step.Again? ==> CountsWithin(old(bids), bids)
      ensures step == Finish(true) ==> |PairingsOf(cohort)| == |old(PairingsOf(cohort))| + |cands|
      ensures step == Again(round + 1, 0) ==> |PairingsOf(cohort)| < |old(PairingsOf(cohort))| + |cands|
      ensures step == Finish(true) && UniqueUids(candidates) ==> forall k :: 0 <= k < |cands| ==> candidatePaired[cands[k]]
    {
      var d := CohortBids(bids, cohort);
      var sol, ps := SolveRound(cands, shortlisted);
      if sol.SomeRejected? {
        return Again(round, failures + 1);
      } else if sol.NoSolution? {
        return Raise(Unsolvable);
      }
      var pairs := sol.pairs;
      AssignmentSize(ps, |cands|, |shortlisted|);
      ghost var p0, r0, b0, rview := candidatePaired, rolePaired, bids, Roles();
      var committed := CommitRound(cohort, d, pairs);
      if committed.Failure? {
        return Raise(committed.error);
      }
      if |pairs| == |cands| {
        if UniqueUids(candidates) {
          FullRoundMarks(candidates, p0, roles, rview, d, cands, shortlisted, ps, pairs, r0, b0,
                         candidatePaired, rolePaired, bids);
        }
        return Finish(true);
      }
      return Again(round + 1, 0);
    }

    /**
     * One pass of `match_cohort`: the failure guard, the round guard with
     * its verdict on the cohort's bids, preparing the round and the two
     * `OutOfRolesException` exits, then the round itself.
     */
    method Attempt(cohort: Cohort, round: nat, failures: nat) returns (step: Step)
      requires Valid()
      modifies this, weights
      ensures Valid() && Grows(old(candidatePaired), candidatePaired) && Grows(old(rolePaired), rolePaired)
              && BidsEvolve(old(bids), bids)
      ensures forall y :: y != cohort ==> PairingsOf(y) == old(PairingsOf(y))
      ensures old(PairingsOf(cohort)) <= PairingsOf(cohort)
      ensures step == Raise(TooManyFailures) <==> failures > 20
      ensures failures <= 20 && round >= maxRounds ==> step == Finish(BidsMet(old(bids), cohort))
      ensures step == Raise(TooManyFailures) || step == Raise(OutOfRoles) || (step.Finish? && round >= maxRounds) ==>
                candidatePaired == old(candidatePaired) && rolePaired == old(rolePaired)
                && roleNoMatch == old(roleNoMatch) && bids == old(bids) && pairings == old(pairings)
      ensures step.Again? ==>
                failures <= 20 && round < maxRounds
                && ((step.round == round && step.failures == failures + 1) || (step.round == round + 1 && step.failures == 0))
      ensures step.Again? && step.round == round ==>
                candidatePaired == old(candidatePaired) && rolePaired == old(rolePaired) && bids == old(bids)
                && pairings == old(pairings)
      ensures step.Finish? || step.Again? ==> CountsWithin(old(bids), bids)
      ensures step.Finish? && round < maxRounds ==> step.matched
      ensures step == Raise(OutOfRoles) <==>
                var cands, shortlisted := RoundCandidates(old(Candidates()), cohort),
                                          Shortlist(old(Roles()), old(bids), cohort, round);
                failures <= 20 && round < maxRounds && (shortlisted == [] || (|cands| > |shortlisted| && round != 0))
      ensures step == Finish(true) && round < maxRounds ==>
                |PairingsOf(cohort)| == |old(PairingsOf(cohort))| + |RoundCandidates(old(Candidates()), cohort)|
      ensures step == Finish(true) && round < maxRounds && UniqueUids(candidates) ==>
                forall i :: 0 <= i < |candidates| && candidates[i].yearGroup == cohort ==> candidatePaired[i]
    {
      if failures > 20 {
        return Raise(TooManyFailures);
      }
      if round >= maxRounds {
        return Finish(BidsMet(bids, cohort));
      }
      var cands, shortlisted := PrepareRound(cohort, round);
      if shortlisted == [] {
        return Raise(OutOfRoles);
      } else if |cands| > |shortlisted| && round != 0 {
        return Raise(OutOfRoles);
      }
      RoundCandidatesWithin(Candidates(), cohort);
      ShortlistWithin(Roles(), bids, cohort, round);
      step := PlayRound(cohort, round, failures, cands, shortlisted);
      if step == Finish(true) && UniqueUids(candidates) {
        RoundCoversCohort(candidates, old(candidatePaired), candidatePaired, cohort);
      }
    }

    /**
     * `match_cohort`, recursive as in the source: it calls itself until a
     * pass raises or returns. Each retry uses up one of the 21 allowed
     * failures and each further round one of `max_rounds`, so the calls end.
     */
    method MatchCohort(cohort: Cohort, round: nat, failures: nat) returns (result: Result<bool, MatchError>)
      requires Valid()
      modifies this, weights
      ensures Valid() && Grows(old(candidatePaired), candidatePaired) && Grows(old(rolePaired), rolePaired)
              && BidsEvolve(old(bids), bids)
      ensures forall y :: y != cohort ==> PairingsOf(y) == old(PairingsOf(y))
      ensures old(PairingsOf(cohort)) <= PairingsOf(cohort)
      ensures result.Success? ==> CountsWithin(old(bids), bids)
      ensures result == Success(false) ==> !BidsMet(bids, cohort)
      ensures failures > 20 ==> result == Failure(TooManyFailures) && pairings == old(pairings) && bids == old(bids)
      decreases maxRounds - round, 21 - failures
    {
      var step := Attempt(cohort, round, failures);
      match step
      case Raise(error) =>
        result := Failure(error);
      case Finish(matched) =>
        result := Success(matched);
      case Again(round', failures') =>
        ghost var cp, rp, bs, ps := candidatePaired, rolePaired, bids, PairingsOf(cohort);
        result := MatchCohort(cohort, round', failures');
        GrowsTransitive(old(candidatePaired), cp, candidatePaired);
        GrowsTransitive(old(rolePaired), rp, rolePaired);
        BidsEvolveTransitive(old(bids), bs, bids);
        assert old(PairingsOf(cohort)) <= ps <= PairingsOf(cohort);
    }

    /** `reset_roles`: every role becomes matchable again; nothing else changes. */
    method ResetRoles()
      requires Shaped()
      modifies this
      ensures Shaped() && candidatePaired == old(candidatePaired) && rolePaired == old(rolePaired)
      ensures bids == old(bids) && pairings == old(pairings)
      ensures forall j :: 0 <= j < |roles| ==> !roleNoMatch[j]
    {
      for j := 0 to |roles|
        invariant |roleNoMatch| == |roles|
        invariant candidatePaired == old(candidatePaired) && rolePaired == old(rolePaired)
        invariant bids == old(bids) && pairings == old(pairings)
        invariant forall k :: 0 <= k < j ==> !roleNoMatch[k]
      {
        roleNoMatch := roleNoMatch[j := false];
      }
    }

    /**
     * `_compute_cohort`: match the cohort from round 0 with no failures,
     * then reset the roles; an exception skips the reset. The verdict is
     * what the source logs.
     */
    method ComputeCohort(cohort: Cohort) returns (verdict: Result<bool, MatchError>)
      requires Valid()
      modifies this, weights
      ensures Valid() && Grows(old(candidatePaired), candidatePaired) && Grows(old(rolePaired), rolePaired)
              && BidsEvolve(old(bids), bids)
      ensures forall y :: y != cohort ==> PairingsOf(y) == old(PairingsOf(y))
      ensures verdict.Success? ==>
                CountsWithin(old(bids), bids) && (verdict.value || !BidsMet(bids, cohort))
                && forall j :: 0 <= j < |roles| ==> !roleNoMatch[j]
    {
      verdict := MatchCohort(cohort, 0, 0);
      if verdict.Success? {
        ResetRoles();
      }
    }

    /**
     * `compute`: each cohort that has a bid, in ascending order or, when
     * `senior_to_junior`, descending, goes through `_compute_cohort`. An
     * exception from a cohort ends the computation. The verdicts are
     * returned in visiting order.
     */
    method Compute() returns (verdicts: Result<seq<bool>, MatchError>)
      requires Valid()
      modifies this, weights
      ensures Valid() && Grows(old(candidatePaired), candidatePaired) && Grows(old(rolePaired), rolePaired)
              && BidsEvolve(old(bids), bids)
      ensures forall y :: y !in CohortOrder(old(bids), seniorToJunior) ==> PairingsOf(y) == old(PairingsOf(y))
      ensures verdicts.Success? ==>
                |verdicts.value| == |CohortOrder(old(bids), seniorToJunior)| && CountsWithin(old(bids), bids)
                && (CohortOrder(old(bids), seniorToJunior) != [] ==> forall j :: 0 <= j < |roles| ==> !roleNoMatch[j])
    {
      var cohorts := CohortOrder(bids, seniorToJunior);
      var results: seq<bool> := [];
      for n := 0 to |cohorts|
        invariant Valid() && Grows(old(candidatePaired), candidatePaired) && Grows(old(rolePaired), rolePaired)
        invariant BidsEvolve(old(bids), bids) && CountsWithin(old(bids), bids)
        invariant |results| == n
        invariant forall y :: y !in cohorts ==> PairingsOf(y) == old(PairingsOf(y))
        invariant n > 0 ==> forall j :: 0 <= j < |roles| ==> !roleNoMatch[j]
      {
        ghost var cp, rp, bs := candidatePaired, rolePaired, bids;
        var r := ComputeCohort(cohorts[n]);
        GrowsTransitive(old(candidatePaired), cp, candidatePaired);
        GrowsTransitive(old(rolePaired), rp, rolePaired);
        BidsEvolveTransitive(old(bids), bs, bids);
        if r.Failure? {
          return Failure(r.error);
        }
        results := results + [r.value];
      }
      return Success(results);
    }
  }
}
