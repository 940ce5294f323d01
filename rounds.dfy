/**
 * What `Process` puts into one round (fast_stream_22/matching/match.py):
 * the unpaired candidates of the cohort and the shortlist of roles, capped
 * per department by its open bid. The process holds its candidates and
 * roles as lists of shared objects; a round refers to them by position, so
 * a flag set through a round's list is set on the process's object.
 */
module Rounds {
  import opened Models
  import opened Wrappers
  import opened Seqs
  import opened Bids

  function Range(n: nat): (r: seq<nat>)
    ensures |r| == n
    ensures forall i :: 0 <= i < n ==> r[i] == i
  {
    seq(n, i => i)
  }

  predicate Increasing(s: seq<nat>)
  {
    forall a, b :: 0 <= a < b < |s| ==> s[a] < s[b]
  }

  lemma {:induction false} FilterIncreasing(s: seq<nat>, p: nat -> bool)
    requires Increasing(s)
    ensures Increasing(Filter(s, p))
  {
    if s != [] {
      var tail := s[1..];
      FilterIncreasing(tail, p);
      var rest := Filter(tail, p);
      if p(s[0]) {
        var r := [s[0]] + rest;
        assert Filter(s, p) == r;
        forall a, b | 0 <= a < b < |r| ensures r[a] < r[b] {
          assert r[b] == rest[b - 1];
          if a == 0 {
            assert rest[b - 1] in tail;
            var k :| 0 <= k < |tail| && tail[k] == rest[b - 1];
            assert s[k + 1] == tail[k];
          } else {
            assert r[a] == rest[a - 1];
          }
        }
      } else {
        assert Filter(s, p) == rest;
      }
    }
  }

  function Unpaired(paired: nat -> bool): nat -> bool
  {
    (i: nat) => !paired(i)
  }

  /** `mask_paired`: the items not yet paired, in their order. */
  function MaskPaired(items: seq<nat>, paired: nat -> bool): (r: seq<nat>)
    ensures forall i: nat :: i in r <==> i in items && !paired(i)
  {
    Filter(items, Unpaired(paired))
  }

  /** Masking works item by item, so it keeps the order of what it keeps. */
  lemma MaskPairedOrder(a: seq<nat>, b: seq<nat>, paired: nat -> bool)
    ensures MaskPaired(a + b, paired) == MaskPaired(a, paired) + MaskPaired(b, paired)
  {
    FilterAppend(a, b, Unpaired(paired));
  }

  function CandidatePaired(cs: seq<Candidate>): nat -> bool
  {
    (i: nat) => i < |cs| && cs[i].paired
  }

  function RolePaired(rs: seq<Role>): nat -> bool
  {
    (i: nat) => i < |rs| && rs[i].paired
  }

  function NotRejected(rs: seq<Role>): nat -> bool
  {
    (i: nat) => i < |rs| && !rs[i].noMatch
  }

  /** The key of `sorted(..., key=priority_role, reverse=True)`, as an ascending key. */
  function PriorityKey(rs: seq<Role>): nat -> int
  {
    (i: nat) => if i < |rs| then -rs[i].priorityRole else 0
  }

  function InCohort(cs: seq<Candidate>, cohort: Cohort): nat -> bool
  {
    (i: nat) => i < |cs| && cs[i].yearGroup == cohort
  }

  function SuitableFor(rs: seq<Role>, cohort: Cohort): nat -> bool
  {
    (i: nat) => i < |rs| && cohort in rs[i].suitableYearGroups
  }

  function InDepartment(rs: seq<Role>, dept: string): nat -> bool
  {
    (i: nat) => i < |rs| && rs[i].department == dept
  }

  /** `all_candidates`. */
  function AllCandidates(cs: seq<Candidate>): seq<nat>
  {
    MaskPaired(Range(|cs|), CandidatePaired(cs))
  }

  function UnrejectedUnpaired(rs: seq<Role>): seq<nat>
  {
    MaskPaired(Filter(Range(|rs|), NotRejected(rs)), RolePaired(rs))
  }

  /** `all_roles`. */
  function AllRoles(rs: seq<Role>): seq<nat>
  {
    SortBy(UnrejectedUnpaired(rs), PriorityKey(rs))
  }

  lemma RangeMembers(n: nat)
    ensures forall i: nat :: i in Range(n) <==> i < n
    ensures Increasing(Range(n))
  {
    forall i: nat | i < n ensures i in Range(n) {
      assert Range(n)[i] == i;
    }
  }

  /** `all_candidates` is every unpaired candidate, once each, in list order. */
  lemma AllCandidatesSpec(cs: seq<Candidate>)
    ensures forall i: nat :: i in AllCandidates(cs) <==> i < |cs| && !cs[i].paired
    ensures Increasing(AllCandidates(cs))
  {
    RangeMembers(|cs|);
    FilterIncreasing(Range(|cs|), Unpaired(CandidatePaired(cs)));
  }

  lemma UnrejectedUnpairedSpec(rs: seq<Role>)
    ensures forall i: nat :: i in UnrejectedUnpaired(rs) <==> i < |rs| && !rs[i].paired && !rs[i].noMatch
    ensures Increasing(UnrejectedUnpaired(rs))
  {
    RangeMembers(|rs|);
    UnrejectedUnpairedIncreasing(rs);
  }

  lemma UnrejectedUnpairedIncreasing(rs: seq<Role>)
    ensures Increasing(UnrejectedUnpaired(rs))
  {
    RangeMembers(|rs|);
    FilterIncreasing(Range(|rs|), NotRejected(rs));
    FilterIncreasing(Filter(Range(|rs|), NotRejected(rs)), Unpaired(RolePaired(rs)));
  }

  lemma IncreasingNoDup(s: seq<nat>)
    requires Increasing(s)
    ensures NoDup(s)
  {
  }

  /** `all_roles` is every role that is neither paired nor rejected, once each ... */
  lemma AllRolesMembers(rs: seq<Role>)
    ensures forall i: nat :: i in AllRoles(rs) <==> i < |rs| && !rs[i].paired && !rs[i].noMatch
    ensures NoDup(AllRoles(rs))
  {
    var u := UnrejectedUnpaired(rs);
    UnrejectedUnpairedSpec(rs);
    IncreasingNoDup(u);
    assert forall i :: i in AllRoles(rs) <==> i in multiset(u);
    MultisetNoDup(u, AllRoles(rs));
  }

  /** ... highest `priority_role` first ... */
  lemma AllRolesPriority(rs: seq<Role>)
    ensures forall a, b :: 0 <= a < b < |AllRoles(rs)| ==>
              AllRoles(rs)[a] < |rs| && AllRoles(rs)[b] < |rs|
              && rs[AllRoles(rs)[a]].priorityRole >= rs[AllRoles(rs)[b]].priorityRole
  {
    var r := AllRoles(rs);
    AllRolesMembers(rs);
    SortByAscending(UnrejectedUnpaired(rs), PriorityKey(rs));
    forall a, b | 0 <= a < b < |r|
      ensures r[a] < |rs| && r[b] < |rs| && rs[r[a]].priorityRole >= rs[r[b]].priorityRole
    {
      assert r[a] in r && r[b] in r;
      assert PriorityKey(rs)(r[a]) <= PriorityKey(rs)(r[b]);
    }
  }

  lemma StableKeepsIncreasing(u: seq<nat>, key: nat -> int, k: int)
    requires Increasing(u)
    ensures Increasing(Filter(SortBy(u, key), KeyIs<nat>(key, k)))
  {
    SortByStable(u, key, k);
    FilterIncreasing(u, KeyIs<nat>(key, k));
  }

  /** ... and roles of equal priority keep their list order. */
  lemma AllRolesStable(rs: seq<Role>, priority: int)
    ensures Increasing(Filter(AllRoles(rs), KeyIs<nat>(PriorityKey(rs), -priority)))
  {
    UnrejectedUnpairedIncreasing(rs);
    StableKeepsIncreasing(UnrejectedUnpaired(rs), PriorityKey(rs), -priority);
  }

  // ---------------------------------------------------------------
  // `_prepare_round`
  // ---------------------------------------------------------------

  /** The round's candidates: unpaired, of the cohort, in list order. */
  function RoundCandidates(cs: seq<Candidate>, cohort: Cohort): seq<nat>
  {
    Filter(AllCandidates(cs), InCohort(cs, cohort))
  }

  lemma RoundCandidatesSpec(cs: seq<Candidate>, cohort: Cohort)
    ensures forall i: nat :: i in RoundCandidates(cs, cohort) <==> i < |cs| && !cs[i].paired && cs[i].yearGroup == cohort
    ensures Increasing(RoundCandidates(cs, cohort))
  {
    AllCandidatesSpec(cs);
    FilterIncreasing(AllCandidates(cs), InCohort(cs, cohort));
  }

  /** `suitable_roles`: `all_roles` that take the cohort, in that order. */
  function SuitableRoles(rs: seq<Role>, cohort: Cohort): seq<nat>
  {
    Filter(AllRoles(rs), SuitableFor(rs, cohort))
  }

  /** How many roles a bid may put forward: `min_number` in round 0, then what it still lacks. */
  function Cap(b: Bid, round: nat): int
  {
    if round == 0 then MinNumber(b.number) else b.number - b.count
  }

  /** The suitable roles of the bid's department, in their order, cut to the round's shortlist length. */
  function DepartmentSlice(suitable: seq<nat>, rs: seq<Role>, b: Bid, round: nat): seq<nat>
  {
    Slice(Filter(suitable, InDepartment(rs, Department(b))), Cap(b, round))
  }

  /** The shortlist after the first `n` bids of `order`. */
  function ShortlistUpTo(suitable: seq<nat>, rs: seq<Role>, bids: seq<Bid>, order: seq<nat>, round: nat, n: nat): seq<nat>
    requires n <= |order|
    requires forall l :: 0 <= l < |order| ==> order[l] < |bids|
  {
    if n == 0 then []
    else ShortlistUpTo(suitable, rs, bids, order, round, n - 1) + DepartmentSlice(suitable, rs, bids[order[n - 1]], round)
  }

  lemma BidOrderInRange(bids: seq<Bid>, cohort: Cohort)
    ensures forall l :: 0 <= l < |BidOrder(bids, cohort)| ==> BidOrder(bids, cohort)[l] < |bids|
  {
    forall l | 0 <= l < |BidOrder(bids, cohort)| ensures BidOrder(bids, cohort)[l] < |bids| {
      BidOrderOpen(bids, cohort, l);
    }
  }

  /** `shortlisted_roles`. */
  function Shortlist(rs: seq<Role>, bids: seq<Bid>, cohort: Cohort, round: nat): seq<nat>
  {
    BidOrderInRange(bids, cohort);
    var order := BidOrder(bids, cohort);
    ShortlistUpTo(SuitableRoles(rs, cohort), rs, bids, order, round, |order|)
  }

  /** Every shortlisted role is one `suitable_roles` offers, of a department whose bid put it forward. */
  lemma {:induction false} ShortlistUpToMembers(suitable: seq<nat>, rs: seq<Role>, bids: seq<Bid>, order: seq<nat>,
                                                round: nat, n: nat)
    requires n <= |order|
    requires forall l :: 0 <= l < |order| ==> order[l] < |bids|
    ensures forall i: nat :: i in ShortlistUpTo(suitable, rs, bids, order, round, n) ==>
              i in suitable && i < |rs| && exists l :: 0 <= l < n && rs[i].department == Department(bids[order[l]])
  {
    if n > 0 {
      ShortlistUpToMembers(suitable, rs, bids, order, round, n - 1);
      var b := bids[order[n - 1]];
      var depts := Filter(suitable, InDepartment(rs, Department(b)));
      forall i | i in DepartmentSlice(suitable, rs, b, round)
        ensures i in suitable && i < |rs| && rs[i].department == Department(b)
      {
        assert i in depts;
      }
    }
  }

  /**
   * Every shortlisted role is unpaired, not rejected, suitable for the
   * cohort, and belongs to a department with an open bid of the cohort.
   */
  lemma ShortlistMembers(rs: seq<Role>, bids: seq<Bid>, cohort: Cohort, round: nat, i: nat)
    requires i in Shortlist(rs, bids, cohort, round)
    ensures i < |rs| && !rs[i].paired && !rs[i].noMatch && cohort in rs[i].suitableYearGroups
    ensures Lookup(CohortBids(bids, cohort), rs[i].department).Some?
  {
    BidOrderInRange(bids, cohort);
    var order := BidOrder(bids, cohort);
    ShortlistUpToMembers(SuitableRoles(rs, cohort), rs, bids, order, round, |order|);
    AllRolesMembers(rs);
    var l :| 0 <= l < |order| && rs[i].department == Department(bids[order[l]]);
    BidOrderOpen(bids, cohort, l);
  }

  /** The slice each bid of `order` puts forward. */
  function Slices(suitable: seq<nat>, rs: seq<Role>, bids: seq<Bid>, order: seq<nat>, round: nat): (ss: seq<seq<nat>>)
    requires forall l :: 0 <= l < |order| ==> order[l] < |bids|
    ensures |ss| == |order|
    ensures forall m :: 0 <= m < |order| ==> ss[m] == DepartmentSlice(suitable, rs, bids[order[m]], round)
  {
    seq(|order|, m requires 0 <= m < |order| => DepartmentSlice(suitable, rs, bids[order[m]], round))
  }

  /** The department of each bid of `order`. */
  function Depts(bids: seq<Bid>, order: seq<nat>): (ds: seq<string>)
    requires forall l :: 0 <= l < |order| ==> order[l] < |bids|
    ensures |ds| == |order|
    ensures forall m :: 0 <= m < |order| ==> ds[m] == Department(bids[order[m]])
  {
    seq(|order|, m requires 0 <= m < |order| => Department(bids[order[m]]))
  }

  /** The shortlist is the bids' slices one after another. */
  lemma {:induction false} ShortlistUpToConcat(suitable: seq<nat>, rs: seq<Role>, bids: seq<Bid>, order: seq<nat>,
                                               round: nat, n: nat)
    requires n <= |order|
    requires forall l :: 0 <= l < |order| ==> order[l] < |bids|
    ensures ShortlistUpTo(suitable, rs, bids, order, round, n) == Concat(Slices(suitable, rs, bids, order, round), n)
  {
    if n > 0 {
      ShortlistUpToConcat(suitable, rs, bids, order, round, n - 1);
      var slices := Slices(suitable, rs, bids, order, round);
      var slice := DepartmentSlice(suitable, rs, bids[order[n - 1]], round);
      assert slices[n - 1] == slice;
      assert Concat(slices, n) == Concat(slices, n - 1) + slice;
      assert ShortlistUpTo(suitable, rs, bids, order, round, n)
          == ShortlistUpTo(suitable, rs, bids, order, round, n - 1) + slice;
    }
  }

  /** A bid's slice is all of `dept` when the bid is of `dept`, and has none of it otherwise. */
  lemma SliceInDepartment(suitable: seq<nat>, rs: seq<Role>, b: Bid, round: nat, dept: string)
    ensures Filter(DepartmentSlice(suitable, rs, b, round), InDepartment(rs, dept))
         == if Department(b) == dept then DepartmentSlice(suitable, rs, b, round) else []
  {
    var slice := DepartmentSlice(suitable, rs, b, round);
    var depts := Filter(suitable, InDepartment(rs, Department(b)));
    assert forall i :: i in slice ==> i in depts;
    if Department(b) == dept {
      FilterKeepsAll(slice, InDepartment(rs, dept));
    } else {
      FilterDropsAll(slice, InDepartment(rs, dept));
    }
  }

  lemma {:induction false} FilterKeepsAll<T(!new)>(s: seq<T>, p: T -> bool)
    requires forall x :: x in s ==> p(x)
    ensures Filter(s, p) == s
  {
    if s != [] {
      FilterKeepsAll(s[1..], p);
      assert s == [s[0]] + s[1..];
    }
  }

  lemma {:induction false} FilterDropsAll<T(!new)>(s: seq<T>, p: T -> bool)
    requires forall x :: x in s ==> !p(x)
    ensures Filter(s, p) == []
  {
    if s != [] {
      FilterDropsAll(s[1..], p);
    }
  }

  /** The shortlist's roles of `dept` are the slices of the bids of `dept`, in bid order. */
  lemma ShortlistGathered(rs: seq<Role>, bids: seq<Bid>, cohort: Cohort, round: nat, dept: string)
    ensures var order := BidOrder(bids, cohort);
            (forall l :: 0 <= l < |order| ==> order[l] < |bids|)
            && Filter(Shortlist(rs, bids, cohort, round), InDepartment(rs, dept))
            == Gather(Slices(SuitableRoles(rs, cohort), rs, bids, BidOrder(bids, cohort), round),
                   Depts(bids, BidOrder(bids, cohort)), dept, |BidOrder(bids, cohort)|)
  {
    BidOrderInRange(bids, cohort);
    var order := BidOrder(bids, cohort);
    var suitable := SuitableRoles(rs, cohort);
    var slices := Slices(suitable, rs, bids, order, round);
    var depts := Depts(bids, order);
    ShortlistUpToConcat(suitable, rs, bids, order, round, |order|);
    forall m | 0 <= m < |slices|
      ensures Filter(slices[m], InDepartment(rs, dept)) == if depts[m] == dept then slices[m] else []
    {
      SliceInDepartment(suitable, rs, bids[order[m]], round, dept);
    }
    KeepsKeyedAll(slices, depts, dept, InDepartment(rs, dept), |order|);
    FilterConcat(slices, depts, dept, InDepartment(rs, dept), |order|);
  }

  /**
   * In bid order a department occurs at its open bid of the cohort and
   * nowhere else; a department without one does not occur.
   */
  lemma BidOrderDepartment(bids: seq<Bid>, cohort: Cohort, dept: string) returns (l: nat)
    ensures var order := BidOrder(bids, cohort);
            (forall l :: 0 <= l < |order| ==> order[l] < |bids|)
            && var depts := Depts(bids, order);
            match Lookup(CohortBids(bids, cohort), dept)
            case None => forall m :: 0 <= m < |depts| ==> depts[m] != dept
            case Some(k) =>
              l < |depts| && BidOrder(bids, cohort)[l] == k && depts[l] == dept
              && forall m :: 0 <= m < |depts| && m != l ==> depts[m] != dept
  {
    BidOrderInRange(bids, cohort);
    var order := BidOrder(bids, cohort);
    var depts := Depts(bids, order);
    var d := CohortBids(bids, cohort);
    CohortBidsLookup(bids, cohort, |bids|, dept);
    match Lookup(d, dept)
    case None =>
      l := 0;
      forall m | 0 <= m < |order| ensures depts[m] != dept {
        BidOrderOpen(bids, cohort, m);
      }
    case Some(k) =>
      LookupSpec(d, dept);
      assert k in Values(d);
      assert k in multiset(order);
      l :| 0 <= l < |order| && order[l] == k;
      BidOrderOpen(bids, cohort, l);
      forall m | 0 <= m < |order| && m != l ensures depts[m] != dept {
        if m < l {
          BidOrderDepartmentsDistinct(bids, cohort, m, l);
        } else {
          BidOrderDepartmentsDistinct(bids, cohort, l, m);
        }
      }
  }

  /**
   * A department's share of the shortlist is the first `Cap` suitable
   * roles of that department, put forward by its open bid of the cohort;
   * a department without an open bid has no share.
   */
  lemma ShortlistDepartment(rs: seq<Role>, bids: seq<Bid>, cohort: Cohort, round: nat, dept: string)
    ensures Lookup(CohortBids(bids, cohort), dept).Some? ==> Lookup(CohortBids(bids, cohort), dept).value < |bids|
    ensures Filter(Shortlist(rs, bids, cohort, round), InDepartment(rs, dept))
         == match Lookup(CohortBids(bids, cohort), dept)
            case None => []
            case Some(k) => DepartmentSlice(SuitableRoles(rs, cohort), rs, bids[k], round)
  {
    BidOrderInRange(bids, cohort);
    var order := BidOrder(bids, cohort);
    var slices := Slices(SuitableRoles(rs, cohort), rs, bids, order, round);
    var depts := Depts(bids, order);
    ShortlistGathered(rs, bids, cohort, round, dept);
    var l := BidOrderDepartment(bids, cohort, dept);
    match Lookup(CohortBids(bids, cohort), dept)
    case None =>
      GatherNone(slices, depts, dept, |order|);
    case Some(k) =>
      GatherOnce(slices, depts, dept, |order|, l);
  }

  /** So a department puts forward at most `number - count` roles after round 0, and at most `min_number` in round 0. */
  lemma ShortlistCapped(rs: seq<Role>, bids: seq<Bid>, cohort: Cohort, round: nat, dept: string)
    ensures match Lookup(CohortBids(bids, cohort), dept)
            case None => Filter(Shortlist(rs, bids, cohort, round), InDepartment(rs, dept)) == []
            case Some(k) =>
              k < |bids| && Open(bids[k], cohort)
              && (round > 0 ==> |Filter(Shortlist(rs, bids, cohort, round), InDepartment(rs, dept))|
                                <= bids[k].number - bids[k].count)
              && (round == 0 && 0 <= MinNumber(bids[k].number) ==>
                    |Filter(Shortlist(rs, bids, cohort, round), InDepartment(rs, dept))| <= MinNumber(bids[k].number))
  {
    ShortlistDepartment(rs, bids, cohort, round, dept);
    CohortBidsLookup(bids, cohort, |bids|, dept);
  }
}
