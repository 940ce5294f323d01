/**
 * Departmental bids of the current matcher (`Bid` in
 * fast_stream_22/matching/match.py), the `_cohort_bids` dictionary built from
 * them, and the order in which `compute` visits the cohorts.
 */
module Bids {
  import opened Models
  import opened Wrappers
  import opened Seqs
  import Text

  /** A department's bid for `number` candidates of one cohort, `count` of them awarded so far. */
  datatype Bid = Bid(cohort: Cohort, rawDepartment: string, number: int, count: int)

  /** The `department` property: the department name in lower case. */
  function Department(b: Bid): string
  {
    Text.Lower(b.rawDepartment)
  }

  /** The department name is already in lower case, so lowering it again changes nothing. */
  lemma DepartmentLowered(b: Bid)
    ensures |Department(b)| == |b.rawDepartment|
    ensures Text.Lower(Department(b)) == Department(b)
  {
    Text.LowerIdempotent(b.rawDepartment);
  }

  /**
   * `min_number`: the roles a department may put forward in the first
   * round. `round(0.8 * n)` for `n >= 5` is written `(4n + 2) / 5`: 0.8 n
   * is never a half-way value, so rounding to nearest is plain rounding.
   */
  function MinNumber(number: int): int
  {
    if number == 0 || number == 1 then number
    else if number < 5 then number - 1
    else (4 * number + 2) / 5
  }

  /** A bid of `n >= 0` puts forward between 0 and `n` roles first, and fewer than `n` once `n >= 2`. */
  lemma MinNumberBounds(number: int)
    requires number >= 0
    ensures 0 <= MinNumber(number) <= number
    ensures number >= 2 ==> MinNumber(number) < number
  {
  }

  /** From 5 on, `min_number` is the integer nearest to four fifths of the bid. */
  lemma MinNumberRounds(number: int)
    requires number >= 5
    ensures -2 <= 5 * MinNumber(number) - 4 * number <= 2
  {
  }

  /** A bid of the cohort that is not yet filled: the filter of `_cohort_bids`. */
  predicate Open(b: Bid, cohort: Cohort)
  {
    b.cohort == cohort && b.count < b.number
  }

  // ---------------------------------------------------------------
  // A dictionary keyed by department, as its items in insertion order
  // ---------------------------------------------------------------

  /** Department name to the position of a bid. */
  type Dict = seq<(string, nat)>

  function Keys(d: Dict): (ks: seq<string>)
    ensures |ks| == |d|
    ensures forall i :: 0 <= i < |d| ==> ks[i] == d[i].0
  {
    if d == [] then [] else [d[0].0] + Keys(d[1..])
  }

  function Values(d: Dict): (vs: seq<nat>)
    ensures |vs| == |d|
    ensures forall i :: 0 <= i < |d| ==> vs[i] == d[i].1
  {
    if d == [] then [] else [d[0].1] + Values(d[1..])
  }

  /** `d[key]`, or None where Python raises `KeyError`. */
  function Lookup(d: Dict, key: string): Option<nat>
  {
    if d == [] then None
    else if d[0].0 == key then Some(d[0].1)
    else Lookup(d[1..], key)
  }

  /** A key is found exactly when it is among the keys, and what is found is the value of one of its items. */
  lemma {:induction false} LookupSpec(d: Dict, key: string)
    ensures Lookup(d, key).None? <==> key !in Keys(d)
    ensures Lookup(d, key).Some? ==> (key, Lookup(d, key).value) in d
  {
    if d != [] {
      assert Keys(d) == [d[0].0] + Keys(d[1..]);
      if d[0].0 != key {
        LookupSpec(d[1..], key);
        if Lookup(d, key).Some? {
          assert (key, Lookup(d, key).value) in d[1..];
        }
      }
    }
  }

  /** `d[key] = value`: a new key goes last, an existing key keeps its place and takes the new value. */
  function DictSet(d: Dict, key: string, value: nat): Dict
  {
    if d == [] then [(key, value)]
    else if d[0].0 == key then [(key, value)] + d[1..]
    else [d[0]] + DictSet(d[1..], key, value)
  }

  /** A key not yet present is appended. */
  lemma {:induction false} DictSetNew(d: Dict, key: string, value: nat)
    requires key !in Keys(d)
    ensures DictSet(d, key, value) == d + [(key, value)]
  {
    if d != [] {
      assert Keys(d) == [d[0].0] + Keys(d[1..]);
      DictSetNew(d[1..], key, value);
      assert d == [d[0]] + d[1..];
      assert [d[0]] + (d[1..] + [(key, value)]) == d + [(key, value)];
    }
  }

  /** After setting, `key` finds the new value and every other key what it found before. */
  lemma {:induction false} DictSetLookup(d: Dict, key: string, value: nat, k: string)
    ensures Lookup(DictSet(d, key, value), k) == if k == key then Some(value) else Lookup(d, k)
  {
    if d != [] && d[0].0 != key {
      var rest := DictSet(d[1..], key, value);
      assert ([d[0]] + rest)[0] == d[0];
      assert ([d[0]] + rest)[1..] == rest;
      DictSetLookup(d[1..], key, value, k);
    }
  }

  /** Setting an existing key leaves the keys, and their order, as they were. */
  lemma {:induction false} DictSetKeys(d: Dict, key: string, value: nat)
    requires key in Keys(d)
    ensures Keys(DictSet(d, key, value)) == Keys(d)
  {
    if d[0].0 != key {
      var rest := DictSet(d[1..], key, value);
      assert Keys(d)[1..] == Keys(d[1..]);
      DictSetKeys(d[1..], key, value);
      assert Keys([d[0]] + rest) == [d[0].0] + Keys(rest);
    } else {
      assert Keys([(key, value)] + d[1..]) == [key] + Keys(d[1..]);
      assert Keys(d) == [key] + Keys(d[1..]);
    }
  }

  /** Setting keeps the keys distinct. */
  lemma DictSetNoDup(d: Dict, key: string, value: nat)
    requires NoDup(Keys(d))
    ensures NoDup(Keys(DictSet(d, key, value)))
  {
    if key !in Keys(d) {
      var d' := DictSet(d, key, value);
      DictSetNew(d, key, value);
      assert Keys(d') == Keys(d) + [key];
    } else {
      DictSetKeys(d, key, value);
    }
  }

  /** With distinct keys, every item is what a lookup of its key finds. */
  lemma {:induction false} DictItemsLookup(d: Dict, i: nat)
    requires NoDup(Keys(d)) && i < |d|
    ensures Lookup(d, d[i].0) == Some(d[i].1)
  {
    if i > 0 {
      assert Keys(d)[0] != Keys(d)[i];
      assert Keys(d[1..]) == Keys(d)[1..];
      DictItemsLookup(d[1..], i - 1);
    }
  }

  /** `_cohort_bids` over the first `n` bids. */
  function CohortBidsUpTo(bids: seq<Bid>, cohort: Cohort, n: nat): Dict
    requires n <= |bids|
  {
    if n == 0 then []
    else
      var d := CohortBidsUpTo(bids, cohort, n - 1);
      if Open(bids[n - 1], cohort) then DictSet(d, Department(bids[n - 1]), n - 1) else d
  }

  /** `_cohort_bids(cohort)`: department to its open bid of the cohort, the last one when there are several. */
  function CohortBids(bids: seq<Bid>, cohort: Cohort): Dict
  {
    CohortBidsUpTo(bids, cohort, |bids|)
  }

  /** The position of the last of the first `n` bids that is open for the cohort and belongs to `dept`. */
  function LastOpenBid(bids: seq<Bid>, cohort: Cohort, dept: string, n: nat): (k: Option<nat>)
    requires n <= |bids|
    ensures k.Some? ==> k.value < n && Open(bids[k.value], cohort) && Department(bids[k.value]) == dept
  {
    if n == 0 then None
    else if Open(bids[n - 1], cohort) && Department(bids[n - 1]) == dept then Some(n - 1)
    else LastOpenBid(bids, cohort, dept, n - 1)
  }

  /** No bid after the one found is both open and of `dept`; when none is found, no bid is both. */
  lemma {:induction false} LastOpenBidSpec(bids: seq<Bid>, cohort: Cohort, dept: string, n: nat)
    requires n <= |bids|
    ensures var k := LastOpenBid(bids, cohort, dept, n);
            k.Some? ==> forall j :: k.value < j < n ==> !(Open(bids[j], cohort) && Department(bids[j]) == dept)
    ensures LastOpenBid(bids, cohort, dept, n).None? ==>
              forall j :: 0 <= j < n ==> !(Open(bids[j], cohort) && Department(bids[j]) == dept)
  {
    if n > 0 {
      LastOpenBidSpec(bids, cohort, dept, n - 1);
    }
  }

  /** The dictionary has one entry per department. */
  lemma {:induction false} CohortBidsNoDup(bids: seq<Bid>, cohort: Cohort, n: nat)
    requires n <= |bids|
    ensures NoDup(Keys(CohortBidsUpTo(bids, cohort, n)))
  {
    if n > 0 {
      CohortBidsNoDup(bids, cohort, n - 1);
      if Open(bids[n - 1], cohort) {
        DictSetNoDup(CohortBidsUpTo(bids, cohort, n - 1), Department(bids[n - 1]), n - 1);
      }
    }
  }

  /** One step of `_cohort_bids`: an open bid sets its department's entry, any other bid leaves the dictionary. */
  lemma LookupAfterStep(d: Dict, open: bool, key: string, value: nat, dept: string)
    ensures Lookup(if open then DictSet(d, key, value) else d, dept)
         == if open && key == dept then Some(value) else Lookup(d, dept)
  {
    if open {
      DictSetLookup(d, key, value, dept);
    }
  }

  /** A department's entry is its last open bid of the cohort, and there is none without one. */
  lemma {:induction false} CohortBidsLookup(bids: seq<Bid>, cohort: Cohort, n: nat, dept: string)
    requires n <= |bids|
    ensures Lookup(CohortBidsUpTo(bids, cohort, n), dept) == LastOpenBid(bids, cohort, dept, n)
  {
    if n > 0 {
      var d := CohortBidsUpTo(bids, cohort, n - 1);
      var b := bids[n - 1];
      var open, key := Open(b, cohort), Department(b);
      CohortBidsLookup(bids, cohort, n - 1, dept);
      LookupAfterStep(d, open, key, n - 1, dept);
      assert CohortBidsUpTo(bids, cohort, n) == if open then DictSet(d, key, n - 1) else d;
      assert LastOpenBid(bids, cohort, dept, n)
          == if open && key == dept then Some(n - 1) else LastOpenBid(bids, cohort, dept, n - 1);
      assert Lookup(CohortBidsUpTo(bids, cohort, n), dept) == LastOpenBid(bids, cohort, dept, n);
    } else {
      assert Lookup(CohortBidsUpTo(bids, cohort, n), dept) == LastOpenBid(bids, cohort, dept, n);
    }
  }

  /** Every bid the dictionary holds is an open bid of the cohort, filed under its own department. */
  lemma CohortBidsEntries(bids: seq<Bid>, cohort: Cohort, i: nat)
    requires i < |CohortBids(bids, cohort)|
    ensures var (dept, k) := CohortBids(bids, cohort)[i];
            k < |bids| && Open(bids[k], cohort) && Department(bids[k]) == dept
    ensures NoDup(Keys(CohortBids(bids, cohort)))
  {
    var d := CohortBids(bids, cohort);
    CohortBidsNoDup(bids, cohort, |bids|);
    DictItemsLookup(d, i);
    CohortBidsLookup(bids, cohort, |bids|, d[i].0);
  }

  /** The bid positions in the dictionary's order, sorted by `number` (stable, like `sorted`). */
  function BidOrder(bids: seq<Bid>, cohort: Cohort): (order: seq<nat>)
    ensures multiset(order) == multiset(Values(CohortBids(bids, cohort)))
  {
    SortBy(Values(CohortBids(bids, cohort)), (k: nat) => if k < |bids| then bids[k].number else 0)
  }

  /** Every position in the order is a bid of the cohort that is still open. */
  lemma BidOrderOpen(bids: seq<Bid>, cohort: Cohort, i: nat)
    requires i < |BidOrder(bids, cohort)|
    ensures BidOrder(bids, cohort)[i] < |bids| && Open(bids[BidOrder(bids, cohort)[i]], cohort)
    ensures Lookup(CohortBids(bids, cohort), Department(bids[BidOrder(bids, cohort)[i]])) == Some(BidOrder(bids, cohort)[i])
  {
    var vs := Values(CohortBids(bids, cohort));
    var order := BidOrder(bids, cohort);
    assert order[i] in multiset(vs);
    var l :| 0 <= l < |vs| && vs[l] == order[i];
    CohortBidsEntries(bids, cohort, l);
    DictItemsLookup(CohortBids(bids, cohort), l);
  }

  /** The dictionary holds each bid at most once. */
  lemma CohortBidsValuesDistinct(bids: seq<Bid>, cohort: Cohort)
    ensures NoDup(Values(CohortBids(bids, cohort)))
  {
    var d := CohortBids(bids, cohort);
    var vs := Values(d);
    CohortBidsNoDup(bids, cohort, |bids|);
    forall l1, l2 | 0 <= l1 < l2 < |vs| ensures vs[l1] != vs[l2] {
      CohortBidsEntries(bids, cohort, l1);
      CohortBidsEntries(bids, cohort, l2);
      assert Keys(d)[l1] != Keys(d)[l2];
    }
  }

  /** The order visits each department once. */
  lemma BidOrderDepartmentsDistinct(bids: seq<Bid>, cohort: Cohort, a: nat, b: nat)
    requires a < b < |BidOrder(bids, cohort)|
    ensures BidOrder(bids, cohort)[a] < |bids| && BidOrder(bids, cohort)[b] < |bids|
    ensures Department(bids[BidOrder(bids, cohort)[a]]) != Department(bids[BidOrder(bids, cohort)[b]])
  {
    var order := BidOrder(bids, cohort);
    BidOrderOpen(bids, cohort, a);
    BidOrderOpen(bids, cohort, b);
    CohortBidsValuesDistinct(bids, cohort);
    MultisetNoDup(Values(CohortBids(bids, cohort)), order);
    assert order[a] != order[b];
  }

  /** The dictionary's bids visited in ascending `number`. */
  lemma BidOrderAscending(bids: seq<Bid>, cohort: Cohort)
    ensures forall i, j :: 0 <= i < j < |BidOrder(bids, cohort)| ==>
              BidOrder(bids, cohort)[i] < |bids| && BidOrder(bids, cohort)[j] < |bids| &&
              bids[BidOrder(bids, cohort)[i]].number <= bids[BidOrder(bids, cohort)[j]].number
  {
    var key := (k: nat) => if k < |bids| then bids[k].number else 0;
    var vs := Values(CohortBids(bids, cohort));
    var order := BidOrder(bids, cohort);
    SortByAscending(vs, key);
    forall i | 0 <= i < |order| ensures order[i] < |bids| {
      assert order[i] in multiset(vs);
      var l :| 0 <= l < |vs| && vs[l] == order[i];
      CohortBidsEntries(bids, cohort, l);
    }
    forall i, j | 0 <= i < j < |order|
      ensures order[i] < |bids| && order[j] < |bids| && bids[order[i]].number <= bids[order[j]].number
    {
      assert key(order[i]) <= key(order[j]);
    }
  }

  // ---------------------------------------------------------------
  // Cohort order
  // ---------------------------------------------------------------

  const AllCohorts: seq<Cohort> := [One, Two, Three, SixMonth]

  lemma AllCohortsListed(y: Cohort)
    ensures y in AllCohorts
  {
    assert AllCohorts[CohortValue(y) - 1] == y;
  }

  predicate HasBid(bids: seq<Bid>, y: Cohort)
  {
    exists b :: b in bids && b.cohort == y
  }

  /** The distinct cohorts of the bids, in ascending order, or descending when `seniorToJunior` holds. */
  function CohortOrder(bids: seq<Bid>, seniorToJunior: bool): seq<Cohort>
  {
    var ascending := Filter(AllCohorts, y => HasBid(bids, y));
    if seniorToJunior then Reverse(ascending) else ascending
  }

  /** Exactly the cohorts that have a bid are visited. */
  lemma CohortOrderElements(bids: seq<Bid>, seniorToJunior: bool)
    ensures forall y :: y in CohortOrder(bids, seniorToJunior) <==> HasBid(bids, y)
  {
    var ascending := Filter(AllCohorts, y => HasBid(bids, y));
    ReverseElements(ascending);
    forall y ensures y in ascending <==> HasBid(bids, y) {
      AllCohortsListed(y);
    }
  }

  predicate StrictlyRising(s: seq<Cohort>)
  {
    forall i, j :: 0 <= i < j < |s| ==> CohortValue(s[i]) < CohortValue(s[j])
  }

  predicate StrictlyFalling(s: seq<Cohort>)
  {
    forall i, j :: 0 <= i < j < |s| ==> CohortValue(s[i]) > CohortValue(s[j])
  }

  /** Each cohort with a bid is visited once, junior first or, when asked, senior first. */
  lemma CohortOrderSorted(bids: seq<Bid>, seniorToJunior: bool)
    ensures NoDup(CohortOrder(bids, seniorToJunior))
    ensures !seniorToJunior ==> StrictlyRising(CohortOrder(bids, seniorToJunior))
    ensures seniorToJunior ==> StrictlyFalling(CohortOrder(bids, seniorToJunior))
  {
    var ascending := Filter(AllCohorts, y => HasBid(bids, y));
    assert StrictlyRising(AllCohorts);
    FilterRising(AllCohorts, y => HasBid(bids, y));
    ReverseFalling(ascending);
  }

  lemma ReverseFalling(s: seq<Cohort>)
    requires StrictlyRising(s)
    ensures StrictlyFalling(Reverse(s)) && NoDup(Reverse(s)) && NoDup(s)
  {
    var r := Reverse(s);
    forall i, j | 0 <= i < j < |r| ensures CohortValue(r[i]) > CohortValue(r[j]) {
      assert r[i] == s[|s| - 1 - i];
      assert r[j] == s[|s| - 1 - j];
    }
  }

  /** Filtering a list whose cohort values strictly rise keeps them rising. */
  lemma {:induction false} FilterRising(s: seq<Cohort>, p: Cohort -> bool)
    requires StrictlyRising(s)
    ensures StrictlyRising(Filter(s, p))
  {
    if s != [] {
      FilterRising(s[1..], p);
      var rest := Filter(s[1..], p);
      forall y | y in rest ensures CohortValue(s[0]) < CohortValue(y) {
        var j :| 0 <= j < |s[1..]| && s[1..][j] == y;
        assert s[j + 1] == y;
      }
      assert forall j :: 0 <= j < |rest| ==> rest[j] in rest;
      if p(s[0]) {
        assert Filter(s, p) == [s[0]] + rest;
      } else {
        assert Filter(s, p) == rest;
      }
    }
  }
}
