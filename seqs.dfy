/**
 * Sequence helpers shared by the model: the list comprehension filter, Python's
 * stable `sorted`, the `[:n]` slice and sums.
 */
module Seqs {

  /** The elements of `s` that satisfy `p`, in their order. */
  function Filter<T(==,!new)>(s: seq<T>, p: T -> bool): (r: seq<T>)
    ensures |r| <= |s|
    ensures forall x :: x in r <==> x in s && p(x)
  {
    if s == [] then []
    else
      assert s == [s[0]] + s[1..];
      (if p(s[0]) then [s[0]] else []) + Filter(s[1..], p)
  }

  /** Filtering distributes over concatenation, so it keeps the original order. */
  lemma {:induction false} FilterAppend<T(!new)>(a: seq<T>, b: seq<T>, p: T -> bool)
    ensures Filter(a + b, p) == Filter(a, p) + Filter(b, p)
  {
    if a != [] {
      var head := if p(a[0]) then [a[0]] else [];
      assert (a + b)[0] == a[0];
      assert (a + b)[1..] == a[1..] + b;
      FilterAppend(a[1..], b, p);
      assert Filter(a + b, p) == head + Filter(a[1..] + b, p);
      assert Filter(a, p) == head + Filter(a[1..], p);
    } else {
      assert a + b == b;
    }
  }

  /** An element that passes the filter is kept in place; one that fails it is dropped. */
  lemma FilterSnoc<T(!new)>(a: seq<T>, x: T, p: T -> bool)
    ensures Filter(a + [x], p) == Filter(a, p) + (if p(x) then [x] else [])
  {
    FilterAppend(a, [x], p);
  }

  predicate NoDup<T(==)>(s: seq<T>)
  {
    forall i, j :: 0 <= i < j < |s| ==> s[i] != s[j]
  }

  lemma {:induction false} FilterNoDup<T(!new)>(s: seq<T>, p: T -> bool)
    requires NoDup(s)
    ensures NoDup(Filter(s, p))
  {
    if s != [] {
      assert NoDup(s[1..]);
      FilterNoDup(s[1..], p);
      assert s[0] !in s[1..];
    }
  }

  lemma NoDupTail<T>(s: seq<T>)
    requires NoDup(s) && s != []
    ensures NoDup(s[1..]) && s[0] !in s[1..]
  {
  }

  /** In a duplicate-free sequence every element occurs exactly once. */
  lemma NoDupSnoc<T>(s: seq<T>, x: T)
    requires NoDup(s) && x !in s
    ensures NoDup(s + [x])
  {
    assert forall i :: 0 <= i < |s| ==> (s + [x])[i] == s[i];
  }

  lemma {:induction false} NoDupCounts<T(!new)>(s: seq<T>)
    requires NoDup(s)
    ensures forall x :: multiset(s)[x] == (if x in s then 1 else 0)
  {
    if s != [] {
      NoDupTail(s);
      NoDupCounts(s[1..]);
      assert s == [s[0]] + s[1..];
      assert multiset(s) == multiset{s[0]} + multiset(s[1..]);
    }
  }

  /** Two duplicate-free sequences with the same elements are permutations of each other. */
  lemma DistinctSameElements<T(!new)>(a: seq<T>, b: seq<T>)
    requires NoDup(a) && NoDup(b)
    requires forall x :: x in a <==> x in b
    ensures multiset(a) == multiset(b)
  {
    NoDupCounts(a);
    NoDupCounts(b);
    assert forall x :: multiset(a)[x] == multiset(b)[x];
  }

  /** A permutation of a duplicate-free sequence is duplicate-free. */
  lemma MultisetNoDup<T(!new)>(a: seq<T>, b: seq<T>)
    requires NoDup(a) && multiset(a) == multiset(b)
    ensures NoDup(b)
  {
    NoDupCounts(a);
    forall i, j | 0 <= i < j < |b| ensures b[i] != b[j] {
      assert b == b[..j] + [b[j]] + b[j + 1..];
      assert b[i] in b[..j];
      assert multiset(b)[b[j]] == multiset(b[..j])[b[j]] + 1 + multiset(b[j + 1..])[b[j]];
    }
  }

  predicate Ascending<T(==,!new)>(s: seq<T>, key: T -> int)
  {
    forall i, j :: 0 <= i < j < |s| ==> key(s[i]) <= key(s[j])
  }

  /** Inserts `x` in front of the first element whose key is not smaller. */
  function InsertBy<T(==,!new)>(x: T, s: seq<T>, key: T -> int): (r: seq<T>)
    ensures |r| == |s| + 1
    ensures multiset(r) == multiset(s) + multiset{x}
  {
    if s == [] || key(x) <= key(s[0]) then [x] + s
    else
      assert s == [s[0]] + s[1..];
      [s[0]] + InsertBy(x, s[1..], key)
  }

  lemma {:induction false} InsertByAscending<T(!new)>(x: T, s: seq<T>, key: T -> int)
    requires Ascending(s, key)
    ensures Ascending(InsertBy(x, s, key), key)
  {
    if s != [] && key(x) > key(s[0]) {
      var t := InsertBy(x, s[1..], key);
      InsertByAscending(x, s[1..], key);
      forall y | y in t ensures key(s[0]) <= key(y) {
        assert y in multiset(t);
        assert y == x || y in multiset(s[1..]);
      }
      assert forall i :: 0 <= i < |t| ==> t[i] in t;
    }
  }

  /**
   * Python's `sorted(s, key=key)`: an insertion sort that keeps elements with
   * equal keys in their original order (see SortByStable).
   */
  function SortBy<T(==,!new)>(s: seq<T>, key: T -> int): (r: seq<T>)
    ensures |r| == |s|
    ensures multiset(r) == multiset(s)
  {
    if s == [] then []
    else
      assert s == [s[0]] + s[1..];
      InsertBy(s[0], SortBy(s[1..], key), key)
  }

  lemma {:induction false} SortByAscending<T(!new)>(s: seq<T>, key: T -> int)
    ensures Ascending(SortBy(s, key), key)
  {
    if s != [] {
      SortByAscending(s[1..], key);
      InsertByAscending(s[0], SortBy(s[1..], key), key);
    }
  }

  function KeyIs<T(==,!new)>(key: T -> int, k: int): T -> bool
  {
    x => key(x) == k
  }

  lemma {:induction false} InsertByStable<T(!new)>(x: T, s: seq<T>, key: T -> int, k: int)
    ensures Filter(InsertBy(x, s, key), KeyIs(key, k))
         == (if key(x) == k then [x] else []) + Filter(s, KeyIs(key, k))
  {
    if s == [] || key(x) <= key(s[0]) {
    } else {
      InsertByStable(x, s[1..], key, k);
      assert ([s[0]] + InsertBy(x, s[1..], key))[1..] == InsertBy(x, s[1..], key);
    }
  }

  /** Stability: the elements with any one key value come out in their input order. */
  lemma {:induction false} SortByStable<T(!new)>(s: seq<T>, key: T -> int, k: int)
    ensures Filter(SortBy(s, key), KeyIs(key, k)) == Filter(s, KeyIs(key, k))
  {
    if s != [] {
      SortByStable(s[1..], key, k);
      InsertByStable(s[0], SortBy(s[1..], key), key, k);
    }
  }

  /** The first `n` pieces, concatenated. */
  function Concat<T>(pieces: seq<seq<T>>, n: nat): seq<T>
    requires n <= |pieces|
  {
    if n == 0 then [] else Concat(pieces, n - 1) + pieces[n - 1]
  }

  /** The first `n` pieces whose key is `key`, concatenated. */
  function Gather<T, K(==)>(pieces: seq<seq<T>>, keys: seq<K>, key: K, n: nat): seq<T>
    requires n <= |pieces| == |keys|
  {
    if n == 0 then [] else Gather(pieces, keys, key, n - 1) + (if keys[n - 1] == key then pieces[n - 1] else [])
  }

  /** Filtering by `p` keeps each of the first `n` pieces keyed `key` whole and drops the others. */
  ghost predicate KeepsKeyed<T(!new), K>(pieces: seq<seq<T>>, keys: seq<K>, key: K, p: T -> bool, n: nat)
    requires n <= |pieces| == |keys|
  {
    n == 0
    || (KeepsKeyed(pieces, keys, key, p, n - 1)
        && Filter(pieces[n - 1], p) == if keys[n - 1] == key then pieces[n - 1] else [])
  }

  lemma {:induction false} KeepsKeyedAll<T(!new), K>(pieces: seq<seq<T>>, keys: seq<K>, key: K, p: T -> bool, n: nat)
    requires n <= |pieces| == |keys|
    requires forall m :: 0 <= m < n ==> Filter(pieces[m], p) == if keys[m] == key then pieces[m] else []
    ensures KeepsKeyed(pieces, keys, key, p, n)
  {
    if n > 0 {
      KeepsKeyedAll(pieces, keys, key, p, n - 1);
    }
  }

  lemma {:induction false} FilterConcat<T(!new), K>(pieces: seq<seq<T>>, keys: seq<K>, key: K, p: T -> bool, n: nat)
    requires n <= |pieces| == |keys|
    requires KeepsKeyed(pieces, keys, key, p, n)
    ensures Filter(Concat(pieces, n), p) == Gather(pieces, keys, key, n)
  {
    if n == 0 {
      assert Filter([], p) == [];
    } else {
      FilterConcat(pieces, keys, key, p, n - 1);
      FilterConcatStep(pieces, keys, key, p, n);
    }
  }

  /** One step of `FilterConcat`: the filter of one more piece is that piece or nothing. */
  lemma FilterConcatStep<T(!new), K>(pieces: seq<seq<T>>, keys: seq<K>, key: K, p: T -> bool, n: nat)
    requires 0 < n <= |pieces| == |keys|
    requires Filter(pieces[n - 1], p) == if keys[n - 1] == key then pieces[n - 1] else []
    requires Filter(Concat(pieces, n - 1), p) == Gather(pieces, keys, key, n - 1)
    ensures Filter(Concat(pieces, n), p) == Gather(pieces, keys, key, n)
  {
    FilterAppend(Concat(pieces, n - 1), pieces[n - 1], p);
  }



  /** With `key` at one place only, gathering finds that one piece, once past it. */
  lemma {:induction false} GatherOnce<T, K>(pieces: seq<seq<T>>, keys: seq<K>, key: K, n: nat, l: nat)
    requires n <= |pieces| == |keys|
    requires l < |keys| && keys[l] == key
    requires forall m :: 0 <= m < |keys| && m != l ==> keys[m] != key
    ensures Gather(pieces, keys, key, n) == if l < n then pieces[l] else []
  {
    if n > 0 {
      GatherOnce(pieces, keys, key, n - 1, l);
      if n - 1 == l {
        assert [] + pieces[l] == pieces[l];
      } else {
        assert Gather(pieces, keys, key, n - 1) + [] == Gather(pieces, keys, key, n - 1);
      }
    }
  }

  /** With `key` nowhere, gathering finds nothing. */
  lemma {:induction false} GatherNone<T, K>(pieces: seq<seq<T>>, keys: seq<K>, key: K, n: nat)
    requires n <= |pieces| == |keys|
    requires forall m :: 0 <= m < |keys| ==> keys[m] != key
    ensures Gather(pieces, keys, key, n) == []
  {
    if n > 0 {
      GatherNone(pieces, keys, key, n - 1);
    }
  }

  function Min(a: int, b: int): int { if a <= b then a else b }

  function Max(a: int, b: int): int { if a <= b then b else a }

  /** Python's `s[:n]`, where a negative `n` drops that many elements from the end. */
  function Slice<T>(s: seq<T>, n: int): (r: seq<T>)
    ensures r <= s
    ensures 0 <= n ==> |r| == Min(n, |s|)
    ensures n < 0 ==> |r| == Max(0, |s| + n)
  {
    if 0 <= n then s[..Min(n, |s|)] else s[..Max(0, |s| + n)]
  }

  /** The head of `a` sits somewhere in a permutation `b` of `a`; the rests are permutations too. */
  lemma PermutationSplit<T>(a: seq<T>, b: seq<T>) returns (i: nat)
    requires a != [] && multiset(a) == multiset(b)
    ensures i < |b| && b[i] == a[0]
    ensures multiset(a[1..]) == multiset(b[..i] + b[i + 1..])
  {
    var x := a[0];
    assert x in multiset(a);
    assert x in multiset(b);
    i :| 0 <= i < |b| && b[i] == x;
    var rest := b[..i] + b[i + 1..];
    assert b == b[..i] + [x] + b[i + 1..];
    assert a == [x] + a[1..];
    assert multiset(a) == multiset([x]) + multiset(a[1..]);
    assert multiset(b) == multiset(b[..i]) + multiset([x]) + multiset(b[i + 1..]);
    assert multiset(rest) == multiset(b[..i]) + multiset(b[i + 1..]);
    forall y ensures multiset(a[1..])[y] == multiset(rest)[y] {
      assert multiset(a)[y] == multiset([x])[y] + multiset(a[1..])[y];
    }
  }

  /** Indexing a sequence with one element appended. */
  lemma SnocIndex<T>(s: seq<T>, x: T, i: nat)
    requires i <= |s|
    ensures |s + [x]| == |s| + 1
    ensures (s + [x])[i] == if i < |s| then s[i] else x
  {
  }

  /** A prefix one longer is the prefix and the next element. */
  lemma TakeSnoc<T>(s: seq<T>, n: nat)
    requires n < |s|
    ensures s[..n + 1] == s[..n] + [s[n]]
  {
  }

  function Sum(s: seq<int>): int
  {
    if s == [] then 0 else s[0] + Sum(s[1..])
  }

  lemma {:induction false} SumAppend(a: seq<int>, b: seq<int>)
    ensures Sum(a + b) == Sum(a) + Sum(b)
  {
    if a != [] {
      assert (a + b)[0] == a[0];
      assert (a + b)[1..] == a[1..] + b;
      SumAppend(a[1..], b);
      assert Sum(a + b) == a[0] + Sum(a[1..] + b);
    } else {
      assert a + b == b;
    }
  }

  function Reverse<T>(s: seq<T>): (r: seq<T>)
    ensures |r| == |s|
    ensures forall i :: 0 <= i < |s| ==> r[i] == s[|s| - 1 - i]
  {
    if s == [] then [] else Reverse(s[1..]) + [s[0]]
  }

  /** Reversing keeps the elements and their multiplicities. */
  lemma ReverseElements<T>(s: seq<T>)
    ensures forall x :: x in Reverse(s) <==> x in s
  {
    forall x | x in s ensures x in Reverse(s) {
      var i :| 0 <= i < |s| && s[i] == x;
      assert Reverse(s)[|s| - 1 - i] == x;
    }
  }
}
