/**
 * Sequence helpers: JavaScript's `Array.prototype.filter` (which keeps the
 * kept elements in their original order) and the facts about it that the
 * components' filters rely on.
 */
module Seqs {

  /** r is obtained from s by deleting elements, keeping the order of the rest. */
  predicate IsSubsequence<T(==,!new)>(r: seq<T>, s: seq<T>)
  {
    if r == [] then true
    else if s == [] then false
    else if r[|r| - 1] == s[|s| - 1] then IsSubsequence(r[..|r| - 1], s[..|s| - 1])
    else IsSubsequence(r, s[..|s| - 1])
  }

  /** No element occurs twice. */
  predicate NoDuplicates<T(==,!new)>(s: seq<T>)
  {
    forall i, j :: 0 <= i < j < |s| ==> s[i] != s[j]
  }

  /** `s.filter(p)`. */
  function Filter<T(==,!new)>(s: seq<T>, p: T -> bool): (r: seq<T>)
    ensures |r| <= |s|
    ensures forall x :: x in r <==> x in s && p(x)
  {
    if s == [] then []
    else
      var init := Filter(s[..|s| - 1], p);
      assert forall x :: x in s <==> x in s[..|s| - 1] || x == s[|s| - 1];
      var last := s[|s| - 1];
      if p(last) then
        assert (init + [last])[..|init|] == init;
        init + [last]
      else init
  }

  /** The kept elements appear in `s` in the same order. */
  lemma {:induction false} FilterIsSubsequence<T(!new)>(s: seq<T>, p: T -> bool)
    ensures IsSubsequence(Filter(s, p), s)
  {
    if s != [] {
      var init, last := s[..|s| - 1], s[|s| - 1];
      FilterIsSubsequence(init, p);
      var r := Filter(init, p);
      if p(last) {
        assert (r + [last])[..|r|] == r;
      } else {
        assert r != [] ==> r[|r| - 1] in r;
      }
    }
  }

  /** Filtering one more element at the end. */
  lemma FilterAppend<T(!new)>(s: seq<T>, x: T, p: T -> bool)
    ensures Filter(s + [x], p) == Filter(s, p) + (if p(x) then [x] else [])
  {
    assert (s + [x])[..|s|] == s;
  }

  /** Filtering keeps everything when every element passes. */
  lemma {:induction false} FilterKeepsAll<T(!new)>(s: seq<T>, p: T -> bool)
    requires forall x :: x in s ==> p(x)
    ensures Filter(s, p) == s
  {
    if s != [] {
      FilterKeepsAll(s[..|s| - 1], p);
      assert s[..|s| - 1] + [s[|s| - 1]] == s;
    }
  }

  /** A subsequence of a sequence without duplicates has no duplicates either. */
  lemma {:induction false} SubsequenceNoDuplicates<T(!new)>(r: seq<T>, s: seq<T>)
    requires IsSubsequence(r, s) && NoDuplicates(s)
    ensures NoDuplicates(r)
  {
    if r != [] && s != [] {
      assert NoDuplicates(s[..|s| - 1]);
      if r[|r| - 1] == s[|s| - 1] {
        SubsequenceNoDuplicates(r[..|r| - 1], s[..|s| - 1]);
        SubsequenceMembers(r[..|r| - 1], s[..|s| - 1]);
        assert forall i :: 0 <= i < |r| - 1 ==> r[i] in s[..|s| - 1];
        assert s[|s| - 1] !in s[..|s| - 1];
      } else {
        SubsequenceNoDuplicates(r, s[..|s| - 1]);
      }
    }
  }

  /** Every element of a subsequence is an element of the sequence. */
  lemma {:induction false} SubsequenceMembers<T(!new)>(r: seq<T>, s: seq<T>)
    requires IsSubsequence(r, s)
    ensures forall x :: x in r ==> x in s
  {
    if r != [] && s != [] {
      if r[|r| - 1] == s[|s| - 1] {
        SubsequenceMembers(r[..|r| - 1], s[..|s| - 1]);
        assert forall x :: x in r ==> x in r[..|r| - 1] || x == r[|r| - 1];
      } else {
        SubsequenceMembers(r, s[..|s| - 1]);
      }
    }
  }

  /** Filtering a sequence with one more element in front. */
  lemma {:induction false} FilterPrepend<T(!new)>(x: T, s: seq<T>, p: T -> bool)
    ensures Filter([x] + s, p) == (if p(x) then [x] else []) + Filter(s, p)
  {
    if s == [] {
      assert [x] + s == [] + [x];
      FilterAppend([], x, p);
    } else {
      var init, last := s[..|s| - 1], s[|s| - 1];
      var front := if p(x) then [x] else [];
      var tail := if p(last) then [last] else [];
      calc {
        Filter([x] + s, p);
        { assert [x] + s == ([x] + init) + [last]; }
        Filter(([x] + init) + [last], p);
        { FilterAppend([x] + init, last, p); }
        Filter([x] + init, p) + tail;
        { FilterPrepend(x, init, p); }
        (front + Filter(init, p)) + tail;
        front + (Filter(init, p) + tail);
        { FilterAppend(init, last, p); }
        front + Filter(init + [last], p);
        { assert init + [last] == s; }
        front + Filter(s, p);
      }
    }
  }

  /** Filtering drops everything when no element passes. */
  lemma FilterDropsAll<T(!new)>(s: seq<T>, p: T -> bool)
    requires forall x :: x in s ==> !p(x)
    ensures Filter(s, p) == []
  {
    if Filter(s, p) != [] {
      assert Filter(s, p)[0] in Filter(s, p);
    }
  }

  /** A sequence without duplicates has as many distinct elements as it is long. */
  lemma {:induction false} DistinctCardinality<T(!new)>(s: seq<T>)
    requires NoDuplicates(s)
    ensures |set x | x in s| == |s|
  {
    if s == [] {
      assert (set x | x in s) == {};
    } else {
      var init, last := s[..|s| - 1], s[|s| - 1];
      assert NoDuplicates(init);
      DistinctCardinality(init);
      assert forall i :: 0 <= i < |init| ==> init[i] == s[i];
      assert last !in init;
      assert (set x | x in s) == (set x | x in init) + {last};
    }
  }

  /** An element that fails the test makes the result shorter than the input. */
  lemma {:induction false} FilterDropsOne<T(!new)>(s: seq<T>, p: T -> bool, x: T)
    requires x in s && !p(x)
    ensures |Filter(s, p)| < |s|
  {
    var init, last := s[..|s| - 1], s[|s| - 1];
    assert s == init + [last];
    FilterAppend(init, last, p);
    if last != x {
      assert x in init;
      FilterDropsOne(init, p, x);
    }
  }

  /** Filtering keeps the whole sequence exactly when every element passes. */
  lemma FilterKeepsAllIff<T(!new)>(s: seq<T>, p: T -> bool)
    ensures |Filter(s, p)| == |s| <==> forall x :: x in s ==> p(x)
  {
    if forall x :: x in s ==> p(x) {
      FilterKeepsAll(s, p);
    } else {
      var x :| x in s && !p(x);
      FilterDropsOne(s, p, x);
    }
  }

  /** Two tests that agree on every element keep the same elements. */
  lemma {:induction false} FilterAgree<T(!new)>(s: seq<T>, p: T -> bool, q: T -> bool)
    requires forall x :: x in s ==> p(x) == q(x)
    ensures Filter(s, p) == Filter(s, q)
  {
    if s != [] {
      FilterAgree(s[..|s| - 1], p, q);
    }
  }

  /** The keys of s never decrease. */
  predicate SortedBy<T>(s: seq<T>, key: T -> int)
  {
    forall i, j :: 0 <= i < j < |s| ==> key(s[i]) <= key(s[j])
  }

  /** Inserts x after the last element whose key is not greater than its own (behind every greater one at the end). */
  function InsertBy<T>(s: seq<T>, x: T, key: T -> int): seq<T>
  {
    if s == [] then [x]
    else if key(s[|s| - 1]) <= key(x) then s + [x]
    else InsertBy(s[..|s| - 1], x, key) + [s[|s| - 1]]
  }

  /** Insertion adds exactly one occurrence of x. */
  lemma {:induction false} InsertByPermutes<T>(s: seq<T>, x: T, key: T -> int)
    ensures multiset(InsertBy(s, x, key)) == multiset(s) + multiset{x}
  {
    if s != [] && key(s[|s| - 1]) > key(x) {
      InsertByPermutes(s[..|s| - 1], x, key);
      assert s == s[..|s| - 1] + [s[|s| - 1]];
    }
  }

  /** Insertion into a sorted sequence keeps it sorted. */
  lemma {:induction false} InsertBySorted<T>(s: seq<T>, x: T, key: T -> int)
    requires SortedBy(s, key)
    ensures SortedBy(InsertBy(s, x, key), key)
  {
    if s != [] && key(s[|s| - 1]) > key(x) {
      var init := s[..|s| - 1];
      var last := s[|s| - 1];
      var front := InsertBy(init, x, key);
      InsertBySorted(init, x, key);
      InsertByPermutes(init, x, key);
      forall i | 0 <= i < |front|
        ensures key(front[i]) <= key(last)
      {
        assert front[i] in multiset(front);
        if front[i] != x {
          assert front[i] in init;
        }
      }
    }
  }

  /** `s.sort((a, b) => key(a) - key(b))`: a stable sort by key, ascending. */
  function SortBy<T>(s: seq<T>, key: T -> int): seq<T>
  {
    if s == [] then [] else InsertBy(SortBy(s[..|s| - 1], key), s[|s| - 1], key)
  }

  /** Sorting rearranges without adding or losing elements. */
  lemma {:induction false} SortByPermutes<T>(s: seq<T>, key: T -> int)
    ensures multiset(SortBy(s, key)) == multiset(s)
  {
    if s != [] {
      var init, last := s[..|s| - 1], s[|s| - 1];
      SortByPermutes(init, key);
      InsertByPermutes(SortBy(init, key), last, key);
      assert init + [last] == s;
      MultisetStep(SortBy(init, key), init, last, SortBy(s, key));
    }
  }

  /** Adding x to a permutation of init gives a permutation of init + [x]. */
  lemma MultisetStep<T>(t: seq<T>, init: seq<T>, x: T, u: seq<T>)
    requires multiset(t) == multiset(init) && multiset(u) == multiset(t) + multiset{x}
    ensures multiset(u) == multiset(init + [x])
  {
  }

  /** Sorting orders by key. */
  lemma {:induction false} SortBySorted<T>(s: seq<T>, key: T -> int)
    ensures SortedBy(SortBy(s, key), key)
  {
    if s != [] {
      SortBySorted(s[..|s| - 1], key);
      InsertBySorted(SortBy(s[..|s| - 1], key), s[|s| - 1], key);
    }
  }

  /** In a sorted sequence, no element after position k has a smaller key than one before it. */
  lemma SortedPrefixFirst<T>(s: seq<T>, k: nat, key: T -> int)
    requires SortedBy(s, key) && k <= |s|
    ensures forall x, e :: x in s[..k] && e in multiset(s[k..]) ==> key(x) <= key(e)
  {
    forall x, e | x in s[..k] && e in multiset(s[k..])
      ensures key(x) <= key(e)
    {
      var i :| 0 <= i < k && s[i] == x;
      assert e in s[k..];
      var j :| 0 <= j < |s| - k && s[k..][j] == e;
      assert s[k + j] == e;
    }
  }

  /** `SortBy(s, key).slice(0, n)`. */
  function SmallestBy<T>(s: seq<T>, n: nat, key: T -> int): seq<T>
  {
    var sorted := SortBy(s, key);
    sorted[..if n <= |sorted| then n else |sorted|]
  }

  /**
   * The first n after sorting: as many as there are up to n, in key order,
   * drawn from s, and none of the rest has a smaller key than any of them.
   */
  lemma SmallestByIsSmallest<T>(s: seq<T>, n: nat, key: T -> int)
    ensures var r := SmallestBy(s, n, key);
      && |r| == (if n <= |s| then n else |s|)
      && multiset(r) <= multiset(s)
      && SortedBy(r, key)
      && forall x, e :: x in r && e in multiset(s) - multiset(r) ==> key(x) <= key(e)
  {
    SortByPermutes(s, key);
    SortBySorted(s, key);
    PrefixIsSmallest(SortBy(s, key), s, n, key);
  }

  /** The first n of a sorted rearrangement t of s are the n smallest of s. */
  lemma PrefixIsSmallest<T>(t: seq<T>, s: seq<T>, n: nat, key: T -> int)
    requires multiset(t) == multiset(s) && SortedBy(t, key)
    ensures var r := t[..if n <= |t| then n else |t|];
      && |r| == (if n <= |s| then n else |s|)
      && multiset(r) <= multiset(s)
      && SortedBy(r, key)
      && forall x, e :: x in r && e in multiset(s) - multiset(r) ==> key(x) <= key(e)
  {
    assert |t| == |multiset(t)| == |s|;
    var k := if n <= |t| then n else |t|;
    assert t == t[..k] + t[k..];
    assert multiset(s) - multiset(t[..k]) == multiset(t[k..]);
    SortedPrefixFirst(t, k, key);
  }
}
