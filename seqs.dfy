/** Order-preserving selection from a sequence: a list comprehension with an `if`. */
module Seqs {

  /** `[x for x in s if p(x)]`. */
  function Filter<T>(s: seq<T>, p: T -> bool): (r: seq<T>)
    ensures |r| <= |s|
    ensures forall i :: 0 <= i < |r| ==> r[i] in s && p(r[i])
    ensures forall i :: 0 <= i < |s| && p(s[i]) ==> s[i] in r
    decreases |s|
  {
    if s == [] then [] else (if p(s[0]) then [s[0]] else []) + Filter(s[1..], p)
  }

  /** The filter keeps every element that passes as often as `s` holds it, and no other. */
  lemma {:induction false} FilterCounts<T>(s: seq<T>, p: T -> bool)
    ensures forall i :: 0 <= i < |s| ==>
              multiset(Filter(s, p))[s[i]] == (if p(s[i]) then multiset(s)[s[i]] else 0)
    decreases |s|
  {
    if s != [] {
      FilterCounts(s[1..], p);
      FilterCountStep(s, p, Filter(s[1..], p));
    }
  }

  /** Keeping or dropping the head of `s` extends the multiplicities a filter of its tail keeps. */
  lemma FilterCountStep<T>(s: seq<T>, p: T -> bool, rest: seq<T>)
    requires s != []
    requires forall k :: 0 <= k < |rest| ==> rest[k] in s[1..]
    requires forall j :: 0 <= j < |s[1..]| ==>
               multiset(rest)[s[1..][j]] == (if p(s[1..][j]) then multiset(s[1..])[s[1..][j]] else 0)
    ensures var r := (if p(s[0]) then [s[0]] else []) + rest;
            forall i :: 0 <= i < |s| ==> multiset(r)[s[i]] == (if p(s[i]) then multiset(s)[s[i]] else 0)
  {
    var t := s[1..];
    var r := (if p(s[0]) then [s[0]] else []) + rest;
    assert s == [s[0]] + t;
    forall i | 0 <= i < |s|
      ensures multiset(r)[s[i]] == (if p(s[i]) then multiset(s)[s[i]] else 0)
    {
      var x := s[i];
      assert multiset(s)[x] == multiset([s[0]])[x] + multiset(t)[x];
      assert multiset(r)[x] == multiset(if p(s[0]) then [s[0]] else [])[x] + multiset(rest)[x];
      if x in t {
        var j :| 0 <= j < |t| && t[j] == x;
      } else {
        assert i == 0;
        assert x !in rest;
      }
    }
  }

  /** `r` is `s` with some elements left out, in the same order. */
  predicate IsSubsequence<T(==)>(r: seq<T>, s: seq<T>)
    decreases |s|
  {
    if r == [] then true
    else if s == [] then false
    else if r[0] == s[0] then IsSubsequence(r[1..], s[1..])
    else IsSubsequence(r, s[1..])
  }

  lemma {:induction false} FilterIsSubsequence<T>(s: seq<T>, p: T -> bool)
    ensures IsSubsequence(Filter(s, p), s)
  {
    if s != [] {
      FilterIsSubsequence(s[1..], p);
      var rest := Filter(s[1..], p);
      if p(s[0]) {
        var r := [s[0]] + rest;
        assert Filter(s, p) == r;
        assert r[0] == s[0] && r[1..] == rest;
      } else {
        assert Filter(s, p) == [] + rest;
        assert [] + rest == rest;
        if rest != [] {
          assert p(rest[0]);
        }
      }
    }
  }

  /** Filtering twice by the same test keeps the same elements. */
  lemma {:induction false} FilterIdempotent<T>(s: seq<T>, p: T -> bool)
    ensures Filter(Filter(s, p), p) == Filter(s, p)
  {
    if s != [] {
      FilterIdempotent(s[1..], p);
      if p(s[0]) {
        var r := Filter(s, p);
        assert r[0] == s[0] && r[1..] == Filter(s[1..], p);
        assert Filter(r, p) == [r[0]] + Filter(r[1..], p);
      } else {
        assert Filter(s, p) == [] + Filter(s[1..], p);
        assert [] + Filter(s[1..], p) == Filter(s[1..], p);
      }
    }
  }

  /** `s` is in non-decreasing order of `key`. */
  predicate SortedBy<T>(s: seq<T>, key: T -> real)
  {
    forall i, j :: 0 <= i < j < |s| ==> key(s[i]) <= key(s[j])
  }

  /** Selection keeps a sorted sequence sorted. */
  lemma {:induction false} FilterKeepsOrder<T>(s: seq<T>, p: T -> bool, key: T -> real)
    requires SortedBy(s, key)
    ensures SortedBy(Filter(s, p), key)
  {
    if s != [] {
      FilterKeepsOrder(s[1..], p, key);
      var rest := Filter(s[1..], p);
      if p(s[0]) {
        forall y | y in rest
          ensures key(s[0]) <= key(y)
        {
          HeadIsLeast(s, key, y);
        }
        ConsSorted(s[0], rest, key);
        assert Filter(s, p) == [s[0]] + rest;
      } else {
        assert Filter(s, p) == [] + rest;
        assert [] + rest == rest;
      }
    }
  }

  /** In a sorted sequence the head is no greater than anything after it. */
  lemma HeadIsLeast<T>(s: seq<T>, key: T -> real, x: T)
    requires SortedBy(s, key) && s != [] && x in s[1..]
    ensures key(s[0]) <= key(x)
  {
    var k :| 0 <= k < |s[1..]| && s[1..][k] == x;
    assert s[k + 1] == x;
  }

  /** A sorted sequence stays sorted under a new head no greater than its elements. */
  lemma ConsSorted<T>(x: T, r: seq<T>, key: T -> real)
    requires SortedBy(r, key)
    requires forall y :: y in r ==> key(x) <= key(y)
    ensures SortedBy([x] + r, key)
  {
    var xr := [x] + r;
    forall i, j | 0 <= i < j < |xr|
      ensures key(xr[i]) <= key(xr[j])
    {
      assert xr[j] == r[j - 1] && xr[j] in r;
      if i > 0 {
        assert xr[i] == r[i - 1];
      }
    }
  }

  /** Two sorted runs separated by `bound` join into a sorted sequence. */
  lemma ConcatSorted<T>(a: seq<T>, b: seq<T>, key: T -> real, bound: real)
    requires SortedBy(a, key) && SortedBy(b, key)
    requires forall x :: x in a ==> key(x) < bound
    requires forall y :: y in b ==> bound <= key(y)
    ensures SortedBy(a + b, key)
  {
    var ab := a + b;
    forall i, j | 0 <= i < j < |ab|
      ensures key(ab[i]) <= key(ab[j])
    {
      if j < |a| {
        assert ab[i] == a[i] && ab[j] == a[j];
      } else if i >= |a| {
        assert ab[i] == b[i - |a|] && ab[j] == b[j - |a|];
      } else {
        assert ab[i] == a[i] && ab[i] in a;
        assert ab[j] == b[j - |a|] && ab[j] in b;
      }
    }
  }
}
