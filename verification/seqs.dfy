/**
 * Generic list operations the app leans on: JavaScript's `Array.prototype.filter`,
 * the first-appearance order of a `Set` or `Map` built by inserting elements one
 * at a time, and `indexOf`.
 */
module Seqs {

  /** `s.filter(p)`: the elements satisfying `p`, in their original order. */
  function Filter<T>(s: seq<T>, p: T -> bool): (r: seq<T>)
    ensures |r| <= |s|
    ensures forall x :: x in r ==> x in s && p(x)
  {
    if s == [] then [] else (if p(s[0]) then [s[0]] else []) + Filter(s[1..], p)
  }

  /** Filtering distributes over concatenation, so relative order is preserved. */
  lemma {:induction false} FilterConcat<T>(a: seq<T>, b: seq<T>, p: T -> bool)
    ensures Filter(a + b, p) == Filter(a, p) + Filter(b, p)
  {
    if a == [] {
      assert a + b == b;
    } else {
      assert (a + b)[1..] == a[1..] + b;
      FilterConcat(a[1..], b, p);
    }
  }

  /** Every occurrence of a kept value survives; every occurrence of a dropped value goes. */
  lemma {:induction false} FilterCount<T>(s: seq<T>, p: T -> bool, x: T)
    ensures multiset(Filter(s, p))[x] == if p(x) then multiset(s)[x] else 0
  {
    if s != [] {
      FilterCount(s[1..], p, x);
      assert s == [s[0]] + s[1..];
    }
  }

  /** A value is kept exactly when it occurs and satisfies the predicate. */
  lemma FilterMember<T>(s: seq<T>, p: T -> bool, x: T)
    ensures x in Filter(s, p) <==> x in s && p(x)
  {
    FilterCount(s, p, x);
    assert x in Filter(s, p) <==> multiset(Filter(s, p))[x] > 0;
  }

  /** When no element is dropped the filter is the identity. */
  lemma {:induction false} FilterKeepsAll<T>(s: seq<T>, p: T -> bool)
    requires forall i :: 0 <= i < |s| ==> p(s[i])
    ensures Filter(s, p) == s
  {
    if s != [] {
      FilterKeepsAll(s[1..], p);
    }
  }

  /** The elements of `s` last to first. */
  function Reverse<T>(s: seq<T>): (r: seq<T>)
    ensures |r| == |s|
    ensures forall i :: 0 <= i < |s| ==> r[i] == s[|s| - 1 - i]
  {
    if s == [] then [] else Reverse(s[1..]) + [s[0]]
  }

  predicate NoDups<T(==)>(s: seq<T>)
  {
    forall i, j :: 0 <= i < j < |s| ==> s[i] != s[j]
  }

  /** Without repeats every value occurs at most once. */
  lemma {:induction false} NoDupsCounts<T>(s: seq<T>, x: T)
    requires NoDups(s)
    ensures multiset(s)[x] <= 1
  {
    if s != [] {
      var rest := s[1..];
      assert s == [s[0]] + rest;
      NoDupsCounts(rest, x);
      if x == s[0] {
        assert x !in rest by {
          forall k | 0 <= k < |rest| ensures rest[k] != x {
            assert rest[k] == s[k + 1];
          }
        }
      }
    }
  }

  /** Rearranging a list without repeats cannot create one. */
  lemma NoDupsPermutation<T>(a: seq<T>, b: seq<T>)
    requires NoDups(a) && multiset(a) == multiset(b)
    ensures NoDups(b)
  {
    forall i, j | 0 <= i < j < |b| ensures b[i] != b[j] {
      if b[i] == b[j] {
        var x := b[i];
        assert b == b[..j] + [b[j]] + b[j + 1..];
        assert x in b[..j];
        assert multiset(b)[x] >= 2;
        NoDupsCounts(a, x);
        assert false;
      }
    }
  }

  /** Index of the first occurrence of `x`, or `|s|` when there is none. */
  function IndexOf<T(==)>(s: seq<T>, x: T): (k: nat)
    ensures k <= |s|
    ensures k < |s| <==> x in s
    ensures k < |s| ==> s[k] == x
    ensures forall i :: 0 <= i < k ==> s[i] != x
  {
    if s == [] then 0 else if s[0] == x then 0 else 1 + IndexOf(s[1..], x)
  }

  /**
   * The distinct elements of `s` in the order they were first inserted, as
   * `[...new Set(s)]` or the key order of a `Map` filled from `s` yields them.
   */
  function FirstAppearances<T(==)>(s: seq<T>): (r: seq<T>)
    ensures NoDups(r)
    ensures forall i :: 0 <= i < |r| ==> r[i] in s
    ensures forall i :: 0 <= i < |s| ==> s[i] in r
  {
    if s == [] then []
    else
      var d := FirstAppearances(s[..|s| - 1]);
      var x := s[|s| - 1];
      assert s == s[..|s| - 1] + [x];
      if x in d then d else d + [x]
  }

  lemma FirstAppearancesMember<T>(s: seq<T>, x: T)
    ensures x in FirstAppearances(s) <==> x in s
  {
    var r := FirstAppearances(s);
    if x in s {
      var i :| 0 <= i < |s| && s[i] == x;
    }
    if x in r {
      var i :| 0 <= i < |r| && r[i] == x;
    }
  }

  /** Appending a value lists it last unless it was already listed. */
  lemma FirstAppearancesSnoc<T>(s: seq<T>, x: T)
    ensures FirstAppearances(s + [x])
         == if x in s then FirstAppearances(s) else FirstAppearances(s) + [x]
  {
    assert (s + [x])[..|s|] == s;
    FirstAppearancesMember(s, x);
  }

  /** An element already present in a prefix is first found within that prefix. */
  lemma {:induction false} IndexOfPrefix<T>(s: seq<T>, n: nat, x: T)
    requires n <= |s|
    requires x in s[..n]
    ensures IndexOf(s, x) == IndexOf(s[..n], x)
  {
    if s[0] != x {
      assert s[..n][0] == s[0];
      assert s[..n][1..] == s[1..][..n - 1];
      assert x in s[1..][..n - 1];
      IndexOfPrefix(s[1..], n - 1, x);
    }
  }

  /** Filtering keeps the order in which two kept values first occur. */
  lemma {:induction false} FilterKeepsFirstOccurrenceOrder<T>(s: seq<T>, p: T -> bool, x: T, y: T)
    requires p(y)
    requires IndexOf(Filter(s, p), x) < IndexOf(Filter(s, p), y)
    ensures IndexOf(s, x) < IndexOf(s, y)
  {
    var f := Filter(s, p);
    assert f[IndexOf(f, x)] == x;
    if s[0] != x {
      if p(s[0]) {
        assert f[0] == s[0] && f[1..] == Filter(s[1..], p);
      } else {
        assert f == Filter(s[1..], p);
      }
      FilterKeepsFirstOccurrenceOrder(s[1..], p, x, y);
    }
  }

  /** The result lists the elements in increasing order of their first occurrence in `s`. */
  lemma {:induction false} FirstAppearancesOrdered<T>(s: seq<T>, i: nat, j: nat)
    requires i < j < |FirstAppearances(s)|
    ensures IndexOf(s, FirstAppearances(s)[i]) < IndexOf(s, FirstAppearances(s)[j])
  {
    var n := |s| - 1;
    var p := s[..n];
    var d := FirstAppearances(p);
    var r := FirstAppearances(s);
    var x := s[n];
    assert s == p + [x];
    assert r[i] in d;
    IndexOfPrefix(s, n, r[i]);
    if j < |d| {
      assert r[j] == d[j] && r[i] == d[i];
      FirstAppearancesOrdered(p, i, j);
      IndexOfPrefix(s, n, r[j]);
    } else {
      assert x !in d && r[j] == x;
      assert x !in p;
      assert IndexOf(s, x) == n;
    }
  }
}
