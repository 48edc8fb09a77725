/**
 * `Array.prototype.sort` with a comparator of the form `(a, b) => key(a) - key(b)`
 * (ascending) or `(a, b) => key(b) - key(a)` (descending). The language has
 * required this sort to be stable since ES2019, so elements with equal keys
 * keep their relative order. Modelled as insertion of each element, last to
 * first, into the already sorted rest.
 */
module Sorting {
  import opened Seqs

  /** `x` may stand before `y` in a list sorted in the given direction. */
  predicate InOrder(x: real, y: real, desc: bool)
  {
    if desc then x >= y else x <= y
  }

  predicate SortedBy<T>(s: seq<T>, key: T -> real, desc: bool)
  {
    forall i, j :: 0 <= i < j < |s| ==> InOrder(key(s[i]), key(s[j]), desc)
  }

  /** Selects the elements whose key is `k`. */
  function KeyIs<T>(key: T -> real, k: real): T -> bool
  {
    t => key(t) == k
  }

  /** Places `x` before the first element it may precede, so it stays ahead of equal keys. */
  function Insert<T>(x: T, s: seq<T>, key: T -> real, desc: bool): (r: seq<T>)
    ensures multiset(r) == multiset(s) + multiset{x}
    ensures |r| == |s| + 1
  {
    if s == [] then [x]
    else if InOrder(key(x), key(s[0]), desc) then [x] + s
    else
      assert s == [s[0]] + s[1..];
      [s[0]] + Insert(x, s[1..], key, desc)
  }

  lemma SortedTail<T>(s: seq<T>, key: T -> real, desc: bool)
    requires s != [] && SortedBy(s, key, desc)
    ensures SortedBy(s[1..], key, desc)
  {
    var tail := s[1..];
    forall i, j | 0 <= i < j < |tail| ensures InOrder(key(tail[i]), key(tail[j]), desc) {
      assert tail[i] == s[i + 1] && tail[j] == s[j + 1];
    }
  }

  /** Every element of the insertion result is `x` or an element of `s`. */
  lemma InsertedFrom<T>(x: T, s: seq<T>, key: T -> real, desc: bool, y: T)
    requires y in Insert(x, s, key, desc)
    ensures y == x || y in s
  {
    assert y in multiset(Insert(x, s, key, desc));
  }

  /** Putting a head that may precede both `x` and every element of a sorted `rest` in front keeps it sorted. */
  lemma ConsSorted<T>(h: T, rest: seq<T>, key: T -> real, desc: bool)
    requires SortedBy(rest, key, desc)
    requires forall j :: 0 <= j < |rest| ==> InOrder(key(h), key(rest[j]), desc)
    ensures SortedBy([h] + rest, key, desc)
  {
    var r := [h] + rest;
    forall i, j | 0 <= i < j < |r| ensures InOrder(key(r[i]), key(r[j]), desc) {
      assert r[j] == rest[j - 1];
      if i > 0 {
        assert r[i] == rest[i - 1];
      }
    }
  }

  lemma {:induction false} InsertSorted<T>(x: T, s: seq<T>, key: T -> real, desc: bool)
    requires SortedBy(s, key, desc)
    ensures SortedBy(Insert(x, s, key, desc), key, desc)
  {
    if s != [] && !InOrder(key(x), key(s[0]), desc) {
      var tail := s[1..];
      SortedTail(s, key, desc);
      InsertSorted(x, tail, key, desc);
      var rest := Insert(x, tail, key, desc);
      forall j | 0 <= j < |rest| ensures InOrder(key(s[0]), key(rest[j]), desc) {
        InsertedFrom(x, tail, key, desc, rest[j]);
        if rest[j] != x {
          var m :| 0 <= m < |tail| && tail[m] == rest[j];
          assert tail[m] == s[m + 1];
        }
      }
      ConsSorted(s[0], rest, key, desc);
    }
  }

  /** An element that may precede the first of the others goes in front. */
  lemma InsertFront<T>(x: T, s: seq<T>, key: T -> real, desc: bool)
    requires s == [] || InOrder(key(x), key(s[0]), desc)
    ensures Insert(x, s, key, desc) == [x] + s
  {
  }

  /** An element that may precede none of the others goes to the end. */
  lemma {:induction false} InsertLast<T>(x: T, s: seq<T>, key: T -> real, desc: bool)
    requires forall i :: 0 <= i < |s| ==> !InOrder(key(x), key(s[i]), desc)
    ensures Insert(x, s, key, desc) == s + [x]
  {
    if s != [] {
      InsertLast(x, s[1..], key, desc);
      assert s == [s[0]] + s[1..];
    }
  }

  /** The stable sort of `s` by `key`, descending when `desc`. */
  function SortBy<T>(s: seq<T>, key: T -> real, desc: bool): (r: seq<T>)
    ensures multiset(r) == multiset(s)
    ensures |r| == |s|
    ensures SortedBy(r, key, desc)
  {
    if s == [] then []
    else
      assert s == [s[0]] + s[1..];
      InsertSorted(s[0], SortBy(s[1..], key, desc), key, desc);
      Insert(s[0], SortBy(s[1..], key, desc), key, desc)
  }

  lemma FilterCons<T>(x: T, s: seq<T>, p: T -> bool)
    ensures Filter([x] + s, p) == (if p(x) then [x] else []) + Filter(s, p)
  {
    assert ([x] + s)[0] == x && ([x] + s)[1..] == s;
  }

  lemma SwapAtMostOne<T>(a: seq<T>, b: seq<T>, f: seq<T>)
    requires a == [] || b == []
    ensures a + (b + f) == b + (a + f)
  {
    if a == [] {
      assert a + (b + f) == b + f == b + (a + f);
    } else {
      assert a + (b + f) == a + f == b + (a + f);
    }
  }

  lemma {:induction false} FilterInsert<T>(x: T, s: seq<T>, key: T -> real, desc: bool, k: real)
    ensures Filter(Insert(x, s, key, desc), KeyIs(key, k))
         == (if key(x) == k then [x] else []) + Filter(s, KeyIs(key, k))
  {
    var p := KeyIs(key, k);
    if s == [] {
      FilterCons(x, s, p);
      assert [x] + s == [x];
    } else if InOrder(key(x), key(s[0]), desc) {
      FilterCons(x, s, p);
    } else {
      assert s == [s[0]] + s[1..];
      var rest := Insert(x, s[1..], key, desc);
      var a := if p(s[0]) then [s[0]] else [];
      var b := if p(x) then [x] else [];
      var f := Filter(s[1..], p);
      assert Filter(Insert(x, s, key, desc), p) == a + (b + f) by {
        assert Insert(x, s, key, desc) == [s[0]] + rest;
        FilterCons(s[0], rest, p);
        FilterInsert(x, s[1..], key, desc, k);
      }
      assert Filter(s, p) == a + f by {
        FilterCons(s[0], s[1..], p);
      }
      assert a == [] || b == [] by {
        assert key(s[0]) != key(x);
      }
      SwapAtMostOne(a, b, f);
    }
  }

  /** Stability: the elements sharing any one key appear in the same relative order as before. */
  lemma {:induction false} SortStable<T>(s: seq<T>, key: T -> real, desc: bool, k: real)
    ensures Filter(SortBy(s, key, desc), KeyIs(key, k)) == Filter(s, KeyIs(key, k))
  {
    if s != [] {
      SortStable(s[1..], key, desc, k);
      FilterInsert(s[0], SortBy(s[1..], key, desc), key, desc, k);
      assert s == [s[0]] + s[1..];
    }
  }

  /** A list that is already in order is left exactly as it is. */
  lemma {:induction false} SortSortedIsIdentity<T>(s: seq<T>, key: T -> real, desc: bool)
    requires SortedBy(s, key, desc)
    ensures SortBy(s, key, desc) == s
  {
    if s != [] {
      var tail := s[1..];
      SortedTail(s, key, desc);
      SortSortedIsIdentity(tail, key, desc);
      assert tail == [] || InOrder(key(s[0]), key(tail[0]), desc) by {
        if tail != [] {
          assert tail[0] == s[1];
        }
      }
      InsertFront(s[0], tail, key, desc);
      assert s == [s[0]] + tail;
    }
  }

  /** No element of `s` may stand before a later one: the keys run strictly against the direction. */
  predicate AgainstOrder<T>(s: seq<T>, key: T -> real, desc: bool)
  {
    forall i, j :: 0 <= i < j < |s| ==> !InOrder(key(s[i]), key(s[j]), desc)
  }

  lemma AgainstOrderTail<T>(s: seq<T>, key: T -> real, desc: bool)
    requires s != [] && AgainstOrder(s, key, desc)
    ensures AgainstOrder(s[1..], key, desc)
  {
    var tail := s[1..];
    forall i, j | 0 <= i < j < |tail| ensures !InOrder(key(tail[i]), key(tail[j]), desc) {
      assert tail[i] == s[i + 1] && tail[j] == s[j + 1];
    }
  }

  /** The head of such a list may stand before none of the reversed rest. */
  lemma AgainstOrderHead<T>(s: seq<T>, r: seq<T>, key: T -> real, desc: bool)
    requires s != [] && AgainstOrder(s, key, desc) && r == Reverse(s[1..])
    ensures forall i :: 0 <= i < |r| ==> !InOrder(key(s[0]), key(r[i]), desc)
  {
    forall i | 0 <= i < |r| ensures !InOrder(key(s[0]), key(r[i]), desc) {
      var k := |s| - 2 - i;
      assert r[i] == s[1..][k] == s[k + 1];
    }
  }

  /** A list whose keys run strictly against the requested direction comes out reversed. */
  lemma {:induction false} SortAgainstOrderReverses<T>(s: seq<T>, key: T -> real, desc: bool)
    requires AgainstOrder(s, key, desc)
    ensures SortBy(s, key, desc) == Reverse(s)
  {
    if s != [] {
      var tail := s[1..];
      AgainstOrderTail(s, key, desc);
      SortAgainstOrderReverses(tail, key, desc);
      var r := SortBy(tail, key, desc);
      AgainstOrderHead(s, r, key, desc);
      InsertLast(s[0], r, key, desc);
      assert s == [s[0]] + tail;
    }
  }

  /** Sorting a second time with the same key and direction changes nothing. */
  lemma SortIdempotent<T>(s: seq<T>, key: T -> real, desc: bool)
    ensures SortBy(SortBy(s, key, desc), key, desc) == SortBy(s, key, desc)
  {
    SortSortedIsIdentity(SortBy(s, key, desc), key, desc);
  }
}
