/** Stable insertion sort over a total preorder: what Go's sort.SliceStable promises. */
module Sorting {

  ghost predicate TotalPreorder<T(!new)>(le: (T, T) -> bool) {
    && (forall x, y :: le(x, y) || le(y, x))
    && (forall x, y, z :: le(x, y) && le(y, z) ==> le(x, z))
  }

  ghost predicate Sorted<T>(le: (T, T) -> bool, s: seq<T>) {
    forall i, j :: 0 <= i < j < |s| ==> le(s[i], s[j])
  }

  function Insert<T>(le: (T, T) -> bool, x: T, s: seq<T>): (r: seq<T>)
    ensures multiset(r) == multiset(s) + multiset{x}
  {
    if s == [] || le(x, s[0]) then
      [x] + s
    else
      assert s == [s[0]] + s[1..];
      [s[0]] + Insert(le, x, s[1..])
  }

  function StableSort<T>(le: (T, T) -> bool, s: seq<T>): (r: seq<T>)
    ensures multiset(r) == multiset(s)
    ensures |r| == |s|
  {
    if s == [] then
      []
    else
      assert s == [s[0]] + s[1..];
      var r := Insert(le, s[0], StableSort(le, s[1..]));
      SameCardinality(r, s);
      r
  }

  lemma SameCardinality<T>(a: seq<T>, b: seq<T>)
    requires multiset(a) == multiset(b)
    ensures |a| == |b|
  {
    assert |a| == |multiset(a)| == |multiset(b)| == |b|;
  }

  lemma SameMembers<T>(a: seq<T>, b: seq<T>)
    requires multiset(a) == multiset(b)
    ensures forall x :: x in a <==> x in b
  {
    forall x
      ensures x in a <==> x in b
    {
      assert x in a <==> x in multiset(a);
      assert x in b <==> x in multiset(b);
    }
  }

  /** The comparison orders the members of s. */
  ghost predicate Orders<T>(le: (T, T) -> bool, s: seq<T>) {
    && (forall x, y :: x in s && y in s ==> le(x, y) || le(y, x))
    && (forall x, y, z :: x in s && y in s && z in s && le(x, y) && le(y, z) ==> le(x, z))
  }

  lemma OrdersSome<T>(le: (T, T) -> bool, s: seq<T>, part: seq<T>)
    requires Orders(le, s) && forall x :: x in part ==> x in s
    ensures Orders(le, part)
  {
  }

  lemma {:induction false} InsertKeepsSorted<T>(le: (T, T) -> bool, x: T, s: seq<T>)
    requires Orders(le, [x] + s) && Sorted(le, s)
    ensures Sorted(le, Insert(le, x, s))
  {
    if s != [] && !le(x, s[0]) {
      var first, rest := s[0], s[1..];
      assert first in [x] + s && x in [x] + s;
      OrdersSome(le, [x] + s, [x] + rest);
      InsertKeepsSorted(le, x, rest);
      var after := Insert(le, x, rest);
      forall j | 0 <= j < |after| ensures le(first, after[j]) {
        assert after[j] in multiset(after);
        if after[j] != x {
          var k :| 0 <= k < |rest| && rest[k] == after[j];
          assert le(s[0], s[k + 1]);
        }
      }
    } else {
      assert x in [x] + s;
      forall j | 0 <= j < |s| ensures le(x, s[j]) {
        assert s[0] in [x] + s && s[j] in [x] + s;
        assert le(x, s[0]) && (j > 0 ==> le(s[0], s[j]));
      }
    }
  }

  /** Sorting sorts what the comparison orders. */
  lemma {:induction false} StableSortSortsThese<T>(le: (T, T) -> bool, s: seq<T>)
    requires Orders(le, s)
    ensures Sorted(le, StableSort(le, s))
  {
    if s != [] {
      var sorted := StableSort(le, s[1..]);
      SameMembers(sorted, s[1..]);
      OrdersSome(le, s, s[1..]);
      StableSortSortsThese(le, s[1..]);
      forall x | x in [s[0]] + sorted ensures x in s {
        if x != s[0] {
          assert x in multiset(sorted) && x in multiset(s[1..]);
        }
      }
      OrdersSome(le, s, [s[0]] + sorted);
      InsertKeepsSorted(le, s[0], sorted);
    }
  }

  lemma StableSortSorts<T(!new)>(le: (T, T) -> bool, s: seq<T>)
    requires TotalPreorder(le)
    ensures Sorted(le, StableSort(le, s))
  {
    StableSortSortsThese(le, s);
  }

  /** The members of s equivalent to x, in order. */
  ghost function Ties<T>(le: (T, T) -> bool, x: T, s: seq<T>): seq<T> {
    if s == [] then []
    else (if le(x, s[0]) && le(s[0], x) then [s[0]] else []) + Ties(le, x, s[1..])
  }

  ghost function Tie<T>(le: (T, T) -> bool, y: T, x: T): seq<T> { if le(y, x) && le(x, y) then [x] else [] }

  lemma TiesFirst<T>(le: (T, T) -> bool, y: T, x: T, s: seq<T>)
    ensures Ties(le, y, [x] + s) == Tie(le, y, x) + Ties(le, y, s)
  {
    assert ([x] + s)[1..] == s;
  }

  lemma {:induction false} InsertKeepsTies<T(!new)>(le: (T, T) -> bool, x: T, s: seq<T>, y: T)
    requires TotalPreorder(le)
    ensures Ties(le, y, Insert(le, x, s)) == Ties(le, y, [x] + s)
  {
    if s != [] && !le(x, s[0]) {
      var first, rest := s[0], s[1..];
      InsertKeepsTies(le, x, rest, y);
      assert s == [first] + rest;
      TiesFirst(le, y, first, Insert(le, x, rest));
      TiesFirst(le, y, x, rest);
      TiesFirst(le, y, x, s);
      TiesFirst(le, y, first, rest);
      // x is strictly after the first, so at most one of the two ties with y.
      EmptyCommutes(Tie(le, y, first), Tie(le, y, x), Ties(le, y, rest));
    }
  }

  lemma EmptyCommutes<T>(a: seq<T>, b: seq<T>, c: seq<T>)
    requires a == [] || b == []
    ensures a + (b + c) == b + (a + c)
  {
    assert [] + c == c && [] + (a + c) == a + c && [] + (b + c) == b + c;
  }

  /** Stability: elements that compare equal keep the order they came in. */
  lemma {:induction false} StableSortKeepsTies<T(!new)>(le: (T, T) -> bool, s: seq<T>, y: T)
    requires TotalPreorder(le)
    ensures Ties(le, y, StableSort(le, s)) == Ties(le, y, s)
  {
    if s != [] {
      var rest := StableSort(le, s[1..]);
      StableSortKeepsTies(le, s[1..], y);
      InsertKeepsTies(le, s[0], rest, y);
      assert ([s[0]] + rest)[1..] == rest;
    }
  }

  /** No two members share a key. */
  ghost predicate DistinctBy<T, K>(key: T -> K, s: seq<T>) {
    forall i, j :: 0 <= i < j < |s| ==> key(s[i]) != key(s[j])
  }

  lemma {:induction false} DistinctOccursOnce<T, K>(key: T -> K, s: seq<T>, x: T)
    requires DistinctBy(key, s)
    ensures multiset(s)[x] <= 1
  {
    if s != [] {
      var n := |s| - 1;
      DistinctOccursOnce(key, s[..n], x);
      assert s == s[..n] + [s[n]];
      assert x == s[n] ==> x !in s[..n];
    }
  }

  lemma DistinctAfterReordering<T, K>(key: T -> K, a: seq<T>, b: seq<T>)
    requires multiset(a) == multiset(b) && DistinctBy(key, a)
    ensures DistinctBy(key, b)
  {
    SameMembers(a, b);
    forall i, j | 0 <= i < j < |b| ensures key(b[i]) != key(b[j]) {
      DistinctOccursOnce(key, a, b[i]);
      assert b == b[..i] + [b[i]] + b[i + 1..j] + [b[j]] + b[j + 1..];
      assert b[i] != b[j];
      assert b[i] in a && b[j] in a;
    }
  }

  ghost predicate NoRepeats<T>(s: seq<T>) { forall i, j :: 0 <= i < j < |s| ==> s[i] != s[j] }

  lemma {:induction false} OnceEach<T>(s: seq<T>, x: T)
    requires NoRepeats(s)
    ensures multiset(s)[x] == if x in s then 1 else 0
  {
    if s != [] {
      var n := |s| - 1;
      OnceEach(s[..n], x);
      assert s == s[..n] + [s[n]];
      assert s[n] !in s[..n];
    }
  }

  /** Two lists of the same things, each once. */
  lemma SameThings<T>(a: seq<T>, b: seq<T>)
    requires NoRepeats(a) && NoRepeats(b) && forall x :: x in a <==> x in b
    ensures multiset(a) == multiset(b)
  {
    forall x ensures multiset(a)[x] == multiset(b)[x] {
      OnceEach(a, x);
      OnceEach(b, x);
    }
  }

  /** order lists some of the things once each, and todo holds the others. */
  ghost predicate Left<T(!new)>(order: seq<T>, todo: set<T>, all: set<T>) {
    NoRepeats(order) && (forall x :: x in all <==> x in order || x in todo) && forall x :: x in order ==> x !in todo
  }

  lemma LeftNext<T(!new)>(order: seq<T>, todo: set<T>, all: set<T>, x: T)
    requires Left(order, todo, all) && x in todo
    ensures Left(order + [x], todo - {x}, all)
  {
  }
}
