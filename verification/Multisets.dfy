/** Sums of lists of multisets, for counting where things went. */
module Multisets {
  /** The total of a list of multisets. */
  ghost function Sum<T>(parts: seq<multiset<T>>): multiset<T> {
    if parts == [] then multiset{} else Sum(parts[..|parts| - 1]) + parts[|parts| - 1]
  }

  lemma {:induction false} SumUpdate<T>(parts: seq<multiset<T>>, i: nat, m: multiset<T>)
    requires i < |parts|
    ensures Sum(parts[i := m]) + parts[i] == Sum(parts) + m
  {
    var n := |parts| - 1;
    if i == n {
      assert parts[i := m][..n] == parts[..n];
    } else {
      SumUpdate(parts[..n], i, m);
      var rest := Sum(parts[..n][i := m]);
      assert parts[i := m][..n] == parts[..n][i := m];
      assert rest + parts[i] == Sum(parts[..n]) + m;
      assert Sum(parts[i := m]) == rest + parts[n];
      assert (rest + parts[n]) + parts[i] == (rest + parts[i]) + parts[n];
    }
  }

  lemma {:induction false} SumPush<T>(parts: seq<multiset<T>>, m: multiset<T>)
    ensures Sum(parts + [m]) == Sum(parts) + m
  {
    assert (parts + [m])[..|parts|] == parts;
  }

  lemma {:induction false} SumOfNothing<T>(parts: seq<multiset<T>>)
    requires forall i :: 0 <= i < |parts| ==> parts[i] == multiset{}
    ensures Sum(parts) == multiset{}
  {
    if parts != [] {
      SumOfNothing(parts[..|parts| - 1]);
    }
  }

  lemma Cancel<T>(a: multiset<T>, b: multiset<T>, c: multiset<T>)
    requires a + c == b + c
    ensures a == b
  {
    assert a == (a + c) - c;
    assert b == (b + c) - c;
  }

  lemma Swap<T>(a: multiset<T>, b: multiset<T>, c: multiset<T>)
    ensures (a + b) + c == (a + c) + b
  {
  }

  /** What comes in over two lists goes out over a total and what is carried. */
  lemma Rebalance<T>(total: multiset<T>, one: multiset<T>, carriedIn: multiset<T>, carriedOut: multiset<T>,
      first: multiset<T>, second: multiset<T>, b: multiset<T>, d: multiset<T>)
    requires total + carriedIn == first + second && one + carriedOut == (carriedIn + b) + d
    ensures (total + one) + carriedOut == (first + b) + (second + d)
  {
    forall x ensures ((total + one) + carriedOut)[x] == ((first + b) + (second + d))[x] {
      assert (total + carriedIn)[x] == (first + second)[x];
      assert (one + carriedOut)[x] == ((carriedIn + b) + d)[x];
    }
  }

  lemma {:induction false} SumSplits<T>(parts: seq<multiset<T>>, a: seq<multiset<T>>, b: seq<multiset<T>>)
    requires |parts| == |a| == |b| && forall i :: 0 <= i < |parts| ==> parts[i] == a[i] + b[i]
    ensures Sum(parts) == Sum(a) + Sum(b)
  {
    if parts != [] {
      var n := |parts| - 1;
      SumSplits(parts[..n], a[..n], b[..n]);
      assert (Sum(a[..n]) + Sum(b[..n])) + (a[n] + b[n]) == (Sum(a[..n]) + a[n]) + (Sum(b[..n]) + b[n]);
    }
  }

  lemma InSum<T>(parts: seq<multiset<T>>, i: nat, x: T)
    requires i < |parts| && x in parts[i]
    ensures x in Sum(parts)
  {
    SumUpdate(parts, i, parts[i] - multiset{x});
    var rest := Sum(parts[i := parts[i] - multiset{x}]);
    assert Sum(parts) + (parts[i] - multiset{x}) == rest + parts[i];
    assert (Sum(parts) + (parts[i] - multiset{x}))[x] == (rest + parts[i])[x];
  }

  lemma {:induction false} OfSomePart<T>(parts: seq<multiset<T>>, x: T)
    requires x in Sum(parts)
    ensures exists i :: 0 <= i < |parts| && x in parts[i]
  {
    var n := |parts| - 1;
    if x !in parts[n] {
      OfSomePart(parts[..n], x);
      var i :| 0 <= i < n && x in parts[..n][i];
      assert parts[i] == parts[..n][i];
    }
  }

  lemma InTwoParts<T>(parts: seq<multiset<T>>, i: nat, j: nat, x: T)
    requires i < |parts| && j < |parts| && i != j && x in parts[i] && x in parts[j]
    ensures Sum(parts)[x] >= 2
  {
    var none: multiset<T> := multiset{};
    SumUpdate(parts, i, none);
    InSum(parts[i := none], j, x);
    assert (Sum(parts[i := none]) + parts[i])[x] == (Sum(parts) + none)[x];
  }

  lemma PartAtMost<T>(parts: seq<multiset<T>>, i: nat, x: T)
    requires i < |parts|
    ensures parts[i][x] <= Sum(parts)[x]
  {
    var none: multiset<T> := multiset{};
    SumUpdate(parts, i, none);
    assert (Sum(parts[i := none]) + parts[i])[x] == (Sum(parts) + none)[x];
  }

  // ----- Counting

  function Count<T>(s: seq<T>, p: T -> bool): nat {
    if s == [] then 0 else Count(s[..|s| - 1], p) + if p(s[|s| - 1]) then 1 else 0
  }

  lemma {:induction false} CountConcat<T>(a: seq<T>, b: seq<T>, p: T -> bool)
    ensures Count(a + b, p) == Count(a, p) + Count(b, p)
  {
    if b == [] {
      assert a + b == a;
    } else {
      CountConcat(a, b[..|b| - 1], p);
      assert (a + b)[..|a + b| - 1] == a + b[..|b| - 1];
    }
  }

  lemma CountAround<T>(left: seq<T>, x: T, right: seq<T>, p: T -> bool)
    ensures Count(left + [x] + right, p) == Count(left + right, p) + if p(x) then 1 else 0
  {
    CountConcat(left + [x], right, p);
    CountConcat(left, [x], p);
    CountConcat(left, right, p);
  }

  /** Counting does not depend on the order. */
  lemma {:induction false} CountAnyOrder<T>(a: seq<T>, b: seq<T>, p: T -> bool)
    requires multiset(a) == multiset(b)
    ensures Count(a, p) == Count(b, p)
    decreases |a|
  {
    if a == [] {
      assert |multiset(b)| == 0;
    } else {
      var n := |a| - 1;
      assert a == a[..n] + [a[n]];
      assert a[n] in multiset(b);
      var i :| 0 <= i < |b| && b[i] == a[n];
      assert b == b[..i] + [b[i]] + b[i + 1..];
      CountAround(b[..i], b[i], b[i + 1..], p);
      Cancel(multiset(a[..n]), multiset(b[..i] + b[i + 1..]), multiset{a[n]});
      CountAnyOrder(a[..n], b[..i] + b[i + 1..], p);
    }
  }
}
