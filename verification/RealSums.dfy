/** Sums over lists, and the orders they do not depend on. */
module RealSums {
  import opened Sorting

  function SumBy<T>(s: seq<T>, f: T -> real): real {
    if s == [] then 0.0 else SumBy(s[..|s| - 1], f) + f(s[|s| - 1])
  }

  lemma SumPush<T>(s: seq<T>, x: T, f: T -> real)
    ensures SumBy(s + [x], f) == SumBy(s, f) + f(x)
  {
    assert (s + [x])[..|s|] == s;
  }

  lemma {:induction false} SumConcat<T>(a: seq<T>, b: seq<T>, f: T -> real)
    ensures SumBy(a + b, f) == SumBy(a, f) + SumBy(b, f)
  {
    if b == [] {
      assert a + b == a;
    } else {
      var n := |b| - 1;
      SumConcat(a, b[..n], f);
      SumPush(a + b[..n], b[n], f);
      assert a + b == (a + b[..n]) + [b[n]];
    }
  }

  lemma SumAround<T>(left: seq<T>, x: T, right: seq<T>, f: T -> real)
    ensures SumBy(left + [x] + right, f) == SumBy(left + right, f) + f(x)
  {
    SumConcat(left, right, f);
    SumPush(left, x, f);
    SumConcat(left + [x], right, f);
  }

  lemma Around<T>(s: seq<T>, i: nat)
    requires i < |s|
    ensures s == s[..i] + [s[i]] + s[i + 1..]
  {
  }

  lemma SumWithout<T>(s: seq<T>, i: nat, f: T -> real)
    requires i < |s|
    ensures SumBy(s, f) == SumBy(s[..i] + s[i + 1..], f) + f(s[i])
  {
    Around(s, i);
    SumAround(s[..i], s[i], s[i + 1..], f);
  }

  lemma MembersWithout<T>(s: seq<T>, i: nat)
    requires i < |s|
    ensures multiset(s[..i] + s[i + 1..]) == multiset(s) - multiset{s[i]}
  {
    assert s == s[..i] + [s[i]] + s[i + 1..];
  }

  /** The sum does not depend on the order. */
  lemma {:induction false} SumAnyOrder<T>(a: seq<T>, b: seq<T>, f: T -> real)
    requires multiset(a) == multiset(b)
    ensures SumBy(a, f) == SumBy(b, f)
  {
    SameCardinality(a, b);
    if a != [] {
      var n := |a| - 1;
      SameMembers(a, b);
      assert a[n] in a;
      var i: nat :| i < |b| && b[i] == a[n];
      SumWithout(b, i, f);
      MembersWithout(b, i);
      MembersWithout(a, n);
      assert a[..n] + a[n + 1..] == a[..n];
      SumAnyOrder(a[..n], b[..i] + b[i + 1..], f);
    }
  }

  lemma {:induction false} SumEqual<T>(s: seq<T>, f: T -> real, g: T -> real)
    requires forall i :: 0 <= i < |s| ==> f(s[i]) == g(s[i])
    ensures SumBy(s, f) == SumBy(s, g)
  {
    if s != [] {
      SumEqual(s[..|s| - 1], f, g);
    }
  }

  lemma {:induction false} SumOfTwo<T>(s: seq<T>, f: T -> real, g: T -> real, h: T -> real)
    requires forall i :: 0 <= i < |s| ==> f(s[i]) == g(s[i]) + h(s[i])
    ensures SumBy(s, f) == SumBy(s, g) + SumBy(s, h)
  {
    if s != [] {
      SumOfTwo(s[..|s| - 1], f, g, h);
    }
  }

  function Get(m: map<string, real>, k: string): real { if k in m then m[k] else 0.0 }

  function GetOf(m: map<string, real>): string -> real { k => Get(m, k) }

  /** Changing a value at one place changes the sum by as much. */
  lemma {:induction false} SumChange<T>(s: seq<T>, f: T -> real, g: T -> real, x: T)
    requires NoRepeats(s) && forall y :: y in s && y != x ==> g(y) == f(y)
    ensures SumBy(s, g) == SumBy(s, f) + if x in s then g(x) - f(x) else 0.0
  {
    if s != [] {
      var n := |s| - 1;
      assert s == s[..n] + [s[n]];
      assert s[n] !in s[..n];
      SumChange(s[..n], f, g, x);
    }
  }

  lemma {:induction false} SumOfNothing(keys: seq<string>)
    ensures SumBy(keys, GetOf(map[])) == 0.0
  {
    if keys != [] {
      SumOfNothing(keys[..|keys| - 1]);
    }
  }
}
