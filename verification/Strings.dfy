/** Byte-order comparison of strings, as Go's sort.Strings uses, and the sort it gives. */
module Strings {
  import opened Sorting

  function LowerChar(c: char): char { if 'A' <= c <= 'Z' then c + 32 as char else c }

  /** ASCII letters in lower case, everything else as it is. */
  function Lower(s: string): string { seq(|s|, i requires 0 <= i < |s| => LowerChar(s[i])) }

  predicate StringLe(a: string, b: string) {
    if a == "" then true
    else if b == "" then false
    else if a[0] == b[0] then StringLe(a[1..], b[1..])
    else a[0] < b[0]
  }

  lemma {:induction false} StringLeTotal(a: string, b: string)
    ensures StringLe(a, b) || StringLe(b, a)
  {
    if a != "" && b != "" && a[0] == b[0] {
      StringLeTotal(a[1..], b[1..]);
    }
  }

  lemma {:induction false} StringLeTransitive(a: string, b: string, c: string)
    requires StringLe(a, b) && StringLe(b, c)
    ensures StringLe(a, c)
  {
    if a != "" && b != "" && c != "" && a[0] == b[0] == c[0] {
      StringLeTransitive(a[1..], b[1..], c[1..]);
    }
  }

  lemma {:induction false} StringLeAntisymmetric(a: string, b: string)
    requires StringLe(a, b) && StringLe(b, a)
    ensures a == b
  {
    if a != "" && b != "" {
      StringLeAntisymmetric(a[1..], b[1..]);
      assert a == [a[0]] + a[1..] && b == [b[0]] + b[1..];
    }
  }

  lemma StringLeIsTotalPreorder()
    ensures TotalPreorder(StringLe)
  {
    forall x, y ensures StringLe(x, y) || StringLe(y, x) {
      StringLeTotal(x, y);
    }
    forall x, y, z | StringLe(x, y) && StringLe(y, z) ensures StringLe(x, z) {
      StringLeTransitive(x, y, z);
    }
  }

  /** A sorted copy: the caller's list is left alone. */
  function SortedCopy(s: seq<string>): (r: seq<string>)
    ensures multiset(r) == multiset(s)
  {
    StableSort(StringLe, s)
  }

  lemma SortedCopySorts(s: seq<string>)
    ensures Sorted(StringLe, SortedCopy(s))
  {
    StringLeIsTotalPreorder();
    StableSortSorts(StringLe, s);
  }

  lemma WithoutFirst<T>(s: seq<T>)
    requires s != []
    ensures s == [s[0]] + s[1..] && multiset(s[1..]) == multiset(s) - multiset{s[0]}
  {
    assert s == [s[0]] + s[1..];
  }

  /** Two sorted lists with the same members, counted, are the same list. */
  lemma {:induction false} SortedIsCanonical(a: seq<string>, b: seq<string>)
    requires Sorted(StringLe, a) && Sorted(StringLe, b) && multiset(a) == multiset(b)
    ensures a == b
  {
    SameCardinality(a, b);
    if a != [] {
      SameMembers(a, b);
      assert a[0] in b && b[0] in a;
      StringLeIsTotalPreorder();
      StringLeAntisymmetric(a[0], b[0]);
      WithoutFirst(a);
      WithoutFirst(b);
      SortedIsCanonical(a[1..], b[1..]);
    }
  }

  /** equalStrings compares two lists as multisets. */
  lemma EqualStringsIsMultisetEquality(a: seq<string>, b: seq<string>)
    ensures EqualStrings(a, b) <==> multiset(a) == multiset(b)
  {
    if multiset(a) == multiset(b) {
      SortedCopySorts(a);
      SortedCopySorts(b);
      SortedIsCanonical(SortedCopy(a), SortedCopy(b));
    }
  }

  predicate EqualStrings(a: seq<string>, b: seq<string>) {
    SortedCopy(a) == SortedCopy(b)
  }

  // ----- What the comparisons mean

  /** a ends, or has the smaller character, where the two first differ. */
  predicate FirstDifference(a: string, b: string, k: int) {
    0 <= k <= |a| && k <= |b| && a[..k] == b[..k] && (k == |a| || (k < |b| && a[k] < b[k]))
  }

  lemma {:induction false} StringLeIsByteOrder(a: string, b: string)
    ensures StringLe(a, b) <==> exists k :: FirstDifference(a, b, k)
  {
    if a == "" {
      assert FirstDifference(a, b, 0);
    } else if b != "" && a[0] == b[0] {
      StringLeIsByteOrder(a[1..], b[1..]);
      if k :| FirstDifference(a[1..], b[1..], k) {
        assert a[..k + 1] == [a[0]] + a[1..][..k] && b[..k + 1] == [b[0]] + b[1..][..k];
        assert FirstDifference(a, b, k + 1);
      }
      if k :| FirstDifference(a, b, k) {
        assert k > 0;
        assert a[1..][..k - 1] == a[..k][1..] && b[1..][..k - 1] == b[..k][1..];
        assert FirstDifference(a[1..], b[1..], k - 1);
      }
    } else if a != "" && b != "" {
      if a[0] < b[0] {
        assert FirstDifference(a, b, 0);
      }
      forall k | 0 < k <= |a| && k <= |b| ensures a[..k] != b[..k] {
        assert a[..k][0] == a[0] && b[..k][0] == b[0];
      }
    }
  }

  /** Two strings fold alike when they differ in the case of ASCII letters only. */
  lemma FoldAlikeExactlyWhen(a: string, b: string)
    ensures Lower(a) == Lower(b) <==> |a| == |b| && forall i :: 0 <= i < |a| ==>
      (a[i] == b[i] || ('A' <= a[i] <= 'Z' && b[i] as int == a[i] as int + 32) || ('A' <= b[i] <= 'Z' && a[i] as int == b[i] as int + 32))
  {
    if Lower(a) == Lower(b) {
      assert |Lower(a)| == |Lower(b)|;
      forall i | 0 <= i < |a|
        ensures a[i] == b[i] || ('A' <= a[i] <= 'Z' && b[i] as int == a[i] as int + 32) || ('A' <= b[i] <= 'Z' && a[i] as int == b[i] as int + 32)
      {
        assert Lower(a)[i] == Lower(b)[i];
      }
    }
  }

  // ----- Joining parts

  const NUL: string := [0 as char]

  predicate Plain(s: string) { (0 as char) !in s }

  /** A separator neither part holds splits their join in one way. */
  lemma JoinSplits(a: string, b: string, c: string, d: string)
    requires Plain(a) && Plain(c) && a + NUL + b == c + NUL + d
    ensures a == c && b == d
  {
    var s, t := a + NUL + b, c + NUL + d;
    assert s[|a|] == 0 as char && t[|c|] == 0 as char;
    forall i | 0 <= i < |a| ensures s[i] != 0 as char {
      assert s[i] == a[i] && a[i] in a;
    }
    forall i | 0 <= i < |c| ensures t[i] != 0 as char {
      assert t[i] == c[i] && c[i] in c;
    }
    assert a == s[..|a|] && c == t[..|c|];
    assert b == s[|a| + 1..] && d == t[|c| + 1..];
  }

  lemma KeyTail(a: string, b: string, prefix: string)
    requires prefix + a == prefix + b
    ensures a == b
  {
    assert a == (prefix + a)[|prefix|..] && b == (prefix + b)[|prefix|..];
  }
}
