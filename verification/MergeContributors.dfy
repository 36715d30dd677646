/** Merging the contributors that are one and the same, and listing the largest growth first. */
module MergeContributors {
  import opened GrowthFiles
  import opened RealSums
  import opened Sorting
  import opened Strings

  function KindName(k: Kind): string {
    match k
    case VMKind => "vm"
    case TemplateKind => "template"
    case FileKind => "file"
  }

  function BasisName(b: Basis): string {
    match b
    case Exact => "exact"
    case Inferred => "inferred"
    case Split => "split"
    case Unattributed => "unattributed"
  }

  function MergeKey(c: Contributor): string {
    KindName(c.kind) + NUL + c.context + NUL + c.vcenterID + NUL + c.name + NUL + BasisName(c.basis)
  }

  lemma KindNamesDiffer(a: Kind, b: Kind)
    ensures Plain(KindName(a)) && (KindName(a) == KindName(b) <==> a == b)
  {
    assert KindName(VMKind)[0] == 'v' && KindName(TemplateKind)[0] == 't' && KindName(FileKind)[0] == 'f';
  }

  lemma BasisNamesDiffer(a: Basis, b: Basis)
    ensures BasisName(a) == BasisName(b) <==> a == b
  {
    assert BasisName(Exact)[0] == 'e' && BasisName(Inferred)[0] == 'i' && BasisName(Split)[0] == 's' && BasisName(Unattributed)[0] == 'u';
  }

  /** Two contributors are one and the same exactly when they are of one kind, context, vCenter, name and
      basis. */
  lemma SameContributorExactlyWhen(a: Contributor, b: Contributor)
    requires Plain(a.context) && Plain(b.context) && Plain(a.vcenterID) && Plain(b.vcenterID) && Plain(a.name) && Plain(b.name)
    ensures MergeKey(a) == MergeKey(b) <==>
      a.kind == b.kind && a.context == b.context && a.vcenterID == b.vcenterID && a.name == b.name && a.basis == b.basis
  {
    KindNamesDiffer(a.kind, b.kind);
    KindNamesDiffer(b.kind, a.kind);
    BasisNamesDiffer(a.basis, b.basis);
    var a4, b4 := a.name + NUL + BasisName(a.basis), b.name + NUL + BasisName(b.basis);
    var a3, b3 := a.vcenterID + NUL + a4, b.vcenterID + NUL + b4;
    var a2, b2 := a.context + NUL + a3, b.context + NUL + b3;
    FiveParts(KindName(a.kind), a.context, a.vcenterID, a.name, BasisName(a.basis));
    FiveParts(KindName(b.kind), b.context, b.vcenterID, b.name, BasisName(b.basis));
    if MergeKey(a) == MergeKey(b) {
      JoinSplits(KindName(a.kind), a2, KindName(b.kind), b2);
      JoinSplits(a.context, a3, b.context, b3);
      JoinSplits(a.vcenterID, a4, b.vcenterID, b4);
      JoinSplits(a.name, BasisName(a.basis), b.name, BasisName(b.basis));
    }
  }

  lemma FiveParts(a: string, b: string, c: string, d: string, e: string)
    ensures a + NUL + b + NUL + c + NUL + d + NUL + e == a + NUL + (b + NUL + (c + NUL + (d + NUL + e)))
  {
  }

  type ByMergeKey = map<string, Contributor>

  function Add(m: ByMergeKey, v: Contributor): ByMergeKey {
    var key := MergeKey(v);
    var delta := if key in m then m[key].delta + v.delta else v.delta;
    var paths := if key in m then m[key].paths + v.paths else v.paths;
    m[key := v.(delta := delta, paths := paths)]
  }

  /** The deltas of the contributors with one key, and zero for the others. */
  function DeltaWith(key: string): Contributor -> real { c => if MergeKey(c) == key then c.delta else 0.0 }

  ghost predicate HasPath(values: seq<Contributor>, key: string, path: string) {
    exists i :: 0 <= i < |values| && MergeKey(values[i]) == key && path in values[i].paths
  }

  ghost predicate HasKey(values: seq<Contributor>, key: string) {
    exists i :: 0 <= i < |values| && MergeKey(values[i]) == key
  }

  /** The entry of a key has the summed growth of the values with it, and all their paths. */
  ghost predicate IsEntry(values: seq<Contributor>, key: string, c: Contributor) {
    && MergeKey(c) == key && c.delta == SumBy(values, DeltaWith(key))
    && forall p :: p in c.paths <==> HasPath(values, key, p)
  }

  ghost predicate Entry(values: seq<Contributor>, m: ByMergeKey, key: string) {
    if HasKey(values, key) then key in m && IsEntry(values, key, m[key]) else key !in m && SumBy(values, DeltaWith(key)) == 0.0
  }

  lemma HasKeyPush(values: seq<Contributor>, v: Contributor, key: string)
    ensures HasKey(values + [v], key) <==> HasKey(values, key) || MergeKey(v) == key
  {
    var more := values + [v];
    assert more[|values|] == v;
    if HasKey(values, key) {
      var i :| 0 <= i < |values| && MergeKey(values[i]) == key;
      assert more[i] == values[i];
    }
  }

  lemma HasPathPush(values: seq<Contributor>, v: Contributor, key: string, path: string)
    ensures HasPath(values + [v], key, path) <==> HasPath(values, key, path) || (MergeKey(v) == key && path in v.paths)
  {
    var more := values + [v];
    assert more[|values|] == v;
    if HasPath(values, key, path) {
      var i :| 0 <= i < |values| && MergeKey(values[i]) == key && path in values[i].paths;
      assert more[i] == values[i];
    }
  }

  lemma MergeKeyIgnores(v: Contributor, delta: real, paths: seq<string>)
    ensures MergeKey(v.(delta := delta, paths := paths)) == MergeKey(v)
  {
  }

  lemma NoPathWithoutKey(values: seq<Contributor>, key: string)
    requires !HasKey(values, key)
    ensures forall p :: !HasPath(values, key, p)
  {
  }

  lemma EntryPush(values: seq<Contributor>, m: ByMergeKey, v: Contributor, key: string)
    requires Entry(values, m, key)
    ensures Entry(values + [v], Add(m, v), key)
  {
    HasKeyPush(values, v, key);
    SumPush(values, v, DeltaWith(key));
    forall p ensures HasPath(values + [v], key, p) <==> HasPath(values, key, p) || (MergeKey(v) == key && p in v.paths) {
      HasPathPush(values, v, key, p);
    }
    if MergeKey(v) == key {
      MergeKeyIgnores(v, Add(m, v)[key].delta, Add(m, v)[key].paths);
      if !HasKey(values, key) {
        NoPathWithoutKey(values, key);
      }
    }
  }

  function DeltaAt(m: ByMergeKey): string -> real { k => if k in m then m[k].delta else 0.0 }

  function Added(values: seq<Contributor>): ByMergeKey {
    if values == [] then map[] else Add(Added(values[..|values| - 1]), values[|values| - 1])
  }

  method Tally(values: seq<Contributor>) returns (m: ByMergeKey)
    ensures m == Added(values)
  {
    m := map[];
    for i := 0 to |values|
      invariant m == Added(values[..i])
    {
      assert values[..i + 1][..i] == values[..i];
      m := Add(m, values[i]);
    }
    assert values[..|values|] == values;
  }

  lemma {:induction false} AddedHasEntries(values: seq<Contributor>, key: string)
    ensures Entry(values, Added(values), key)
  {
    if values != [] {
      var n := |values| - 1;
      AddedHasEntries(values[..n], key);
      EntryPush(values[..n], Added(values[..n]), values[n], key);
      assert values == values[..n] + [values[n]];
    }
  }

  lemma {:induction false} SumOfNone(keys: seq<string>)
    ensures SumBy(keys, DeltaAt(map[])) == 0.0
  {
    if keys != [] {
      SumOfNone(keys[..|keys| - 1]);
    }
  }

  lemma {:induction false} AddedAddUp(values: seq<Contributor>, keys: seq<string>)
    requires NoRepeats(keys) && forall k :: k in Added(values) ==> k in keys
    ensures SumBy(keys, DeltaAt(Added(values))) == SumBy(values, DeltaOf)
  {
    if values == [] {
      SumOfNone(keys);
    } else {
      var n := |values| - 1;
      var was, now := Added(values[..n]), Added(values);
      AddedAddUp(values[..n], keys);
      SumChange(keys, DeltaAt(was), DeltaAt(now), MergeKey(values[n]));
    }
  }

  method UniqueStrings(values: seq<string>) returns (out: seq<string>)
    ensures NoRepeats(out) && forall p :: p in out <==> p != "" && p in values
  {
    out := [];
    var seen: set<string> := {};
    for i := 0 to |values|
      invariant NoRepeats(out)
      invariant forall p :: p in seen <==> p in out
      invariant forall p :: p in out <==> p != "" && p in values[..i]
    {
      if values[i] != "" && values[i] !in seen {
        seen := seen + {values[i]};
        out := out + [values[i]];
      }
    }
  }

  // ----- The order

  /** The order contributors are listed in: by growth where it differs by more than half a byte,
      else by name. */
  predicate Less(a: Contributor, b: Contributor) {
    var d := a.delta - b.delta;
    if d > 0.5 || d < -0.5 then a.delta > b.delta else StringLe(a.name, b.name) && a.name != b.name
  }

  predicate NotAfter(a: Contributor, b: Contributor) { !Less(b, a) }

  /** a outgrows c by more than half a byte, b is close to both, and the names run the other way:
      the comparison goes round. */
  predicate Circle(a: Contributor, b: Contributor, c: Contributor) {
    && a.delta - c.delta > 0.5 && -0.5 <= a.delta - b.delta <= 0.5 && -0.5 <= b.delta - c.delta <= 0.5
    && StringLe(c.name, b.name) && StringLe(b.name, a.name)
  }

  ghost predicate HasCircle(s: seq<Contributor>) {
    exists a, b, c :: a in s && b in s && c in s && Circle(a, b, c)
  }

  lemma NamesCompare(a: string, b: string, c: string)
    ensures StringLe(a, b) || StringLe(b, a)
    ensures StringLe(a, b) && StringLe(b, a) ==> a == b
    ensures StringLe(a, b) && StringLe(b, c) ==> StringLe(a, c)
  {
    StringLeIsTotalPreorder();
    if StringLe(a, b) && StringLe(b, a) {
      StringLeAntisymmetric(a, b);
    }
  }

  lemma CirclesAreAll(a: Contributor, b: Contributor, c: Contributor)
    requires NotAfter(a, b) && NotAfter(b, c) && !NotAfter(a, c)
    ensures Circle(a, c, b) || Circle(b, a, c) || Circle(c, b, a)
  {
    NamesCompare(a.name, b.name, c.name);
    NamesCompare(b.name, c.name, a.name);
    NamesCompare(c.name, a.name, b.name);
    NamesCompare(a.name, c.name, b.name);
  }

  /** Without such a circle the comparison orders the contributors. */
  lemma OrdersWithoutCircle(s: seq<Contributor>)
    requires !HasCircle(s)
    ensures Orders(NotAfter, s)
  {
    forall x, y | x in s && y in s ensures NotAfter(x, y) || NotAfter(y, x) {
      NamesCompare(x.name, y.name, x.name);
    }
    forall x, y, z | x in s && y in s && z in s && NotAfter(x, y) && NotAfter(y, z) ensures NotAfter(x, z) {
      if !NotAfter(x, z) {
        CirclesAreAll(x, y, z);
      }
    }
  }

  // ----- With a circle, some order of the list is sorted wrong

  predicate Precedes(s: seq<Contributor>, x: Contributor, y: Contributor) {
    exists i, j :: 0 <= i < j < |s| && s[i] == x && s[j] == y
  }

  lemma PrecedesBehind(front: seq<Contributor>, s: seq<Contributor>, x: Contributor, y: Contributor)
    requires Precedes(s, x, y)
    ensures Precedes(front + s, x, y)
  {
    var i, j :| 0 <= i < j < |s| && s[i] == x && s[j] == y;
    assert (front + s)[|front| + i] == x && (front + s)[|front| + j] == y;
  }

  /** Inserting moves nothing that is there. */
  lemma {:induction false} InsertMovesNothing(z: Contributor, s: seq<Contributor>, x: Contributor, y: Contributor)
    requires Precedes(s, x, y)
    ensures Precedes(Insert(NotAfter, z, s), x, y)
  {
    if NotAfter(z, s[0]) {
      PrecedesBehind([z], s, x, y);
    } else {
      var i, j :| 0 <= i < j < |s| && s[i] == x && s[j] == y;
      var rest, after := s[1..], Insert(NotAfter, z, s[1..]);
      if i > 0 {
        assert rest[i - 1] == x && rest[j - 1] == y;
        InsertMovesNothing(z, rest, x, y);
        PrecedesBehind([s[0]], after, x, y);
      } else {
        assert rest[j - 1] == y && y in multiset(after);
        var k :| 0 <= k < |after| && after[k] == y;
        assert ([s[0]] + after)[0] == x && ([s[0]] + after)[k + 1] == y;
      }
    }
  }

  lemma {:induction false} SortMovesNothing(front: seq<Contributor>, s: seq<Contributor>, x: Contributor, y: Contributor)
    requires Precedes(StableSort(NotAfter, s), x, y)
    ensures Precedes(StableSort(NotAfter, front + s), x, y)
  {
    if front == [] {
      assert front + s == s;
    } else {
      SortMovesNothing(front[1..], s, x, y);
      assert (front + s)[1..] == front[1..] + s;
      InsertMovesNothing(front[0], StableSort(NotAfter, front[1..] + s), x, y);
    }
  }

  lemma CircleStays(a: Contributor, b: Contributor, c: Contributor)
    requires Circle(a, b, c)
    ensures StableSort(NotAfter, [c, b, a]) == [c, b, a] && Less(a, c)
  {
    NamesCompare(b.name, a.name, b.name);
    NamesCompare(c.name, b.name, c.name);
    NamesCompare(a.name, b.name, a.name);
    NamesCompare(b.name, c.name, b.name);
    assert [c, b, a][1..] == [b, a] && [b, a][1..] == [a] && [a][1..] == [];
    assert StableSort(NotAfter, [a]) == [a];
    assert NotAfter(b, a) && NotAfter(c, b);
    assert StableSort(NotAfter, [b, a]) == [b, a];
  }

  lemma TakeOut(s: seq<Contributor>, x: Contributor) returns (rest: seq<Contributor>)
    requires x in s
    ensures multiset(s) == multiset(rest) + multiset{x}
    ensures forall y :: y in s && y != x ==> y in rest
  {
    var i :| 0 <= i < |s| && s[i] == x;
    rest := s[..i] + s[i + 1..];
    MembersWithout(s, i);
    forall y | y in s && y != x ensures y in rest {
      assert y in multiset(s) && y in multiset(rest);
    }
  }

  lemma CircleGoesWrong(s: seq<Contributor>, a: Contributor, b: Contributor, c: Contributor) returns (order: seq<Contributor>)
    requires a in s && b in s && c in s && Circle(a, b, c)
    ensures multiset(order) == multiset(s) && !Sorted(NotAfter, StableSort(NotAfter, order))
  {
    var r1 := TakeOut(s, a);
    var r2 := TakeOut(r1, b);
    var rest := TakeOut(r2, c);
    order := rest + [c, b, a];
    BehindGoesWrong(rest, a, b, c);
  }

  lemma BehindGoesWrong(rest: seq<Contributor>, a: Contributor, b: Contributor, c: Contributor)
    requires Circle(a, b, c)
    ensures !Sorted(NotAfter, StableSort(NotAfter, rest + [c, b, a]))
  {
    CircleStays(a, b, c);
    assert Precedes([c, b, a], c, a) by {
      assert [c, b, a][0] == c && [c, b, a][2] == a;
    }
    SortMovesNothing(rest, [c, b, a], c, a);
    var sorted := StableSort(NotAfter, rest + [c, b, a]);
    var i, j :| 0 <= i < j < |sorted| && sorted[i] == c && sorted[j] == a;
    assert !NotAfter(sorted[i], sorted[j]);
  }

  /** The contributors are sorted in whatever order they come exactly when no three of them make a
      circle. */
  lemma SortsExactlyWithoutCircle(s: seq<Contributor>)
    ensures (forall order :: multiset(order) == multiset(s) ==> Sorted(NotAfter, StableSort(NotAfter, order))) <==> !HasCircle(s)
  {
    if HasCircle(s) {
      var a, b, c :| a in s && b in s && c in s && Circle(a, b, c);
      var order := CircleGoesWrong(s, a, b, c);
    } else {
      forall order | multiset(order) == multiset(s) ensures Sorted(NotAfter, StableSort(NotAfter, order)) {
        SameMembers(order, s);
        OrdersWithoutCircle(order);
        StableSortSortsThese(NotAfter, order);
      }
    }
  }

  // ----- Whole bytes

  /** The most growth first, and by name where it is equal. */
  predicate ByGrowth(a: Contributor, b: Contributor) {
    a.delta > b.delta || (a.delta == b.delta && StringLe(a.name, b.name))
  }

  predicate IsNumber(r: real, n: int) { r == n as real }

  ghost predicate IsWhole(r: real) { exists n :: IsNumber(r, n) }

  ghost predicate AllWhole(s: seq<Contributor>) { forall c :: c in s ==> IsWhole(c.delta) }

  lemma WholeSum(a: real, b: real)
    requires IsWhole(a) && IsWhole(b)
    ensures IsWhole(a + b) && IsWhole(a - b)
  {
    var n, m :| IsNumber(a, n) && IsNumber(b, m);
    assert IsNumber(a + b, n + m) && IsNumber(a - b, n - m);
  }

  lemma {:induction false} WholeTotal<T>(s: seq<T>, f: T -> real)
    requires forall i :: 0 <= i < |s| ==> IsWhole(f(s[i]))
    ensures IsWhole(SumBy(s, f))
  {
    if s == [] {
      assert IsNumber(0.0, 0);
    } else {
      WholeTotal(s[..|s| - 1], f);
      WholeSum(SumBy(s[..|s| - 1], f), f(s[|s| - 1]));
    }
  }

  lemma CloseWholesAreEqual(a: real, b: real)
    requires IsWhole(a) && IsWhole(b) && -0.5 <= a - b <= 0.5
    ensures a == b
  {
    var n, m :| IsNumber(a, n) && IsNumber(b, m);
    assert a - b == (n - m) as real;
  }

  /** Growth in whole bytes makes no circle, and is listed by growth and then name. */
  lemma WholeBytesSort(s: seq<Contributor>)
    requires AllWhole(s)
    ensures !HasCircle(s) && Sorted(ByGrowth, StableSort(NotAfter, s))
  {
    forall a, b, c | a in s && b in s && c in s ensures !Circle(a, b, c) {
      if Circle(a, b, c) {
        CloseWholesAreEqual(a.delta, b.delta);
        CloseWholesAreEqual(b.delta, c.delta);
      }
    }
    OrdersWithoutCircle(s);
    StableSortSortsThese(NotAfter, s);
    var sorted := StableSort(NotAfter, s);
    SameMembers(sorted, s);
    forall i, j | 0 <= i < j < |sorted| ensures ByGrowth(sorted[i], sorted[j]) {
      assert sorted[i] in s && sorted[j] in s;
      WholeByGrowth(sorted[i], sorted[j]);
    }
  }

  lemma WholeByGrowth(a: Contributor, b: Contributor)
    requires IsWhole(a.delta) && IsWhole(b.delta) && NotAfter(a, b)
    ensures ByGrowth(a, b)
  {
    NamesCompare(a.name, b.name, a.name);
    if -0.5 <= a.delta - b.delta <= 0.5 {
      CloseWholesAreEqual(a.delta, b.delta);
    }
  }

  // ----- Merging

  /** One contributor for every key of the values, with its summed growth and its paths once each;
      none for any other key. */
  ghost predicate Merges(values: seq<Contributor>, out: seq<Contributor>) {
    && (forall key :: HasKey(values, key) ==> HasKey(out, key))
    && (forall i :: 0 <= i < |out| ==> IsMerged(values, out[i]))
    && DistinctBy(MergeKey, out)
  }

  ghost predicate IsMerged(values: seq<Contributor>, c: Contributor) {
    && HasKey(values, MergeKey(c)) && c.delta == SumBy(values, DeltaWith(MergeKey(c)))
    && NoRepeats(c.paths) && forall p :: p in c.paths <==> p != "" && HasPath(values, MergeKey(c), p)
  }

  /** The contributors of the keys in order. */
  ghost predicate Lists(values: seq<Contributor>, m: ByMergeKey, order: seq<string>, out: seq<Contributor>) {
    && |order| == |out| && NoRepeats(order)
    && forall i :: 0 <= i < |order| ==>
      order[i] in m && MergeKey(out[i]) == order[i] && IsMerged(values, out[i]) && out[i].delta == m[order[i]].delta
  }

  lemma {:induction false} ListsAddUp(values: seq<Contributor>, m: ByMergeKey, order: seq<string>, out: seq<Contributor>)
    requires Lists(values, m, order, out)
    ensures SumBy(out, DeltaOf) == SumBy(order, DeltaAt(m))
  {
    if order != [] {
      var n := |order| - 1;
      ListsAddUp(values, m, order[..n], out[..n]);
    }
  }

  method Finished(values: seq<Contributor>, c: Contributor, ghost key: string) returns (out: Contributor)
    requires IsEntry(values, key, c) && HasKey(values, key)
    ensures MergeKey(out) == key && IsMerged(values, out) && out.delta == c.delta
  {
    var sorted := SortedCopy(c.paths);
    var paths := UniqueStrings(sorted);
    SameMembers(sorted, c.paths);
    out := c.(paths := paths);
    MergeKeyIgnores(c, c.delta, paths);
  }

  lemma ListsNext(values: seq<Contributor>, m: ByMergeKey, order: seq<string>, out: seq<Contributor>, key: string, c: Contributor)
    requires Lists(values, m, order, out) && key !in order
    requires key in m && MergeKey(c) == key && IsMerged(values, c) && c.delta == m[key].delta
    ensures Lists(values, m, order + [key], out + [c])
  {
  }

  method ListAll(values: seq<Contributor>, m: ByMergeKey) returns (out: seq<Contributor>, ghost order: seq<string>)
    requires forall key :: Entry(values, m, key)
    ensures Lists(values, m, order, out) && Left(order, {}, m.Keys)
  {
    out, order := [], [];
    var todo := m.Keys;
    while todo != {}
      invariant todo <= m.Keys
      invariant Lists(values, m, order, out)
      invariant Left(order, todo, m.Keys)
    {
      var key :| key in todo;
      assert Entry(values, m, key);
      var c := Finished(values, m[key], key);
      ListsNext(values, m, order, out, key, c);
      LeftNext(order, todo, m.Keys, key);
      out, order := out + [c], order + [key];
      todo := todo - {key};
    }
  }

  lemma ListedAreMerged(values: seq<Contributor>, m: ByMergeKey, order: seq<string>, out: seq<Contributor>)
    requires forall key :: Entry(values, m, key)
    requires Lists(values, m, order, out) && Left(order, {}, m.Keys)
    ensures Merges(values, out)
  {
    forall key | HasKey(values, key) ensures HasKey(out, key) {
      assert Entry(values, m, key);
      assert key in order;
      var i :| 0 <= i < |order| && order[i] == key;
      assert MergeKey(out[i]) == key;
    }
  }

  lemma MergesAfterReordering(values: seq<Contributor>, a: seq<Contributor>, b: seq<Contributor>)
    requires Merges(values, a) && multiset(a) == multiset(b)
    ensures Merges(values, b)
  {
    SameMembers(a, b);
    DistinctAfterReordering(MergeKey, a, b);
    forall i | 0 <= i < |b| ensures IsMerged(values, b[i]) {
      assert b[i] in a;
    }
    forall key | HasKey(values, key) ensures HasKey(b, key) {
      var i :| 0 <= i < |a| && MergeKey(a[i]) == key;
      assert a[i] in b;
    }
  }

  /** Merging whole bytes gives whole bytes. */
  lemma MergedAreWhole(values: seq<Contributor>, out: seq<Contributor>)
    requires AllWhole(values) && forall i :: 0 <= i < |out| ==> IsMerged(values, out[i])
    ensures AllWhole(out)
  {
    forall c | c in out ensures IsWhole(c.delta) {
      var i :| 0 <= i < |out| && out[i] == c;
      WholeWith(values, MergeKey(c));
    }
  }

  lemma WholeWith(values: seq<Contributor>, key: string)
    requires AllWhole(values)
    ensures IsWhole(SumBy(values, DeltaWith(key)))
  {
    assert IsNumber(0.0, 0);
    forall k | 0 <= k < |values| ensures IsWhole(DeltaWith(key)(values[k])) {
      assert values[k] in values;
    }
    WholeTotal(values, DeltaWith(key));
  }

  /** Merging keeps the total growth, and lists the contributors in order unless three of them make a
      circle; growth in whole bytes is listed by growth and then name. */
  method Merge(values: seq<Contributor>) returns (out: seq<Contributor>)
    ensures Merges(values, out)
    ensures SumBy(out, DeltaOf) == SumBy(values, DeltaOf)
    ensures !HasCircle(out) ==> Sorted(NotAfter, out)
    ensures AllWhole(values) ==> Sorted(ByGrowth, out)
  {
    var m := Tally(values);
    forall key ensures Entry(values, m, key) {
      AddedHasEntries(values, key);
    }
    ghost var order;
    out, order := ListAll(values, m);
    ListedAreMerged(values, m, order, out);
    ListsAddUp(values, m, order, out);
    AddedAddUp(values, order);
    out := SortMerged(values, out);
  }

  method SortMerged(values: seq<Contributor>, merged: seq<Contributor>) returns (out: seq<Contributor>)
    requires Merges(values, merged)
    ensures Merges(values, out) && SumBy(out, DeltaOf) == SumBy(merged, DeltaOf)
    ensures !HasCircle(out) ==> Sorted(NotAfter, out)
    ensures AllWhole(values) ==> Sorted(ByGrowth, out)
  {
    out := StableSort(NotAfter, merged);
    MergesAfterReordering(values, merged, out);
    SumAnyOrder(merged, out, DeltaOf);
    SameMembers(out, merged);
    if !HasCircle(out) {
      OrdersWithoutCircle(merged);
      StableSortSortsThese(NotAfter, merged);
    }
    if AllWhole(values) {
      MergedAreWhole(values, merged);
      WholeBytesSort(merged);
    }
  }
}
