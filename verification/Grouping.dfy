/** Which datastore observations are one datastore over time: union-find over shared keys and
    identities. */
module Grouping {
  import opened Sorting
  import opened Strings

  datatype Context = Context(name: string, vcenterID: string)

  datatype Item = Item(key: string, identity: seq<string>, startedAt: int, context: Context)

  datatype Group = Group(items: seq<Item>, contexts: map<string, Context>, identity: set<string>)

  predicate Overlap(a: seq<string>, b: seq<string>) { exists i, j :: 0 <= i < |a| && 0 <= j < |b| && a[i] == b[j] }

  method IdentityOverlap(a: seq<string>, b: seq<string>) returns (r: bool)
    ensures r <==> Overlap(a, b)
  {
    var seen: set<string> := {};
    for i := 0 to |a|
      invariant forall s :: s in seen <==> s in a[..i]
    {
      seen := seen + {a[i]};
    }
    for j := 0 to |b|
      invariant forall k :: 0 <= k < j ==> b[k] !in seen
    {
      if b[j] in seen {
        var i :| 0 <= i < |a| && a[i] == b[j];
        return true;
      }
    }
    assert forall i :: 0 <= i < |a| ==> a[i] in seen;
    r := false;
  }

  predicate Linked(values: seq<Item>, i: nat, j: nat) {
    i < |values| && j < |values| && (values[i].key == values[j].key || Overlap(values[i].identity, values[j].identity))
  }

  // ----- What the groups are

  ghost predicate IsPath(values: seq<Item>, path: seq<nat>, i: nat, j: nat) {
    && path != [] && path[0] == i && path[|path| - 1] == j
    && forall k :: 0 <= k < |path| - 1 ==> Linked(values, path[k], path[k + 1])
  }

  /** The reflexive and transitive closure of Linked. */
  ghost predicate Connected(values: seq<Item>, i: nat, j: nat) { exists path :: IsPath(values, path, i, j) }

  lemma LinkedIsSymmetric(values: seq<Item>, i: nat, j: nat)
    requires Linked(values, i, j)
    ensures Linked(values, j, i)
  {
    if Overlap(values[i].identity, values[j].identity) {
      var a, b :| 0 <= a < |values[i].identity| && 0 <= b < |values[j].identity| && values[i].identity[a] == values[j].identity[b];
      assert values[j].identity[b] == values[i].identity[a];
    }
  }

  lemma ConnectedToItself(values: seq<Item>, i: nat)
    ensures Connected(values, i, i)
  {
    assert IsPath(values, [i], i, i);
  }

  lemma LinkedIsConnected(values: seq<Item>, i: nat, j: nat)
    requires Linked(values, i, j)
    ensures Connected(values, i, j)
  {
    assert IsPath(values, [i, j], i, j);
  }

  lemma ConnectedTransitive(values: seq<Item>, i: nat, j: nat, k: nat)
    requires Connected(values, i, j) && Connected(values, j, k)
    ensures Connected(values, i, k)
  {
    var p, q :| IsPath(values, p, i, j) && IsPath(values, q, j, k);
    var path := p + q[1..];
    forall m | 0 <= m < |path| - 1 ensures Linked(values, path[m], path[m + 1]) {
      if m == |p| - 1 {
        assert Linked(values, q[0], q[1]);
      } else if m >= |p| {
        assert Linked(values, q[m - |p| + 1], q[m - |p| + 2]);
      }
    }
    assert IsPath(values, path, i, k);
  }

  lemma ConnectedSymmetric(values: seq<Item>, i: nat, j: nat)
    requires Connected(values, i, j)
    ensures Connected(values, j, i)
  {
    var p :| IsPath(values, p, i, j);
    var back := seq(|p|, k requires 0 <= k < |p| => p[|p| - 1 - k]);
    forall m | 0 <= m < |back| - 1 ensures Linked(values, back[m], back[m + 1]) {
      LinkedIsSymmetric(values, p[|p| - 2 - m], p[|p| - 1 - m]);
    }
    assert IsPath(values, back, j, i);
  }

  /** The observations among the first n that are connected to i, in order. */
  ghost function Connections(values: seq<Item>, i: nat, n: nat): seq<Item>
    requires n <= |values|
  {
    if n == 0 then []
    else Connections(values, i, n - 1) + if Connected(values, i, n - 1) then [values[n - 1]] else []
  }

  function ContextKey(c: Context): string { c.name + [0 as char] + c.vcenterID }

  function Contexts(items: seq<Item>): map<string, Context> {
    if items == [] then map[]
    else
      var c := items[|items| - 1].context;
      Contexts(items[..|items| - 1])[ContextKey(c) := c]
  }

  function AsSet(s: seq<string>): set<string> { set x | x in s }

  function Identities(items: seq<Item>): set<string> {
    if items == [] then {}
    else Identities(items[..|items| - 1]) + AsSet(items[|items| - 1].identity)
  }

  predicate ItemLe(a: Item, b: Item) {
    a.startedAt < b.startedAt || (a.startedAt == b.startedAt && StringLe(a.key, b.key))
  }

  function GroupOf(items: seq<Item>): Group { Group(StableSort(ItemLe, items), Contexts(items), Identities(items)) }

  /** The group of everything connected to i. */
  ghost function Component(values: seq<Item>, i: nat): Group { GroupOf(Connections(values, i, |values|)) }

  function GroupKey(g: Group): string { if g.items == [] then "" else g.items[0].key }

  predicate GroupLe(a: Group, b: Group) { StringLe(GroupKey(a), GroupKey(b)) }

  // ----- Union-find

  /** root[i] is where find ends from i; rank grows along every parent. */
  ghost predicate Forest(parent: seq<int>, root: seq<int>, rank: seq<int>) {
    && |root| == |rank| == |parent|
    && forall i :: 0 <= i < |parent| ==> Node(parent, root, rank, i)
  }

  ghost predicate Node(parent: seq<int>, root: seq<int>, rank: seq<int>, i: int)
    requires |root| == |rank| == |parent| && 0 <= i < |parent|
  {
    && 0 <= parent[i] < |parent| && 0 <= root[i] < |parent|
    && root[root[i]] == root[i] && root[parent[i]] == root[i]
    && (parent[i] == i <==> root[i] == i)
    && (parent[i] != i ==> rank[i] < rank[parent[i]])
    && (root[i] != i ==> rank[i] < rank[root[i]])
  }

  /** How far below its root a node can be. */
  ghost function Height(root: seq<int>, rank: seq<int>, i: int): int {
    if 0 <= i < |root| && 0 <= root[i] < |rank| && i < |rank| then rank[root[i]] - rank[i] else 0
  }

  lemma Compress(parent: seq<int>, root: seq<int>, rank: seq<int>, i: int)
    requires Forest(parent, root, rank) && 0 <= i < |parent|
    ensures Forest(parent[i := root[i]], root, rank)
  {
    assert Node(parent, root, rank, i);
    var after := parent[i := root[i]];
    forall k | 0 <= k < |after| ensures Node(after, root, rank, k) {
      assert Node(parent, root, rank, k);
    }
  }

  /** Finding compresses the path it follows, and changes the root of nothing. */
  method Find(parent: array<int>, i: int, ghost root: seq<int>, ghost rank: seq<int>) returns (r: int)
    requires Forest(parent[..], root, rank) && 0 <= i < parent.Length
    modifies parent
    ensures Forest(parent[..], root, rank) && r == root[i]
    decreases Height(root, rank, i)
  {
    assert Node(parent[..], root, rank, i);
    if parent[i] != i {
      assert Node(parent[..], root, rank, parent[i]);
      var p := Find(parent, parent[i], root, rank);
      ghost var before := parent[..];
      Compress(before, root, rank, i);
      parent[i] := p;
      assert parent[..] == before[i := root[i]];
    }
    assert Node(parent[..], root, rank, i);
    r := parent[i];
  }

  /** Everything under b is now under a. */
  ghost function Joined(root: seq<int>, a: int, b: int): seq<int> {
    seq(|root|, k requires 0 <= k < |root| => if root[k] == b then a else root[k])
  }

  lemma Join(parent: seq<int>, root: seq<int>, rank: seq<int>, a: int, b: int) returns (higher: seq<int>)
    requires Forest(parent, root, rank) && 0 <= a < |parent| && 0 <= b < |parent| && a != b
    requires root[a] == a && root[b] == b
    ensures Forest(parent[b := a], Joined(root, a, b), higher)
  {
    higher := rank[a := if rank[a] > rank[b] then rank[a] else rank[b] + 1];
    var after, joined := parent[b := a], Joined(root, a, b);
    assert Node(parent, root, rank, a) && Node(parent, root, rank, b);
    forall k | 0 <= k < |after| ensures Node(after, joined, higher, k) {
      assert Node(parent, root, rank, k);
      assert Node(parent, root, rank, parent[k]);
    }
  }

  method Union(parent: array<int>, i: int, j: int, ghost root: seq<int>, ghost rank: seq<int>)
    returns (ghost newRoot: seq<int>, ghost newRank: seq<int>)
    requires Forest(parent[..], root, rank) && 0 <= i < parent.Length && 0 <= j < parent.Length
    modifies parent
    ensures Forest(parent[..], newRoot, newRank)
    ensures newRoot == Joined(root, root[i], root[j])
  {
    assert Node(parent[..], root, rank, i) && Node(parent[..], root, rank, j);
    var a := Find(parent, i, root, rank);
    var b := Find(parent, j, root, rank);
    newRoot, newRank := root, rank;
    if a != b {
      ghost var before := parent[..];
      newRank := Join(before, root, rank, a, b);
      newRoot := Joined(root, a, b);
      parent[b] := a;
      assert parent[..] == before[b := a];
    } else {
      assert Joined(root, a, b) == root;
    }
  }

  // ----- The pairs

  /** One root means connected. */
  ghost predicate Sound(values: seq<Item>, root: seq<int>) {
    |root| == |values| && forall x, y :: 0 <= x < |root| && 0 <= y < |root| && root[x] == root[y] ==> Connected(values, x, y)
  }

  /** The pair (x, y) comes before (i, j). */
  predicate Before(x: nat, y: nat, i: nat, j: nat) { x < i || (x == i && y < j) }

  /** Every linked pair so far has one root. */
  ghost predicate Joins(values: seq<Item>, root: seq<int>, i: nat, j: nat) {
    && |root| == |values|
    && forall x: nat, y: nat :: x < y < |root| && Before(x, y, i, j) && Linked(values, x, y) ==> root[x] == root[y]
  }

  lemma JoinedIsSound(values: seq<Item>, root: seq<int>, i: nat, j: nat)
    requires Sound(values, root) && i < |values| && j < |values| && Linked(values, i, j)
    ensures Sound(values, Joined(root, root[i], root[j]))
  {
    var joined := Joined(root, root[i], root[j]);
    LinkedIsConnected(values, i, j);
    forall x, y | 0 <= x < |root| && 0 <= y < |root| && joined[x] == joined[y] ensures Connected(values, x, y) {
      if root[x] != root[y] {
        if root[x] == root[i] {
          ConnectedTransitive(values, x, i, j);
          ConnectedTransitive(values, x, j, y);
        } else {
          ConnectedTransitive(values, y, i, j);
          ConnectedTransitive(values, y, j, x);
          ConnectedSymmetric(values, y, x);
        }
      }
    }
  }

  method LinkPair(values: seq<Item>, parent: array<int>, i: nat, j: nat, ghost root: seq<int>, ghost rank: seq<int>)
    returns (ghost newRoot: seq<int>, ghost newRank: seq<int>)
    requires Forest(parent[..], root, rank) && parent.Length == |values| && i < j < |values|
    requires Sound(values, root) && Joins(values, root, i, j)
    modifies parent
    ensures Forest(parent[..], newRoot, newRank) && Sound(values, newRoot) && Joins(values, newRoot, i, j + 1)
  {
    newRoot, newRank := root, rank;
    var overlap := IdentityOverlap(values[i].identity, values[j].identity);
    if values[i].key == values[j].key || overlap {
      JoinedIsSound(values, root, i, j);
      newRoot, newRank := Union(parent, i, j, root, rank);
    }
  }

  method LinkAll(values: seq<Item>, parent: array<int>) returns (ghost root: seq<int>, ghost rank: seq<int>)
    requires parent.Length == |values| && forall k :: 0 <= k < parent.Length ==> parent[k] == k
    modifies parent
    ensures Forest(parent[..], root, rank) && Sound(values, root) && Joins(values, root, |values|, 0)
  {
    root, rank := parent[..], seq(|values|, k => 0);
    forall k: nat | k < |values| ensures Connected(values, k, k) {
      ConnectedToItself(values, k);
    }
    for i := 0 to |values|
      invariant Forest(parent[..], root, rank) && Sound(values, root) && Joins(values, root, i, 0)
    {
      for j := i + 1 to |values|
        invariant Forest(parent[..], root, rank) && Sound(values, root) && Joins(values, root, i, j)
      {
        root, rank := LinkPair(values, parent, i, j, root, rank);
      }
    }
  }

  lemma LinkedSharesRoot(values: seq<Item>, root: seq<int>, i: nat, j: nat)
    requires Joins(values, root, |values|, 0) && Linked(values, i, j)
    ensures root[i] == root[j]
  {
    LinkedIsSymmetric(values, i, j);
  }

  lemma {:induction false} PathSharesRoot(values: seq<Item>, root: seq<int>, path: seq<nat>, i: nat, j: nat)
    requires Joins(values, root, |values|, 0) && IsPath(values, path, i, j) && i < |values|
    ensures j < |values| && root[i] == root[j]
  {
    if |path| > 1 {
      var n := |path| - 1;
      assert Linked(values, path[n - 1], path[n]);
      assert IsPath(values, path[..n], i, path[n - 1]);
      PathSharesRoot(values, root, path[..n], i, path[n - 1]);
      LinkedSharesRoot(values, root, path[n - 1], path[n]);
    }
  }

  /** The roots tell exactly what is connected. */
  lemma RootsAreComponents(values: seq<Item>, root: seq<int>, i: nat, j: nat)
    requires Sound(values, root) && Joins(values, root, |values|, 0) && i < |values|
    ensures Connected(values, i, j) <==> j < |values| && root[i] == root[j]
  {
    if Connected(values, i, j) {
      var path :| IsPath(values, path, i, j);
      PathSharesRoot(values, root, path, i, j);
    }
  }

  // ----- The groups

  /** The observations among the first n under the root, in order. */
  ghost function UnderRoot(values: seq<Item>, root: seq<int>, r: int, n: nat): seq<Item>
    requires n <= |values| == |root|
  {
    if n == 0 then [] else UnderRoot(values, root, r, n - 1) + if root[n - 1] == r then [values[n - 1]] else []
  }

  /** A group as it is filled, its items not yet sorted. */
  function Raw(items: seq<Item>): Group { Group(items, Contexts(items), Identities(items)) }

  ghost predicate Row(byRoot: map<int, Group>, r: int, items: seq<Item>) {
    (r in byRoot <==> items != []) && (r in byRoot ==> byRoot[r] == Raw(items))
  }

  ghost predicate Tabulated(values: seq<Item>, root: seq<int>, byRoot: map<int, Group>, n: nat)
    requires n <= |values| == |root|
  {
    forall r :: RowAt(values, root, byRoot, n, r)
  }

  ghost predicate RowAt(values: seq<Item>, root: seq<int>, byRoot: map<int, Group>, n: nat, r: int)
    requires n <= |values| == |root|
  {
    Row(byRoot, r, UnderRoot(values, root, r, n))
  }

  method AddItem(g: Group, item: Item) returns (out: Group)
    requires g == Raw(g.items)
    ensures out == Raw(g.items + [item])
  {
    var identity := g.identity;
    for k := 0 to |item.identity|
      invariant identity == g.identity + AsSet(item.identity[..k])
    {
      identity := identity + {item.identity[k]};
    }
    assert item.identity[..|item.identity|] == item.identity;
    assert (g.items + [item])[..|g.items|] == g.items;
    out := Group(g.items + [item], g.contexts[ContextKey(item.context) := item.context], identity);
  }

  lemma TabulatedNext(values: seq<Item>, root: seq<int>, byRoot: map<int, Group>, n: nat, group: Group)
    requires n < |values| == |root| && Tabulated(values, root, byRoot, n)
    requires group == Raw(UnderRoot(values, root, root[n], n) + [values[n]])
    ensures Tabulated(values, root, byRoot[root[n] := group], n + 1)
  {
    var more, next := byRoot[root[n] := group], n + 1;
    forall s ensures RowAt(values, root, more, next, s) {
      RowNext(values, root, byRoot, n, group, s);
    }
  }

  lemma RowNext(values: seq<Item>, root: seq<int>, byRoot: map<int, Group>, n: nat, group: Group, s: int)
    requires n < |values| == |root| && RowAt(values, root, byRoot, n, s)
    requires group == Raw(UnderRoot(values, root, root[n], n) + [values[n]])
    ensures RowAt(values, root, byRoot[root[n] := group], n + 1, s)
  {
    if s != root[n] {
      assert UnderRoot(values, root, s, n + 1) == UnderRoot(values, root, s, n);
      RowKept(byRoot, s, UnderRoot(values, root, s, n), root[n], group);
    }
  }

  lemma RowKept(byRoot: map<int, Group>, s: int, items: seq<Item>, r: int, group: Group)
    requires Row(byRoot, s, items) && s != r
    ensures Row(byRoot[r := group], s, items)
  {
  }

  method Tabulate(values: seq<Item>, parent: array<int>, ghost root: seq<int>, ghost rank: seq<int>) returns (byRoot: map<int, Group>)
    requires Forest(parent[..], root, rank) && parent.Length == |values|
    modifies parent
    ensures |root| == |values| && Tabulated(values, root, byRoot, |values|)
  {
    byRoot := map[];
    for i := 0 to |values|
      invariant Forest(parent[..], root, rank)
      invariant Tabulated(values, root, byRoot, i)
    {
      var r := Find(parent, i, root, rank);
      assert RowAt(values, root, byRoot, i, r);
      var group := if r in byRoot then byRoot[r] else Group([], map[], {});
      group := AddItem(group, values[i]);
      TabulatedNext(values, root, byRoot, i, group);
      byRoot := byRoot[r := group];
    }
  }

  lemma {:induction false} UnderRootMember(values: seq<Item>, root: seq<int>, r: int, n: nat)
    requires n <= |values| == |root|
    ensures forall x :: x in UnderRoot(values, root, r, n) ==> exists k :: 0 <= k < n && root[k] == r && values[k] == x
    ensures forall k :: 0 <= k < n && root[k] == r ==> values[k] in UnderRoot(values, root, r, n)
  {
    if n > 0 {
      UnderRootMember(values, root, r, n - 1);
    }
  }

  lemma KeyIsAMember(items: seq<Item>)
    requires items != []
    ensures exists x :: x in items && GroupKey(GroupOf(items)) == x.key
  {
    SameMembers(StableSort(ItemLe, items), items);
    assert StableSort(ItemLe, items)[0] in items;
  }

  /** Two groups never have the same key: sharing a key links their observations. */
  lemma KeysDiffer(values: seq<Item>, root: seq<int>, r: int, s: int)
    requires |root| == |values| && Joins(values, root, |values|, 0) && r != s
    requires UnderRoot(values, root, r, |values|) != [] && UnderRoot(values, root, s, |values|) != []
    ensures GroupKey(GroupOf(UnderRoot(values, root, r, |values|))) != GroupKey(GroupOf(UnderRoot(values, root, s, |values|)))
  {
    var a, b := UnderRoot(values, root, r, |values|), UnderRoot(values, root, s, |values|);
    KeyIsAMember(a);
    KeyIsAMember(b);
    UnderRootMember(values, root, r, |values|);
    UnderRootMember(values, root, s, |values|);
    var x :| x in a && GroupKey(GroupOf(a)) == x.key;
    var y :| y in b && GroupKey(GroupOf(b)) == y.key;
    var i: nat :| i < |values| && root[i] == r && values[i] == x;
    var j: nat :| j < |values| && root[j] == s && values[j] == y;
    if x.key == y.key {
      LinkedSharesRoot(values, root, i, j);
    }
  }

  ghost function RootGroup(values: seq<Item>, root: seq<int>, r: int): Group
    requires |root| == |values|
  {
    GroupOf(UnderRoot(values, root, r, |values|))
  }

  /** The groups of the roots in order, which is whatever order the map gave them. */
  ghost predicate ListsGroups(values: seq<Item>, root: seq<int>, order: seq<int>, groups: seq<Group>)
    requires |root| == |values|
  {
    |order| == |groups| && forall k :: 0 <= k < |order| ==> groups[k] == RootGroup(values, root, order[k])
  }

  lemma SomeMember<T>(s: set<T>) returns (x: T)
    requires s != {}
    ensures x in s
  {
    x :| x in s;
  }

  lemma ListsNext(values: seq<Item>, root: seq<int>, order: seq<int>, groups: seq<Group>, byRoot: map<int, Group>, r: int)
    requires |root| == |values| && Tabulated(values, root, byRoot, |values|) && r in byRoot
    requires ListsGroups(values, root, order, groups)
    ensures ListsGroups(values, root, order + [r], groups + [byRoot[r].(items := StableSort(ItemLe, byRoot[r].items))])
  {
    assert RowAt(values, root, byRoot, |values|, r);
    assert byRoot[r].(items := StableSort(ItemLe, byRoot[r].items)) == RootGroup(values, root, r);
  }

  method ListGroups(values: seq<Item>, byRoot: map<int, Group>, ghost root: seq<int>)
    returns (groups: seq<Group>, ghost order: seq<int>)
    requires |root| == |values| && Tabulated(values, root, byRoot, |values|)
    ensures ListsGroups(values, root, order, groups) && Left(order, {}, byRoot.Keys)
  {
    groups, order := [], [];
    var todo := byRoot.Keys;
    while todo != {}
      invariant Left(order, todo, byRoot.Keys)
      invariant ListsGroups(values, root, order, groups)
    {
      ghost var some := SomeMember(todo);
      var r :| r in todo;
      var group := byRoot[r];
      ListsNext(values, root, order, groups, byRoot, r);
      LeftNext(order, todo, byRoot.Keys, r);
      groups := groups + [group.(items := StableSort(ItemLe, group.items))];
      order := order + [r];
      todo := todo - {r};
    }
  }

  lemma {:induction false} ConnectionsAreUnderRoot(values: seq<Item>, root: seq<int>, i: nat, n: nat)
    requires Sound(values, root) && Joins(values, root, |values|, 0) && i < |values| && n <= |values|
    ensures Connections(values, i, n) == UnderRoot(values, root, root[i], n)
  {
    if n > 0 {
      ConnectionsAreUnderRoot(values, root, i, n - 1);
      RootsAreComponents(values, root, i, n - 1);
    }
  }

  ghost predicate StrictlySorted(groups: seq<Group>) {
    forall p, q :: 0 <= p < q < |groups| ==>
      StringLe(GroupKey(groups[p]), GroupKey(groups[q])) && GroupKey(groups[p]) != GroupKey(groups[q])
  }

  /** The groups are the connected components, each once, in strictly increasing order of key. */
  ghost predicate AreComponents(values: seq<Item>, groups: seq<Group>) {
    && (forall i: nat :: i < |values| ==> Component(values, i) in groups)
    && (forall g :: g in groups ==> exists i: nat :: i < |values| && g == Component(values, i))
    && StrictlySorted(groups)
  }

  lemma GroupLeIsTotalPreorder()
    ensures TotalPreorder(GroupLe)
  {
    StringLeIsTotalPreorder();
  }

  lemma GroupKeysDiffer(values: seq<Item>, root: seq<int>, order: seq<int>, groups: seq<Group>)
    requires |root| == |values| && Joins(values, root, |values|, 0)
    requires ListsGroups(values, root, order, groups) && NoRepeats(order)
    requires forall r :: r in order ==> UnderRoot(values, root, r, |values|) != []
    ensures DistinctBy(GroupKey, groups)
  {
    forall i, j | 0 <= i < j < |groups| ensures GroupKey(groups[i]) != GroupKey(groups[j]) {
      KeysDiffer(values, root, order[i], order[j]);
    }
  }

  lemma SortedStrictly(groups: seq<Group>)
    requires DistinctBy(GroupKey, groups)
    ensures StrictlySorted(StableSort(GroupLe, groups))
  {
    var sorted := StableSort(GroupLe, groups);
    DistinctAfterReordering(GroupKey, groups, sorted);
    GroupLeIsTotalPreorder();
    StableSortSorts(GroupLe, groups);
    forall p, q | 0 <= p < q < |sorted|
      ensures StringLe(GroupKey(sorted[p]), GroupKey(sorted[q])) && GroupKey(sorted[p]) != GroupKey(sorted[q])
    {
      assert GroupLe(sorted[p], sorted[q]);
    }
  }

  lemma ComponentIsListed(values: seq<Item>, root: seq<int>, order: seq<int>, groups: seq<Group>, i: nat)
    requires Sound(values, root) && Joins(values, root, |values|, 0) && ListsGroups(values, root, order, groups)
    requires (forall r :: r in order <==> UnderRoot(values, root, r, |values|) != []) && i < |values|
    ensures Component(values, i) in groups
  {
    ConnectionsAreUnderRoot(values, root, i, |values|);
    UnderRootMember(values, root, root[i], |values|);
    assert root[i] in order;
    var k :| 0 <= k < |order| && order[k] == root[i];
    assert groups[k] == RootGroup(values, root, root[i]);
  }

  lemma ListedAreComponents(values: seq<Item>, root: seq<int>, order: seq<int>, groups: seq<Group>)
    requires Sound(values, root) && Joins(values, root, |values|, 0) && ListsGroups(values, root, order, groups) && NoRepeats(order)
    requires forall r :: r in order <==> UnderRoot(values, root, r, |values|) != []
    ensures AreComponents(values, StableSort(GroupLe, groups))
  {
    SameMembers(StableSort(GroupLe, groups), groups);
    GroupKeysDiffer(values, root, order, groups);
    SortedStrictly(groups);
    forall i: nat | i < |values| ensures Component(values, i) in groups {
      ComponentIsListed(values, root, order, groups, i);
    }
    forall g | g in groups ensures exists i: nat :: i < |values| && g == Component(values, i) {
      var k :| 0 <= k < |groups| && groups[k] == g;
      RootGroupIsAComponent(values, root, order[k]);
    }
  }

  lemma RootGroupIsAComponent(values: seq<Item>, root: seq<int>, r: int)
    requires Sound(values, root) && Joins(values, root, |values|, 0) && UnderRoot(values, root, r, |values|) != []
    ensures exists i: nat :: i < |values| && RootGroup(values, root, r) == Component(values, i)
  {
    UnderRootMember(values, root, r, |values|);
    var x := UnderRoot(values, root, r, |values|)[0];
    assert x in UnderRoot(values, root, r, |values|);
    var i: nat :| i < |values| && root[i] == r && values[i] == x;
    ConnectionsAreUnderRoot(values, root, i, |values|);
    assert RootGroup(values, root, r) == Component(values, i);
  }

  lemma OrderIsTheRoots(values: seq<Item>, root: seq<int>, byRoot: map<int, Group>, order: seq<int>)
    requires |root| == |values| && Tabulated(values, root, byRoot, |values|) && Left(order, {}, byRoot.Keys)
    ensures forall r :: r in order <==> UnderRoot(values, root, r, |values|) != []
  {
    forall r ensures r in order <==> UnderRoot(values, root, r, |values|) != [] {
      assert RowAt(values, root, byRoot, |values|, r);
    }
  }

  method GroupDatastores(values: seq<Item>) returns (groups: seq<Group>)
    ensures AreComponents(values, groups)
  {
    var parent := new int[|values|](i => i);
    ghost var root, rank;
    root, rank := LinkAll(values, parent);
    var byRoot := Tabulate(values, parent, root, rank);
    ghost var order;
    groups, order := ListGroups(values, byRoot, root);
    OrderIsTheRoots(values, root, byRoot, order);
    ListedAreComponents(values, root, order, groups);
    groups := StableSort(GroupLe, groups);
  }

  // ----- What that means

  lemma {:induction false} ConnectionsMember(values: seq<Item>, i: nat, n: nat)
    requires n <= |values|
    ensures forall x :: x in Connections(values, i, n) ==> exists k: nat :: k < n && Connected(values, i, k) && values[k] == x
    ensures forall k: nat :: k < n && Connected(values, i, k) ==> values[k] in Connections(values, i, n)
  {
    if n > 0 {
      ConnectionsMember(values, i, n - 1);
    }
  }

  /** Two observations share a group exactly when they are connected. */
  lemma SameGroupMeansConnected(values: seq<Item>, i: nat, j: nat)
    requires i < |values| && j < |values|
    ensures Component(values, i) == Component(values, j) <==> Connected(values, i, j)
  {
    var n := |values|;
    ConnectedToItself(values, i);
    ConnectedToItself(values, j);
    ConnectionsMember(values, i, n);
    ConnectionsMember(values, j, n);
    if Connected(values, i, j) {
      SameConnections(values, i, j, n);
    } else if Component(values, i) == Component(values, j) {
      KeyIsAMember(Connections(values, i, n));
      KeyIsAMember(Connections(values, j, n));
      var x :| x in Connections(values, i, n) && GroupKey(Component(values, i)) == x.key;
      var y :| y in Connections(values, j, n) && GroupKey(Component(values, j)) == y.key;
      var a: nat :| a < n && Connected(values, i, a) && values[a] == x;
      var b: nat :| b < n && Connected(values, j, b) && values[b] == y;
      LinkedIsConnected(values, a, b);
      ConnectedTransitive(values, i, a, b);
      ConnectedSymmetric(values, j, b);
      ConnectedTransitive(values, i, b, j);
    }
  }

  lemma {:induction false} SameConnections(values: seq<Item>, i: nat, j: nat, n: nat)
    requires n <= |values| && Connected(values, i, j)
    ensures Connections(values, i, n) == Connections(values, j, n)
  {
    if n > 0 {
      SameConnections(values, i, j, n - 1);
      ConnectedSymmetric(values, i, j);
      if Connected(values, i, n - 1) {
        ConnectedTransitive(values, j, i, n - 1);
      }
      if Connected(values, j, n - 1) {
        ConnectedTransitive(values, i, j, n - 1);
      }
    }
  }

  /** Every observation's group is listed at one position, and that group's items are exactly what
      is connected to it, by start and then key. */
  lemma EachInOneGroup(values: seq<Item>, groups: seq<Group>, i: nat)
    requires AreComponents(values, groups) && i < |values|
    ensures exists p :: 0 <= p < |groups| && groups[p] == Component(values, i)
    ensures forall p, q :: 0 <= p < |groups| && 0 <= q < |groups| && groups[p] == groups[q] == Component(values, i) ==> p == q
    ensures multiset(Component(values, i).items) == multiset(Connections(values, i, |values|))
    ensures Sorted(ItemLe, Component(values, i).items)
  {
    assert Component(values, i) in groups;
    ItemLeIsTotalPreorder();
    StableSortSorts(ItemLe, Connections(values, i, |values|));
  }

  lemma ItemLeIsTotalPreorder()
    ensures TotalPreorder(ItemLe)
  {
    StringLeIsTotalPreorder();
  }

  /** The groups do not depend on the order the map of roots is read in. */
  lemma GroupsAreUnique(values: seq<Item>, a: seq<Group>, b: seq<Group>)
    requires AreComponents(values, a) && AreComponents(values, b)
    ensures a == b
  {
    assert forall g :: g in a <==> g in b;
    StrictlySortedIsUnique(a, b);
  }

  lemma {:induction false} StrictlySortedIsUnique(a: seq<Group>, b: seq<Group>)
    requires StrictlySorted(a) && StrictlySorted(b) && forall g :: g in a <==> g in b
    ensures a == b
  {
    if b != [] {
      assert b[0] in a;
    }
    if a != [] {
      assert a[0] in b;
      StringLeIsTotalPreorder();
      EqualWhenBothLe(GroupKey(a[0]), GroupKey(b[0]));
      assert a[0] == b[0];
      assert a == [a[0]] + a[1..] && b == [b[0]] + b[1..];
      forall g ensures g in a[1..] <==> g in b[1..] {
        assert g in a <==> g == a[0] || g in a[1..];
        assert g in b <==> g == b[0] || g in b[1..];
      }
      StrictlySortedIsUnique(a[1..], b[1..]);
    }
  }

  lemma EqualWhenBothLe(a: string, b: string)
    ensures StringLe(a, b) && StringLe(b, a) ==> a == b
  {
    if StringLe(a, b) && StringLe(b, a) {
      StringLeAntisymmetric(a, b);
    }
  }

  // ----- On the recorded keys and identities

  /** Two observations of one key, or that share an identity, are in one group. */
  lemma SharingGroups(values: seq<Item>, i: nat, j: nat)
    requires i < |values| && j < |values|
    requires values[i].key == values[j].key || exists s :: s in values[i].identity && s in values[j].identity
    ensures Component(values, i) == Component(values, j)
  {
    if s :| s in values[i].identity && s in values[j].identity {
      var a :| 0 <= a < |values[i].identity| && values[i].identity[a] == s;
      var b :| 0 <= b < |values[j].identity| && values[j].identity[b] == s;
      assert Overlap(values[i].identity, values[j].identity);
    }
    LinkedIsConnected(values, i, j);
    SameGroupMeansConnected(values, i, j);
  }

  /** Nothing else: two sets of observations without a key or identity in common never share a group. */
  lemma SeparateNeverGroup(values: seq<Item>, side: set<int>, i: nat, j: nat)
    requires i < |values| && j < |values| && i in side && j !in side
    requires forall p: nat, q: nat :: p < |values| && q < |values| && p in side && q !in side ==>
      values[p].key != values[q].key && forall s :: s in values[p].identity ==> s !in values[q].identity
    ensures Component(values, i) != Component(values, j)
  {
    SameGroupMeansConnected(values, i, j);
    if Connected(values, i, j) {
      var path :| IsPath(values, path, i, j);
      PathStays(values, side, path, |path| - 1);
    }
  }

  lemma {:induction false} PathStays(values: seq<Item>, side: set<int>, path: seq<nat>, k: nat)
    requires path != [] && k < |path| && path[0] in side
    requires forall m :: 0 <= m < |path| - 1 ==> Linked(values, path[m], path[m + 1])
    requires forall p: nat, q: nat :: p < |values| && q < |values| && p in side && q !in side ==>
      values[p].key != values[q].key && forall s :: s in values[p].identity ==> s !in values[q].identity
    ensures path[k] in side
  {
    if k > 0 {
      PathStays(values, side, path, k - 1);
      var p, q := path[k - 1], path[k];
      assert Linked(values, p, q);
      if Overlap(values[p].identity, values[q].identity) {
        var a, b :| 0 <= a < |values[p].identity| && 0 <= b < |values[q].identity| && values[p].identity[a] == values[q].identity[b];
        assert values[p].identity[a] in values[p].identity && values[q].identity[b] in values[q].identity;
      }
    }
  }

  /** A group lists its observations by start and then key, and collects all their identities and
      contexts. */
  lemma GroupHolds(items: seq<Item>)
    ensures multiset(GroupOf(items).items) == multiset(items)
    ensures forall p, q :: 0 <= p < q < |items| ==>
      var a, b := GroupOf(items).items[p], GroupOf(items).items[q];
      a.startedAt < b.startedAt || (a.startedAt == b.startedAt && StringLe(a.key, b.key))
    ensures forall s :: s in GroupOf(items).identity <==> exists i :: 0 <= i < |items| && s in items[i].identity
    ensures forall i :: 0 <= i < |items| ==>
      var key := items[i].context.name + [0 as char] + items[i].context.vcenterID;
      key in GroupOf(items).contexts
  {
    ItemLeIsTotalPreorder();
    StableSortSorts(ItemLe, items);
    var sorted := StableSort(ItemLe, items);
    assert forall p, q :: 0 <= p < q < |sorted| ==> ItemLe(sorted[p], sorted[q]);
    forall s ensures s in Identities(items) <==> exists i :: 0 <= i < |items| && s in items[i].identity {
      IdentitiesAre(items, s);
    }
    forall i: nat | i < |items| ensures ContextKey(items[i].context) in Contexts(items) {
      ContextsHold(items, i);
    }
  }

  lemma {:induction false} IdentitiesAre(items: seq<Item>, s: string)
    ensures s in Identities(items) <==> exists i :: 0 <= i < |items| && s in items[i].identity
  {
    if items != [] {
      var n := |items| - 1;
      IdentitiesAre(items[..n], s);
      assert forall i :: 0 <= i < n ==> items[..n][i] == items[i];
    }
  }

  lemma {:induction false} ContextsHold(items: seq<Item>, i: nat)
    requires i < |items|
    ensures ContextKey(items[i].context) in Contexts(items)
  {
    var n := |items| - 1;
    if i < n {
      ContextsHold(items[..n], i);
    }
  }
}
