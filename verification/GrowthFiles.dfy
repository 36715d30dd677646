/** Attributing the growth of a datastore file by file: to the VMs that own the files, or to the
    files themselves. */
module GrowthFiles {
  import opened Common
  import opened RealSums
  import opened Sorting
  import opened Strings

  /** A disk's backing path, split and normalised, when it has one. */
  datatype Backing = Backing(datastore: string, path: string)

  datatype Disk = Disk(backing: Option<Backing>, capacityBytes: int)

  datatype CapacityVM = CapacityVM(
    id: string, name: string, context: string, vcenterID: string, isTemplate: bool,
    disks: seq<Disk>, datastores: seq<string>, storageGB: real)
  {
    /** A VM is known by its ID, or without one by its context and name. */
    function Key(): (key: string)
      ensures key != ""
    {
      if id == "" then vcenterID + NUL + context + NUL + name else vcenterID + NUL + id
    }
  }

  type VMsByKey = map<string, CapacityVM>

  /** A browsed file, its path relative to the datastore when it could be split. */
  datatype File = File(path: Option<string>, sizeBytes: int)

  /** One run's record of the datastore; browsed says its browse succeeded and is whole. */
  datatype Listing = Listing(runID: int, datastore: string, context: string, vcenterID: string, browsed: bool, files: seq<File>)

  type Group = seq<Listing>

  type Sizes = map<string, int>

  datatype Kind = VMKind | TemplateKind | FileKind

  datatype Basis = Exact | Inferred | Split | Unattributed

  datatype Contributor = Contributor(
    name: string, context: string, vcenterID: string, kind: Kind, basis: Basis, delta: real, paths: seq<string>)

  // ----- Files

  function WithFiles(m: Sizes, files: seq<File>): Sizes {
    if files == [] then m
    else
      var n := |files| - 1;
      var rest := WithFiles(m, files[..n]);
      if files[n].path.Some? then rest[files[n].path.value := files[n].sizeBytes] else rest
  }

  /** The file sizes the group's records of a run give; a later record of a path wins. */
  function FilesOf(group: Group, runID: int): Sizes {
    if group == [] then map[]
    else
      var n := |group| - 1;
      var rest := FilesOf(group[..n], runID);
      if group[n].runID == runID && group[n].browsed then WithFiles(rest, group[n].files) else rest
  }

  method AddFiles(m: Sizes, files: seq<File>) returns (out: Sizes)
    ensures out == WithFiles(m, files)
  {
    out := m;
    for i := 0 to |files|
      invariant out == WithFiles(m, files[..i])
    {
      assert files[..i + 1][..i] == files[..i];
      if files[i].path.Some? {
        out := out[files[i].path.value := files[i].sizeBytes];
      }
    }
    assert files[..|files|] == files;
  }

  method FilesForGroup(group: Group, point: Listing) returns (out: Sizes)
    ensures out == FilesOf(group, point.runID)
  {
    out := map[];
    for i := 0 to |group|
      invariant out == FilesOf(group[..i], point.runID)
    {
      assert group[..i + 1][..i] == group[..i];
      if group[i].runID != point.runID || !group[i].browsed {
        continue;
      }
      out := AddFiles(out, group[i].files);
    }
    assert group[..|group|] == group;
  }

  function SizeOf(m: Sizes, path: string): int { if path in m then m[path] else 0 }

  /** How much each path grew. */
  function Growth(before: Sizes, after: Sizes): string -> real {
    path => (SizeOf(after, path) - SizeOf(before, path)) as real
  }

  // ----- Owners

  predicate InGroup(datastore: string, group: Group) {
    exists i :: 0 <= i < |group| && group[i].datastore == datastore
  }

  predicate DiskAt(d: Disk, path: string, group: Group) {
    d.backing.Some? && d.backing.value.path == path && InGroup(d.backing.value.datastore, group)
  }

  predicate HasDisk(vm: CapacityVM, path: string, group: Group) {
    exists i :: 0 <= i < |vm.disks| && DiskAt(vm.disks[i], path, group)
  }

  method HasRelativeDisk(vm: CapacityVM, path: string, group: Group) returns (r: bool)
    ensures r <==> HasDisk(vm, path, group)
  {
    for i := 0 to |vm.disks|
      invariant forall k :: 0 <= k < i ==> !DiskAt(vm.disks[k], path, group)
    {
      var backing := vm.disks[i].backing;
      if backing.None? || backing.value.path != path {
        continue;
      }
      for j := 0 to |group|
        invariant forall k :: 0 <= k < j ==> group[k].datastore != backing.value.datastore
      {
        if backing.value.datastore == group[j].datastore {
          assert DiskAt(vm.disks[i], path, group);
          return true;
        }
      }
    }
    r := false;
  }

  ghost predicate Holds(vms: VMsByKey, key: string, path: string, group: Group) { key in vms && HasDisk(vms[key], path, group) }

  /** A VM of the first run that has the file, else one of the last, else nobody. Which of several
      VMs it is depends on the order the maps are read in. */
  ghost predicate IsOwner(before: VMsByKey, after: VMsByKey, group: Group, path: string, owner: string) {
    if exists k :: Holds(before, k, path, group) then Holds(before, owner, path, group)
    else if exists k :: Holds(after, k, path, group) then Holds(after, owner, path, group)
    else owner == ""
  }

  method AnyHolder(vms: VMsByKey, path: string, group: Group) returns (found: Option<string>)
    ensures found.Some? ==> Holds(vms, found.value, path, group)
    ensures found.None? ==> forall k :: !Holds(vms, k, path, group)
  {
    var todo := vms.Keys;
    while todo != {}
      invariant todo <= vms.Keys
      invariant forall k :: k in vms && k !in todo ==> !HasDisk(vms[k], path, group)
    {
      var key :| key in todo;
      var has := HasRelativeDisk(vms[key], path, group);
      if has {
        return Some(key);
      }
      todo := todo - {key};
    }
    found := None;
  }

  method FileOwner(path: string, group: Group, before: VMsByKey, after: VMsByKey) returns (owner: string)
    ensures IsOwner(before, after, group, path, owner)
  {
    var found := AnyHolder(before, path, group);
    if found.Some? {
      return found.value;
    }
    found := AnyHolder(after, path, group);
    owner := if found.Some? then found.value else "";
  }

  /** Nobody owning a file does not depend on the order the maps are read in. */
  lemma NobodyIsNobody(before: VMsByKey, after: VMsByKey, group: Group, path: string, a: string, b: string)
    requires "" !in before && "" !in after
    requires IsOwner(before, after, group, path, a) && IsOwner(before, after, group, path, b)
    ensures a == "" <==> b == ""
  {
  }

  // ----- Exact growth of the VMs in both runs

  type Owners = map<string, string>

  /** Every path of either run once, each with an owner. */
  ghost predicate Browsed(order: seq<string>, owner: Owners, fb: Sizes, fa: Sizes, before: VMsByKey, after: VMsByKey, group: Group) {
    && NoRepeats(order)
    && (forall p :: p in order <==> p in fb || p in fa)
    && Owned(order, owner, before, after, group)
  }

  ghost predicate Owned(order: seq<string>, owner: Owners, before: VMsByKey, after: VMsByKey, group: Group) {
    forall p :: p in order ==> p in owner && IsOwner(before, after, group, p, owner[p])
  }

  function OwnerOf(owner: Owners, path: string): string { if path in owner then owner[path] else "" }

  predicate Counts(owner: Owners, common: set<string>, path: string) {
    OwnerOf(owner, path) != "" && OwnerOf(owner, path) in common
  }

  function DeltasOf(order: seq<string>, owner: Owners, common: set<string>, growth: string -> real): map<string, real> {
    if order == [] then map[]
    else
      var n := |order| - 1;
      var rest, o := DeltasOf(order[..n], owner, common, growth), OwnerOf(owner, order[n]);
      if Counts(owner, common, order[n]) then rest[o := Get(rest, o) + growth(order[n])] else rest
  }

  type PathLists = map<string, seq<string>>

  function ListAt(m: PathLists, k: string): seq<string> { if k in m then m[k] else [] }

  function PathsOf(order: seq<string>, owner: Owners, common: set<string>): PathLists {
    if order == [] then map[]
    else
      var n := |order| - 1;
      var rest, o := PathsOf(order[..n], owner, common), OwnerOf(owner, order[n]);
      if Counts(owner, common, order[n]) then rest[o := ListAt(rest, o) + [order[n]]] else rest
  }

  /** Every VM with exact growth is named as the last run names it. */
  ghost predicate Named(names: map<string, string>, deltas: map<string, real>, after: VMsByKey) {
    (forall k :: k in deltas ==> k in names) && forall k :: k in names ==> k in after && names[k] == after[k].name
  }

  /** What the loop has tallied of the paths in order. */
  ghost predicate Tallied(order: seq<string>, owner: Owners, common: set<string>, growth: string -> real, after: VMsByKey,
      deltas: map<string, real>, paths: PathLists, names: map<string, string>)
  {
    && deltas == DeltasOf(order, owner, common, growth) && paths == PathsOf(order, owner, common)
    && Named(names, deltas, after)
  }

  lemma {:induction false} OwnersElsewhere(order: seq<string>, owner: Owners, path: string, o: string, common: set<string>, growth: string -> real)
    requires path !in order
    ensures DeltasOf(order, owner[path := o], common, growth) == DeltasOf(order, owner, common, growth)
    ensures PathsOf(order, owner[path := o], common) == PathsOf(order, owner, common)
  {
    if order != [] {
      var n := |order| - 1;
      assert order[n] != path && path !in order[..n];
      OwnersElsewhere(order[..n], owner, path, o, common, growth);
    }
  }

  method TallyPath(path: string, o: string, common: set<string>, growth: string -> real, after: VMsByKey,
      deltas0: map<string, real>, paths0: PathLists, names0: map<string, string>,
      ghost order: seq<string>, ghost owner: Owners)
    returns (deltas: map<string, real>, paths: PathLists, names: map<string, string>)
    requires path !in order && common <= after.Keys
    requires Tallied(order, owner, common, growth, after, deltas0, paths0, names0)
    ensures Tallied(order + [path], owner[path := o], common, growth, after, deltas, paths, names)
  {
    OwnersElsewhere(order, owner, path, o, common, growth);
    assert (order + [path])[..|order|] == order;
    deltas, paths, names := deltas0, paths0, names0;
    if o != "" && o in common {
      deltas := deltas[o := Get(deltas, o) + growth(path)];
      paths := paths[o := ListAt(paths, o) + [path]];
      if o !in names || names[o] == "" {
        names := names[o := after[o].name];
      }
    }
  }

  lemma OwnedNext(order: seq<string>, owner: Owners, before: VMsByKey, after: VMsByKey, group: Group, path: string, o: string)
    requires Owned(order, owner, before, after, group) && path !in order && IsOwner(before, after, group, path, o)
    ensures Owned(order + [path], owner[path := o], before, after, group)
  {
  }

  method TallyPaths(fb: Sizes, fa: Sizes, group: Group, common: set<string>, before: VMsByKey, after: VMsByKey)
    returns (deltas: map<string, real>, paths: PathLists, names: map<string, string>, ghost order: seq<string>, ghost owner: Owners)
    requires common <= before.Keys * after.Keys
    ensures Browsed(order, owner, fb, fa, before, after, group)
    ensures Tallied(order, owner, common, Growth(fb, fa), after, deltas, paths, names)
  {
    deltas, paths, names, order, owner := map[], map[], map[], [], map[];
    var todo := fb.Keys + fa.Keys;
    while todo != {}
      invariant Left(order, todo, fb.Keys + fa.Keys)
      invariant Owned(order, owner, before, after, group)
      invariant Tallied(order, owner, common, Growth(fb, fa), after, deltas, paths, names)
    {
      var path :| path in todo;
      var o := FileOwner(path, group, before, after);
      deltas, paths, names := TallyPath(path, o, common, Growth(fb, fa), after, deltas, paths, names, order, owner);
      OwnedNext(order, owner, before, after, group, path, o);
      LeftNext(order, todo, fb.Keys + fa.Keys, path);
      order, owner := order + [path], owner[path := o];
      todo := todo - {path};
    }
  }

  /** With both browses whole, every path is tallied once, in some order and under some owner it
      has; otherwise nothing is. */
  ghost predicate Exactly(group: Group, first: Listing, last: Listing, common: set<string>, before: VMsByKey, after: VMsByKey,
      deltas: map<string, real>, paths: PathLists, names: map<string, string>)
  {
    var fb, fa := FilesOf(group, first.runID), FilesOf(group, last.runID);
    if first.browsed && last.browsed then
      exists order, owner ::
        Browsed(order, owner, fb, fa, before, after, group) && Tallied(order, owner, common, Growth(fb, fa), after, deltas, paths, names)
    else deltas == map[] && paths == map[] && names == map[]
  }

  method ExactFileDeltas(group: Group, first: Listing, last: Listing, common: set<string>, before: VMsByKey, after: VMsByKey)
    returns (deltas: map<string, real>, paths: PathLists, names: map<string, string>)
    requires common <= before.Keys * after.Keys
    ensures Exactly(group, first, last, common, before, after, deltas, paths, names)
  {
    deltas, paths, names := map[], map[], map[];
    if !first.browsed || !last.browsed {
      return;
    }
    var fb := FilesForGroup(group, first);
    var fa := FilesForGroup(group, last);
    ghost var order, owner;
    deltas, paths, names, order, owner := TallyPaths(fb, fa, group, common, before, after);
  }

  // ----- Files without an owner

  function FileContributor(path: string, last: Listing, growth: string -> real): Contributor {
    Contributor(path, last.context, last.vcenterID, FileKind, Exact, growth(path), [path])
  }

  function Ownerless(order: seq<string>, owner: Owners, last: Listing, growth: string -> real): seq<Contributor> {
    if order == [] then []
    else
      var n := |order| - 1;
      Ownerless(order[..n], owner, last, growth)
      + if OwnerOf(owner, order[n]) == "" then [FileContributor(order[n], last, growth)] else []
  }

  lemma {:induction false} OwnerlessElsewhere(order: seq<string>, owner: Owners, path: string, o: string, last: Listing, growth: string -> real)
    requires path !in order
    ensures Ownerless(order, owner[path := o], last, growth) == Ownerless(order, owner, last, growth)
  {
    if order != [] {
      var n := |order| - 1;
      assert order[n] != path && path !in order[..n];
      OwnerlessElsewhere(order[..n], owner, path, o, last, growth);
    }
  }

  lemma OwnerlessNext(order: seq<string>, owner: Owners, path: string, o: string, last: Listing, growth: string -> real)
    requires path !in order
    ensures Ownerless(order + [path], owner[path := o], last, growth)
         == Ownerless(order, owner, last, growth) + if o == "" then [FileContributor(path, last, growth)] else []
  {
    OwnerlessElsewhere(order, owner, path, o, last, growth);
    assert (order + [path])[..|order|] == order;
  }

  /** With both browses whole, every path nobody owns is listed once, in some order. */
  ghost predicate ListsOwnerless(group: Group, first: Listing, last: Listing, before: VMsByKey, after: VMsByKey, out: seq<Contributor>) {
    var fb, fa := FilesOf(group, first.runID), FilesOf(group, last.runID);
    if first.browsed && last.browsed then
      exists order, owner ::
        Browsed(order, owner, fb, fa, before, after, group) && out == Ownerless(order, owner, last, Growth(fb, fa))
    else out == []
  }

  method ExactFileContributors(group: Group, first: Listing, last: Listing, common: set<string>, before: VMsByKey, after: VMsByKey)
    returns (out: seq<Contributor>)
    ensures ListsOwnerless(group, first, last, before, after, out)
  {
    out := [];
    ghost var order: seq<string>, owner: Owners := [], map[];
    if !first.browsed || !last.browsed {
      return;
    }
    var fb := FilesForGroup(group, first);
    var fa := FilesForGroup(group, last);
    var todo := fb.Keys + fa.Keys;
    while todo != {}
      invariant Left(order, todo, fb.Keys + fa.Keys)
      invariant Owned(order, owner, before, after, group)
      invariant out == Ownerless(order, owner, last, Growth(fb, fa))
    {
      var path :| path in todo;
      var o := FileOwner(path, group, before, after);
      OwnerlessNext(order, owner, path, o, last, Growth(fb, fa));
      OwnedNext(order, owner, before, after, group, path, o);
      LeftNext(order, todo, fb.Keys + fa.Keys, path);
      order, owner := order + [path], owner[path := o];
      todo := todo - {path};
      if o != "" && o in common {
        continue;
      }
      if o != "" {
        continue;
      }
      out := out + [FileContributor(path, last, Growth(fb, fa))];
    }
  }

  // ----- The balance

  function DeltaOf(c: Contributor): real { c.delta }

  function CountedGrowth(owner: Owners, common: set<string>, growth: string -> real): string -> real {
    path => if Counts(owner, common, path) then growth(path) else 0.0
  }

  function OwnerlessGrowth(owner: Owners, growth: string -> real): string -> real {
    path => if OwnerOf(owner, path) == "" then growth(path) else 0.0
  }

  /** The growth of the files of VMs that one of the runs does not have. */
  function PassingGrowth(owner: Owners, common: set<string>, growth: string -> real): string -> real {
    path => if OwnerOf(owner, path) != "" && OwnerOf(owner, path) !in common then growth(path) else 0.0
  }

  /** The exact growth of the VMs adds up to the growth of their files. */
  lemma {:induction false} DeltasAddUp(keys: seq<string>, order: seq<string>, owner: Owners, common: set<string>, growth: string -> real)
    requires NoRepeats(keys) && forall k :: k in common ==> k in keys
    ensures SumBy(keys, GetOf(DeltasOf(order, owner, common, growth))) == SumBy(order, CountedGrowth(owner, common, growth))
  {
    if order == [] {
      SumOfNothing(keys);
    } else {
      var n := |order| - 1;
      DeltasAddUp(keys, order[..n], owner, common, growth);
      if Counts(owner, common, order[n]) {
        var was, now := DeltasOf(order[..n], owner, common, growth), DeltasOf(order, owner, common, growth);
        SumChange(keys, GetOf(was), GetOf(now), OwnerOf(owner, order[n]));
      }
    }
  }

  lemma {:induction false} OwnerlessAddUp(order: seq<string>, owner: Owners, last: Listing, growth: string -> real)
    ensures SumBy(Ownerless(order, owner, last, growth), DeltaOf) == SumBy(order, OwnerlessGrowth(owner, growth))
  {
    if order != [] {
      var n := |order| - 1;
      OwnerlessAddUp(order[..n], owner, last, growth);
      if OwnerOf(owner, order[n]) == "" {
        SumPush(Ownerless(order[..n], owner, last, growth), FileContributor(order[n], last, growth), DeltaOf);
      } else {
        assert Ownerless(order, owner, last, growth) == Ownerless(order[..n], owner, last, growth);
      }
    }
  }

  /** Both lookups agree on which files nobody owns. */
  lemma SameOwnerless(fb: Sizes, fa: Sizes, before: VMsByKey, after: VMsByKey, group: Group,
      order: seq<string>, owner: Owners, order2: seq<string>, owner2: Owners, growth: string -> real)
    requires "" !in before && "" !in after
    requires Browsed(order, owner, fb, fa, before, after, group) && Browsed(order2, owner2, fb, fa, before, after, group)
    ensures SumBy(order2, OwnerlessGrowth(owner2, growth)) == SumBy(order, OwnerlessGrowth(owner, growth))
  {
    SameThings(order, order2);
    SumAnyOrder(order2, order, OwnerlessGrowth(owner2, growth));
    forall i | 0 <= i < |order| ensures OwnerlessGrowth(owner2, growth)(order[i]) == OwnerlessGrowth(owner, growth)(order[i]) {
      AgreeOnNobody(fb, fa, before, after, group, order, owner, order2, owner2, order[i]);
    }
    SumEqual(order, OwnerlessGrowth(owner2, growth), OwnerlessGrowth(owner, growth));
  }

  lemma AgreeOnNobody(fb: Sizes, fa: Sizes, before: VMsByKey, after: VMsByKey, group: Group,
      order: seq<string>, owner: Owners, order2: seq<string>, owner2: Owners, path: string)
    requires "" !in before && "" !in after && path in order
    requires Browsed(order, owner, fb, fa, before, after, group) && Browsed(order2, owner2, fb, fa, before, after, group)
    ensures path in order2 && (OwnerOf(owner, path) == "" <==> OwnerOf(owner2, path) == "")
  {
    assert path in order2;
    NobodyIsNobody(before, after, group, path, owner[path], owner2[path]);
  }

  /** A file's growth is counted for a VM, listed on its own, or passed over. */
  lemma ThreeWays(order: seq<string>, owner: Owners, common: set<string>, growth: string -> real)
    ensures SumBy(order, growth) == SumBy(order, CountedGrowth(owner, common, growth))
         + SumBy(order, OwnerlessGrowth(owner, growth)) + SumBy(order, PassingGrowth(owner, common, growth))
  {
    var rest := path => OwnerlessGrowth(owner, growth)(path) + PassingGrowth(owner, common, growth)(path);
    SumOfTwo(order, rest, OwnerlessGrowth(owner, growth), PassingGrowth(owner, common, growth));
    SumOfTwo(order, growth, CountedGrowth(owner, common, growth), rest);
  }

  /** Whatever order the maps were read in, and though each of the two loops looked up the owners
      for itself, the growth of all the files is the exact growth of the VMs, plus the growth of
      the files listed on their own, plus that of the files whose owner is not in both runs. */
  lemma FilesBalance(keys: seq<string>, common: set<string>, fb: Sizes, fa: Sizes, before: VMsByKey, after: VMsByKey, group: Group,
      last: Listing, order: seq<string>, owner: Owners, order2: seq<string>, owner2: Owners, growth: string -> real)
    requires "" !in before && "" !in after
    requires NoRepeats(keys) && forall k :: k in common ==> k in keys
    requires Browsed(order, owner, fb, fa, before, after, group) && Browsed(order2, owner2, fb, fa, before, after, group)
    ensures SumBy(order, growth) == SumBy(keys, GetOf(DeltasOf(order, owner, common, growth)))
        + SumBy(Ownerless(order2, owner2, last, growth), DeltaOf) + SumBy(order, PassingGrowth(owner, common, growth))
  {
    DeltasAddUp(keys, order, owner, common, growth);
    OwnerlessAddUp(order2, owner2, last, growth);
    SameOwnerless(fb, fa, before, after, group, order, owner, order2, owner2, growth);
    ThreeWays(order, owner, common, growth);
  }

  /** The paths of the VMs are those counted, each under its owner. */
  lemma {:induction false} PathsAreCounted(order: seq<string>, owner: Owners, common: set<string>, k: string, path: string)
    requires NoRepeats(order)
    ensures path in ListAt(PathsOf(order, owner, common), k)
      <==> path in order && Counts(owner, common, path) && OwnerOf(owner, path) == k
    ensures NoRepeats(ListAt(PathsOf(order, owner, common), k))
  {
    if order != [] {
      var n := |order| - 1;
      assert order == order[..n] + [order[n]];
      PathsAreCounted(order[..n], owner, common, k, path);
      PathsAreCounted(order[..n], owner, common, k, order[n]);
      assert order[n] !in order[..n];
    }
  }

  lemma {:induction false} OwnerlessPaths(order: seq<string>, owner: Owners, last: Listing, growth: string -> real, c: Contributor)
    requires c in Ownerless(order, owner, last, growth)
    ensures |c.paths| == 1 && c.paths[0] in order && OwnerOf(owner, c.paths[0]) == ""
  {
    var n := |order| - 1;
    if c in Ownerless(order[..n], owner, last, growth) {
      OwnerlessPaths(order[..n], owner, last, growth, c);
    }
  }

  /** No path is counted for two VMs. */
  lemma NoPathForTwoVMs(order: seq<string>, owner: Owners, common: set<string>, j: string, k: string, path: string)
    requires NoRepeats(order) && j != k && path in ListAt(PathsOf(order, owner, common), k)
    ensures path !in ListAt(PathsOf(order, owner, common), j)
  {
    PathsAreCounted(order, owner, common, k, path);
    PathsAreCounted(order, owner, common, j, path);
  }

  lemma OwnedIsNotListed(order: seq<string>, owner: Owners, last: Listing, growth: string -> real, path: string, c: Contributor)
    requires OwnerOf(owner, path) != "" && c in Ownerless(order, owner, last, growth)
    ensures path !in c.paths
  {
    OwnerlessPaths(order, owner, last, growth, c);
  }

  lemma CountedIsBrowsed(order: seq<string>, owner: Owners, common: set<string>, k: string, path: string)
    requires NoRepeats(order) && path in ListAt(PathsOf(order, owner, common), k)
    ensures path in order && OwnerOf(owner, path) != ""
  {
    PathsAreCounted(order, owner, common, k, path);
  }

  /** No path is counted for a VM and listed as a file as well. */
  lemma NoPathTwice(fb: Sizes, fa: Sizes, before: VMsByKey, after: VMsByKey, group: Group, common: set<string>, last: Listing,
      order: seq<string>, owner: Owners, order2: seq<string>, owner2: Owners, growth: string -> real, k: string, path: string, c: Contributor)
    requires "" !in before && "" !in after
    requires Browsed(order, owner, fb, fa, before, after, group) && Browsed(order2, owner2, fb, fa, before, after, group)
    requires path in ListAt(PathsOf(order, owner, common), k) && c in Ownerless(order2, owner2, last, growth)
    ensures path !in c.paths
  {
    CountedIsBrowsed(order, owner, common, k, path);
    AgreeOnNobody(fb, fa, before, after, group, order, owner, order2, owner2, path);
    OwnedIsNotListed(order2, owner2, last, growth, path, c);
  }

  // ----- On the recorded files

  /** Two VMs with IDs are one exactly when they have one ID in one vCenter. */
  lemma SameVMExactlyWhen(a: CapacityVM, b: CapacityVM)
    requires a.id != "" && b.id != "" && Plain(a.vcenterID) && Plain(b.vcenterID)
    ensures a.Key() == b.Key() <==> a.vcenterID == b.vcenterID && a.id == b.id
  {
    if a.Key() == b.Key() {
      JoinSplits(a.vcenterID, a.id, b.vcenterID, b.id);
    }
  }

  /** A path grew by what it takes in the last run, less what it took in the first; a path a run does not
      have takes nothing. */
  lemma GrowthIs(before: Sizes, after: Sizes, path: string)
    ensures path in before && path in after ==> Growth(before, after)(path) == (after[path] - before[path]) as real
    ensures path !in before && path in after ==> Growth(before, after)(path) == after[path] as real
    ensures path in before && path !in after ==> Growth(before, after)(path) == -(before[path] as real)
  {
  }

  /** File f of record g: of that run, browsed, and at the path. */
  predicate FileAt(group: Group, runID: int, path: string, g: int, f: int) {
    && 0 <= g < |group| && group[g].runID == runID && group[g].browsed
    && 0 <= f < |group[g].files| && group[g].files[f].path == Some(path)
  }

  /** The last such file. */
  ghost predicate LastFileAt(group: Group, runID: int, path: string, g: int, f: int) {
    && FileAt(group, runID, path, g, f)
    && forall h, k :: FileAt(group, runID, path, h, k) ==> h < g || (h == g && k <= f)
  }

  lemma {:induction false} WithFilesIs(m: Sizes, files: seq<File>, path: string)
    ensures path in WithFiles(m, files) <==> path in m || exists f :: 0 <= f < |files| && files[f].path == Some(path)
    ensures forall f :: 0 <= f < |files| && files[f].path == Some(path) && (forall k :: f < k < |files| ==> files[k].path != Some(path)) ==>
      path in WithFiles(m, files) && WithFiles(m, files)[path] == files[f].sizeBytes
    ensures (forall f :: 0 <= f < |files| ==> files[f].path != Some(path)) && path in m ==> WithFiles(m, files)[path] == m[path]
  {
    if files != [] {
      var n := |files| - 1;
      WithFilesIs(m, files[..n], path);
      assert forall f :: 0 <= f < n ==> files[..n][f] == files[f];
    }
  }

  /** A run has the files of its browsed records, each of the size its last record gives. */
  lemma {:induction false} FilesAre(group: Group, runID: int, path: string)
    ensures path in FilesOf(group, runID) <==> exists g, f :: FileAt(group, runID, path, g, f)
    ensures forall g, f :: LastFileAt(group, runID, path, g, f) ==>
      path in FilesOf(group, runID) && FilesOf(group, runID)[path] == group[g].files[f].sizeBytes
  {
    if group != [] {
      var n := |group| - 1;
      var front, last := group[..n], group[n];
      FilesAre(front, runID, path);
      WithFilesIs(FilesOf(front, runID), last.files, path);
      forall g, f ensures FileAt(group, runID, path, g, f) <==>
        FileAt(front, runID, path, g, f) || (g == n && last.runID == runID && last.browsed && 0 <= f < |last.files| && last.files[f].path == Some(path)) {
      }
      if path in FilesOf(front, runID) {
        var g, f :| FileAt(front, runID, path, g, f);
        assert FileAt(group, runID, path, g, f);
      }
      if last.runID == runID && last.browsed {
        if f :| 0 <= f < |last.files| && last.files[f].path == Some(path) {
          assert FileAt(group, runID, path, n, f);
        }
      }
      forall g, f | LastFileAt(group, runID, path, g, f)
        ensures path in FilesOf(group, runID) && FilesOf(group, runID)[path] == group[g].files[f].sizeBytes
      {
        LastOfMore(group, runID, path, g, f);
      }
    }
  }

  lemma LastOfMore(group: Group, runID: int, path: string, g: int, f: int)
    requires group != [] && LastFileAt(group, runID, path, g, f)
    requires var front := group[..|group| - 1];
      forall g, f :: LastFileAt(front, runID, path, g, f) ==>
        path in FilesOf(front, runID) && FilesOf(front, runID)[path] == front[g].files[f].sizeBytes
    ensures path in FilesOf(group, runID) && FilesOf(group, runID)[path] == group[g].files[f].sizeBytes
  {
    var n := |group| - 1;
    var front, last := group[..n], group[n];
    WithFilesIs(FilesOf(front, runID), last.files, path);
    if g == n {
      forall k | f < k < |last.files| ensures last.files[k].path != Some(path) {
        assert !FileAt(group, runID, path, n, k);
      }
    } else {
      forall h, k | FileAt(front, runID, path, h, k) ensures h < g || (h == g && k <= f) {
        assert FileAt(group, runID, path, h, k);
      }
      assert LastFileAt(front, runID, path, g, f);
      forall k | 0 <= k < |last.files| && last.runID == runID && last.browsed ensures last.files[k].path != Some(path) {
        assert !FileAt(group, runID, path, n, k);
      }
    }
  }

  /** An owner has a disk with that path on a datastore of the group. */
  lemma OwnersHaveTheDisk(before: VMsByKey, after: VMsByKey, group: Group, path: string, owner: string)
    requires IsOwner(before, after, group, path, owner) && owner != ""
    ensures (owner in before && exists d, l :: d in before[owner].disks && l in group && d.backing == Some(Backing(l.datastore, path)))
         || (owner in after && exists d, l :: d in after[owner].disks && l in group && d.backing == Some(Backing(l.datastore, path)))
  {
    var vms := if Holds(before, owner, path, group) then before else after;
    var i :| 0 <= i < |vms[owner].disks| && DiskAt(vms[owner].disks[i], path, group);
    var d := vms[owner].disks[i];
    var j :| 0 <= j < |group| && group[j].datastore == d.backing.value.datastore;
    assert d in vms[owner].disks && group[j] in group && d.backing == Some(Backing(group[j].datastore, path));
  }
}
