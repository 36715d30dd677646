/** Who a datastore's growth is attributed to, and that the parts add up to it. */
module Attribution {
  import opened Common
  import opened GrowthFiles
  import opened MergeContributors
  import opened RealSums
  import opened Sorting
  import opened Strings

  const GIB := 1073741824.0

  // ----- Estimates

  predicate OnGroup(vm: CapacityVM, group: Group) {
    exists i :: 0 <= i < |vm.datastores| && InGroup(vm.datastores[i], group)
  }

  function DiskCapacity(disks: seq<Disk>, group: Group): real {
    if disks == [] then 0.0
    else
      var n := |disks| - 1;
      DiskCapacity(disks[..n], group)
      + if disks[n].backing.Some? && InGroup(disks[n].backing.value.datastore, group) then disks[n].capacityBytes as real else 0.0
  }

  function AllCapacity(disks: seq<Disk>): real {
    if disks == [] then 0.0 else AllCapacity(disks[..|disks| - 1]) + disks[|disks| - 1].capacityBytes as real
  }

  function VMSize(vm: CapacityVM): real { if vm.storageGB != 0.0 then vm.storageGB * GIB else AllCapacity(vm.disks) }

  datatype Estimate = Estimate(delta: real, basis: Basis)

  function InferredDelta(before: CapacityVM, after: CapacityVM, group: Group): Option<Estimate> {
    if |after.datastores| == 1 && InGroup(after.datastores[0], group) then
      Some(Estimate((after.storageGB - before.storageGB) * GIB, Inferred))
    else if |after.datastores| > 1 && OnGroup(after, group) then
      Some(Estimate(DiskCapacity(after.disks, group) - DiskCapacity(before.disks, group), Split))
    else None
  }

  function AppearedDelta(vm: CapacityVM, group: Group): Option<Estimate> {
    if |vm.datastores| == 1 && InGroup(vm.datastores[0], group) then Some(Estimate(VMSize(vm), Inferred))
    else if |vm.datastores| > 1 && OnGroup(vm, group) then Some(Estimate(DiskCapacity(vm.disks, group), Split))
    else None
  }

  // ----- Who contributed

  function ByKey(vms: seq<CapacityVM>): VMsByKey {
    if vms == [] then map[] else ByKey(vms[..|vms| - 1])[vms[|vms| - 1].Key() := vms[|vms| - 1]]
  }

  method IndexByKey(vms: seq<CapacityVM>) returns (m: VMsByKey)
    ensures m == ByKey(vms)
  {
    m := map[];
    for i := 0 to |vms|
      invariant m == ByKey(vms[..i])
    {
      assert vms[..i + 1][..i] == vms[..i];
      m := m[vms[i].Key() := vms[i]];
    }
    assert vms[..|vms|] == vms;
  }

  lemma {:induction false} KeysAreNotEmpty(vms: seq<CapacityVM>)
    ensures "" !in ByKey(vms)
  {
    if vms != [] {
      KeysAreNotEmpty(vms[..|vms| - 1]);
    }
  }

  function VMContributor(vm: CapacityVM, name: string, basis: Basis, delta: real, paths: seq<string>): Contributor {
    Contributor(name, vm.context, vm.vcenterID, if vm.isTemplate then TemplateKind else VMKind, basis, delta, SortedCopy(paths))
  }

  /** What the files of a VM in both runs gave, and what they say about it. */
  datatype ExactGrowth = ExactGrowth(deltas: map<string, real>, paths: PathLists, names: map<string, string>)

  function EstimateOf(vm: CapacityVM, e: Option<Estimate>): seq<Contributor> {
    if e.Some? then [VMContributor(vm, vm.name, e.value.basis, e.value.delta, [])] else []
  }

  function Negated(e: Option<Estimate>): Option<Estimate> {
    if e.Some? then Some(e.value.(delta := -e.value.delta)) else None
  }

  function ExactOf(vm: CapacityVM, k: string, e: ExactGrowth): seq<Contributor> {
    [VMContributor(vm, if k in e.names then e.names[k] else "", Exact, Get(e.deltas, k), ListAt(e.paths, k))]
  }

  /** The contributor of one VM, if any: its files when they were read, else an estimate. */
  function Contribution(k: string, before: VMsByKey, after: VMsByKey, e: ExactGrowth, group: Group): seq<Contributor> {
    if k in before && k in after then
      if k in e.deltas then ExactOf(after[k], k, e) else EstimateOf(after[k], InferredDelta(before[k], after[k], group))
    else if k in after then EstimateOf(after[k], AppearedDelta(after[k], group))
    else if k in before then EstimateOf(before[k], Negated(AppearedDelta(before[k], group)))
    else []
  }

  function Contributions(keys: seq<string>, before: VMsByKey, after: VMsByKey, e: ExactGrowth, group: Group): seq<Contributor> {
    if keys == [] then []
    else
      var n := |keys| - 1;
      Contributions(keys[..n], before, after, e, group) + Contribution(keys[n], before, after, e, group)
  }

  function DeltaOrZero(e: Option<Estimate>): real { if e.Some? then e.value.delta else 0.0 }

  /** The estimated growth of a VM whose files do not say: how much more it takes, all of it when
      it appeared, less all of it when it is gone. */
  function Estimated(before: VMsByKey, after: VMsByKey, deltas: map<string, real>, group: Group): string -> real {
    k =>
      if k in before && k in after then if k in deltas then 0.0 else DeltaOrZero(InferredDelta(before[k], after[k], group))
      else if k in after then DeltaOrZero(AppearedDelta(after[k], group))
      else if k in before then -DeltaOrZero(AppearedDelta(before[k], group))
      else 0.0
  }

  lemma SumOfOne(c: Contributor)
    ensures SumBy([c], DeltaOf) == c.delta
  {
    assert [c][..0] == [];
  }

  lemma EstimateDelta(vm: CapacityVM, e: Option<Estimate>)
    ensures SumBy(EstimateOf(vm, e), DeltaOf) == DeltaOrZero(e)
  {
    if e.Some? {
      SumOfOne(EstimateOf(vm, e)[0]);
    }
  }

  lemma ContributionDelta(k: string, before: VMsByKey, after: VMsByKey, e: ExactGrowth, group: Group)
    requires k in e.deltas ==> k in before && k in after
    ensures SumBy(Contribution(k, before, after, e, group), DeltaOf) == Get(e.deltas, k) + Estimated(before, after, e.deltas, group)(k)
  {
    if k in e.deltas {
      SumOfOne(ExactOf(after[k], k, e)[0]);
    } else if k in before && k in after {
      EstimateDelta(after[k], InferredDelta(before[k], after[k], group));
    } else if k in after {
      EstimateDelta(after[k], AppearedDelta(after[k], group));
    } else if k in before {
      EstimateDelta(before[k], Negated(AppearedDelta(before[k], group)));
    }
  }

  lemma {:induction false} ContributionsAddUp(keys: seq<string>, before: VMsByKey, after: VMsByKey, e: ExactGrowth, group: Group)
    requires forall k :: k in e.deltas ==> k in before && k in after
    ensures SumBy(Contributions(keys, before, after, e, group), DeltaOf)
         == SumBy(keys, GetOf(e.deltas)) + SumBy(keys, Estimated(before, after, e.deltas, group))
  {
    if keys != [] {
      var n := |keys| - 1;
      ContributionsAddUp(keys[..n], before, after, e, group);
      ContributionDelta(keys[n], before, after, e, group);
      SumConcat(Contributions(keys[..n], before, after, e, group), Contribution(keys[n], before, after, e, group), DeltaOf);
    }
  }

  method Contribute(keys: seq<string>, before: VMsByKey, after: VMsByKey, e: ExactGrowth, group: Group) returns (out: seq<Contributor>)
    ensures out == Contributions(keys, before, after, e, group)
  {
    out := [];
    for i := 0 to |keys|
      invariant out == Contributions(keys[..i], before, after, e, group)
    {
      assert keys[..i + 1][..i] == keys[..i];
      out := out + Contribution(keys[i], before, after, e, group);
    }
    assert keys[..|keys|] == keys;
  }

  function Self(s: string): string { s }

  method OrderedKeys(before: VMsByKey, after: VMsByKey) returns (ordered: seq<string>)
    ensures NoRepeats(ordered) && forall k :: k in ordered <==> k in before || k in after
  {
    var keys: seq<string> := [];
    var todo := before.Keys + after.Keys;
    while todo != {}
      invariant Left(keys, todo, before.Keys + after.Keys)
    {
      var k :| k in todo;
      LeftNext(keys, todo, before.Keys + after.Keys, k);
      keys := keys + [k];
      todo := todo - {k};
    }
    ordered := SortedCopy(keys);
    SameMembers(ordered, keys);
    assert DistinctBy(Self, keys);
    DistinctAfterReordering(Self, keys, ordered);
    forall i, j | 0 <= i < j < |ordered| ensures ordered[i] != ordered[j] {
      assert Self(ordered[i]) != Self(ordered[j]);
    }
  }

  // ----- The whole attribution

  lemma {:induction false} DeltasAreCommon(order: seq<string>, owner: Owners, common: set<string>, growth: string -> real)
    ensures forall k :: k in DeltasOf(order, owner, common, growth) ==> k in common
  {
    if order != [] {
      DeltasAreCommon(order[..|order| - 1], owner, common, growth);
    }
  }

  /** Where the growth went: the exact growth of the VMs in both runs and the files listed on
      their own. */
  ghost predicate Attributed(group: Group, first: Listing, last: Listing, before: VMsByKey, after: VMsByKey,
      keys: seq<string>, e: ExactGrowth, files: seq<Contributor>)
  {
    && NoRepeats(keys) && (forall k :: k in keys <==> k in before || k in after)
    && Exactly(group, first, last, before.Keys * after.Keys, before, after, e.deltas, e.paths, e.names)
    && ListsOwnerless(group, first, last, before, after, files)
  }

  /** The contributors' total is the exact growth of the VMs, the estimated growth of the others,
      and the growth of the files listed on their own. */
  ghost predicate AddsUp(group: Group, before: VMsByKey, after: VMsByKey, keys: seq<string>, e: ExactGrowth, files: seq<Contributor>,
      out: seq<Contributor>)
  {
    SumBy(out, DeltaOf)
      == SumBy(keys, GetOf(e.deltas)) + SumBy(keys, Estimated(before, after, e.deltas, group)) + SumBy(files, DeltaOf)
  }

  // ----- Whole bytes

  /** The storage of every VM is a whole number of bytes, as vCenter reports it. */
  ghost predicate WholeStorage(vms: seq<CapacityVM>) { forall i :: 0 <= i < |vms| ==> IsWhole(vms[i].storageGB * GIB) }

  ghost predicate WholeStorages(vms: VMsByKey) { forall k :: k in vms ==> IsWhole(vms[k].storageGB * GIB) }

  lemma {:induction false} WholeByKey(vms: seq<CapacityVM>)
    requires WholeStorage(vms)
    ensures WholeStorages(ByKey(vms))
  {
    if vms != [] {
      WholeByKey(vms[..|vms| - 1]);
    }
  }

  lemma {:induction false} WholeDisks(disks: seq<Disk>, group: Group)
    ensures IsWhole(DiskCapacity(disks, group)) && IsWhole(AllCapacity(disks))
  {
    assert IsNumber(0.0, 0);
    if disks != [] {
      var n := |disks| - 1;
      var capacity := disks[n].capacityBytes as real;
      assert IsNumber(capacity, disks[n].capacityBytes);
      WholeDisks(disks[..n], group);
      WholeSum(DiskCapacity(disks[..n], group), capacity);
      WholeSum(AllCapacity(disks[..n]), capacity);
    }
  }

  lemma WholeAppeared(vm: CapacityVM, group: Group)
    requires IsWhole(vm.storageGB * GIB)
    ensures var e := AppearedDelta(vm, group); e.Some? ==> IsWhole(e.value.delta) && IsWhole(-e.value.delta)
  {
    WholeDisks(vm.disks, group);
    assert IsNumber(0.0, 0);
    var e := AppearedDelta(vm, group);
    if e.Some? {
      WholeSum(0.0, e.value.delta);
    }
  }

  lemma WholeInferred(before: CapacityVM, after: CapacityVM, group: Group)
    requires IsWhole(before.storageGB * GIB) && IsWhole(after.storageGB * GIB)
    ensures var e := InferredDelta(before, after, group); e.Some? ==> IsWhole(e.value.delta)
  {
    WholeDisks(before.disks, group);
    WholeDisks(after.disks, group);
    WholeSum(DiskCapacity(after.disks, group), DiskCapacity(before.disks, group));
    WholeSum(after.storageGB * GIB, before.storageGB * GIB);
  }

  ghost predicate WholeAll(deltas: map<string, real>) { forall k :: k in deltas ==> IsWhole(deltas[k]) }

  lemma WholeGet(deltas: map<string, real>, k: string)
    requires WholeAll(deltas)
    ensures IsWhole(Get(deltas, k))
  {
    assert IsNumber(0.0, 0);
  }

  lemma {:induction false} WholeDeltas(order: seq<string>, owner: Owners, common: set<string>, fb: Sizes, fa: Sizes)
    ensures WholeAll(DeltasOf(order, owner, common, Growth(fb, fa)))
  {
    if order != [] {
      var n := |order| - 1;
      var rest, o := DeltasOf(order[..n], owner, common, Growth(fb, fa)), OwnerOf(owner, order[n]);
      WholeDeltas(order[..n], owner, common, fb, fa);
      WholeGrowth(fb, fa, order[n]);
      WholeGet(rest, o);
      WholeSum(Get(rest, o), Growth(fb, fa)(order[n]));
    }
  }

  lemma WholeGrowth(fb: Sizes, fa: Sizes, path: string)
    ensures IsWhole(Growth(fb, fa)(path))
  {
    assert IsNumber(Growth(fb, fa)(path), SizeOf(fa, path) - SizeOf(fb, path));
  }

  lemma {:induction false} WholeFiles(order: seq<string>, owner: Owners, last: Listing, fb: Sizes, fa: Sizes)
    ensures AllWhole(Ownerless(order, owner, last, Growth(fb, fa)))
  {
    if order != [] {
      WholeFiles(order[..|order| - 1], owner, last, fb, fa);
      WholeGrowth(fb, fa, order[|order| - 1]);
    }
  }

  lemma {:induction false} WholeContributions(keys: seq<string>, before: VMsByKey, after: VMsByKey, e: ExactGrowth, group: Group)
    requires WholeStorages(before) && WholeStorages(after) && WholeAll(e.deltas)
    ensures AllWhole(Contributions(keys, before, after, e, group))
  {
    if keys != [] {
      var n := |keys| - 1;
      var k := keys[n];
      WholeContributions(keys[..n], before, after, e, group);
      if k in before && k in after {
        WholeInferred(before[k], after[k], group);
      } else if k in after {
        WholeAppeared(after[k], group);
      } else if k in before {
        WholeAppeared(before[k], group);
      }
      assert AllWhole(Contribution(k, before, after, e, group));
    }
  }

  lemma WholeExact(group: Group, first: Listing, last: Listing, common: set<string>, before: VMsByKey, after: VMsByKey, e: ExactGrowth)
    requires Exactly(group, first, last, common, before, after, e.deltas, e.paths, e.names)
    ensures WholeAll(e.deltas)
  {
    if first.browsed && last.browsed {
      var fb, fa := FilesOf(group, first.runID), FilesOf(group, last.runID);
      var order, owner :| Browsed(order, owner, fb, fa, before, after, group)
        && Tallied(order, owner, common, Growth(fb, fa), after, e.deltas, e.paths, e.names);
      WholeDeltas(order, owner, common, fb, fa);
    }
  }

  lemma WholeOwnerless(group: Group, first: Listing, last: Listing, before: VMsByKey, after: VMsByKey, files: seq<Contributor>)
    requires ListsOwnerless(group, first, last, before, after, files)
    ensures AllWhole(files)
  {
    if first.browsed && last.browsed {
      var fb, fa := FilesOf(group, first.runID), FilesOf(group, last.runID);
      var order, owner :| Browsed(order, owner, fb, fa, before, after, group) && files == Ownerless(order, owner, last, Growth(fb, fa));
      WholeFiles(order, owner, last, fb, fa);
    }
  }

  /** Storage in whole bytes makes all growth whole, whatever was estimated. */
  lemma WholeAttribution(group: Group, first: Listing, last: Listing, firstVMs: seq<CapacityVM>, lastVMs: seq<CapacityVM>,
      keys: seq<string>, e: ExactGrowth, files: seq<Contributor>)
    requires Attributed(group, first, last, ByKey(firstVMs), ByKey(lastVMs), keys, e, files)
    requires WholeStorage(firstVMs) && WholeStorage(lastVMs)
    ensures AllWhole(Contributions(keys, ByKey(firstVMs), ByKey(lastVMs), e, group) + files)
  {
    var before, after := ByKey(firstVMs), ByKey(lastVMs);
    WholeByKey(firstVMs);
    WholeByKey(lastVMs);
    WholeExact(group, first, last, before.Keys * after.Keys, before, after, e);
    WholeOwnerless(group, first, last, before, after, files);
    WholeContributions(keys, before, after, e, group);
  }

  method CommonKeys(ordered: seq<string>, before: VMsByKey, after: VMsByKey) returns (common: set<string>)
    requires forall k :: k in ordered <==> k in before || k in after
    ensures common == before.Keys * after.Keys
  {
    common := {};
    for i := 0 to |ordered|
      invariant forall k :: k in common <==> k in before && k in after && k in ordered[..i]
    {
      if ordered[i] in before && ordered[i] in after {
        common := common + {ordered[i]};
      }
    }
    assert ordered[..|ordered|] == ordered;
  }

  method AttributeGrowth(group: Group, first: Listing, last: Listing, firstVMs: seq<CapacityVM>, lastVMs: seq<CapacityVM>, growth: real)
    returns (out: seq<Contributor>)
    ensures exists keys, e, files ::
      && Attributed(group, first, last, ByKey(firstVMs), ByKey(lastVMs), keys, e, files)
      && AddsUp(group, ByKey(firstVMs), ByKey(lastVMs), keys, e, files, out)
    ensures WholeStorage(firstVMs) && WholeStorage(lastVMs) ==> Sorted(ByGrowth, out)
  {
    var before := IndexByKey(firstVMs);
    var after := IndexByKey(lastVMs);
    var ordered := OrderedKeys(before, after);
    var common := CommonKeys(ordered, before, after);
    var exact, paths, names := ExactFileDeltas(group, first, last, common, before, after);
    ExactAreCommon(group, first, last, common, before, after, exact, paths, names);
    var e := ExactGrowth(exact, paths, names);
    var contributors := Contribute(ordered, before, after, e, group);
    ContributionsAddUp(ordered, before, after, e, group);
    var own := ExactFileContributors(group, first, last, common, before, after);
    SumConcat(contributors, own, DeltaOf);
    contributors := contributors + own;
    assert Attributed(group, first, last, before, after, ordered, e, own);
    assert AddsUp(group, before, after, ordered, e, own, contributors);
    if WholeStorage(firstVMs) && WholeStorage(lastVMs) {
      WholeAttribution(group, first, last, firstVMs, lastVMs, ordered, e, own);
    }
    if |contributors| == 0 && growth == 0.0 {
      return contributors;
    }
    out := Merge(contributors);
    assert AddsUp(group, before, after, ordered, e, own, out);
  }

  lemma ExactAreCommon(group: Group, first: Listing, last: Listing, common: set<string>, before: VMsByKey, after: VMsByKey,
      deltas: map<string, real>, paths: PathLists, names: map<string, string>)
    requires Exactly(group, first, last, common, before, after, deltas, paths, names)
    ensures forall k :: k in deltas ==> k in common
  {
    if first.browsed && last.browsed {
      var fb, fa := FilesOf(group, first.runID), FilesOf(group, last.runID);
      var order, owner :| Browsed(order, owner, fb, fa, before, after, group)
        && Tallied(order, owner, common, Growth(fb, fa), after, deltas, paths, names);
      DeltasAreCommon(order, owner, common, Growth(fb, fa));
    }
  }

  /** With both browses whole, the exact part adds up to the growth of all the files, less that of
      files owned by VMs that one run does not have; in whatever order the maps were read. */
  lemma AttributionBalances(group: Group, first: Listing, last: Listing, firstVMs: seq<CapacityVM>, lastVMs: seq<CapacityVM>,
      keys: seq<string>, e: ExactGrowth, files: seq<Contributor>)
    requires Attributed(group, first, last, ByKey(firstVMs), ByKey(lastVMs), keys, e, files) && first.browsed && last.browsed
    ensures exists order, owner :: Balanced(group, first, last, ByKey(firstVMs), ByKey(lastVMs), keys, e, files, order, owner)
  {
    var before, after := ByKey(firstVMs), ByKey(lastVMs);
    KeysAreNotEmpty(firstVMs);
    KeysAreNotEmpty(lastVMs);
    var fb, fa := FilesOf(group, first.runID), FilesOf(group, last.runID);
    var common := before.Keys * after.Keys;
    var order, owner :| Browsed(order, owner, fb, fa, before, after, group)
      && Tallied(order, owner, common, Growth(fb, fa), after, e.deltas, e.paths, e.names);
    var order2, owner2 :| Browsed(order2, owner2, fb, fa, before, after, group)
      && files == Ownerless(order2, owner2, last, Growth(fb, fa));
    FilesBalance(keys, common, fb, fa, before, after, group, last, order, owner, order2, owner2, Growth(fb, fa));
    assert Balanced(group, first, last, before, after, keys, e, files, order, owner);
  }

  ghost predicate Balanced(group: Group, first: Listing, last: Listing, before: VMsByKey, after: VMsByKey,
      keys: seq<string>, e: ExactGrowth, files: seq<Contributor>, order: seq<string>, owner: Owners)
  {
    var fb, fa := FilesOf(group, first.runID), FilesOf(group, last.runID);
    && Browsed(order, owner, fb, fa, before, after, group)
    && SumBy(keys, GetOf(e.deltas)) + SumBy(files, DeltaOf)
       == SumBy(order, Growth(fb, fa)) - SumBy(order, PassingGrowth(owner, before.Keys * after.Keys, Growth(fb, fa)))
  }

  // ----- What is left

  method TotalOf(contributors: seq<Contributor>) returns (total: real)
    ensures total == SumBy(contributors, DeltaOf)
  {
    total := 0.0;
    for i := 0 to |contributors|
      invariant total == SumBy(contributors[..i], DeltaOf)
    {
      assert contributors[..i + 1][..i] == contributors[..i];
      total := total + contributors[i].delta;
    }
    assert contributors[..|contributors|] == contributors;
  }

  function Rest(delta: real): Contributor { Contributor("unattributed", "", "", FileKind, Unattributed, delta, []) }

  /** The contributors shown add up to the growth, but for at most half a byte. */
  method AddRest(contributors: seq<Contributor>, growth: real) returns (out: seq<Contributor>, unattributed: real)
    ensures unattributed == growth - SumBy(contributors, DeltaOf)
    ensures out == contributors || out == contributors + [Rest(unattributed)]
    ensures out != []
    ensures -0.5 <= growth - SumBy(out, DeltaOf) <= 0.5
    ensures (unattributed > 0.5 || unattributed < -0.5) ==> SumBy(out, DeltaOf) == growth
  {
    var total := TotalOf(contributors);
    unattributed := growth - total;
    out := contributors;
    if unattributed > 0.5 || unattributed < -0.5 || |contributors| == 0 {
      SumPush(contributors, Rest(unattributed), DeltaOf);
      out := contributors + [Rest(unattributed)];
    }
  }

  // ----- Estimates, on the recorded sizes

  predicate IsOn(datastore: string, group: Group) { exists l :: l in group && l.datastore == datastore }

  function Bytes(): Disk -> real { (d: Disk) => d.capacityBytes as real }

  function BytesOn(group: Group): Disk -> real {
    (d: Disk) => if d.backing.Some? && IsOn(d.backing.value.datastore, group) then d.capacityBytes as real else 0.0
  }

  lemma InGroupIs(datastore: string, group: Group)
    ensures InGroup(datastore, group) <==> IsOn(datastore, group)
  {
    if InGroup(datastore, group) {
      var i :| 0 <= i < |group| && group[i].datastore == datastore;
      assert group[i] in group;
    }
  }

  lemma {:induction false} CapacitiesAre(disks: seq<Disk>, group: Group)
    ensures DiskCapacity(disks, group) == SumBy(disks, BytesOn(group)) && AllCapacity(disks) == SumBy(disks, Bytes())
  {
    if disks != [] {
      var n := |disks| - 1;
      CapacitiesAre(disks[..n], group);
      if disks[n].backing.Some? {
        InGroupIs(disks[n].backing.value.datastore, group);
      }
    }
  }

  /** The VM lies on one datastore, and that is of the group; or on several, one of them of the group. */
  predicate OnlyOn(vm: CapacityVM, group: Group) { |vm.datastores| == 1 && IsOn(vm.datastores[0], group) }

  predicate PartlyOn(vm: CapacityVM, group: Group) { |vm.datastores| > 1 && exists d :: d in vm.datastores && IsOn(d, group) }

  lemma OnIs(vm: CapacityVM, group: Group)
    ensures |vm.datastores| == 1 ==> (OnlyOn(vm, group) <==> InGroup(vm.datastores[0], group))
    ensures |vm.datastores| > 1 ==> (PartlyOn(vm, group) <==> OnGroup(vm, group))
  {
    forall d | d in vm.datastores ensures InGroup(d, group) <==> IsOn(d, group) {
      InGroupIs(d, group);
    }
    if d :| d in vm.datastores && IsOn(d, group) {
      var i :| 0 <= i < |vm.datastores| && vm.datastores[i] == d;
      assert InGroup(vm.datastores[i], group);
    }
  }

  /** What a VM that lies on the group takes there: all of it, by its storage, or where that was not
      recorded by its disks; or of a VM that lies partly on it, its disks there. */
  function TakenBy(vm: CapacityVM, group: Group): real {
    if OnlyOn(vm, group) then if vm.storageGB != 0.0 then vm.storageGB * 1_073_741_824.0 else SumBy(vm.disks, Bytes())
    else if PartlyOn(vm, group) then SumBy(vm.disks, BytesOn(group))
    else 0.0
  }

  /** The estimate for a VM whose files do not say: in both runs, how much more storage it has, or disks on
      the group; in one, what it takes there, gained or lost. */
  lemma EstimatedIs(before: VMsByKey, after: VMsByKey, deltas: map<string, real>, group: Group, k: string)
    ensures Estimated(before, after, deltas, group)(k) ==
      if k in before && k in after then
        if k in deltas then 0.0
        else if OnlyOn(after[k], group) then (after[k].storageGB - before[k].storageGB) * 1_073_741_824.0
        else if PartlyOn(after[k], group) then SumBy(after[k].disks, BytesOn(group)) - SumBy(before[k].disks, BytesOn(group))
        else 0.0
      else if k in after then TakenBy(after[k], group)
      else if k in before then -TakenBy(before[k], group)
      else 0.0
  {
    if k in after {
      OnIs(after[k], group);
      CapacitiesAre(after[k].disks, group);
    }
    if k in before {
      OnIs(before[k], group);
      CapacitiesAre(before[k].disks, group);
    }
  }

  lemma {:induction false} IndexedIs(vms: seq<CapacityVM>, k: string)
    ensures k in ByKey(vms) <==> exists i :: 0 <= i < |vms| && vms[i].Key() == k
    ensures k in ByKey(vms) ==> ByKey(vms)[k] in vms && ByKey(vms)[k].Key() == k
  {
    if vms != [] {
      var n := |vms| - 1;
      IndexedIs(vms[..n], k);
      assert forall i :: 0 <= i < n ==> vms[..n][i] == vms[i];
    }
  }

  /** The contributor is the VM, with its name, its place, and what its growth was taken from. */
  predicate IsOfVM(c: Contributor, vm: CapacityVM, basis: Basis) {
    && c.name == vm.name && c.context == vm.context && c.vcenterID == vm.vcenterID
    && c.kind == (if vm.isTemplate then TemplateKind else VMKind) && c.basis == basis
  }

  lemma EstimateIsOfVM(vm: CapacityVM, e: Option<Estimate>)
    ensures |EstimateOf(vm, e)| <= 1
    ensures forall c :: c in EstimateOf(vm, e) ==> IsOfVM(c, vm, e.value.basis) && c.paths == [] && c.delta == e.value.delta
  {
    assert SortedCopy([]) == [];
  }

  lemma BasisIs(before: CapacityVM, after: CapacityVM, group: Group)
    ensures var e := InferredDelta(before, after, group); e.Some? ==> e.value.basis == if OnlyOn(after, group) then Inferred else Split
    ensures var e := AppearedDelta(after, group);
      e.Some? ==> e.value.basis == (if OnlyOn(after, group) then Inferred else Split) && Negated(e) == Some(Estimate(-e.value.delta, e.value.basis))
  {
    OnIs(after, group);
  }

  /** Whose growth it is, and what it is taken from: the files where they were read in both runs, with
      their paths, else an estimate, which says whether the VM lay on one datastore or on several. */
  predicate Tells(c: Contributor, vm: CapacityVM, k: string, e: ExactGrowth, group: Group) {
    if k in e.deltas then IsOfVM(c, vm, Exact) && multiset(c.paths) == multiset(ListAt(e.paths, k)) && c.delta == e.deltas[k]
    else c.paths == [] && IsOfVM(c, vm, if OnlyOn(vm, group) then Inferred else Split)
  }

  /** A VM contributes at most once, as itself: as the last run has it, or the first where the last does
      not. */
  lemma ContributesOnce(k: string, before: VMsByKey, after: VMsByKey, e: ExactGrowth, group: Group)
    requires k in e.deltas ==> k in before && k in after && k in e.names && e.names[k] == after[k].name
    ensures |Contribution(k, before, after, e, group)| <= 1
    ensures forall c :: c in Contribution(k, before, after, e, group) ==>
      (k in after && Tells(c, after[k], k, e, group)) || (k !in after && k in before && Tells(c, before[k], k, e, group))
  {
    if k in after {
      if k in before {
        BasisIs(before[k], after[k], group);
        EstimateIsOfVM(after[k], InferredDelta(before[k], after[k], group));
      } else {
        BasisIs(after[k], after[k], group);
        EstimateIsOfVM(after[k], AppearedDelta(after[k], group));
      }
    } else if k in before {
      BasisIs(before[k], before[k], group);
      EstimateIsOfVM(before[k], Negated(AppearedDelta(before[k], group)));
    }
  }
}
