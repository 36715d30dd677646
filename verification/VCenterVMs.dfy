/** Reducing the contexts that reach one vCenter to one observation per VM on each side of a diff. */
module VCenterVMs {
  import opened Inventory
  import opened Sorting
  import opened Strings

  /** One context's comparable VMs in one capture. */
  datatype ContextVMs = ContextVMs(name: string, vms: seq<StoredVM>)

  predicate IsSpace(c: char) { c == ' ' || '\t' <= c <= '\r' }

  function TrimLeft(s: string): string { if s != "" && IsSpace(s[0]) then TrimLeft(s[1..]) else s }

  function TrimRight(s: string): string { if s != "" && IsSpace(s[|s| - 1]) then TrimRight(s[..|s| - 1]) else s }

  function ContextKey(name: string): string { Lower(TrimRight(TrimLeft(name))) }

  // ----- Which contexts are compared

  function Keys(side: seq<ContextVMs>): set<string> { set c | c in side :: ContextKey(c.name) }

  function KeepShared(side: seq<ContextVMs>, shared: set<string>): seq<ContextVMs> {
    if side == [] then []
    else
      var n := |side| - 1;
      KeepShared(side[..n], shared) + if ContextKey(side[n].name) in shared then [side[n]] else []
  }

  function OneSided(side: seq<ContextVMs>, shared: set<string>, scope: string): seq<CoverageIssue> {
    if side == [] then []
    else
      var n := |side| - 1;
      OneSided(side[..n], shared, scope)
      + if ContextKey(side[n].name) in shared then []
        else [CoverageIssue(scope, side[n].name, side[n].name + " was recorded only in " + scope + ": its VMs are not compared")]
  }

  /** The contexts both sides recorded, or every one when they share none. */
  function Compared(side: seq<ContextVMs>, other: seq<ContextVMs>): seq<ContextVMs> {
    if Keys(side) * Keys(other) == {} then side else KeepShared(side, Keys(side) * Keys(other))
  }

  function Uncompared(base: seq<ContextVMs>, target: seq<ContextVMs>): seq<CoverageIssue> {
    var shared := Keys(base) * Keys(target);
    if shared == {} then [] else OneSided(base, shared, "baseline") + OneSided(target, shared, "target")
  }

  datatype CoverageIssue = CoverageIssue(scope: string, context: string, message: string)

  function Messages(issues: seq<CoverageIssue>): seq<string> { seq(|issues|, i requires 0 <= i < |issues| => issues[i].message) }

  lemma MessagesConcat(a: seq<CoverageIssue>, b: seq<CoverageIssue>)
    ensures Messages(a + b) == Messages(a) + Messages(b)
  {
  }

  /** The part of a diff that says what was left out of it. */
  class Diff {
    var warnings: seq<string>
    var coverage: seq<CoverageIssue>

    constructor ()
      ensures warnings == [] && coverage == []
    {
      warnings, coverage := [], [];
    }
  }

  method SharedContexts(side: seq<ContextVMs>, shared: set<string>, scope: string, d: Diff) returns (out: seq<ContextVMs>)
    modifies d
    ensures out == KeepShared(side, shared)
    ensures d.coverage == old(d.coverage) + OneSided(side, shared, scope)
    ensures d.warnings == old(d.warnings) + Messages(OneSided(side, shared, scope))
  {
    out := [];
    for i := 0 to |side|
      invariant out == KeepShared(side[..i], shared)
      invariant d.coverage == old(d.coverage) + OneSided(side[..i], shared, scope)
      invariant d.warnings == old(d.warnings) + Messages(OneSided(side[..i], shared, scope))
    {
      assert side[..i + 1][..i] == side[..i];
      if ContextKey(side[i].name) in shared {
        out := out + [side[i]];
        continue;
      }
      var msg := side[i].name + " was recorded only in " + scope + ": its VMs are not compared";
      d.warnings := d.warnings + [msg];
      d.coverage := d.coverage + [CoverageIssue(scope, side[i].name, msg)];
    }
    assert side[..|side|] == side;
  }

  // ----- Which contexts recorded a VM

  function ContextRecorders(name: string, vms: seq<StoredVM>, id: string): seq<string> {
    if vms == [] then []
    else
      var n := |vms| - 1;
      ContextRecorders(name, vms[..n], id) + if vms[n].observation.vm.id == id then [name] else []
  }

  function Recorders(side: seq<ContextVMs>, id: string): seq<string> {
    if side == [] then []
    else
      var n := |side| - 1;
      Recorders(side[..n], id) + ContextRecorders(side[n].name, side[n].vms, id)
  }

  /** The sorted names of the contexts that recorded the VM. */
  function Seen(side: seq<ContextVMs>, id: string): seq<string> { SortedCopy(Recorders(side, id)) }

  function Names(m: map<string, seq<string>>, id: string): seq<string> { if id in m then m[id] else [] }

  /** The map lists the recorders of every VM among some contexts and the first VMs of one more. */
  ghost predicate Lists(m: map<string, seq<string>>, before: seq<ContextVMs>, name: string, vms: seq<StoredVM>) {
    forall id :: ListsOf(m, before, name, vms, id)
  }

  ghost predicate ListsOf(m: map<string, seq<string>>, before: seq<ContextVMs>, name: string, vms: seq<StoredVM>, id: string) {
    Names(m, id) == Recorders(before, id) + ContextRecorders(name, vms, id)
  }

  lemma ListsOfNext(m: map<string, seq<string>>, before: seq<ContextVMs>, name: string, vms: seq<StoredVM>, vm: StoredVM, id: string)
    requires ListsOf(m, before, name, vms, id)
    ensures ListsOf(if vm.observation.vm.id == id then m[id := Names(m, id) + [name]] else m, before, name, vms + [vm], id)
  {
    assert (vms + [vm])[..|vms|] == vms;
  }

  lemma ListsNext(m: map<string, seq<string>>, before: seq<ContextVMs>, name: string, vms: seq<StoredVM>, j: nat)
    requires j < |vms| && Lists(m, before, name, vms[..j])
    ensures Lists(m[vms[j].observation.vm.id := Names(m, vms[j].observation.vm.id) + [name]], before, name, vms[..j + 1])
  {
    var key := vms[j].observation.vm.id;
    var more, upTo := m[key := Names(m, key) + [name]], vms[..j + 1];
    assert upTo == vms[..j] + [vms[j]];
    forall id ensures ListsOf(more, before, name, upTo, id) {
      ListsOfNext(m, before, name, vms[..j], vms[j], id);
    }
  }

  method AddContext(m: map<string, seq<string>>, c: ContextVMs, ghost before: seq<ContextVMs>)
    returns (out: map<string, seq<string>>)
    requires forall id :: Names(m, id) == Recorders(before, id)
    ensures forall id :: Names(out, id) == Recorders(before + [c], id)
  {
    out := m;
    for j := 0 to |c.vms|
      invariant Lists(out, before, c.name, c.vms[..j])
    {
      ListsNext(out, before, c.name, c.vms, j);
      out := out[c.vms[j].observation.vm.id := Names(out, c.vms[j].observation.vm.id) + [c.name]];
    }
    assert c.vms[..|c.vms|] == c.vms && (before + [c])[..|before|] == before;
    forall id ensures Names(out, id) == Recorders(before + [c], id) {
      assert ListsOf(out, before, c.name, c.vms, id);
    }
  }

  method SortEach(m: map<string, seq<string>>) returns (out: map<string, seq<string>>)
    ensures out.Keys == m.Keys && forall id :: id in m ==> out[id] == SortedCopy(m[id])
  {
    out := m;
    var todo := m.Keys;
    while todo != {}
      invariant todo <= out.Keys == m.Keys
      invariant forall id :: id in m ==> out[id] == if id in todo then m[id] else SortedCopy(m[id])
    {
      var id :| id in todo;
      out := out[id := SortedCopy(out[id])];
      todo := todo - {id};
    }
  }

  method VMContexts(side: seq<ContextVMs>) returns (out: map<string, seq<string>>)
    ensures forall id :: Names(out, id) == Seen(side, id)
  {
    out := map[];
    for i := 0 to |side|
      invariant forall id :: Names(out, id) == Recorders(side[..i], id)
    {
      out := AddContext(out, side[i], side[..i]);
      assert side[..i + 1] == side[..i] + [side[i]];
    }
    assert side[..|side|] == side;
    out := SortEach(out);
  }

  // ----- Which of them the VM is taken from

  predicate HasCounterpart(name: string, other: seq<string>) {
    exists k :: 0 <= k < |other| && ContextKey(other[k]) == ContextKey(name)
  }

  /** The first name with a counterpart, or the first when none has one. */
  ghost predicate IsChosen(names: seq<string>, other: seq<string>, r: string) {
    if exists i :: 0 <= i < |names| && HasCounterpart(names[i], other) then
      exists i :: 0 <= i < |names| && r == names[i] && HasCounterpart(names[i], other)
        && forall k :: 0 <= k < i ==> !HasCounterpart(names[k], other)
    else r == if names == [] then "" else names[0]
  }

  function Chosen(names: seq<string>, other: seq<string>): string {
    FirstShared(names, other, 0)
  }

  function FirstShared(names: seq<string>, other: seq<string>, i: nat): string
    requires i <= |names|
    decreases |names| - i
  {
    if i == |names| then if names == [] then "" else names[0]
    else if HasCounterpart(names[i], other) then names[i]
    else FirstShared(names, other, i + 1)
  }

  lemma {:induction false} FirstSharedIsChosen(names: seq<string>, other: seq<string>, i: nat)
    requires i <= |names| && forall k :: 0 <= k < i ==> !HasCounterpart(names[k], other)
    ensures IsChosen(names, other, FirstShared(names, other, i))
    decreases |names| - i
  {
    if i < |names| && !HasCounterpart(names[i], other) {
      FirstSharedIsChosen(names, other, i + 1);
    }
  }

  /** The choice is the first name, in order, that has a counterpart, and there is only one such. */
  lemma ChosenIsFirst(names: seq<string>, other: seq<string>)
    ensures forall r :: IsChosen(names, other, r) <==> r == Chosen(names, other)
  {
    FirstSharedIsChosen(names, other, 0);
  }

  method ChosenContext(names: seq<string>, other: seq<string>) returns (r: string)
    ensures IsChosen(names, other, r)
  {
    for i := 0 to |names|
      invariant forall k :: 0 <= k < i ==> !HasCounterpart(names[k], other)
    {
      for k := 0 to |other|
        invariant forall m :: 0 <= m < k ==> ContextKey(other[m]) != ContextKey(names[i])
      {
        if ContextKey(other[k]) == ContextKey(names[i]) {
          assert HasCounterpart(names[i], other);
          return names[i];
        }
      }
    }
    r := if names == [] then "" else names[0];
  }

  /** The context a side takes the VM from. */
  function TakenFrom(side: seq<ContextVMs>, other: seq<ContextVMs>, id: string): string {
    Chosen(Seen(side, id), Seen(other, id))
  }

  function PickVMs(name: string, vms: seq<StoredVM>, side: seq<ContextVMs>, other: seq<ContextVMs>): seq<StoredVM> {
    if vms == [] then []
    else
      var n := |vms| - 1;
      PickVMs(name, vms[..n], side, other)
      + if TakenFrom(side, other, vms[n].observation.vm.id) == name then [vms[n]] else []
  }

  function PickFrom(contexts: seq<ContextVMs>, side: seq<ContextVMs>, other: seq<ContextVMs>): seq<StoredVM> {
    if contexts == [] then []
    else
      var n := |contexts| - 1;
      PickFrom(contexts[..n], side, other) + PickVMs(contexts[n].name, contexts[n].vms, side, other)
  }

  /** The map lists what a side's contexts recorded. */
  ghost predicate IsSeen(m: map<string, seq<string>>, side: seq<ContextVMs>) {
    forall id :: Names(m, id) == Seen(side, id)
  }

  method IsTakenFrom(c: string, id: string, side: seq<ContextVMs>, other: seq<ContextVMs>,
      seen: map<string, seq<string>>, seenOther: map<string, seq<string>>) returns (taken: bool)
    requires IsSeen(seen, side) && IsSeen(seenOther, other)
    ensures taken <==> TakenFrom(side, other, id) == c
  {
    var chosen := ChosenContext(Names(seen, id), Names(seenOther, id));
    ChosenIsFirst(Seen(side, id), Seen(other, id));
    taken := chosen == c;
  }

  lemma PickVMsNext(name: string, vms: seq<StoredVM>, j: nat, side: seq<ContextVMs>, other: seq<ContextVMs>)
    requires j < |vms|
    ensures PickVMs(name, vms[..j + 1], side, other) == PickVMs(name, vms[..j], side, other)
      + if TakenFrom(side, other, vms[j].observation.vm.id) == name then [vms[j]] else []
  {
    assert vms[..j + 1][..j] == vms[..j];
  }

  method PickContext(c: ContextVMs, side: seq<ContextVMs>, other: seq<ContextVMs>,
      seen: map<string, seq<string>>, seenOther: map<string, seq<string>>) returns (out: seq<StoredVM>)
    requires IsSeen(seen, side) && IsSeen(seenOther, other)
    ensures out == PickVMs(c.name, c.vms, side, other)
  {
    out := [];
    for j := 0 to |c.vms|
      invariant out == PickVMs(c.name, c.vms[..j], side, other)
    {
      PickVMsNext(c.name, c.vms, j, side, other);
      var taken := IsTakenFrom(c.name, c.vms[j].observation.vm.id, side, other, seen, seenOther);
      if taken {
        out := out + [c.vms[j]];
      }
    }
    assert c.vms[..|c.vms|] == c.vms;
  }

  method Pick(side: seq<ContextVMs>, other: seq<ContextVMs>, seen: map<string, seq<string>>, seenOther: map<string, seq<string>>)
    returns (out: seq<StoredVM>)
    requires IsSeen(seen, side) && IsSeen(seenOther, other)
    ensures out == PickFrom(side, side, other)
  {
    out := [];
    for i := 0 to |side|
      invariant out == PickFrom(side[..i], side, other)
    {
      var vms := PickContext(side[i], side, other, seen, seenOther);
      out := out + vms;
      assert side[..i + 1][..i] == side[..i];
    }
    assert side[..|side|] == side;
  }

  method SharedKeys(base: seq<ContextVMs>, target: seq<ContextVMs>) returns (shared: set<string>)
    ensures shared == Keys(base) * Keys(target)
  {
    shared := {};
    var baseNames := {};
    for i := 0 to |base|
      invariant baseNames == Keys(base[..i])
    {
      baseNames := baseNames + {ContextKey(base[i].name)};
      assert base[..i + 1] == base[..i] + [base[i]];
    }
    assert base[..|base|] == base;
    for i := 0 to |target|
      invariant shared == baseNames * Keys(target[..i])
    {
      assert target[..i + 1] == target[..i] + [target[i]];
      if ContextKey(target[i].name) in baseNames {
        shared := shared + {ContextKey(target[i].name)};
      }
    }
    assert target[..|target|] == target;
  }

  /** The reduction of the two sides, with a warning for every context only one side recorded. */
  method Reduce(base: seq<ContextVMs>, target: seq<ContextVMs>, d: Diff) returns (b: seq<StoredVM>, t: seq<StoredVM>)
    modifies d
    ensures b == PickFrom(Compared(base, target), Compared(base, target), Compared(target, base))
    ensures t == PickFrom(Compared(target, base), Compared(target, base), Compared(base, target))
    ensures d.coverage == old(d.coverage) + Uncompared(base, target)
    ensures d.warnings == old(d.warnings) + Messages(Uncompared(base, target))
  {
    var left, right := CompareShared(base, target, d);
    var baseSeen := VMContexts(left);
    var targetSeen := VMContexts(right);
    b := Pick(left, right, baseSeen, targetSeen);
    t := Pick(right, left, targetSeen, baseSeen);
  }

  method CompareShared(base: seq<ContextVMs>, target: seq<ContextVMs>, d: Diff) returns (left: seq<ContextVMs>, right: seq<ContextVMs>)
    modifies d
    ensures left == Compared(base, target) && right == Compared(target, base)
    ensures d.coverage == old(d.coverage) + Uncompared(base, target)
    ensures d.warnings == old(d.warnings) + Messages(Uncompared(base, target))
  {
    var shared := SharedKeys(base, target);
    assert Keys(target) * Keys(base) == shared;
    left, right := base, target;
    if |shared| > 0 {
      left := SharedContexts(base, shared, "baseline", d);
      right := SharedContexts(target, shared, "target", d);
      MessagesConcat(OneSided(base, shared, "baseline"), OneSided(target, shared, "target"));
      Associate(old(d.coverage), OneSided(base, shared, "baseline"), OneSided(target, shared, "target"));
      Associate(old(d.warnings), Messages(OneSided(base, shared, "baseline")), Messages(OneSided(target, shared, "target")));
    } else {
      assert Uncompared(base, target) == [];
    }
  }

  lemma Associate<T>(a: seq<T>, b: seq<T>, c: seq<T>)
    ensures (a + b) + c == a + (b + c)
  {
  }

  // ----- Each VM once

  function ID(vm: StoredVM): string { vm.observation.vm.id }

  function Name(c: ContextVMs): string { c.name }

  ghost predicate Records(c: ContextVMs, id: string) { exists k :: 0 <= k < |c.vms| && ID(c.vms[k]) == id }

  ghost predicate RecordedBy(side: seq<ContextVMs>, name: string, id: string) {
    exists c :: c in side && c.name == name && Records(c, id)
  }

  function CountID(vms: seq<StoredVM>, id: string): nat {
    if vms == [] then 0 else CountID(vms[..|vms| - 1], id) + if ID(vms[|vms| - 1]) == id then 1 else 0
  }

  lemma {:induction false} CountIDConcat(a: seq<StoredVM>, b: seq<StoredVM>, id: string)
    ensures CountID(a + b, id) == CountID(a, id) + CountID(b, id)
  {
    if b == [] {
      assert a + b == a;
    } else {
      CountIDConcat(a, b[..|b| - 1], id);
      assert (a + b)[..|a + b| - 1] == a + b[..|b| - 1];
    }
  }

  lemma RecordsPush(name: string, vms: seq<StoredVM>, vm: StoredVM, id: string)
    ensures Records(ContextVMs(name, vms + [vm]), id) <==> Records(ContextVMs(name, vms), id) || ID(vm) == id
  {
    var c, front := ContextVMs(name, vms + [vm]), ContextVMs(name, vms);
    assert c.vms[|vms|] == vm;
    if Records(front, id) {
      var k :| 0 <= k < |vms| && ID(front.vms[k]) == id;
      assert c.vms[k] == front.vms[k];
    }
  }

  lemma RecordedByPush(side: seq<ContextVMs>, c: ContextVMs, name: string, id: string)
    ensures RecordedBy(side + [c], name, id) <==> RecordedBy(side, name, id) || (c.name == name && Records(c, id))
  {
    assert c in side + [c];
  }

  lemma {:induction false} ContextRecordersMember(name: string, vms: seq<StoredVM>, id: string, r: string)
    ensures r in ContextRecorders(name, vms, id) <==> r == name && Records(ContextVMs(name, vms), id)
  {
    if vms != [] {
      var n := |vms| - 1;
      ContextRecordersMember(name, vms[..n], id, r);
      RecordsPush(name, vms[..n], vms[n], id);
      assert vms == vms[..n] + [vms[n]];
    }
  }

  lemma {:induction false} RecordersMember(side: seq<ContextVMs>, id: string, r: string)
    ensures r in Recorders(side, id) <==> RecordedBy(side, r, id)
  {
    if side != [] {
      var n := |side| - 1;
      RecordersMember(side[..n], id, r);
      ContextRecordersMember(side[n].name, side[n].vms, id, r);
      RecordedByPush(side[..n], side[n], r, id);
      assert side == side[..n] + [side[n]];
    }
  }

  lemma SeenMember(side: seq<ContextVMs>, id: string)
    ensures forall r :: r in Seen(side, id) <==> RecordedBy(side, r, id)
  {
    forall r ensures r in Recorders(side, id) <==> RecordedBy(side, r, id) {
      RecordersMember(side, id, r);
    }
    SameMembers(Seen(side, id), Recorders(side, id));
  }

  lemma CountIDOne(vm: StoredVM, id: string)
    ensures CountID([vm], id) == if ID(vm) == id then 1 else 0
  {
    assert [vm][..0] == [];
  }

  lemma LastIsNew(name: string, vms: seq<StoredVM>, vm: StoredVM)
    requires DistinctBy(ID, vms + [vm])
    ensures DistinctBy(ID, vms) && !Records(ContextVMs(name, vms), ID(vm))
  {
    var all := vms + [vm];
    forall i, j | 0 <= i < j < |all| ensures ID(all[i]) != ID(all[j]) {
    }
    forall k | 0 <= k < |vms| ensures ID(vms[k]) != ID(vm) {
      assert all[k] == vms[k] && all[|vms|] == vm;
    }
    forall i, j | 0 <= i < j < |vms| ensures ID(vms[i]) != ID(vms[j]) {
      assert all[i] == vms[i] && all[j] == vms[j];
    }
  }

  /** What one more VM adds to what is picked of its context. */
  lemma PickVMsPush(name: string, vms: seq<StoredVM>, vm: StoredVM, side: seq<ContextVMs>, other: seq<ContextVMs>, id: string)
    ensures CountID(PickVMs(name, vms + [vm], side, other), id) == CountID(PickVMs(name, vms, side, other), id)
         + if TakenFrom(side, other, id) == name && ID(vm) == id then 1 else 0
  {
    assert (vms + [vm])[..|vms|] == vms;
    CountIDConcat(PickVMs(name, vms, side, other), if TakenFrom(side, other, ID(vm)) == name then [vm] else [], id);
    CountIDOne(vm, id);
  }

  lemma {:induction false} PickVMsCount(name: string, vms: seq<StoredVM>, side: seq<ContextVMs>, other: seq<ContextVMs>, id: string)
    requires DistinctBy(ID, vms)
    ensures CountID(PickVMs(name, vms, side, other), id)
         == if name == TakenFrom(side, other, id) && Records(ContextVMs(name, vms), id) then 1 else 0
  {
    if vms != [] {
      var front, last := vms[..|vms| - 1], vms[|vms| - 1];
      assert vms == front + [last];
      LastIsNew(name, front, last);
      PickVMsCount(name, front, side, other, id);
      PickVMsPush(name, front, last, side, other, id);
      RecordsPush(name, front, last, id);
    }
  }

  lemma LastContextIsNew(contexts: seq<ContextVMs>, c: ContextVMs, id: string)
    requires DistinctBy(Name, contexts + [c])
    ensures DistinctBy(Name, contexts) && !RecordedBy(contexts, c.name, id)
  {
    var all := contexts + [c];
    forall k | 0 <= k < |contexts| ensures contexts[k].name != c.name {
      assert all[k] == contexts[k] && all[|contexts|] == c && Name(all[k]) != Name(all[|contexts|]);
    }
    forall i, j | 0 <= i < j < |contexts| ensures Name(contexts[i]) != Name(contexts[j]) {
      assert all[i] == contexts[i] && all[j] == contexts[j];
    }
  }

  lemma {:induction false} PickFromCount(contexts: seq<ContextVMs>, side: seq<ContextVMs>, other: seq<ContextVMs>, id: string)
    requires DistinctBy(Name, contexts)
    requires forall i :: 0 <= i < |contexts| ==> DistinctBy(ID, contexts[i].vms)
    ensures CountID(PickFrom(contexts, side, other), id)
         == if RecordedBy(contexts, TakenFrom(side, other, id), id) then 1 else 0
  {
    if contexts != [] {
      var front, c := contexts[..|contexts| - 1], contexts[|contexts| - 1];
      assert contexts == front + [c];
      LastContextIsNew(front, c, id);
      PickFromCount(front, side, other, id);
      PickVMsCount(c.name, c.vms, side, other, id);
      CountIDConcat(PickFrom(front, side, other), PickVMs(c.name, c.vms, side, other), id);
      RecordedByPush(front, c, TakenFrom(side, other, id), id);
    }
  }

  /** Every managed object some compared context recorded is kept exactly once, and no other. */
  lemma EachVMOnce(side: seq<ContextVMs>, other: seq<ContextVMs>, id: string)
    requires DistinctBy(Name, side)
    requires forall i :: 0 <= i < |side| ==> DistinctBy(ID, side[i].vms)
    ensures CountID(PickFrom(side, side, other), id) == if exists name :: RecordedBy(side, name, id) then 1 else 0
  {
    PickFromCount(side, side, other, id);
    SeenMember(side, id);
    var names, rest := Seen(side, id), Seen(other, id);
    ChosenIsFirst(names, rest);
    assert IsChosen(names, rest, Chosen(names, rest));
    if name :| RecordedBy(side, name, id) {
      assert name in names;
      assert Chosen(names, rest) in names;
    }
  }

  lemma {:induction false} PickedIsTheContextsOwn(contexts: seq<ContextVMs>, side: seq<ContextVMs>, other: seq<ContextVMs>, vm: StoredVM)
    requires vm in PickFrom(contexts, side, other)
    ensures exists c :: c in contexts && c.name == TakenFrom(side, other, ID(vm)) && vm in c.vms
  {
    var n := |contexts| - 1;
    var c := contexts[n];
    if vm in PickFrom(contexts[..n], side, other) {
      PickedIsTheContextsOwn(contexts[..n], side, other, vm);
    } else {
      PickedVMsAreTaken(c.name, c.vms, side, other, vm);
    }
  }

  lemma {:induction false} PickedVMsAreTaken(name: string, vms: seq<StoredVM>, side: seq<ContextVMs>, other: seq<ContextVMs>, vm: StoredVM)
    requires vm in PickVMs(name, vms, side, other)
    ensures vm in vms && name == TakenFrom(side, other, ID(vm))
  {
    var n := |vms| - 1;
    if vm in PickVMs(name, vms[..n], side, other) {
      PickedVMsAreTaken(name, vms[..n], side, other, vm);
    }
  }

  lemma {:induction false} KeepSharedKeepsOrder(side: seq<ContextVMs>, shared: set<string>)
    ensures forall c :: c in KeepShared(side, shared) <==> c in side && ContextKey(c.name) in shared
    ensures DistinctBy(Name, side) ==> DistinctBy(Name, KeepShared(side, shared))
  {
    if side != [] {
      var n := |side| - 1;
      KeepSharedKeepsOrder(side[..n], shared);
      assert side == side[..n] + [side[n]];
      var front := KeepShared(side[..n], shared);
      if DistinctBy(Name, side) {
        forall i | 0 <= i < |front| ensures front[i].name != side[n].name {
          assert front[i] in side[..n];
          var k :| 0 <= k < n && side[k] == front[i];
          assert Name(side[k]) != Name(side[n]);
        }
      }
    }
  }

  /** Each side of the reduction holds every VM a compared context of that side recorded, once. */
  lemma ReductionKeepsEachVMOnce(side: seq<ContextVMs>, other: seq<ContextVMs>, id: string)
    requires DistinctBy(Name, side)
    requires forall c :: c in side ==> DistinctBy(ID, c.vms)
    ensures var kept := PickFrom(Compared(side, other), Compared(side, other), Compared(other, side));
      CountID(kept, id) ==
        if exists c :: (c in side && Records(c, id)
          && (Keys(side) * Keys(other) == {} || ContextKey(c.name) in Keys(other))) then 1 else 0
  {
    KeepSharedKeepsOrder(side, Keys(side) * Keys(other));
    var compared := Compared(side, other);
    assert forall c :: c in compared <==>
      c in side && (Keys(side) * Keys(other) == {} || ContextKey(c.name) in Keys(other));
    EachVMOnce(compared, Compared(other, side), id);
    if c :| c in compared && Records(c, id) {
      assert RecordedBy(compared, c.name, id);
    }
  }

  // ----- The same context on both sides

  ghost predicate InOrder(a: string, b: string) { StringLe(a, b) }

  /** The two sides sort the contexts they share in the same order. */
  ghost predicate SortAlike(base: set<string>, target: set<string>) {
    forall a, a', b, b' :: a in base && a' in base && b in target && b' in target
      && ContextKey(a) == ContextKey(b) && ContextKey(a') == ContextKey(b') && ContextKey(a) != ContextKey(a')
      ==> (InOrder(a, a') <==> InOrder(b, b'))
  }

  /** The names of the contexts that recorded one VM, as one side lists them. */
  ghost predicate Listed(names: seq<string>, side: set<string>) {
    Sorted(StringLe, names) && forall i :: 0 <= i < |names| ==> names[i] in side
  }

  ghost predicate SeenOnBoth(names: seq<string>, other: seq<string>) {
    exists i :: 0 <= i < |names| && HasCounterpart(names[i], other)
  }

  /** Both sides take every VM some shared context saw on both sides from the same context. */
  ghost predicate AlwaysSameContext(base: set<string>, target: set<string>) {
    forall names, other :: Listed(names, base) && Listed(other, target) && SeenOnBoth(names, other)
      ==> ContextKey(Chosen(names, other)) == ContextKey(Chosen(other, names))
  }

  /** The chosen name comes before every other name with a counterpart. */
  lemma ChosenComesFirst(names: seq<string>, other: seq<string>, i: nat)
    requires Sorted(StringLe, names) && i < |names| && HasCounterpart(names[i], other)
    ensures Chosen(names, other) in names && HasCounterpart(Chosen(names, other), other)
    ensures InOrder(Chosen(names, other), names[i])
  {
    ChosenIsFirst(names, other);
    assert IsChosen(names, other, Chosen(names, other));
    StringLeIsTotalPreorder();
  }

  lemma SameContextWhenSortedAlike(base: set<string>, target: set<string>, names: seq<string>, other: seq<string>)
    requires SortAlike(base, target) && Listed(names, base) && Listed(other, target) && SeenOnBoth(names, other)
    ensures ContextKey(Chosen(names, other)) == ContextKey(Chosen(other, names))
  {
    var i: nat :| i < |names| && HasCounterpart(names[i], other);
    var k: nat :| k < |other| && ContextKey(other[k]) == ContextKey(names[i]);
    ChosenComesFirst(names, other, i);
    ChosenComesFirst(other, names, k);
    var x, y := Chosen(names, other), Chosen(other, names);
    var x': nat :| x' < |other| && ContextKey(other[x']) == ContextKey(x);
    var y': nat :| y' < |names| && ContextKey(names[y']) == ContextKey(y);
    assert HasCounterpart(other[x'], names) && HasCounterpart(names[y'], other);
    ChosenComesFirst(names, other, y');
    ChosenComesFirst(other, names, x');
    if ContextKey(x) != ContextKey(y) {
      assert InOrder(x, names[y']) <==> InOrder(other[x'], y);
      StringLeAntisymmetric(other[x'], y);
    }
  }

  /** Two contexts the sides sort differently lead to two different choices for a VM both saw. */
  lemma SortedApartPicksApart(base: set<string>, target: set<string>, a: string, a': string, b: string, b': string)
    requires a in base && a' in base && b in target && b' in target
    requires ContextKey(a) == ContextKey(b) && ContextKey(a') == ContextKey(b') && ContextKey(a) != ContextKey(a')
    requires InOrder(a, a') && !InOrder(b, b')
    ensures !AlwaysSameContext(base, target)
  {
    var names, other := [a, a'], [b', b];
    StringLeIsTotalPreorder();
    assert ContextKey(other[1]) == ContextKey(a) && ContextKey(other[0]) == ContextKey(a');
    assert ContextKey(names[0]) == ContextKey(b) && ContextKey(names[1]) == ContextKey(b');
    assert HasCounterpart(names[0], other) && HasCounterpart(other[0], names);
    assert Chosen(names, other) == a && Chosen(other, names) == b';
    assert Listed(names, base) && Listed(other, target) && SeenOnBoth(names, other);
  }

  /** Which context a VM is taken from agrees on the two sides, for every VM, exactly when both
      sides sort the contexts they share alike. */
  lemma SameContextExactlyWhen(base: set<string>, target: set<string>)
    ensures AlwaysSameContext(base, target) <==> SortAlike(base, target)
  {
    if SortAlike(base, target) {
      forall names, other | Listed(names, base) && Listed(other, target) && SeenOnBoth(names, other)
        ensures ContextKey(Chosen(names, other)) == ContextKey(Chosen(other, names))
      {
        SameContextWhenSortedAlike(base, target, names, other);
      }
    } else {
      var a, a', b, b' :| a in base && a' in base && b in target && b' in target
        && ContextKey(a) == ContextKey(b) && ContextKey(a') == ContextKey(b') && ContextKey(a) != ContextKey(a')
        && !(InOrder(a, a') <==> InOrder(b, b'));
      if InOrder(a, a') {
        SortedApartPicksApart(base, target, a, a', b, b');
      } else {
        StringLeTotal(a, a');
        if InOrder(b', b) {
          StringLeAntisymmetric(b, b');
        }
        SortedApartPicksApart(base, target, a', a, b', b);
      }
    }
  }

  /** Sides that spell the contexts they share alike always agree. */
  lemma SameSpellingSortsAlike(base: set<string>, target: set<string>)
    requires forall a, b :: a in base && b in target && ContextKey(a) == ContextKey(b) ==> a == b
    ensures AlwaysSameContext(base, target)
  {
    SameContextExactlyWhen(base, target);
  }

  ghost function ContextNames(side: seq<ContextVMs>): set<string> { set c | c in side :: c.name }

  lemma SeenIsListed(side: seq<ContextVMs>, id: string)
    ensures Listed(Seen(side, id), ContextNames(side))
  {
    SeenMember(side, id);
    SortedCopySorts(Recorders(side, id));
    forall i | 0 <= i < |Seen(side, id)| ensures Seen(side, id)[i] in ContextNames(side) {
      assert Seen(side, id)[i] in Seen(side, id);
      assert RecordedBy(side, Seen(side, id)[i], id);
    }
  }

  /** A VM some context recorded on both sides is taken from one and the same context on both,
      when the sides sort the contexts they share alike. */
  lemma VMTakenFromSameContext(base: seq<ContextVMs>, target: seq<ContextVMs>, id: string, name: string, name': string)
    requires SortAlike(ContextNames(base), ContextNames(target))
    requires RecordedBy(base, name, id) && RecordedBy(target, name', id) && ContextKey(name) == ContextKey(name')
    ensures ContextKey(TakenFrom(base, target, id)) == ContextKey(TakenFrom(target, base, id))
  {
    SeenIsListed(base, id);
    SeenIsListed(target, id);
    SeenMember(base, id);
    SeenMember(target, id);
    var names, other := Seen(base, id), Seen(target, id);
    assert name in names && name' in other;
    var i: nat :| i < |names| && names[i] == name;
    var k: nat :| k < |other| && other[k] == name';
    assert HasCounterpart(names[i], other);
    SameContextWhenSortedAlike(ContextNames(base), ContextNames(target), names, other);
  }

  /** Letter case alone can break it: these sides share both contexts, and a VM both contexts saw
      is taken from one context in the baseline and from the other in the target. */
  lemma LetterCasePicksApart()
    ensures Chosen(["B", "a"], ["A", "b"]) == "B" && Chosen(["A", "b"], ["B", "a"]) == "A"
    ensures ContextKey("B") != ContextKey("A")
    ensures Sorted(StringLe, ["B", "a"]) && Sorted(StringLe, ["A", "b"])
  {
    assert ContextKey("B") == "b" && ContextKey("b") == "b" && ContextKey("A") == "a" && ContextKey("a") == "a";
    var names, other := ["B", "a"], ["A", "b"];
    assert ContextKey(other[1]) == ContextKey(names[0]) && ContextKey(names[1]) == ContextKey(other[0]);
    assert HasCounterpart(names[0], other) && HasCounterpart(other[0], names);
  }

  // ----- What makes two context names one

  predicate Spaces(s: string) { forall i :: 0 <= i < |s| ==> IsSpace(s[i]) }

  lemma {:induction false} TrimLeftOf(l: string, s: string)
    requires Spaces(l) && (s == "" || !IsSpace(s[0]))
    ensures TrimLeft(l + s) == s
  {
    if l == "" {
      assert l + s == s;
    } else {
      TrimLeftOf(l[1..], s);
      assert (l + s)[1..] == l[1..] + s;
    }
  }

  lemma {:induction false} TrimRightOf(s: string, r: string)
    requires Spaces(r) && (s == "" || !IsSpace(s[|s| - 1]))
    ensures TrimRight(s + r) == s
  {
    if r == "" {
      assert s + r == s;
    } else {
      TrimRightOf(s, r[..|r| - 1]);
      assert (s + r)[..|s + r| - 1] == s + r[..|r| - 1];
    }
  }

  /** The spaces around a name, and the case of its letters, do not matter; everything else does. */
  lemma SameNameExactlyWhen(l: string, s: string, r: string, l': string, s': string, r': string)
    requires Spaces(l) && Spaces(r) && Spaces(l') && Spaces(r') && s != "" && s' != ""
    requires !IsSpace(s[0]) && !IsSpace(s[|s| - 1]) && !IsSpace(s'[0]) && !IsSpace(s'[|s'| - 1])
    ensures ContextKey(l + s + r) == ContextKey(l' + s' + r') <==> Lower(s) == Lower(s')
  {
    Trimmed(l, s, r);
    Trimmed(l', s', r');
  }

  lemma Trimmed(l: string, s: string, r: string)
    requires Spaces(l) && Spaces(r) && s != "" && !IsSpace(s[0]) && !IsSpace(s[|s| - 1])
    ensures ContextKey(l + s + r) == Lower(s)
  {
    assert l + s + r == l + (s + r) && (s + r)[0] == s[0];
    TrimLeftOf(l, s + r);
    TrimRightOf(s, r);
  }
}
