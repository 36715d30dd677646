/** What a comparison says of a VM, in the fields of its two observations. */
module VMReports {
  import opened Common
  import opened Inventory
  import opened SnapshotDiff
  import opened Sorting
  import opened Strings
  import opened VMDiff

  /** The configuration could be read: a VM that shows a CPU or memory size was. */
  predicate Read(vm: VM) { vm.configurationAvailable || vm.cpu != 0 || vm.memoryMB != 0 }

  /** f is a change from the one VM's value of a field to the other's. The four fields an account may
      not be able to read count only where both could be. */
  predicate Differs(f: FieldChange, was: VM, vm: VM, runtime: bool) {
    || (f == FieldChange("name", was.name, vm.name) && was.name != vm.name)
    || (Read(was) && Read(vm) && f == FieldChange("cpu", FormatInt(was.cpu), FormatInt(vm.cpu)) && was.cpu != vm.cpu)
    || (Read(was) && Read(vm) && f == FieldChange("memory", FormatInt(was.memoryMB), FormatInt(vm.memoryMB)) && was.memoryMB != vm.memoryMB)
    || (Read(was) && Read(vm) && f == FieldChange("guest_os", was.guestOS, vm.guestOS) && was.guestOS != vm.guestOS)
    || (Read(was) && Read(vm) && f == FieldChange("annotation", was.annotation, vm.annotation) && was.annotation != vm.annotation)
    || (f == FieldChange("config", was.config, vm.config) && was.config != vm.config)
    || (runtime && f == FieldChange("runtime", was.runtime, vm.runtime) && was.runtime != vm.runtime)
  }

  /** Two recorded names of a place that are not the same; an empty one was not seen. */
  predicate Apart(was: string, now: string) { was != "" && now != "" && was != now }

  /** The VM is in another vCenter, or on another host, in another cluster or folder, or on other
      datastores, of those both observations saw. */
  predicate Elsewhere(was: Observation, o: Observation) {
    || was.vcenterID != o.vcenterID
    || Apart(was.vm.host, o.vm.host) || Apart(was.vm.cluster, o.vm.cluster) || Apart(was.vm.folder, o.vm.folder)
    || (was.vm.datastores != [] && o.vm.datastores != [] && multiset(was.vm.datastores) != multiset(o.vm.datastores))
  }

  lemma ChangedFieldsAre(was: VM, vm: VM, runtime: bool, f: FieldChange)
    ensures f in ChangedFields(was, vm, runtime) <==> Differs(f, was, vm, runtime)
  {
    FormatIntInjective(was.cpu, vm.cpu);
    FormatIntInjective(was.memoryMB, vm.memoryMB);
    InFour(Change("cpu", FormatInt(was.cpu), FormatInt(vm.cpu)), Change("memory", FormatInt(was.memoryMB), FormatInt(vm.memoryMB)),
           Change("guest_os", was.guestOS, vm.guestOS), Change("annotation", was.annotation, vm.annotation), f);
    InFour(Change("name", was.name, vm.name), ConfigChanges(was, vm), Change("config", was.config, vm.config),
           if runtime then Change("runtime", was.runtime, vm.runtime) else [], f);
  }

  lemma InFour<T>(a: seq<T>, b: seq<T>, c: seq<T>, d: seq<T>, x: T)
    ensures x in a + b + c + d <==> x in a || x in b || x in c || x in d
  {
  }

  lemma MovedIs(was: Observation, o: Observation)
    ensures Moved(was.vm, o.vm, was.vcenterID, o.vcenterID) <==> Elsewhere(was, o)
  {
    EqualStringsIsMultisetEquality(was.vm.datastores, o.vm.datastores);
  }

  // ----- Where a report comes from

  /** c is of what target i reports. */
  ghost predicate IsOf(base: seq<StoredVM>, targets: seq<StoredVM>, matches: seq<Match>, runtime: bool, c: VMChange, i: int) {
    0 <= i < |matches| && i < |targets| && c in TargetReport(base, targets[i].observation, matches[i], runtime)
  }

  lemma IsOfFront(base: seq<StoredVM>, targets: seq<StoredVM>, matches: seq<Match>, runtime: bool, c: VMChange, n: nat, i: int)
    requires n <= |matches|
    ensures IsOf(base, targets, matches[..n], runtime, c, i) <==> i < n && IsOf(base, targets, matches, runtime, c, i)
  {
  }

  lemma SplitExists(p: int -> bool, q: int -> bool, m: int)
    requires forall n :: q(n) <==> n < m && p(n)
    requires forall n :: p(n) ==> n <= m
    ensures (exists n :: p(n)) <==> (exists n :: q(n)) || p(m)
  {
    if n :| p(n) {
      assert n < m ==> q(n);
    }
  }

  ghost function Places(base: seq<StoredVM>, targets: seq<StoredVM>, matches: seq<Match>, runtime: bool, c: VMChange): int -> bool {
    i => IsOf(base, targets, matches, runtime, c, i)
  }

  ghost predicate Somewhere(base: seq<StoredVM>, targets: seq<StoredVM>, matches: seq<Match>, runtime: bool, c: VMChange) {
    exists i :: Places(base, targets, matches, runtime, c)(i)
  }

  lemma PlacesSplit(base: seq<StoredVM>, targets: seq<StoredVM>, matches: seq<Match>, runtime: bool, c: VMChange, before: bool)
    requires 0 < |matches| <= |targets|
    requires before <==> Somewhere(base, targets, matches[..|matches| - 1], runtime, c)
    ensures Somewhere(base, targets, matches, runtime, c) <==> before || IsOf(base, targets, matches, runtime, c, |matches| - 1)
  {
    var n := |matches| - 1;
    var all, front := Places(base, targets, matches, runtime, c), Places(base, targets, matches[..n], runtime, c);
    forall i ensures front(i) <==> i < n && all(i) {
      IsOfFront(base, targets, matches, runtime, c, n, i);
    }
    forall i | all(i) ensures i <= n {
    }
    SplitExists(all, front, n);
  }

  lemma {:induction false} FromATarget(base: seq<StoredVM>, targets: seq<StoredVM>, matches: seq<Match>, runtime: bool, c: VMChange)
    requires |matches| <= |targets|
    ensures c in TargetReports(base, targets, matches, runtime) <==> Somewhere(base, targets, matches, runtime, c)
  {
    if matches != [] {
      var n := |matches| - 1;
      FromATarget(base, targets, matches[..n], runtime, c);
      PlacesSplit(base, targets, matches, runtime, c, c in TargetReports(base, targets, matches[..n], runtime));
      ReportsSplit(base, targets, matches, runtime, c);
    } else {
      assert forall i :: !Places(base, targets, matches, runtime, c)(i);
    }
  }

  lemma ReportsSplit(base: seq<StoredVM>, targets: seq<StoredVM>, matches: seq<Match>, runtime: bool, c: VMChange)
    requires 0 < |matches| <= |targets|
    ensures c in TargetReports(base, targets, matches, runtime) <==>
      c in TargetReports(base, targets, matches[..|matches| - 1], runtime) || IsOf(base, targets, matches, runtime, c, |matches| - 1)
  {
  }

  lemma {:induction false} FromABase(base: seq<StoredVM>, matches: seq<Match>, n: nat, c: VMChange)
    requires n <= |base|
    ensures c in BaseReports(base, matches, n) <==> exists j :: 0 <= j < n && !Used(matches, j) && c == VanishedChange(base[j].observation)
  {
    if n > 0 {
      FromABase(base, matches, n - 1, c);
    }
  }

  // ----- What a report says

  /** The report of two observations taken for one VM. */
  ghost predicate TellsPair(c: VMChange, was: Observation, o: Observation, runtime: bool) {
    && c.before == Some(was) && c.after == Some(o) && c.name == o.vm.name && c.context == o.context
    && (forall f :: f in c.fields <==> Differs(f, was.vm, o.vm, runtime))
    && (MovedVM in c.changes <==> Elsewhere(was, o))
    && (Modified in c.changes <==> exists f :: Differs(f, was.vm, o.vm, runtime))
    && Appeared !in c.changes && Vanished !in c.changes && c.changes != []
  }

  /** The report of a VM only one run has. */
  predicate TellsOne(c: VMChange, o: Observation, appeared: bool) {
    && c.fields == [] && c.basis == None && c.name == o.vm.name && c.context == o.context
    && if appeared then c.changes == [Appeared] && c.before == None && c.after == Some(o)
       else c.changes == [Vanished] && c.before == Some(o) && c.after == None
  }

  /** The two agree on what they were matched by. */
  predicate SameBy(was: Observation, o: Observation, basis: Basis) {
    match basis
    case Moref => was.vcenterID == o.vcenterID && was.vm.id == o.vm.id
    case InstanceUUID => was.vm.instanceUUID == o.vm.instanceUUID != ""
    case BIOSUUID => was.vm.biosUUID == o.vm.biosUUID != ""
  }

  lemma FieldsAre(was: VM, vm: VM, runtime: bool)
    ensures forall f :: f in ChangedFields(was, vm, runtime) <==> Differs(f, was, vm, runtime)
    ensures |ChangedFields(was, vm, runtime)| > 0 <==> exists f :: Differs(f, was, vm, runtime)
  {
    var fields := ChangedFields(was, vm, runtime);
    forall f ensures f in fields <==> Differs(f, was, vm, runtime) {
      ChangedFieldsAre(was, vm, runtime, f);
    }
    if |fields| > 0 {
      assert fields[0] in fields;
    }
  }

  /** What a pair's fields and its move make of the report. */
  function PairOf(was: Observation, o: Observation, basis: Basis, fields: seq<FieldChange>, elsewhere: bool): seq<VMChange> {
    var changes := (if elsewhere then [MovedVM] else []) + if |fields| > 0 then [Modified] else [];
    if |changes| > 0 then [VMChange(changes, o.vm.name, o.context, Some(basis), fields, Some(was), Some(o))] else []
  }

  lemma PairOfTells(was: Observation, o: Observation, basis: Basis, runtime: bool, fields: seq<FieldChange>, elsewhere: bool)
    requires forall f :: f in fields <==> Differs(f, was.vm, o.vm, runtime)
    requires |fields| > 0 <==> exists f :: Differs(f, was.vm, o.vm, runtime)
    requires elsewhere <==> Elsewhere(was, o)
    ensures var out := PairOf(was, o, basis, fields, elsewhere);
      if elsewhere || |fields| > 0 then |out| == 1 && TellsPair(out[0], was, o, runtime) && out[0].basis == Some(basis) else out == []
  {
  }

  lemma PairIsTold(was: Observation, o: Observation, basis: Basis, runtime: bool)
    ensures var out := PairChange(was, o, basis, runtime);
      if Elsewhere(was, o) || exists f :: Differs(f, was.vm, o.vm, runtime)
      then |out| == 1 && TellsPair(out[0], was, o, runtime) && out[0].basis == Some(basis)
      else out == []
  {
    MovedIs(was, o);
    FieldsAre(was.vm, o.vm, runtime);
    var fields := ChangedFields(was.vm, o.vm, runtime);
    PairOfTells(was, o, basis, runtime, fields, Elsewhere(was, o));
    assert PairChange(was, o, basis, runtime) == PairOf(was, o, basis, fields, Elsewhere(was, o));
  }

  lemma MatchedBy(base: seq<StoredVM>, targets: seq<StoredVM>, matches: seq<Match>, i: nat)
    requires Matching(base, targets, matches) && i < |matches| && matches[i].Matched?
    ensures matches[i].index < |base|
    ensures SameBy(base[matches[i].index].observation, targets[i].observation, matches[i].basis)
  {
    assert Finds(base, targets, matches[..i], targets[i].observation, matches[i]);
  }

  /** The report is of a VM only one run has, or of one base and one target VM that agree on the identity
      it names. */
  ghost predicate IsTrue(base: seq<StoredVM>, targets: seq<StoredVM>, runtime: bool, c: VMChange) {
    || (exists t :: t in targets && TellsOne(c, t.observation, true))
    || (exists b :: b in base && TellsOne(c, b.observation, false))
    || (exists b, t :: b in base && t in targets && TellsPair(c, b.observation, t.observation, runtime)
          && c.basis.Some? && SameBy(b.observation, t.observation, c.basis.value))
  }

  lemma TargetReportIsTrue(base: seq<StoredVM>, targets: seq<StoredVM>, matches: seq<Match>, runtime: bool, c: VMChange, i: nat)
    requires Matching(base, targets, matches) && IsOf(base, targets, matches, runtime, c, i)
    ensures IsTrue(base, targets, runtime, c)
  {
    assert targets[i] in targets;
    if matches[i].Matched? {
      MatchedBy(base, targets, matches, i);
      PairIsTold(base[matches[i].index].observation, targets[i].observation, matches[i].basis, runtime);
      assert base[matches[i].index] in base;
    } else {
      assert TellsOne(c, targets[i].observation, true);
    }
  }

  /** Every report of a comparison is true: a pair's names exactly the fields in which its two
      observations differ, with the base's value before and the target's after, and says that the VM
      moved exactly when it did. */
  lemma ReportsAreTrue(base: seq<StoredVM>, targets: seq<StoredVM>, runtime: bool, out: seq<VMChange>, snaps: seq<SnapshotChange>,
      c: VMChange)
    requires IsComparison(base, targets, runtime, out, snaps) && c in out
    ensures IsTrue(base, targets, runtime, c)
  {
    var matches: seq<Match>, pieces :| Reports(base, targets, runtime, matches, pieces, out, snaps);
    FromATarget(base, targets, matches, runtime, c);
    FromABase(base, matches, |base|, c);
    if c in TargetReports(base, targets, matches, runtime) {
      var i :| Places(base, targets, matches, runtime, c)(i);
      TargetReportIsTrue(base, targets, matches, runtime, c, i);
    } else {
      var j :| 0 <= j < |base| && !Used(matches, j) && c == VanishedChange(base[j].observation);
      assert base[j] in base && TellsOne(c, base[j].observation, false);
    }
  }

  /** The pair is reported if the VM moved or a field differs. */
  ghost predicate PairReported(base: seq<StoredVM>, o: Observation, j: nat, out: seq<VMChange>, runtime: bool) {
    && j < |base|
    && (Elsewhere(base[j].observation, o) || (exists f :: Differs(f, base[j].observation.vm, o.vm, runtime))
        ==> exists c :: c in out && TellsPair(c, base[j].observation, o, runtime))
  }

  /** And nothing goes unreported: a matched pair is reported exactly when the VM moved or a field
      differs, an unmatched target and an unmatched base VM always. */
  lemma ReportsAreComplete(base: seq<StoredVM>, targets: seq<StoredVM>, runtime: bool, matches: seq<Match>,
      pieces: seq<seq<SnapshotChange>>, out: seq<VMChange>, snaps: seq<SnapshotChange>)
    requires Reports(base, targets, runtime, matches, pieces, out, snaps)
    ensures forall i :: 0 <= i < |targets| && matches[i].NoMatch? ==> exists c :: c in out && TellsOne(c, targets[i].observation, true)
    ensures forall j :: 0 <= j < |base| && !Used(matches, j) ==> exists c :: c in out && TellsOne(c, base[j].observation, false)
    ensures forall i :: 0 <= i < |targets| && matches[i].Matched? ==> PairReported(base, targets[i].observation, matches[i].index, out, runtime)
  {
    forall i: nat | i < |targets| && matches[i].NoMatch? ensures exists c :: c in out && TellsOne(c, targets[i].observation, true) {
      var c := AppearedChange(targets[i].observation);
      FromATarget(base, targets, matches, runtime, c);
      assert Places(base, targets, matches, runtime, c)(i);
      assert c in out && TellsOne(c, targets[i].observation, true);
    }
    forall j: nat | j < |base| && !Used(matches, j) ensures exists c :: c in out && TellsOne(c, base[j].observation, false) {
      var c := VanishedChange(base[j].observation);
      FromABase(base, matches, |base|, c);
      assert c in out && TellsOne(c, base[j].observation, false);
    }
    forall i: nat | i < |targets| && matches[i].Matched?
      ensures PairReported(base, targets[i].observation, matches[i].index, out, runtime)
    {
      MatchedBy(base, targets, matches, i);
      PairIsReported(base, targets, runtime, matches, out, i);
    }
  }

  lemma PairIsReported(base: seq<StoredVM>, targets: seq<StoredVM>, runtime: bool, matches: seq<Match>, out: seq<VMChange>, i: nat)
    requires |matches| == |targets| && i < |targets| && matches[i].Matched? && matches[i].index < |base|
    requires forall c :: c in TargetReports(base, targets, matches, runtime) ==> c in out
    ensures PairReported(base, targets[i].observation, matches[i].index, out, runtime)
  {
    var was, o := base[matches[i].index].observation, targets[i].observation;
    PairIsTold(was, o, matches[i].basis, runtime);
    var told := PairChange(was, o, matches[i].basis, runtime);
    if told != [] {
      FromATarget(base, targets, matches, runtime, told[0]);
      assert Places(base, targets, matches, runtime, told[0])(i);
    }
  }

  /** Comparing the other way round swaps what was and what is. */
  lemma DiffersTheOtherWay(f: FieldChange, was: VM, vm: VM, runtime: bool)
    ensures f in ChangedFields(was, vm, runtime) <==> FieldChange(f.field, f.after, f.before) in ChangedFields(vm, was, runtime)
  {
    ChangedFieldsAre(was, vm, runtime, f);
    ChangedFieldsAre(vm, was, runtime, FieldChange(f.field, f.after, f.before));
    assert f == FieldChange(f.field, f.before, f.after);
  }

  // ----- Their snapshots

  /** A VM that appeared has all its snapshots reported as created, in order. */
  lemma {:induction false} CreatedAre(o: Observation, snaps: seq<Snapshot>, i: nat)
    requires i < |snaps|
    ensures |CreatedReports(o, snaps)| == |snaps|
    ensures CreatedReports(o, snaps)[i] == SnapshotCreated(o.vm.name, o.context, snaps[i].name, snaps[i].createTime)
  {
    var n := |snaps| - 1;
    if i < n {
      CreatedAre(o, snaps[..n], i);
    } else if n > 0 {
      CreatedAre(o, snaps[..n], 0);
    }
  }
}
