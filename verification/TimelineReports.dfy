/** What the timeline of a VM says, in the fields of its observations: each event of a step is true of
    the observation and what was last seen before it, and nothing that changed goes unreported. */
module TimelineReports {
  import opened Common
  import opened Inventory
  import opened LastKnown
  import opened Sorting
  import opened Strings
  import opened Timeline
  import HiddenValues
  import Ledger
  import Lineage
  import SnapshotDiff
  import VCenterVMs
  import VMReports

  // ----- What was last seen

  /** Observation i is the last to see what sees asks for. */
  ghost predicate IsLast(vms: seq<VM>, sees: VM -> bool, i: int) {
    0 <= i < |vms| && sees(vms[i]) && forall j :: i < j < |vms| ==> !sees(vms[j])
  }

  predicate HasHost(vm: VM) { vm.host != "" }
  predicate HasCluster(vm: VM) { vm.cluster != "" }
  predicate HasDatastores(vm: VM) { vm.datastores != [] }

  /** The placement fields are as the last observations that saw them left them. */
  ghost predicate PlacedAsSeen(vms: seq<VM>, was: VM) {
    && (forall i :: IsLast(vms, HasHost, i) ==> was.host == vms[i].host)
    && (forall i :: IsLast(vms, HasCluster, i) ==> was.cluster == vms[i].cluster)
    && (forall i :: IsLast(vms, HasDatastores, i) ==> was.datastores == vms[i].datastores)
    && (was.host != "" ==> exists i :: IsLast(vms, HasHost, i))
    && (was.cluster != "" ==> exists i :: IsLast(vms, HasCluster, i))
    && (was.datastores != [] ==> exists i :: IsLast(vms, HasDatastores, i))
  }

  /** And so is the configuration. */
  ghost predicate ConfiguredAsSeen(vms: seq<VM>, was: VM) {
    && (forall i :: IsLast(vms, VMReports.Read, i) ==>
          was.cpu == vms[i].cpu && was.memoryMB == vms[i].memoryMB && was.guestOS == vms[i].guestOS && was.annotation == vms[i].annotation)
    && (VMReports.Read(was) ==> exists i :: IsLast(vms, VMReports.Read, i))
  }

  /** was is the last of the observations with each field it did not see as the last one that did left
      it. */
  ghost predicate AsLastSeen(vms: seq<VM>, was: VM) {
    && vms != []
    && var last := vms[|vms| - 1];
    && was.name == last.name && was.folder == last.folder && was.config == last.config && was.runtime == last.runtime
    && PlacedAsSeen(vms, was) && ConfiguredAsSeen(vms, was)
  }

  lemma LastOfMore(vms: seq<VM>, sees: VM -> bool, i: int)
    requires vms != []
    ensures IsLast(vms, sees, i) <==> if sees(vms[|vms| - 1]) then i == |vms| - 1 else IsLast(vms[..|vms| - 1], sees, i)
  {
    var n := |vms| - 1;
    assert forall j :: 0 <= j < n ==> vms[..n][j] == vms[j];
  }

  lemma {:induction false} LatestIs<V>(vms: seq<VM>, seen: VM -> Option<V>, sees: VM -> bool)
    requires forall vm :: seen(vm).Some? <==> sees(vm)
    ensures forall i :: IsLast(vms, sees, i) ==> Latest(vms, seen) == seen(vms[i])
    ensures Latest(vms, seen).Some? ==> exists i :: IsLast(vms, sees, i)
  {
    if vms != [] {
      var n := |vms| - 1;
      LatestIs(vms[..n], seen, sees);
      forall i ensures IsLast(vms, sees, i) <==> if sees(vms[n]) then i == n else IsLast(vms[..n], sees, i) {
        LastOfMore(vms, sees, i);
      }
      if seen(vms[n]).Some? {
        assert IsLast(vms, sees, n);
      } else if i :| IsLast(vms[..n], sees, i) {
        assert IsLast(vms, sees, i);
      }
    }
  }

  lemma FilledPlacement(vms: seq<VM>)
    requires vms != []
    ensures PlacedAsSeen(vms, Fill(KnownAfter(vms), vms[|vms| - 1]))
  {
    FilledIsTheLatest(vms);
    LatestIs(vms, SeenHost, HasHost);
    LatestIs(vms, SeenCluster, HasCluster);
    LatestIs(vms, SeenDatastores, HasDatastores);
  }

  lemma FilledConfig(vms: seq<VM>)
    requires vms != []
    ensures ConfiguredAsSeen(vms, Fill(KnownAfter(vms), vms[|vms| - 1]))
  {
    FilledIsTheLatest(vms);
    LatestIs(vms, SeenConfig, VMReports.Read);
  }

  lemma FilledAsLastSeen(vms: seq<VM>)
    requires vms != []
    ensures AsLastSeen(vms, Fill(KnownAfter(vms), vms[|vms| - 1]))
  {
    FilledPlacement(vms);
    FilledConfig(vms);
  }

  // ----- One step

  /** A change of where the VM is, between the two observations. */
  predicate PlaceDiffers(f: FieldChange, was: Observation, o: Observation) {
    || (f == FieldChange("host", was.vm.host, o.vm.host) && VMReports.Apart(was.vm.host, o.vm.host))
    || (f == FieldChange("cluster", was.vm.cluster, o.vm.cluster) && VMReports.Apart(was.vm.cluster, o.vm.cluster))
    || (f == FieldChange("folder", was.vm.folder, o.vm.folder) && VMReports.Apart(was.vm.folder, o.vm.folder))
    || (f == FieldChange("datastores", DatastoresText(was.vm.datastores), DatastoresText(o.vm.datastores))
        && was.vm.datastores != [] && o.vm.datastores != [] && multiset(was.vm.datastores) != multiset(o.vm.datastores))
    || (was.vcenterID != o.vcenterID
        && f == FieldChange("vcenter", if was.context != "" then was.context else was.vcenterID, if o.context != "" then o.context else o.vcenterID)
        && VMReports.Apart(f.before, f.after))
  }

  /** A change of the VM itself; a new name is reported on its own. */
  predicate FieldDiffers(f: FieldChange, was: VM, vm: VM, runtime: bool) {
    VMReports.Differs(f, was, vm, runtime) && f.field != "name"
  }

  /** The event is of the entry's observation. */
  predicate IsOf(e: Event, entry: Entry) {
    && e.run == entry.run && e.context == entry.vm.observation.context
    && e.name == entry.vm.observation.vm.name && e.observation == entry.vm.observation
  }

  /** The step from was to after has an event of this kind. */
  ghost predicate Happened(kind: Kind, was: Observation, after: Observation, skipped: bool, o: Options, snaps: SnapshotChanges) {
    match kind
    case Reappeared => skipped
    case Renamed => was.vm.name != after.vm.name
    case MovedVM => VMReports.Elsewhere(was, after)
    case Modified => exists f :: FieldDiffers(f, was.vm, after.vm, o.includeRuntime)
    case SnapshotEvent(c) => c in snaps
    case Observed => o.includeUnchanged && was.vm.name == after.vm.name && !exists f :: FieldDiffers(f, was.vm, after.vm, o.includeRuntime)
    case FirstSeen => false
    case Vanished => false
  }

  /** And names these changes. */
  ghost predicate Names(e: Event, was: Observation, after: Observation, o: Options) {
    match e.kind
    case Renamed => e.changes == [FieldChange("name", was.vm.name, after.vm.name)]
    case MovedVM => forall f :: f in e.changes <==> PlaceDiffers(f, was, after)
    case Modified => forall f :: f in e.changes <==> FieldDiffers(f, was.vm, after.vm, o.includeRuntime)
    case _ => e.changes == []
  }

  ghost predicate Tells(e: Event, was: Observation, after: Entry, skipped: bool, o: Options, snaps: SnapshotChanges) {
    IsOf(e, after) && Happened(e.kind, was, after.vm.observation, skipped, o, snaps) && Names(e, was, after.vm.observation, o)
  }

  lemma {:induction false} Removed(changes: seq<FieldChange>, name: string, f: FieldChange)
    ensures f in RemoveField(changes, name) <==> f in changes && f.field != name
  {
    if changes != [] {
      Removed(changes[..|changes| - 1], name, f);
    }
  }

  lemma ModifiedFieldsAre(was: Observation, after: Observation, runtime: bool, f: FieldChange)
    ensures f in ModifiedFields(was, after, runtime) <==> FieldDiffers(f, was.vm, after.vm, runtime)
  {
    VMReports.ChangedFieldsAre(was.vm, after.vm, runtime, f);
    Removed(ChangedFields(was.vm, after.vm, runtime), "name", f);
  }

  lemma DatastoresAre(was: seq<string>, now: seq<string>, f: FieldChange)
    ensures f in DatastoreChanges(was, now) <==>
      was != [] && now != [] && multiset(was) != multiset(now) && f == FieldChange("datastores", DatastoresText(was), DatastoresText(now))
  {
    EqualStringsIsMultisetEquality(was, now);
  }

  lemma InTwo<T>(a: seq<T>, b: seq<T>, x: T)
    ensures x in a + b <==> x in a || x in b
  {
  }

  lemma PlaceIs(name: string, was: string, now: string, f: FieldChange)
    ensures f in Place(name, was, now) <==> VMReports.Apart(was, now) && f == FieldChange(name, was, now)
  {
  }

  lemma PlacementChangesAre(was: Observation, after: Observation, f: FieldChange)
    ensures f in PlacementChanges(was, after) <==> PlaceDiffers(f, was, after)
  {
    var vcenter, host := VCenterChanges(was, after), Place("host", was.vm.host, after.vm.host);
    var cluster, folder := Place("cluster", was.vm.cluster, after.vm.cluster), Place("folder", was.vm.folder, after.vm.folder);
    VMReports.InFour(vcenter, host, cluster, folder, f);
    InTwo(vcenter + host + cluster + folder, DatastoreChanges(was.vm.datastores, after.vm.datastores), f);
    PlaceIs("host", was.vm.host, after.vm.host, f);
    PlaceIs("cluster", was.vm.cluster, after.vm.cluster, f);
    PlaceIs("folder", was.vm.folder, after.vm.folder, f);
    PlaceIs("vcenter", Nonempty(was.context, was.vcenterID), Nonempty(after.context, after.vcenterID), f);
    DatastoresAre(was.vm.datastores, after.vm.datastores, f);
  }

  lemma {:induction false} SnapshotEventsAre(entry: Entry, snaps: SnapshotChanges, e: Event)
    ensures e in SnapshotEvents(entry, snaps) <==> e.kind.SnapshotEvent? && e.kind.change in snaps && IsOf(e, entry) && e.changes == []
  {
    if snaps != [] {
      SnapshotEventsAre(entry, snaps[..|snaps| - 1], e);
    }
  }

  lemma RenamedTells(was: Observation, after: Entry, o: Options, skipped: bool, snaps: SnapshotChanges, e: Event)
    requires e in RenamedEvents(was, after)
    ensures Tells(e, was, after, skipped, o, snaps)
  {
  }

  lemma MovedTells(was: Observation, after: Entry, o: Options, skipped: bool, snaps: SnapshotChanges, e: Event)
    requires e in MovedEvents(was, after)
    ensures Tells(e, was, after, skipped, o, snaps)
  {
    VMReports.MovedIs(was, after.vm.observation);
    forall f ensures f in e.changes <==> PlaceDiffers(f, was, after.vm.observation) {
      PlacementChangesAre(was, after.vm.observation, f);
    }
  }

  lemma ModifiedTells(was: Observation, after: Entry, o: Options, skipped: bool, snaps: SnapshotChanges, e: Event)
    requires e in ModifiedEvents(ModifiedFields(was, after.vm.observation, o.includeRuntime), after)
    ensures Tells(e, was, after, skipped, o, snaps)
  {
    forall f ensures f in e.changes <==> FieldDiffers(f, was.vm, after.vm.observation.vm, o.includeRuntime) {
      ModifiedFieldsAre(was, after.vm.observation, o.includeRuntime, f);
    }
    assert e.changes[0] in e.changes;
  }

  lemma ChangeEventsTell(was: Observation, after: Entry, o: Options, skipped: bool, snaps: SnapshotChanges, e: Event)
    requires e in ChangeEvents(was, after, o)
    ensures Tells(e, was, after, skipped, o, snaps)
  {
    var modified := ModifiedEvents(ModifiedFields(was, after.vm.observation, o.includeRuntime), after);
    InTwo(RenamedEvents(was, after) + MovedEvents(was, after), modified, e);
    InTwo(RenamedEvents(was, after), MovedEvents(was, after), e);
    if e in RenamedEvents(was, after) {
      RenamedTells(was, after, o, skipped, snaps, e);
    } else if e in MovedEvents(was, after) {
      MovedTells(was, after, o, skipped, snaps, e);
    } else {
      ModifiedTells(was, after, o, skipped, snaps, e);
    }
  }

  lemma ObservedTells(was: Observation, after: Entry, o: Options, skipped: bool, snaps: SnapshotChanges, e: Event)
    requires e in ObservedEvents(was, after, o)
    ensures Tells(e, was, after, skipped, o, snaps)
  {
    forall f ensures !FieldDiffers(f, was.vm, after.vm.observation.vm, o.includeRuntime) {
      ModifiedFieldsAre(was, after.vm.observation, o.includeRuntime, f);
    }
  }

  lemma StepTells(was: Observation, index: RunIndex, before: Entry, after: Entry, o: Options, snaps: SnapshotChanges, e: Event)
    requires e in EventsAgainst(was, index, before, after, o, snaps)
    ensures Tells(e, was, after, SkipsARun(index, before, after), o, snaps)
  {
    VMReports.InFour(ReappearedEvents(index, before, after), ChangeEvents(was, after, o), SnapshotEvents(after, snaps),
                     ObservedEvents(was, after, o), e);
    var skipped := SkipsARun(index, before, after);
    if e in ChangeEvents(was, after, o) {
      ChangeEventsTell(was, after, o, skipped, snaps, e);
    } else if e in SnapshotEvents(after, snaps) {
      SnapshotEventsAre(after, snaps, e);
    } else if e in ObservedEvents(was, after, o) {
      ObservedTells(was, after, o, skipped, snaps, e);
    }
  }

  /** The step's event of a kind, when there is one. */
  function EventFor(kind: Kind, was: Observation, after: Entry, o: Options): Event {
    EventOf(kind, after,
      match kind
      case Renamed => [FieldChange("name", was.vm.name, after.vm.observation.vm.name)]
      case MovedVM => PlacementChanges(was, after.vm.observation)
      case Modified => ModifiedFields(was, after.vm.observation, o.includeRuntime)
      case _ => [])
  }

  lemma StepHas(was: Observation, index: RunIndex, before: Entry, after: Entry, o: Options, snaps: SnapshotChanges, kind: Kind)
    requires Happened(kind, was, after.vm.observation, SkipsARun(index, before, after), o, snaps)
    ensures EventFor(kind, was, after, o) in EventsAgainst(was, index, before, after, o, snaps)
  {
    var e := EventFor(kind, was, after, o);
    VMReports.InFour(ReappearedEvents(index, before, after), ChangeEvents(was, after, o), SnapshotEvents(after, snaps),
                     ObservedEvents(was, after, o), e);
    match kind
    case Reappeared =>
    case Renamed => assert e in RenamedEvents(was, after);
    case MovedVM =>
      VMReports.MovedIs(was, after.vm.observation);
      assert e in MovedEvents(was, after);
    case Modified =>
      var f :| FieldDiffers(f, was.vm, after.vm.observation.vm, o.includeRuntime);
      ModifiedFieldsAre(was, after.vm.observation, o.includeRuntime, f);
      assert e in ModifiedEvents(ModifiedFields(was, after.vm.observation, o.includeRuntime), after);
    case SnapshotEvent(c) => SnapshotEventsAre(after, snaps, e);
    case Observed =>
      var fields := ModifiedFields(was, after.vm.observation, o.includeRuntime);
      if |fields| > 0 {
        ModifiedFieldsAre(was, after.vm.observation, o.includeRuntime, fields[0]);
      }
  }

  // ----- The whole timeline

  /** Some listed run lies strictly between the two. */
  predicate RunBetween(runs: seq<Run>, before: Run, after: Run) {
    exists r :: 0 <= r < |runs| && before.startedAt < runs[r].startedAt < after.startedAt
  }

  lemma SkipsExactlyWhen(entries: seq<Entry>, runs: seq<Run>, n: nat)
    requires Lineage.NewestFirst(runs) && Lineage.Listed(entries, runs) && 0 < n < |entries|
    ensures SkipsARun(IndexRuns(runs), entries[n - 1], entries[n]) <==> RunBetween(runs, entries[n - 1].run, entries[n].run)
  {
    Lineage.PositionIs(entries, runs, n - 1);
    Lineage.PositionIs(entries, runs, n);
    var p, q := IndexRuns(runs)[entries[n - 1].run.id], IndexRuns(runs)[entries[n].run.id];
    if q < p - 1 {
      assert runs[p].startedAt < runs[q + 1].startedAt < runs[q].startedAt;
    }
    if r :| 0 <= r < |runs| && runs[p].startedAt < runs[r].startedAt < runs[q].startedAt {
      assert q < r < p;
    }
  }

  /** What entry n is compared with: the entry before it as last seen. */
  function Was(entries: seq<Entry>, n: nat): Observation
    requires 0 < n <= |entries|
  {
    FilledVM(KnownAfter(VMs(entries[..n])), entries[n - 1]).observation
  }

  lemma WasAsLastSeen(entries: seq<Entry>, n: nat)
    requires 0 < n <= |entries|
    ensures var was := Was(entries, n);
      && was.vcenterID == entries[n - 1].vm.observation.vcenterID && was.context == entries[n - 1].vm.observation.context
      && AsLastSeen(VMs(entries[..n]), was.vm)
  {
    FilledAsLastSeen(VMs(entries[..n]));
  }

  /** The events of step n. */
  ghost function EventsAt(entries: seq<Entry>, index: RunIndex, o: Options, snaps: seq<SnapshotChanges>, n: int): seq<Event> {
    if 0 < n < |entries| && n < |snaps| then EventsAgainst(Was(entries, n), index, entries[n - 1], entries[n], o, snaps[n]) else []
  }

  ghost predicate InStep(entries: seq<Entry>, index: RunIndex, o: Options, snaps: seq<SnapshotChanges>, e: Event, n: int) {
    e in EventsAt(entries, index, o, snaps, n)
  }

  lemma WasFront(entries: seq<Entry>, m: nat, n: nat)
    requires 0 < n < m <= |entries|
    ensures Was(entries[..m], n) == Was(entries, n)
  {
    assert entries[..m][..n] == entries[..n] && entries[..m][n - 1] == entries[n - 1];
  }

  lemma EventsAtFront(entries: seq<Entry>, index: RunIndex, o: Options, snaps: seq<SnapshotChanges>, m: nat, n: int)
    requires m <= |entries| == |snaps|
    ensures EventsAt(entries[..m], index, o, snaps[..m], n) == if n < m then EventsAt(entries, index, o, snaps, n) else []
  {
    if 0 < n < m {
      WasFront(entries, m, n);
      assert entries[..m][n - 1] == entries[n - 1] && entries[..m][n] == entries[n] && snaps[..m][n] == snaps[n];
    }
  }

  lemma InStepFront(entries: seq<Entry>, index: RunIndex, o: Options, snaps: seq<SnapshotChanges>, e: Event, m: nat, n: int)
    requires m <= |entries| == |snaps|
    ensures InStep(entries[..m], index, o, snaps[..m], e, n) <==> n < m && InStep(entries, index, o, snaps, e, n)
  {
    EventsAtFront(entries, index, o, snaps, m, n);
  }

  /** The event is the first sighting or of some step. */
  ghost predicate InSteps(entries: seq<Entry>, index: RunIndex, o: Options, snaps: seq<SnapshotChanges>, e: Event) {
    || (entries != [] && e == EventOf(FirstSeen, entries[0], []))
    || exists n :: Steps(entries, index, o, snaps, e)(n)
  }

  ghost function Steps(entries: seq<Entry>, index: RunIndex, o: Options, snaps: seq<SnapshotChanges>, e: Event): int -> bool {
    n => InStep(entries, index, o, snaps, e, n)
  }

  lemma InStepsSplit(entries: seq<Entry>, index: RunIndex, o: Options, snaps: seq<SnapshotChanges>, e: Event)
    requires 1 < |entries| == |snaps|
    ensures var m := |entries| - 1;
      InSteps(entries, index, o, snaps, e) <==> InSteps(entries[..m], index, o, snaps[..m], e) || InStep(entries, index, o, snaps, e, m)
  {
    var m := |entries| - 1;
    var all, front := Steps(entries, index, o, snaps, e), Steps(entries[..m], index, o, snaps[..m], e);
    forall n ensures front(n) <==> n < m && all(n) {
      InStepFront(entries, index, o, snaps, e, m, n);
    }
    forall n | all(n) ensures n <= m {
    }
    VMReports.SplitExists(all, front, m);
  }

  lemma {:induction false} LoopEventsAre(entries: seq<Entry>, index: RunIndex, o: Options, snaps: seq<SnapshotChanges>, e: Event)
    requires |entries| == |snaps|
    ensures e in LoopEvents(entries, index, o, snaps) <==> InSteps(entries, index, o, snaps, e)
  {
    if |entries| > 1 {
      var m := |entries| - 1;
      var front, parts, last := entries[..m], snaps[..m], EventsAt(entries, index, o, snaps, m);
      LoopEventsAre(front, index, o, parts, e);
      InStepsSplit(entries, index, o, snaps, e);
      LoopSplit(entries, index, o, snaps);
      InTwo(LoopEvents(front, index, o, parts), last, e);
    } else {
      LoopOfFew(entries, index, o, snaps, e);
    }
  }

  lemma LoopOfFew(entries: seq<Entry>, index: RunIndex, o: Options, snaps: seq<SnapshotChanges>, e: Event)
    requires |entries| == |snaps| <= 1
    ensures e in LoopEvents(entries, index, o, snaps) <==> InSteps(entries, index, o, snaps, e)
  {
  }

  lemma LoopSplit(entries: seq<Entry>, index: RunIndex, o: Options, snaps: seq<SnapshotChanges>)
    requires 1 < |entries| == |snaps|
    ensures var m := |entries| - 1;
      LoopEvents(entries, index, o, snaps) == LoopEvents(entries[..m], index, o, snaps[..m]) + EventsAt(entries, index, o, snaps, m)
  {
  }

  /** A listed run whose vCenter read is complete or partial read the VMs where o was observed, by the
      vCenter's ID, or by the context's name where an ID is missing. */
  predicate ReadAgain(run: Run, o: Observation, selected: seq<string>) {
    && (run.status == Ledger.RunComplete || run.status == Ledger.RunPartial)
    && exists c :: c in run.contexts && c.vmsRead && (selected == [] || VCenterVMs.ContextKey(c.name) in selected)
         && if c.vcenterID == "" || o.vcenterID == "" then c.name == o.context else c.vcenterID == o.vcenterID
  }

  /** The VM was in the entry's run and is not in the next one, which read its vCenter. */
  ghost predicate Gone(entries: seq<Entry>, runs: seq<Run>, selected: seq<string>, entry: Entry, j: int) {
    && 0 < j < |runs| && entry in entries && entry.run.id == runs[j].id
    && (forall x :: x in entries ==> x.run.id != runs[j - 1].id)
    && ReadAgain(runs[j - 1], entry.vm.observation, selected)
  }

  lemma GoneIs(entries: seq<Entry>, runs: seq<Run>, selected: seq<string>, j: nat)
    requires j < |runs|
    ensures GoneAfter(runs, ByRun(entries), selected, j) ==> Gone(entries, runs, selected, ByRun(entries)[runs[j].id], j)
    ensures (exists entry :: Gone(entries, runs, selected, entry, j)) && Lineage.NewestFirst(runs) && OnePerRun(entries) ==>
      GoneAfter(runs, ByRun(entries), selected, j)
  {
    Lineage.ByRunHolds(entries);
    if GoneAfter(runs, ByRun(entries), selected, j) {
      var entry := ByRun(entries)[runs[j].id];
      var i :| 0 <= i < |runs[j - 1].contexts| && Covers(runs[j - 1].contexts[i], entry.vm.observation)
        && InScope(runs[j - 1].contexts[i], selected);
      assert runs[j - 1].contexts[i] in runs[j - 1].contexts;
    }
    if OnePerRun(entries) {
      if entry :| Gone(entries, runs, selected, entry, j) {
        assert ByRun(entries)[runs[j].id] == entry;
        var c :| c in runs[j - 1].contexts && c.vmsRead && (selected == [] || VCenterVMs.ContextKey(c.name) in selected)
          && if c.vcenterID == "" || entry.vm.observation.vcenterID == "" then c.name == entry.vm.observation.context
             else c.vcenterID == entry.vm.observation.vcenterID;
        var i :| 0 <= i < |runs[j - 1].contexts| && runs[j - 1].contexts[i] == c;
        assert Covers(runs[j - 1].contexts[i], entry.vm.observation) && InScope(runs[j - 1].contexts[i], selected);
      }
    }
  }

  /** The VM was found once in a run. */
  ghost predicate OnePerRun(entries: seq<Entry>) {
    forall x, y :: x in entries && y in entries && x.run.id == y.run.id ==> x == y
  }

  predicate IsGoneEvent(e: Event, entry: Entry, next: Run) {
    && e.kind == Vanished && e.run == next && e.context == entry.vm.observation.context
    && e.name == entry.vm.observation.vm.name && e.observation == entry.vm.observation && e.changes == []
  }

  /** The event is the first sighting, of a step, or of a disappearance. */
  ghost predicate IsTrue(entries: seq<Entry>, runs: seq<Run>, selected: seq<string>, o: Options, snaps: seq<SnapshotChanges>, e: Event) {
    || (entries != [] && e.kind == FirstSeen && IsOf(e, entries[0]) && e.changes == [])
    || (exists n :: 0 < n < |entries| && n < |snaps|
          && Tells(e, Was(entries, n), entries[n], RunBetween(runs, entries[n - 1].run, entries[n].run), o, snaps[n]))
    || (exists entry, j :: Gone(entries, runs, selected, entry, j) && IsGoneEvent(e, entry, runs[j - 1]))
  }

  lemma StepIsTrue(entries: seq<Entry>, runs: seq<Run>, selected: seq<string>, o: Options, snaps: seq<SnapshotChanges>, e: Event, n: nat)
    requires Lineage.NewestFirst(runs) && Lineage.Listed(entries, runs) && InStep(entries, IndexRuns(runs), o, snaps, e, n)
    ensures IsTrue(entries, runs, selected, o, snaps, e)
  {
    StepTells(Was(entries, n), IndexRuns(runs), entries[n - 1], entries[n], o, snaps[n], e);
    SkipsExactlyWhen(entries, runs, n);
  }

  lemma GoneIsTrue(entries: seq<Entry>, runs: seq<Run>, selected: seq<string>, o: Options, snaps: seq<SnapshotChanges>, e: Event)
    requires e in VanishedEvents(runs, ByRun(entries), selected, 0)
    ensures IsTrue(entries, runs, selected, o, snaps, e)
  {
    Lineage.VanishedEventsAre(runs, ByRun(entries), selected, 0, e);
    var j: nat :| j < |runs| && GoneAfter(runs, ByRun(entries), selected, j) && e == VanishedEvent(runs, ByRun(entries), j);
    GoneIs(entries, runs, selected, j);
    assert IsGoneEvent(e, ByRun(entries)[runs[j].id], runs[j - 1]);
  }

  /** A timeline whose runs are newest first and hold every entry, and its events. */
  ghost predicate IsTimeline(entries: seq<Entry>, runs: seq<Run>, selected: seq<string>, o: Options, snaps: seq<SnapshotChanges>,
      events: seq<Event>)
  {
    && |snaps| == |entries| && Lineage.NewestFirst(runs) && Lineage.Listed(entries, runs)
    && forall e :: e in events <==> InSteps(entries, IndexRuns(runs), o, snaps, e) || e in VanishedEvents(runs, ByRun(entries), selected, 0)
  }

  lemma ReportsAreATimeline(found: seq<Entry>, recorded: seq<Run>, selected: seq<string>, o: Options, events: seq<Event>,
      snaps: seq<SnapshotChanges>)
    requires Reports(found, recorded, selected, o, events, snaps)
    requires Lineage.NewestFirst(FollowedRuns(found, recorded)) && Lineage.Listed(Followed(found), FollowedRuns(found, recorded))
    ensures IsTimeline(Followed(found), FollowedRuns(found, recorded), selected, o, snaps, events)
  {
    var entries, runs := Followed(found), FollowedRuns(found, recorded);
    var loop, gone := LoopEvents(entries, IndexRuns(runs), o, snaps), VanishedEvents(runs, ByRun(entries), selected, 0);
    SameMembers(events, loop + gone);
    forall e ensures e in events <==> InSteps(entries, IndexRuns(runs), o, snaps, e) || e in gone {
      LoopEventsAre(entries, IndexRuns(runs), o, snaps, e);
      assert e in loop + gone <==> e in loop || e in gone;
    }
  }

  /** Every event of a timeline is true. */
  lemma EventsAreTrue(entries: seq<Entry>, runs: seq<Run>, selected: seq<string>, o: Options, snaps: seq<SnapshotChanges>,
      events: seq<Event>, e: Event)
    requires IsTimeline(entries, runs, selected, o, snaps, events) && e in events
    ensures IsTrue(entries, runs, selected, o, snaps, e)
  {
    if e in VanishedEvents(runs, ByRun(entries), selected, 0) {
      GoneIsTrue(entries, runs, selected, o, snaps, e);
    } else if n :| Steps(entries, IndexRuns(runs), o, snaps, e)(n) {
      StepIsTrue(entries, runs, selected, o, snaps, e, n);
    }
  }

  /** What step n has an event of. */
  ghost predicate HappenedAt(kind: Kind, entries: seq<Entry>, runs: seq<Run>, o: Options, snaps: seq<SnapshotChanges>, n: int) {
    && 0 < n < |entries| && n < |snaps|
    && Happened(kind, Was(entries, n), entries[n].vm.observation, RunBetween(runs, entries[n - 1].run, entries[n].run), o, snaps[n])
  }

  /** And nothing that happened goes unreported: of every kind that did there is an event of the entry. */
  lemma EventsAreComplete(entries: seq<Entry>, runs: seq<Run>, selected: seq<string>, o: Options, snaps: seq<SnapshotChanges>,
      events: seq<Event>, n: nat, kind: Kind)
    requires IsTimeline(entries, runs, selected, o, snaps, events) && HappenedAt(kind, entries, runs, o, snaps, n)
    ensures exists e :: e in events && e.kind == kind && IsOf(e, entries[n])
  {
    StepHasIt(entries, runs, o, snaps, n, kind);
    var e := EventFor(kind, Was(entries, n), entries[n], o);
    assert Steps(entries, IndexRuns(runs), o, snaps, e)(n);
    assert e in events && IsOf(e, entries[n]);
  }

  lemma StepHasIt(entries: seq<Entry>, runs: seq<Run>, o: Options, snaps: seq<SnapshotChanges>, n: nat, kind: Kind)
    requires Lineage.NewestFirst(runs) && Lineage.Listed(entries, runs) && HappenedAt(kind, entries, runs, o, snaps, n)
    ensures InStep(entries, IndexRuns(runs), o, snaps, EventFor(kind, Was(entries, n), entries[n], o), n)
  {
    SkipsExactlyWhen(entries, runs, n);
    StepHas(Was(entries, n), IndexRuns(runs), entries[n - 1], entries[n], o, snaps[n], kind);
  }

  /** The first entry is the first sighting, and every disappearance is reported. */
  lemma EndsAreComplete(entries: seq<Entry>, runs: seq<Run>, selected: seq<string>, o: Options, snaps: seq<SnapshotChanges>,
      events: seq<Event>)
    requires IsTimeline(entries, runs, selected, o, snaps, events)
    ensures entries != [] ==> exists e :: e in events && e.kind == FirstSeen && IsOf(e, entries[0])
    ensures OnePerRun(entries) ==> forall entry, j :: Gone(entries, runs, selected, entry, j) ==>
      exists e :: e in events && IsGoneEvent(e, entry, runs[j - 1])
  {
    if entries != [] {
      var e := EventOf(FirstSeen, entries[0], []);
      assert InSteps(entries, IndexRuns(runs), o, snaps, e) && IsOf(e, entries[0]);
    }
    if OnePerRun(entries) {
      forall entry, j | Gone(entries, runs, selected, entry, j) ensures exists e :: e in events && IsGoneEvent(e, entry, runs[j - 1]) {
        GoneIs(entries, runs, selected, j);
        Lineage.ByRunHolds(entries);
        Lineage.VanishedEventsAre(runs, ByRun(entries), selected, 0, VanishedEvent(runs, ByRun(entries), j));
        assert ByRun(entries)[runs[j].id] == entry;
        assert IsGoneEvent(VanishedEvent(runs, ByRun(entries), j), entry, runs[j - 1]);
      }
    }
  }

  predicate IsReappearance(e: Event, entry: Entry) {
    e == Event(Reappeared, entry.run, entry.vm.observation.context, entry.vm.observation.vm.name, [], entry.vm.observation)
  }

  /** A VM is reported to have appeared again at an entry exactly when some run of the timeline lies
      strictly between the run of the entry before it and its own. */
  lemma ReappearsExactlyWhen(entries: seq<Entry>, runs: seq<Run>, selected: seq<string>, o: Options, snaps: seq<SnapshotChanges>,
      events: seq<Event>, e: Event)
    requires IsTimeline(entries, runs, selected, o, snaps, events)
    ensures e in events && e.kind == Reappeared <==>
      exists n :: 0 < n < |entries| && RunBetween(runs, entries[n - 1].run, entries[n].run) && IsReappearance(e, entries[n])
  {
    if e in events && e.kind == Reappeared {
      EventsAreTrue(entries, runs, selected, o, snaps, events, e);
    }
    if n: nat :| 0 < n < |entries| && RunBetween(runs, entries[n - 1].run, entries[n].run) && IsReappearance(e, entries[n]) {
      EventsAreComplete(entries, runs, selected, o, snaps, events, n, Reappeared);
      StepHasIt(entries, runs, o, snaps, n, Reappeared);
      assert e == EventFor(Reappeared, Was(entries, n), entries[n], o);
      assert Steps(entries, IndexRuns(runs), o, snaps, e)(n);
    }
  }

  lemma NoRunBetween(entries: seq<Entry>, runs: seq<Run>, n: nat)
    requires Sorted(EntryLe, entries) && 0 < n < |entries|
    requires forall r :: r in runs ==> exists m :: 0 <= m < |entries| && entries[m].run == r
    ensures !RunBetween(runs, entries[n - 1].run, entries[n].run)
  {
    forall r | 0 <= r < |runs| ensures !(entries[n - 1].run.startedAt < runs[r].startedAt < entries[n].run.startedAt) {
      assert runs[r] in runs;
      var m: nat :| m < |entries| && entries[m].run == runs[r];
      if m < n {
        assert m == n - 1 || EntryLe(entries[m], entries[n - 1]);
      } else {
        assert m == n || EntryLe(entries[n], entries[m]);
      }
    }
  }

  /** A VM recorded in every run of the timeline never appears again. */
  lemma SeenThroughoutNeverReappears(entries: seq<Entry>, runs: seq<Run>, selected: seq<string>, o: Options, snaps: seq<SnapshotChanges>,
      events: seq<Event>, e: Event)
    requires IsTimeline(entries, runs, selected, o, snaps, events) && Sorted(EntryLe, entries) && e in events
    requires forall r :: r in runs ==> exists m :: 0 <= m < |entries| && entries[m].run == r
    ensures e.kind != Reappeared
  {
    ReappearsExactlyWhen(entries, runs, selected, o, snaps, events, e);
    forall n: nat | 0 < n < |entries| ensures !RunBetween(runs, entries[n - 1].run, entries[n].run) {
      NoRunBetween(entries, runs, n);
    }
  }
}
