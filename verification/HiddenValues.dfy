/** An observation that could not see a field hides nothing: what a timeline reports of the field
    is what it would report had the observations that could not see it never been made. */
module HiddenValues {
  import opened Common
  import opened Inventory
  import opened LastKnown
  import opened Sorting
  import opened Strings
  import opened Timeline

  // ----- The reports of one field

  function PairsOf(changes: seq<FieldChange>, field: string): Pairs {
    if changes == [] then []
    else
      var n := |changes| - 1;
      PairsOf(changes[..n], field) + if changes[n].field == field then [(changes[n].before, changes[n].after)] else []
  }

  /** Every change of the field a timeline reports, in order. */
  function Reported(events: seq<Event>, field: string): Pairs {
    if events == [] then []
    else Reported(events[..|events| - 1], field) + PairsOf(events[|events| - 1].changes, field)
  }

  lemma {:induction false} PairsOfConcat(a: seq<FieldChange>, b: seq<FieldChange>, field: string)
    ensures PairsOf(a + b, field) == PairsOf(a, field) + PairsOf(b, field)
  {
    if b == [] {
      assert a + b == a;
    } else {
      PairsOfConcat(a, b[..|b| - 1], field);
      assert (a + b)[..|a + b| - 1] == a + b[..|b| - 1];
    }
  }

  lemma {:induction false} ReportedConcat(a: seq<Event>, b: seq<Event>, field: string)
    ensures Reported(a + b, field) == Reported(a, field) + Reported(b, field)
  {
    if b == [] {
      assert a + b == a;
    } else {
      var n := |b| - 1;
      assert (a + b)[..|a + b| - 1] == a + b[..n] && (a + b)[|a + b| - 1] == b[n];
      ReportedConcat(a, b[..n], field);
    }
  }

  lemma PairsOfParts(a: seq<FieldChange>, b: seq<FieldChange>, c: seq<FieldChange>, d: seq<FieldChange>, field: string)
    ensures PairsOf(a + b + c + d, field) == PairsOf(a, field) + PairsOf(b, field) + PairsOf(c, field) + PairsOf(d, field)
  {
    PairsOfConcat(a + b + c, d, field);
    PairsOfConcat(a + b, c, field);
    PairsOfConcat(a, b, field);
  }

  lemma ReportedParts(a: seq<Event>, b: seq<Event>, c: seq<Event>, d: seq<Event>, field: string)
    ensures Reported(a + b + c + d, field) == Reported(a, field) + Reported(b, field) + Reported(c, field) + Reported(d, field)
  {
    ReportedConcat(a + b + c, d, field);
    ReportedConcat(a + b, c, field);
    ReportedConcat(a, b, field);
  }

  lemma PairsOfOne(c: FieldChange, field: string)
    ensures PairsOf([c], field) == if c.field == field then [(c.before, c.after)] else []
  {
    assert [c][..0] == [];
  }

  lemma ReportedOne(e: Event, field: string)
    ensures Reported([e], field) == PairsOf(e.changes, field)
  {
    assert [e][..0] == [];
  }

  lemma {:induction false} PairsOfRemoved(changes: seq<FieldChange>, name: string, field: string)
    requires field != name
    ensures PairsOf(RemoveField(changes, name), field) == PairsOf(changes, field)
  {
    if changes != [] {
      var n := |changes| - 1;
      PairsOfRemoved(changes[..n], name, field);
      if changes[n].field != name {
        PairsOfConcat(RemoveField(changes[..n], name), [changes[n]], field);
        PairsOfOne(changes[n], field);
      } else {
        assert RemoveField(changes, name) == RemoveField(changes[..n], name);
      }
    }
  }

  lemma {:induction false} NothingToReport(events: seq<Event>, field: string)
    requires forall i :: 0 <= i < |events| ==> events[i].changes == []
    ensures Reported(events, field) == []
  {
    if events != [] {
      NothingToReport(events[..|events| - 1], field);
    }
  }

  // ----- The reports of one step

  lemma PairsOfPlace(name: string, before: string, after: string, field: string)
    ensures PairsOf(Place(name, before, after), field)
         == if name == field && PlacementDiffers(before, after) then [(before, after)] else []
  {
    if PlacementDiffers(before, after) {
      PairsOfOne(FieldChange(name, before, after), field);
    }
  }

  lemma PairsOfChange(name: string, before: string, after: string, field: string)
    ensures PairsOf(Change(name, before, after), field) == if name == field && before != after then [(before, after)] else []
  {
    if before != after {
      PairsOfOne(FieldChange(name, before, after), field);
    }
  }

  function DatastoresPair(before: seq<string>, after: seq<string>): Pairs {
    if |before| > 0 && |after| > 0 && !EqualStrings(before, after)
    then [(DatastoresText(before), DatastoresText(after))] else []
  }

  function PlacePair(before: string, after: string): Pairs {
    if PlacementDiffers(before, after) then [(before, after)] else []
  }

  lemma VCenterPairs(b: Observation, a: Observation, field: string)
    requires field != "vcenter"
    ensures PairsOf(VCenterChanges(b, a), field) == []
  {
    PairsOfPlace("vcenter", Nonempty(b.context, b.vcenterID), Nonempty(a.context, a.vcenterID), field);
  }

  lemma DatastoresPairs(before: seq<string>, after: seq<string>, field: string)
    ensures PairsOf(DatastoreChanges(before, after), field) == if field == "datastores" then DatastoresPair(before, after) else []
  {
    var stores := DatastoreChanges(before, after);
    if stores != [] {
      PairsOfOne(stores[0], field);
    }
  }

  lemma PlacementPairs(b: Observation, a: Observation, field: string)
    requires field != "vcenter" && field != "folder"
    ensures PairsOf(PlacementChanges(b, a), field) ==
      (if field == "host" then PlacePair(b.vm.host, a.vm.host) else [])
      + (if field == "cluster" then PlacePair(b.vm.cluster, a.vm.cluster) else [])
      + if field == "datastores" then DatastoresPair(b.vm.datastores, a.vm.datastores) else []
  {
    var vc, folder := VCenterChanges(b, a), Place("folder", b.vm.folder, a.vm.folder);
    var host, cluster := Place("host", b.vm.host, a.vm.host), Place("cluster", b.vm.cluster, a.vm.cluster);
    PairsOfConcat(vc + host + cluster + folder, DatastoreChanges(b.vm.datastores, a.vm.datastores), field);
    PairsOfParts(vc, host, cluster, folder, field);
    VCenterPairs(b, a, field);
    PairsOfPlace("host", b.vm.host, a.vm.host, field);
    PairsOfPlace("cluster", b.vm.cluster, a.vm.cluster, field);
    PairsOfPlace("folder", b.vm.folder, a.vm.folder, field);
    DatastoresPairs(b.vm.datastores, a.vm.datastores, field);
  }

  datatype ConfigField = CPUField | MemoryField | GuestOSField | AnnotationField

  function FieldName(f: ConfigField): string {
    match f
    case CPUField => "cpu"
    case MemoryField => "memory"
    case GuestOSField => "guest_os"
    case AnnotationField => "annotation"
  }

  function ConfigText(f: ConfigField, c: Config): string {
    match f
    case CPUField => FormatInt(c.cpu)
    case MemoryField => FormatInt(c.memoryMB)
    case GuestOSField => c.guestOS
    case AnnotationField => c.annotation
  }

  function ConfigOf(vm: VM): Config { Config(vm.cpu, vm.memoryMB, vm.guestOS, vm.annotation) }

  function ConfigPair(f: ConfigField, b: VM, a: VM): Pairs {
    if ConfigUnknown(b) || ConfigUnknown(a) || ConfigText(f, ConfigOf(b)) == ConfigText(f, ConfigOf(a)) then []
    else [(ConfigText(f, ConfigOf(b)), ConfigText(f, ConfigOf(a)))]
  }

  function ChangePair(before: string, after: string): Pairs { if before != after then [(before, after)] else [] }

  lemma ConfigPairsOf(b: VM, a: VM, field: string)
    requires !ConfigUnknown(b) && !ConfigUnknown(a)
    ensures PairsOf(ConfigChanges(b, a), field) ==
      (if field == "cpu" then ChangePair(FormatInt(b.cpu), FormatInt(a.cpu)) else [])
      + (if field == "memory" then ChangePair(FormatInt(b.memoryMB), FormatInt(a.memoryMB)) else [])
      + (if field == "guest_os" then ChangePair(b.guestOS, a.guestOS) else [])
      + if field == "annotation" then ChangePair(b.annotation, a.annotation) else []
  {
    var cpu, memory := Change("cpu", FormatInt(b.cpu), FormatInt(a.cpu)), Change("memory", FormatInt(b.memoryMB), FormatInt(a.memoryMB));
    var guest, note := Change("guest_os", b.guestOS, a.guestOS), Change("annotation", b.annotation, a.annotation);
    PairsOfParts(cpu, memory, guest, note, field);
    PairsOfChange("cpu", FormatInt(b.cpu), FormatInt(a.cpu), field);
    PairsOfChange("memory", FormatInt(b.memoryMB), FormatInt(a.memoryMB), field);
    PairsOfChange("guest_os", b.guestOS, a.guestOS, field);
    PairsOfChange("annotation", b.annotation, a.annotation, field);
  }

  lemma ConfigPairs(f: ConfigField, b: VM, a: VM)
    ensures PairsOf(ConfigChanges(b, a), FieldName(f)) == ConfigPair(f, b, a)
  {
    if !ConfigUnknown(b) && !ConfigUnknown(a) {
      ConfigPairsOf(b, a, FieldName(f));
    }
  }

  /** The fields followed here. */
  predicate Followable(field: string) {
    field == "host" || field == "cluster" || field == "datastores" || exists f :: field == FieldName(f)
  }

  lemma FollowableIsNoOther(field: string)
    requires Followable(field)
    ensures field != "name" && field != "config" && field != "runtime" && field != "vcenter" && field != "folder"
  {
    assert field[0] == 'h' || field[0] == 'c' || field[0] == 'd' || field[0] == 'm' || field[0] == 'g' || field[0] == 'a';
  }

  lemma OnlySecond(a: seq<FieldChange>, b: seq<FieldChange>, c: seq<FieldChange>, d: seq<FieldChange>, field: string)
    requires PairsOf(a, field) == [] && PairsOf(c, field) == [] && PairsOf(d, field) == []
    ensures PairsOf(a + b + c + d, field) == PairsOf(b, field)
  {
    PairsOfParts(a, b, c, d, field);
  }

  lemma ChangedPairs(b: VM, a: VM, runtime: bool, field: string)
    requires Followable(field)
    ensures PairsOf(ChangedFields(b, a, runtime), field) == PairsOf(ConfigChanges(b, a), field)
  {
    FollowableIsNoOther(field);
    var name, config := Change("name", b.name, a.name), Change("config", b.config, a.config);
    var last := if runtime then Change("runtime", b.runtime, a.runtime) else [];
    NoPairsOfChange("name", b.name, a.name, field);
    NoPairsOfChange("config", b.config, a.config, field);
    NoPairsOfChange("runtime", b.runtime, a.runtime, field);
    OnlySecond(name, ConfigChanges(b, a), config, last, field);
  }

  lemma NoPairsOfChange(name: string, before: string, after: string, field: string)
    requires name != field
    ensures PairsOf(Change(name, before, after), field) == []
  {
    PairsOfChange(name, before, after, field);
  }

  lemma RenamedPairs(b: Observation, after: Entry, field: string)
    requires field != "name"
    ensures Reported(RenamedEvents(b, after), field) == []
  {
    var events := RenamedEvents(b, after);
    if events != [] {
      ReportedOne(events[0], field);
      PairsOfOne(events[0].changes[0], field);
    }
  }

  lemma MovedPairs(b: Observation, after: Entry, field: string)
    requires Followable(field)
    ensures Reported(MovedEvents(b, after), field) == PairsOf(PlacementChanges(b, after.vm.observation), field)
  {
    var a := after.vm.observation;
    FollowableIsNoOther(field);
    PlacementPairs(b, a, field);
    var events := MovedEvents(b, after);
    if events != [] {
      ReportedOne(events[0], field);
    }
  }

  lemma ModifiedPairs(b: Observation, after: Entry, o: Options, field: string)
    requires Followable(field)
    ensures Reported(ModifiedEvents(ModifiedFields(b, after.vm.observation, o.includeRuntime), after), field)
         == PairsOf(ConfigChanges(b.vm, after.vm.observation.vm), field)
  {
    var a := after.vm.observation;
    FollowableIsNoOther(field);
    ChangedPairs(b.vm, a.vm, o.includeRuntime, field);
    PairsOfRemoved(ChangedFields(b.vm, a.vm, o.includeRuntime), "name", field);
    var fields := ModifiedFields(b, a, o.includeRuntime);
    if |fields| > 0 {
      ReportedOne(EventOf(Modified, after, fields), field);
    }
  }

  lemma ChangePairs(b: Observation, after: Entry, o: Options, field: string)
    requires Followable(field)
    ensures Reported(ChangeEvents(b, after, o), field)
         == PairsOf(PlacementChanges(b, after.vm.observation), field) + PairsOf(ConfigChanges(b.vm, after.vm.observation.vm), field)
  {
    var renamed, moved := RenamedEvents(b, after), MovedEvents(b, after);
    var modified := ModifiedEvents(ModifiedFields(b, after.vm.observation, o.includeRuntime), after);
    ReportedConcat(renamed + moved, modified, field);
    ReportedConcat(renamed, moved, field);
    FollowableIsNoOther(field);
    RenamedPairs(b, after, field);
    MovedPairs(b, after, field);
    ModifiedPairs(b, after, o, field);
  }

  ghost predicate NoChanges(events: seq<Event>) { forall i :: 0 <= i < |events| ==> events[i].changes == [] }

  lemma ReportedAround(first: seq<Event>, changes: seq<Event>, snaps: seq<Event>, last: seq<Event>, field: string)
    requires NoChanges(first) && NoChanges(snaps) && NoChanges(last)
    ensures Reported(first + changes + snaps + last, field) == Reported(changes, field)
  {
    ReportedParts(first, changes, snaps, last, field);
    NothingToReport(first, field);
    NothingToReport(snaps, field);
    NothingToReport(last, field);
  }

  lemma ExtrasHaveNoChanges(b: Observation, index: RunIndex, before: Entry, after: Entry, o: Options, snaps: SnapshotChanges)
    ensures NoChanges(ReappearedEvents(index, before, after)) && NoChanges(SnapshotEvents(after, snaps))
    ensures NoChanges(ObservedEvents(b, after, o))
  {
  }

  lemma StepPairs(b: Observation, index: RunIndex, before: Entry, after: Entry, o: Options, snaps: SnapshotChanges, field: string)
    requires Followable(field)
    ensures Reported(EventsAgainst(b, index, before, after, o, snaps), field)
         == PairsOf(PlacementChanges(b, after.vm.observation), field) + PairsOf(ConfigChanges(b.vm, after.vm.observation.vm), field)
  {
    ExtrasHaveNoChanges(b, index, before, after, o, snaps);
    ReportedAround(ReappearedEvents(index, before, after), ChangeEvents(b, after, o), SnapshotEvents(after, snaps),
                   ObservedEvents(b, after, o), field);
    ChangePairs(b, after, o, field);
  }

  // ----- Against the last observation that saw the field

  function Text(s: string): string { s }

  predicate Differ(a: string, b: string) { a != b }

  predicate DatastoresDiffer(a: seq<string>, b: seq<string>) { !EqualStrings(a, b) }

  function ConfigShow(f: ConfigField): Config -> string { c => ConfigText(f, c) }

  function ConfigDiffer(f: ConfigField): (Config, Config) -> bool { (a, b) => ConfigText(f, a) != ConfigText(f, b) }

  /** A readable configuration with no CPU and no memory is taken for an unknown one once it has
      been carried past an observation that could not read it. */
  predicate Lost(vms: seq<VM>, after: VM, f: ConfigField) {
    && vms != [] && ConfigUnknown(vms[|vms| - 1]) && !ConfigUnknown(after)
    && var last := Latest(vms, SeenConfig);
      last.Some? && last.value.cpu == 0 && last.value.memoryMB == 0 && ConfigText(f, last.value) != ConfigText(f, ConfigOf(after))
  }

  function ConfigStep(vms: seq<VM>, after: VM, f: ConfigField): Pairs {
    if Lost(vms, after, f) then [] else Step(Latest(vms, SeenConfig), SeenConfig(after), ConfigShow(f), ConfigDiffer(f))
  }

  lemma HostPair(vms: seq<VM>, after: VM)
    requires vms != []
    ensures PlacePair(Fill(KnownAfter(vms), vms[|vms| - 1]).host, after.host)
         == Step(Latest(vms, SeenHost), SeenHost(after), Text, Differ)
  {
    FilledIsTheLatest(vms);
    KnowsThePlacement(vms);
  }

  lemma ClusterPair(vms: seq<VM>, after: VM)
    requires vms != []
    ensures PlacePair(Fill(KnownAfter(vms), vms[|vms| - 1]).cluster, after.cluster)
         == Step(Latest(vms, SeenCluster), SeenCluster(after), Text, Differ)
  {
    FilledIsTheLatest(vms);
    KnowsThePlacement(vms);
  }

  lemma DatastoresStep(vms: seq<VM>, after: VM)
    requires vms != []
    ensures DatastoresPair(Fill(KnownAfter(vms), vms[|vms| - 1]).datastores, after.datastores)
         == Step(Latest(vms, SeenDatastores), SeenDatastores(after), DatastoresText, DatastoresDiffer)
  {
    FilledIsTheLatest(vms);
    KnowsThePlacement(vms);
  }

  lemma ConfigFieldStep(vms: seq<VM>, after: VM, f: ConfigField)
    requires vms != []
    ensures ConfigPair(f, Fill(KnownAfter(vms), vms[|vms| - 1]), after) == ConfigStep(vms, after, f)
  {
    FilledIsTheLatest(vms);
    var filled := Fill(KnownAfter(vms), vms[|vms| - 1]);
    if Latest(vms, SeenConfig).Some? {
      assert ConfigOf(filled) == Latest(vms, SeenConfig).value;
    }
  }

  /** What one observation reports of a field, from all the ones before it. */
  function FieldStep(vms: seq<VM>, after: VM, field: string): Pairs {
    if field == "host" then Step(Latest(vms, SeenHost), SeenHost(after), Text, Differ)
    else if field == "cluster" then Step(Latest(vms, SeenCluster), SeenCluster(after), Text, Differ)
    else if field == "datastores" then Step(Latest(vms, SeenDatastores), SeenDatastores(after), DatastoresText, DatastoresDiffer)
    else if field == "cpu" then ConfigStep(vms, after, CPUField)
    else if field == "memory" then ConfigStep(vms, after, MemoryField)
    else if field == "guest_os" then ConfigStep(vms, after, GuestOSField)
    else ConfigStep(vms, after, AnnotationField)
  }

  lemma NoConfigPairs(b: VM, a: VM, field: string)
    requires field == "host" || field == "cluster" || field == "datastores"
    ensures PairsOf(ConfigChanges(b, a), field) == []
  {
    if !ConfigUnknown(b) && !ConfigUnknown(a) {
      assert field[0] != "guest_os"[0] && field[0] != "memory"[0] && field[0] != "annotation"[0];
      ConfigPairsOf(b, a, field);
    }
  }

  lemma NoPlacementPairs(b: Observation, a: Observation, f: ConfigField)
    ensures PairsOf(PlacementChanges(b, a), FieldName(f)) == []
  {
    var field := FieldName(f);
    assert |field| == 3 || field[0] == 'm' || field[0] == 'g' || field[0] == 'a';
    assert "vcenter"[0] == 'v' && "folder"[0] == 'f' && "host"[0] == 'h' && "datastores"[0] == 'd';
    assert "cluster"[0] == 'c' && |"cluster"| == 7;
    PlacementPairs(b, a, field);
  }

  lemma ConfigFieldStepIs(vms: seq<VM>, after: VM, f: ConfigField)
    ensures FieldStep(vms, after, FieldName(f)) == ConfigStep(vms, after, f)
  {
    assert |"cpu"| == 3 && "memory"[0] == 'm' && "guest_os"[0] == 'g' && "annotation"[0] == 'a';
    assert "host"[0] == 'h' && "datastores"[0] == 'd' && |"cluster"| == 7 && "cluster"[0] == 'c';
  }

  lemma ConfigFieldsStep(vms: seq<VM>, b: Observation, after: Entry, f: ConfigField)
    requires vms != [] && b.vm == Fill(KnownAfter(vms), vms[|vms| - 1])
    ensures PairsOf(PlacementChanges(b, after.vm.observation), FieldName(f)) + PairsOf(ConfigChanges(b.vm, after.Seen()), FieldName(f))
         == FieldStep(vms, after.Seen(), FieldName(f))
  {
    NoPlacementPairs(b, after.vm.observation, f);
    ConfigPairs(f, b.vm, after.Seen());
    ConfigFieldStep(vms, after.Seen(), f);
    ConfigFieldStepIs(vms, after.Seen(), f);
  }

  lemma PlacementFieldsStep(vms: seq<VM>, b: Observation, after: Entry, field: string)
    requires vms != [] && b.vm == Fill(KnownAfter(vms), vms[|vms| - 1])
    requires field == "host" || field == "cluster" || field == "datastores"
    ensures PairsOf(PlacementChanges(b, after.vm.observation), field) + PairsOf(ConfigChanges(b.vm, after.Seen()), field)
         == FieldStep(vms, after.Seen(), field)
  {
    assert field[0] == 'h' || field[0] == 'c' || field[0] == 'd';
    PlacementPairs(b, after.vm.observation, field);
    NoConfigPairs(b.vm, after.Seen(), field);
    HostPair(vms, after.Seen());
    ClusterPair(vms, after.Seen());
    DatastoresStep(vms, after.Seen());
  }

  /** What a whole history reports of a field. */
  function FieldSteps(vms: seq<VM>, field: string): Pairs {
    if |vms| < 2 then []
    else
      var n := |vms| - 1;
      FieldSteps(vms[..n], field) + FieldStep(vms[..n], vms[n], field)
  }

  lemma EntryPairs(entries: seq<Entry>, n: nat, index: RunIndex, o: Options, snaps: SnapshotChanges, field: string)
    requires 0 < n < |entries| && Followable(field)
    ensures Reported(StepEvents(KnownAfter(VMs(entries[..n])), index, entries[n - 1], entries[n], o, snaps), field)
         == FieldStep(VMs(entries[..n]), entries[n].Seen(), field)
  {
    var vms := VMs(entries[..n]);
    assert vms[|vms| - 1] == entries[n - 1].Seen();
    var b := FilledVM(KnownAfter(vms), entries[n - 1]).observation;
    StepPairs(b, index, entries[n - 1], entries[n], o, snaps, field);
    if f :| field == FieldName(f) {
      ConfigFieldsStep(vms, b, entries[n], f);
    } else {
      PlacementFieldsStep(vms, b, entries[n], field);
    }
  }

  lemma FieldStepsNext(entries: seq<Entry>, field: string)
    requires |entries| > 1
    ensures var n := |entries| - 1;
      FieldSteps(VMs(entries), field) == FieldSteps(VMs(entries[..n]), field) + FieldStep(VMs(entries[..n]), entries[n].Seen(), field)
  {
    var n := |entries| - 1;
    assert VMs(entries)[..n] == VMs(entries[..n]);
  }

  lemma {:induction false} LoopPairs(entries: seq<Entry>, index: RunIndex, o: Options, snaps: seq<SnapshotChanges>, field: string)
    requires |snaps| == |entries| && Followable(field)
    ensures Reported(LoopEvents(entries, index, o, snaps), field) == FieldSteps(VMs(entries), field)
  {
    if |entries| == 1 {
      ReportedOne(EventOf(FirstSeen, entries[0], []), field);
    } else if |entries| > 1 {
      var n := |entries| - 1;
      var front := LoopEvents(entries[..n], index, o, snaps[..n]);
      var step := StepEvents(KnownAfter(VMs(entries[..n])), index, entries[n - 1], entries[n], o, snaps[n]);
      LoopPairs(entries[..n], index, o, snaps[..n], field);
      EntryPairs(entries, n, index, o, snaps[n], field);
      ReportedConcat(front, step, field);
      FieldStepsNext(entries, field);
    }
  }

  // ----- Through the final sort

  lemma ReportedFirst(x: Event, s: seq<Event>, field: string)
    ensures Reported([x] + s, field) == PairsOf(x.changes, field) + Reported(s, field)
  {
    ReportedOne(x, field);
    ReportedConcat([x], s, field);
  }

  lemma {:induction false} InsertPairs(x: Event, s: seq<Event>, field: string)
    requires forall i :: 0 <= i < |s| && s[i].changes != [] ==> EventLe(x, s[i])
    ensures Reported(Insert(EventLe, x, s), field) == PairsOf(x.changes, field) + Reported(s, field)
  {
    if s == [] || EventLe(x, s[0]) {
      ReportedFirst(x, s, field);
    } else {
      var first, rest := s[0], s[1..];
      assert s == [first] + rest && first.changes == [];
      InsertPairs(x, rest, field);
      ReportedFirst(first, rest, field);
      ReportedFirst(first, Insert(EventLe, x, rest), field);
    }
  }

  lemma ExtraOnly(extra: seq<Event>, field: string)
    requires NoChanges(extra)
    ensures Reported(StableSort(EventLe, extra), field) == []
  {
    var sorted := StableSort(EventLe, extra);
    SameMembers(sorted, extra);
    forall i | 0 <= i < |sorted| ensures sorted[i].changes == [] {
      assert sorted[i] in sorted;
    }
    NothingToReport(sorted, field);
  }

  lemma FirstBeforeChanges(x: Event, rest: seq<Event>, extra: seq<Event>)
    requires Sorted(EventLe, [x] + rest) && NoChanges(extra)
    ensures var sorted := StableSort(EventLe, rest + extra);
      forall i :: 0 <= i < |sorted| && sorted[i].changes != [] ==> EventLe(x, sorted[i])
  {
    var sorted := StableSort(EventLe, rest + extra);
    SameMembers(sorted, rest + extra);
    forall i | 0 <= i < |sorted| && sorted[i].changes != [] ensures EventLe(x, sorted[i]) {
      assert sorted[i] in rest + extra;
      var k :| 0 <= k < |rest| && rest[k] == sorted[i];
      assert ([x] + rest)[0] == x && ([x] + rest)[k + 1] == rest[k];
    }
  }

  lemma SortFront(x: Event, s: seq<Event>)
    ensures StableSort(EventLe, [x] + s) == Insert(EventLe, x, StableSort(EventLe, s))
  {
    assert ([x] + s)[1..] == s;
  }

  /** Sorting events already in order, together with events that report no change, reports the
      same changes in the same order. */
  lemma {:induction false} SortPairs(events: seq<Event>, extra: seq<Event>, field: string)
    requires Sorted(EventLe, events) && NoChanges(extra)
    ensures Reported(StableSort(EventLe, events + extra), field) == Reported(events, field)
  {
    if events == [] {
      assert events + extra == extra;
      ExtraOnly(extra, field);
    } else {
      var x, rest := events[0], events[1..];
      assert events == [x] + rest && events + extra == [x] + (rest + extra);
      SortPairs(rest, extra, field);
      FirstBeforeChanges(x, rest, extra);
      SortFront(x, rest + extra);
      InsertPairs(x, StableSort(EventLe, rest + extra), field);
      ReportedOne(x, field);
      ReportedConcat([x], rest, field);
    }
  }

  // ----- The statements

  lemma EntryLeIsTotalPreorder()
    ensures TotalPreorder(EntryLe)
  {
  }

  lemma {:induction false} LiveEntriesStaySorted(entries: seq<Entry>)
    requires Sorted(EntryLe, entries)
    ensures Sorted(EntryLe, LiveEntries(entries))
    ensures forall e :: e in LiveEntries(entries) ==> e in entries
  {
    if entries != [] {
      var n := |entries| - 1;
      LiveEntriesStaySorted(entries[..n]);
      forall e | e in LiveEntries(entries[..n]) ensures EntryLe(e, entries[n]) {
        var i :| 0 <= i < n && entries[..n][i] == e;
        assert EntryLe(entries[i], entries[n]);
      }
    }
  }

  lemma FollowedIsSorted(found: seq<Entry>)
    ensures Sorted(EntryLe, Followed(found))
  {
    EntryLeIsTotalPreorder();
    StableSortSorts(EntryLe, found);
    LiveEntriesStaySorted(StableSort(EntryLe, found));
  }

  ghost predicate AllOfRun(events: seq<Event>, run: Run) { forall i :: 0 <= i < |events| ==> events[i].run == run }

  lemma AllOfRunParts(a: seq<Event>, b: seq<Event>, c: seq<Event>, d: seq<Event>, run: Run)
    requires AllOfRun(a, run) && AllOfRun(b, run) && AllOfRun(c, run) && AllOfRun(d, run)
    ensures AllOfRun(a + b + c + d, run)
  {
  }

  lemma ChangeEventsAreOfTheRun(b: Observation, after: Entry, o: Options)
    ensures AllOfRun(ChangeEvents(b, after, o), after.run)
  {
    AllOfRunParts(RenamedEvents(b, after), MovedEvents(b, after),
                  ModifiedEvents(ModifiedFields(b, after.vm.observation, o.includeRuntime), after), [], after.run);
    assert ChangeEvents(b, after, o) == ChangeEvents(b, after, o) + [];
  }

  lemma ReappearedIsOfTheRun(index: RunIndex, before: Entry, after: Entry)
    ensures AllOfRun(ReappearedEvents(index, before, after), after.run)
  {
  }

  lemma ObservedIsOfTheRun(b: Observation, after: Entry, o: Options)
    ensures AllOfRun(ObservedEvents(b, after, o), after.run)
  {
  }

  lemma StepEventsAreOfTheRun(b: Observation, index: RunIndex, before: Entry, after: Entry, o: Options, snaps: SnapshotChanges)
    ensures AllOfRun(EventsAgainst(b, index, before, after, o, snaps), after.run)
  {
    ChangeEventsAreOfTheRun(b, after, o);
    ReappearedIsOfTheRun(index, before, after);
    ObservedIsOfTheRun(b, after, o);
    AllOfRunParts(ReappearedEvents(index, before, after), ChangeEvents(b, after, o), SnapshotEvents(after, snaps),
                  ObservedEvents(b, after, o), after.run);
  }

  /** Every event is of some entry's run. */
  ghost predicate OfEntries(events: seq<Event>, entries: seq<Entry>) {
    forall e :: e in events ==> exists i :: 0 <= i < |entries| && e.run == entries[i].run
  }

  lemma AppendLater(front: seq<Event>, more: seq<Event>, entries: seq<Entry>, last: Entry)
    requires Sorted(EntryLe, entries + [last]) && Sorted(EventLe, front)
    requires AllOfRun(more, last.run) && OfEntries(front, entries)
    ensures Sorted(EventLe, front + more) && OfEntries(front + more, entries + [last])
  {
    var all := entries + [last];
    forall e | e in front + more ensures exists i :: 0 <= i < |all| && e.run == all[i].run {
      if e in front {
        var i :| 0 <= i < |entries| && e.run == entries[i].run;
        assert all[i] == entries[i];
      } else {
        assert all[|entries|] == last;
      }
    }
    forall x | x in front ensures x.run.startedAt <= last.run.startedAt {
      var i :| 0 <= i < |entries| && x.run == entries[i].run;
      assert all[i] == entries[i] && all[|entries|] == last;
    }
  }

  /** The events are in order, when the entries they are about are. */
  ghost predicate InOrder(events: seq<Event>, entries: seq<Entry>) {
    Sorted(EntryLe, entries) ==> Sorted(EventLe, events) && OfEntries(events, entries)
  }

  lemma SingleEvent(e: Event, entry: Entry)
    requires e.run == entry.run
    ensures InOrder([e], [entry])
  {
    assert [entry][0].run == e.run;
  }

  lemma StepsAreInOrder(front: seq<Event>, k: Known, index: RunIndex, before: Entry, after: Entry, o: Options,
      snaps: SnapshotChanges, entries: seq<Entry>)
    requires InOrder(front, entries)
    ensures InOrder(front + StepEvents(k, index, before, after, o, snaps), entries + [after])
  {
    var b := FilledVM(k, before).observation;
    if Sorted(EntryLe, entries + [after]) {
      forall i, j | 0 <= i < j < |entries| ensures EntryLe(entries[i], entries[j]) {
        assert (entries + [after])[i] == entries[i] && (entries + [after])[j] == entries[j];
      }
      StepEventsAreOfTheRun(b, index, before, after, o, snaps);
      AppendLater(front, EventsAgainst(b, index, before, after, o, snaps), entries, after);
    }
  }

  lemma LoopEventsOfOne(entry: Entry, index: RunIndex, o: Options, snaps: SnapshotChanges)
    ensures LoopEvents([entry], index, o, [snaps]) == [EventOf(FirstSeen, entry, [])]
  {
  }

  lemma LoopEventsOfMore(entries: seq<Entry>, last: Entry, index: RunIndex, o: Options, snaps: seq<SnapshotChanges>, piece: SnapshotChanges)
    requires 0 < |entries| == |snaps|
    ensures LoopEvents(entries + [last], index, o, snaps + [piece]) == LoopEvents(entries, index, o, snaps)
         + StepEvents(KnownAfter(VMs(entries)), index, entries[|entries| - 1], last, o, piece)
  {
    var all := entries + [last];
    assert all[..|entries|] == entries && all[..|entries| + 1] == all;
    LoopEventsNext(all, |entries|, index, o, snaps, piece);
  }

  lemma NextInOrder(front: seq<Entry>, last: Entry, index: RunIndex, o: Options, parts: seq<SnapshotChanges>, piece: SnapshotChanges)
    requires 0 < |front| == |parts| && InOrder(LoopEvents(front, index, o, parts), front)
    ensures InOrder(LoopEvents(front + [last], index, o, parts + [piece]), front + [last])
  {
    LoopEventsOfMore(front, last, index, o, parts, piece);
    StepsAreInOrder(LoopEvents(front, index, o, parts), KnownAfter(VMs(front)), index, front[|front| - 1], last, o, piece, front);
  }

  lemma {:induction false} LoopEventsInOrder(entries: seq<Entry>, index: RunIndex, o: Options, snaps: seq<SnapshotChanges>)
    requires |snaps| == |entries|
    ensures InOrder(LoopEvents(entries, index, o, snaps), entries)
    decreases |entries|
  {
    if |entries| == 1 {
      SingleEvent(EventOf(FirstSeen, entries[0], []), entries[0]);
      LoopEventsOfOne(entries[0], index, o, snaps[0]);
      assert entries == [entries[0]] && snaps == [snaps[0]];
    } else if |entries| > 1 {
      var n := |entries| - 1;
      assert entries == entries[..n] + [entries[n]] && snaps == snaps[..n] + [snaps[n]];
      LoopEventsInOrder(entries[..n], index, o, snaps[..n]);
      NextInOrder(entries[..n], entries[n], index, o, snaps[..n], snaps[n]);
    }
  }

  lemma {:induction false} VanishedHaveNoChanges(runs: seq<Run>, seen: map<int, Entry>, selected: seq<string>, i: nat)
    requires i <= |runs|
    ensures NoChanges(VanishedEvents(runs, seen, selected, i))
    decreases |runs| - i
  {
    if i < |runs| {
      VanishedHaveNoChanges(runs, seen, selected, i + 1);
    }
  }

  lemma TimelinePairs(found: seq<Entry>, recorded: seq<Run>, selected: seq<string>, o: Options, events: seq<Event>,
      snaps: seq<SnapshotChanges>, field: string)
    requires Reports(found, recorded, selected, o, events, snaps) && Followable(field)
    ensures Reported(events, field) == FieldSteps(VMs(Followed(found)), field)
  {
    var entries, runs := Followed(found), FollowedRuns(found, recorded);
    FollowedIsSorted(found);
    LoopEventsInOrder(entries, IndexRuns(runs), o, snaps);
    VanishedHaveNoChanges(runs, ByRun(entries), selected, 0);
    SortPairs(LoopEvents(entries, IndexRuns(runs), o, snaps), VanishedEvents(runs, ByRun(entries), selected, 0), field);
    LoopPairs(entries, IndexRuns(runs), o, snaps, field);
  }

  lemma {:induction false} StepsOfPlacement(vms: seq<VM>)
    ensures FieldSteps(vms, "host") == Steps(vms, SeenHost, Text, Differ)
    ensures FieldSteps(vms, "cluster") == Steps(vms, SeenCluster, Text, Differ)
    ensures FieldSteps(vms, "datastores") == Steps(vms, SeenDatastores, DatastoresText, DatastoresDiffer)
  {
    if vms != [] {
      StepsOfPlacement(vms[..|vms| - 1]);
    }
  }

  /** Whatever some observations could not see, a timeline reports exactly the changes of host,
      cluster and datastores that the history without those observations has. */
  lemma HiddenPlacementIsInvisible(found: seq<Entry>, recorded: seq<Run>, selected: seq<string>, o: Options, events: seq<Event>,
      snaps: seq<SnapshotChanges>)
    requires Reports(found, recorded, selected, o, events, snaps)
    ensures var vms := VMs(Followed(found));
      && Reported(events, "host") == Diffs(Visible(vms, SeenHost), Text, Differ)
      && Reported(events, "cluster") == Diffs(Visible(vms, SeenCluster), Text, Differ)
      && Reported(events, "datastores") == Diffs(Visible(vms, SeenDatastores), DatastoresText, DatastoresDiffer)
  {
    var vms := VMs(Followed(found));
    TimelinePairs(found, recorded, selected, o, events, snaps, "host");
    TimelinePairs(found, recorded, selected, o, events, snaps, "cluster");
    TimelinePairs(found, recorded, selected, o, events, snaps, "datastores");
    StepsOfPlacement(vms);
    StepsIgnoreTheHidden(vms, SeenHost, Text, Differ);
    StepsIgnoreTheHidden(vms, SeenCluster, Text, Differ);
    StepsIgnoreTheHidden(vms, SeenDatastores, DatastoresText, DatastoresDiffer);
  }

  /** The history loses a change of the field somewhere. */
  ghost predicate LosesOne(vms: seq<VM>, f: ConfigField) {
    exists i :: 0 < i < |vms| && LosesAt(vms, i, f)
  }

  ghost predicate LosesAt(vms: seq<VM>, i: nat, f: ConfigField)
    requires i < |vms|
  {
    Lost(vms[..i], vms[i], f)
  }

  lemma LostInPrefix(vms: seq<VM>, n: nat, i: nat, f: ConfigField)
    requires i < n <= |vms|
    ensures LosesAt(vms[..n], i, f) <==> LosesAt(vms, i, f)
  {
    assert vms[..n][..i] == vms[..i];
  }

  lemma LosesOneMore(vms: seq<VM>, f: ConfigField)
    requires |vms| > 1
    ensures var n := |vms| - 1; LosesOne(vms, f) <==> LosesOne(vms[..n], f) || Lost(vms[..n], vms[n], f)
  {
    var n := |vms| - 1;
    forall i: nat | 0 < i < n ensures LosesAt(vms[..n], i, f) <==> LosesAt(vms, i, f) {
      LostInPrefix(vms, n, i, f);
    }
    assert LosesAt(vms, n, f) <==> Lost(vms[..n], vms[n], f);
    if LosesOne(vms, f) && !LosesAt(vms, n, f) {
      var i :| 0 < i < |vms| && LosesAt(vms, i, f);
      assert LosesAt(vms[..n], i, f);
    }
    if LosesOne(vms[..n], f) {
      var i :| 0 < i < n && LosesAt(vms[..n], i, f);
      assert LosesAt(vms, i, f);
    }
  }

  lemma {:induction false} StepsOfConfig(vms: seq<VM>, f: ConfigField)
    ensures var full := Steps(vms, SeenConfig, ConfigShow(f), ConfigDiffer(f));
      if LosesOne(vms, f) then |FieldSteps(vms, FieldName(f))| < |full| else FieldSteps(vms, FieldName(f)) == full
  {
    if |vms| > 1 {
      var n := |vms| - 1;
      StepsOfConfig(vms[..n], f);
      LosesOneMore(vms, f);
      ConfigFieldStepIs(vms[..n], vms[n], f);
    } else if |vms| == 1 {
      assert vms[..0] == [];
    }
  }

  /** The same holds of CPU, memory, guest system and annotation exactly when no readable
      configuration with neither CPU nor memory was carried past an observation that could not read
      it and then differed from what was read next. */
  lemma HiddenConfigIsInvisibleExactlyWhen(found: seq<Entry>, recorded: seq<Run>, selected: seq<string>, o: Options,
      events: seq<Event>, snaps: seq<SnapshotChanges>, f: ConfigField)
    requires Reports(found, recorded, selected, o, events, snaps)
    ensures var vms := VMs(Followed(found));
      Reported(events, FieldName(f)) == Diffs(Visible(vms, SeenConfig), ConfigShow(f), ConfigDiffer(f)) <==> !LosesOne(vms, f)
  {
    var vms := VMs(Followed(found));
    TimelinePairs(found, recorded, selected, o, events, snaps, FieldName(f));
    StepsOfConfig(vms, f);
    StepsIgnoreTheHidden(vms, SeenConfig, ConfigShow(f), ConfigDiffer(f));
  }

  lemma {:induction false} LatestIsOneOfThem(vms: seq<VM>)
    requires Latest(vms, SeenConfig).Some?
    ensures exists i :: 0 <= i < |vms| && SeenConfig(vms[i]) == Latest(vms, SeenConfig)
  {
    var n := |vms| - 1;
    if SeenConfig(vms[n]).None? {
      LatestIsOneOfThem(vms[..n]);
      var i :| 0 <= i < n && SeenConfig(vms[..n][i]) == Latest(vms, SeenConfig);
      assert vms[..n][i] == vms[i];
    }
  }

  /** A VM that always has a CPU or memory size, as a real one does, loses nothing. */
  lemma RealVMsLoseNothing(vms: seq<VM>, f: ConfigField)
    requires forall i :: 0 <= i < |vms| && !ConfigUnknown(vms[i]) ==> vms[i].cpu != 0 || vms[i].memoryMB != 0
    ensures !LosesOne(vms, f)
  {
    forall i: nat | 0 < i < |vms| && Latest(vms[..i], SeenConfig).Some? ensures !Lost(vms[..i], vms[i], f) {
      LatestIsOneOfThem(vms[..i]);
    }
  }

  /** A readable configuration of nothing, an observation that could not read it, then two CPUs:
      the change of CPU goes unreported. */
  lemma LosingExample(sized: VM)
    requires sized.configurationAvailable && sized.cpu == 2
    ensures var empty := sized.(cpu := 0, memoryMB := 0);
      var hidden := empty.(configurationAvailable := false);
      LosesOne([empty, hidden, sized], CPUField)
  {
    var empty := sized.(cpu := 0, memoryMB := 0);
    var hidden := empty.(configurationAvailable := false);
    var vms := [empty, hidden, sized];
    assert vms[..2][..1] == [empty] && vms[..2][1] == hidden;
    assert Latest(vms[..2], SeenConfig) == Latest([empty], SeenConfig);
    assert FormatInt(0) == "0" && FormatInt(2) == "2";
    assert LosesAt(vms, 2, CPUField);
  }
}
