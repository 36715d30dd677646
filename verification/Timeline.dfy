/** The history of one VM: what changed from observation to observation, and when it was gone. */
module Timeline {
  import opened Common
  import opened Inventory
  import opened LastKnown
  import opened Sorting
  import opened Strings
  import Ledger
  import SnapshotDiff
  import VCenterVMs

  /** One context of a recorded run; vmsRead says its VM collection is a success or empty. */
  datatype ContextRow = ContextRow(name: string, vcenterID: string, vmsRead: bool)

  datatype Run = Run(id: int, startedAt: int, status: Ledger.RunStatus, imported: bool, contexts: seq<ContextRow>)

  datatype Entry = Entry(run: Run, vm: StoredVM) {
    function Seen(): VM { vm.observation.vm }
  }

  datatype Kind =
    | FirstSeen | Reappeared | Renamed | MovedVM | Modified
    | SnapshotEvent(change: SnapshotDiff.SnapshotChange) | Observed | Vanished

  datatype Event = Event(kind: Kind, run: Run, context: string, name: string, changes: seq<FieldChange>, observation: Observation)

  predicate EntryLe(a: Entry, b: Entry) { a.run.startedAt <= b.run.startedAt }

  predicate EventLe(a: Event, b: Event) { a.run.startedAt <= b.run.startedAt }

  // ----- What one observation reports

  function Nonempty(a: string, b: string): string { if a != "" then a else b }

  function Join(parts: seq<string>): string {
    if parts == [] then "" else if |parts| == 1 then parts[0] else parts[0] + "," + Join(parts[1..])
  }

  function Place(name: string, before: string, after: string): seq<FieldChange> {
    if PlacementDiffers(before, after) then [FieldChange(name, before, after)] else []
  }

  function DatastoresText(names: seq<string>): string { Join(SortedCopy(names)) }

  function DatastoreChanges(before: seq<string>, after: seq<string>): seq<FieldChange> {
    if |before| > 0 && |after| > 0 && !EqualStrings(before, after)
    then [FieldChange("datastores", DatastoresText(before), DatastoresText(after))]
    else []
  }

  function VCenterChanges(b: Observation, a: Observation): seq<FieldChange> {
    if b.vcenterID != a.vcenterID
    then Place("vcenter", Nonempty(b.context, b.vcenterID), Nonempty(a.context, a.vcenterID)) else []
  }

  function PlacementChanges(b: Observation, a: Observation): seq<FieldChange> {
    VCenterChanges(b, a)
    + Place("host", b.vm.host, a.vm.host)
    + Place("cluster", b.vm.cluster, a.vm.cluster)
    + Place("folder", b.vm.folder, a.vm.folder)
    + DatastoreChanges(b.vm.datastores, a.vm.datastores)
  }

  function RemoveField(changes: seq<FieldChange>, name: string): seq<FieldChange> {
    if changes == [] then []
    else
      var n := |changes| - 1;
      RemoveField(changes[..n], name) + if changes[n].field != name then [changes[n]] else []
  }

  method RemoveFieldInPlace(changes: seq<FieldChange>, name: string) returns (out: seq<FieldChange>)
    ensures out == RemoveField(changes, name)
  {
    out := [];
    for i := 0 to |changes|
      invariant out == RemoveField(changes[..i], name)
    {
      assert changes[..i + 1][..i] == changes[..i];
      if changes[i].field != name {
        out := out + [changes[i]];
      }
    }
    assert changes[..|changes|] == changes;
  }

  /** The fields a "modified" event names: a new name has an event of its own. */
  function ModifiedFields(b: Observation, a: Observation, runtime: bool): seq<FieldChange> {
    var fields := ChangedFields(b.vm, a.vm, runtime);
    if b.vm.name != a.vm.name then RemoveField(fields, "name") else fields
  }

  function EventOf(kind: Kind, e: Entry, changes: seq<FieldChange>): Event {
    Event(kind, e.run, e.vm.observation.context, e.Seen().name, changes, e.vm.observation)
  }

  function SnapshotEvents(e: Entry, snaps: SnapshotChanges): (r: seq<Event>)
    ensures forall i :: 0 <= i < |r| ==> r[i].run == e.run && r[i].changes == [] && r[i].kind.SnapshotEvent?
  {
    if snaps == [] then []
    else SnapshotEvents(e, snaps[..|snaps| - 1]) + [EventOf(SnapshotEvent(snaps[|snaps| - 1]), e, [])]
  }

  datatype Options = Options(includeUnchanged: bool, includeRuntime: bool)

  function FilledVM(k: Known, e: Entry): StoredVM {
    e.vm.(observation := e.vm.observation.(vm := Fill(k, e.Seen())))
  }

  function RenamedEvents(b: Observation, after: Entry): seq<Event> {
    var name := after.vm.observation.vm.name;
    if b.vm.name != name then [EventOf(Renamed, after, [FieldChange("name", b.vm.name, name)])] else []
  }

  function MovedEvents(b: Observation, after: Entry): seq<Event> {
    var a := after.vm.observation;
    if Moved(b.vm, a.vm, b.vcenterID, a.vcenterID) then [EventOf(MovedVM, after, PlacementChanges(b, a))] else []
  }

  function ModifiedEvents(fields: seq<FieldChange>, after: Entry): seq<Event> {
    if |fields| > 0 then [EventOf(Modified, after, fields)] else []
  }

  /** What an observation reports against the one before it, with the fields that one could not
      see filled in. */
  function ChangeEvents(b: Observation, after: Entry, o: Options): seq<Event> {
    RenamedEvents(b, after) + MovedEvents(b, after)
    + ModifiedEvents(ModifiedFields(b, after.vm.observation, o.includeRuntime), after)
  }

  function ObservedEvents(b: Observation, after: Entry, o: Options): seq<Event> {
    var a := after.vm.observation;
    if o.includeUnchanged && |ModifiedFields(b, a, o.includeRuntime)| == 0 && b.vm.name == a.vm.name
    then [EventOf(Observed, after, [])] else []
  }

  type RunIndex = map<int, int>

  /** Runs are newest first, so a VM seen again after a run that missed it skips a position. */
  predicate SkipsARun(index: RunIndex, before: Entry, after: Entry) {
    before.run.id in index && after.run.id in index && index[after.run.id] < index[before.run.id] - 1
  }

  function ReappearedEvents(index: RunIndex, before: Entry, after: Entry): seq<Event> {
    if SkipsARun(index, before, after) then [EventOf(Reappeared, after, [])] else []
  }

  function EventsAgainst(b: Observation, index: RunIndex, before: Entry, after: Entry, o: Options, snaps: SnapshotChanges): seq<Event> {
    ReappearedEvents(index, before, after) + ChangeEvents(b, after, o) + SnapshotEvents(after, snaps) + ObservedEvents(b, after, o)
  }

  function StepEvents(k: Known, index: RunIndex, before: Entry, after: Entry, o: Options, snaps: SnapshotChanges): seq<Event> {
    EventsAgainst(FilledVM(k, before).observation, index, before, after, o, snaps)
  }

  function VMs(entries: seq<Entry>): seq<VM> {
    seq(|entries|, i requires 0 <= i < |entries| => entries[i].Seen())
  }

  /** The events of a history's observations; snaps[i] is what entry i's snapshots report. */
  function LoopEvents(entries: seq<Entry>, index: RunIndex, o: Options, snaps: seq<SnapshotChanges>): seq<Event>
    requires |entries| == |snaps|
  {
    if entries == [] then []
    else
      var n := |entries| - 1;
      if n == 0 then [EventOf(FirstSeen, entries[0], [])]
      else
        LoopEvents(entries[..n], index, o, snaps[..n])
        + StepEvents(KnownAfter(VMs(entries[..n])), index, entries[n - 1], entries[n], o, snaps[n])
  }

  type SnapshotChanges = seq<SnapshotDiff.SnapshotChange>

  /** Whether entry i's snapshots compare with those of the entry before it as given. */
  ghost function ComparesAt(entries: seq<Entry>): (int, SnapshotChanges) -> bool {
    (i, snaps) => 0 < i < |entries| ==>
      SnapshotDiff.IsReport(FilledVM(KnownAfter(VMs(entries[..i])), entries[i - 1]), entries[i].vm, snaps)
  }

  ghost predicate Each<T>(parts: seq<T>, p: (int, T) -> bool) {
    forall i :: 0 < i < |parts| ==> p(i, parts[i])
  }

  lemma EachPush<T>(parts: seq<T>, p: (int, T) -> bool, part: T)
    requires Each(parts, p) && p(|parts|, part)
    ensures Each(parts + [part], p)
  {
  }

  ghost predicate SnapshotsCompared(entries: seq<Entry>, snaps: seq<SnapshotChanges>) {
    |snaps| <= |entries| && Each(snaps, ComparesAt(entries))
  }

  lemma KnownAfterNext(entries: seq<Entry>, i: nat)
    requires i < |entries|
    ensures KnownAfter(VMs(entries[..i + 1])) == Learn(KnownAfter(VMs(entries[..i])), entries[i].Seen())
  {
    var vms := VMs(entries[..i + 1]);
    assert vms[|vms| - 1] == entries[i].Seen();
    assert vms[..|vms| - 1] == VMs(entries[..i]);
  }

  // ----- The loops

  method ModifiedFieldsOf(b: Observation, a: Observation, runtime: bool) returns (fields: seq<FieldChange>)
    ensures fields == ModifiedFields(b, a, runtime)
  {
    fields := ChangedFields(b.vm, a.vm, runtime);
    if b.vm.name != a.vm.name {
      fields := RemoveFieldInPlace(fields, "name");
    }
  }

  method ReportChanges(b: Observation, after: Entry, o: Options) returns (out: seq<Event>, same: bool)
    ensures out == ChangeEvents(b, after, o)
    ensures same <==> |ModifiedFields(b, after.vm.observation, o.includeRuntime)| == 0
  {
    var fields := ModifiedFieldsOf(b, after.vm.observation, o.includeRuntime);
    out := RenamedEvents(b, after) + MovedEvents(b, after) + ModifiedEvents(fields, after);
    same := |fields| == 0;
  }

  method ReportSnapshots(b: StoredVM, after: Entry) returns (out: seq<Event>, ghost snaps: SnapshotChanges)
    ensures out == SnapshotEvents(after, snaps)
    ensures SnapshotDiff.IsReport(b, after.vm, snaps)
  {
    var changes := SnapshotDiff.CompareSnapshots(b, after.vm);
    snaps := changes;
    out := [];
    for i := 0 to |changes|
      invariant out == SnapshotEvents(after, changes[..i])
    {
      assert changes[..i + 1][..i] == changes[..i];
      out := out + [EventOf(SnapshotEvent(changes[i]), after, [])];
    }
    assert changes[..|changes|] == changes;
  }

  /** One turn of the loop over the observations. */
  method ReportEntry(known: LastKnown, index: RunIndex, before: Entry, after: Entry, o: Options)
    returns (out: seq<Event>, ghost snaps: SnapshotChanges)
    modifies known
    ensures known.View() == Learn(old(known.View()), after.Seen())
    ensures out == StepEvents(old(known.View()), index, before, after, o, snaps)
    ensures SnapshotDiff.IsReport(FilledVM(old(known.View()), before), after.vm, snaps)
  {
    var filled := known.Filled(before.Seen());
    var b := before.vm.(observation := before.vm.observation.(vm := filled));
    known.LearnFrom(after.Seen());
    var first := ReappearedEvents(index, before, after);
    var changes, same := ReportChanges(b.observation, after, o);
    var more;
    more, snaps := ReportSnapshots(b, after);
    var last := if o.includeUnchanged && same && b.observation.vm.name == after.Seen().name
                then [EventOf(Observed, after, [])] else [];
    assert last == ObservedEvents(b.observation, after, o);
    out := first + changes + more + last;
  }

  /** The state of the loop after the first n entries. */
  ghost predicate Progress(k: Known, entries: seq<Entry>, n: nat, index: RunIndex, o: Options, out: seq<Event>,
      snaps: seq<SnapshotChanges>)
    requires n <= |entries|
  {
    && k == KnownAfter(VMs(entries[..n])) && |snaps| == n
    && SnapshotsCompared(entries, snaps)
    && out == LoopEvents(entries[..n], index, o, snaps)
  }

  lemma ComparedNext(k: Known, entries: seq<Entry>, snaps: seq<SnapshotChanges>, piece: SnapshotChanges)
    requires 0 < |snaps| < |entries| && SnapshotsCompared(entries, snaps) && k == KnownAfter(VMs(entries[..|snaps|]))
    requires SnapshotDiff.IsReport(FilledVM(k, entries[|snaps| - 1]), entries[|snaps|].vm, piece)
    ensures SnapshotsCompared(entries, snaps + [piece])
  {
    assert ComparesAt(entries)(|snaps|, piece);
    EachPush(snaps, ComparesAt(entries), piece);
  }

  lemma ProgressNext(k: Known, entries: seq<Entry>, n: nat, index: RunIndex, o: Options, out: seq<Event>,
      snaps: seq<SnapshotChanges>, piece: SnapshotChanges)
    requires 0 < n < |entries| && Progress(k, entries, n, index, o, out, snaps)
    requires SnapshotDiff.IsReport(FilledVM(k, entries[n - 1]), entries[n].vm, piece)
    ensures Progress(Learn(k, entries[n].Seen()), entries, n + 1, index, o,
                     out + StepEvents(k, index, entries[n - 1], entries[n], o, piece), snaps + [piece])
  {
    ComparedNext(k, entries, snaps, piece);
    KnownAfterNext(entries, n);
    LoopEventsNext(entries, n, index, o, snaps, piece);
  }

  method ReportEntries(entries: seq<Entry>, index: RunIndex, o: Options)
    returns (out: seq<Event>, ghost snaps: seq<SnapshotChanges>)
    requires entries != []
    ensures SnapshotsCompared(entries, snaps) && |snaps| == |entries|
    ensures out == LoopEvents(entries, index, o, snaps)
  {
    var known := new LastKnown();
    known.LearnFrom(entries[0].Seen());
    KnownAfterNext(entries, 0);
    out := [EventOf(FirstSeen, entries[0], [])];
    snaps := [[]];
    for n := 1 to |entries|
      invariant Progress(known.View(), entries, n, index, o, out, snaps)
      modifies known
    {
      ghost var k := known.View();
      ghost var piece;
      var more;
      more, piece := ReportEntry(known, index, entries[n - 1], entries[n], o);
      ProgressNext(k, entries, n, index, o, out, snaps, piece);
      out, snaps := out + more, snaps + [piece];
    }
    assert entries[..|entries|] == entries;
  }

  lemma LoopEventsNext(entries: seq<Entry>, i: nat, index: RunIndex, o: Options, snaps: seq<SnapshotChanges>,
      piece: SnapshotChanges)
    requires 0 < i < |entries| && |snaps| == i
    ensures LoopEvents(entries[..i + 1], index, o, snaps + [piece]) == LoopEvents(entries[..i], index, o, snaps)
         + StepEvents(KnownAfter(VMs(entries[..i])), index, entries[i - 1], entries[i], o, piece)
  {
    assert entries[..i + 1][..i] == entries[..i] && (snaps + [piece])[..i] == snaps;
  }

  // ----- When it was gone

  function IndexRuns(runs: seq<Run>): RunIndex {
    if runs == [] then map[] else IndexRuns(runs[..|runs| - 1])[runs[|runs| - 1].id := |runs| - 1]
  }

  function ByRun(entries: seq<Entry>): map<int, Entry> {
    if entries == [] then map[] else ByRun(entries[..|entries| - 1])[entries[|entries| - 1].run.id := entries[|entries| - 1]]
  }

  predicate InScope(c: ContextRow, selected: seq<string>) { selected == [] || VCenterVMs.ContextKey(c.name) in selected }

  /** The row reads the VMs of the observation's vCenter, known by its ID or, where either side
      has none, by the context's name. */
  predicate Covers(c: ContextRow, o: Observation) {
    && c.vmsRead
    && if c.vcenterID != "" && o.vcenterID != "" then c.vcenterID == o.vcenterID else c.name == o.context
  }

  predicate CollectedVCenter(run: Run, o: Observation, selected: seq<string>) {
    && (run.status == Ledger.RunComplete || run.status == Ledger.RunPartial)
    && exists i :: 0 <= i < |run.contexts| && Covers(run.contexts[i], o) && InScope(run.contexts[i], selected)
  }

  /** The VM was in runs[i] and the next run, which read its vCenter, does not have it. */
  predicate GoneAfter(runs: seq<Run>, seen: map<int, Entry>, selected: seq<string>, i: nat)
    requires i < |runs|
  {
    && i > 0 && runs[i].id in seen && runs[i - 1].id !in seen
    && CollectedVCenter(runs[i - 1], seen[runs[i].id].vm.observation, selected)
  }

  function VanishedEvent(runs: seq<Run>, seen: map<int, Entry>, i: nat): Event
    requires 0 < i < |runs| && runs[i].id in seen
  {
    EventOf(Vanished, seen[runs[i].id], []).(run := runs[i - 1])
  }

  /** The "vanished" events, oldest to newest, of the runs from position i on. */
  function VanishedEvents(runs: seq<Run>, seen: map<int, Entry>, selected: seq<string>, i: nat): seq<Event>
    requires i <= |runs|
    decreases |runs| - i
  {
    if i == |runs| then []
    else
      VanishedEvents(runs, seen, selected, i + 1)
      + if GoneAfter(runs, seen, selected, i) then [VanishedEvent(runs, seen, i)] else []
  }

  method ReportVanished(runs: seq<Run>, entries: seq<Entry>, selected: seq<string>) returns (out: seq<Event>)
    ensures out == VanishedEvents(runs, ByRun(entries), selected, 0)
  {
    var byRun: map<int, Entry> := map[];
    for i := 0 to |entries|
      invariant byRun == ByRun(entries[..i])
    {
      assert entries[..i + 1][..i] == entries[..i];
      byRun := byRun[entries[i].run.id := entries[i]];
    }
    assert entries[..|entries|] == entries;
    out := [];
    for i := |runs| downto 0
      invariant out == VanishedEvents(runs, byRun, selected, i)
    {
      if runs[i].id !in byRun || i == 0 {
        continue;
      }
      var prev, nextRun := byRun[runs[i].id], runs[i - 1];
      if nextRun.id in byRun {
        continue;
      }
      if CollectedVCenter(nextRun, prev.vm.observation, selected) {
        out := out + [EventOf(Vanished, prev, []).(run := nextRun)];
      }
    }
  }

  // ----- The whole history

  function LiveEntries(entries: seq<Entry>): seq<Entry> {
    if entries == [] then []
    else
      var n := |entries| - 1;
      LiveEntries(entries[..n]) + if entries[n].run.imported then [] else [entries[n]]
  }

  function LiveRuns(runs: seq<Run>): seq<Run> {
    if runs == [] then []
    else
      var n := |runs| - 1;
      LiveRuns(runs[..n]) + if runs[n].imported then [] else [runs[n]]
  }

  predicate SeenLive(entries: seq<Entry>) { exists i :: 0 <= i < |entries| && !entries[i].run.imported }

  /** The entries followed, by start. A VM a live capture has seen is followed through those only. */
  function Followed(found: seq<Entry>): seq<Entry> {
    var entries := StableSort(EntryLe, found);
    if SeenLive(entries) then LiveEntries(entries) else entries
  }

  function FollowedRuns(found: seq<Entry>, runs: seq<Run>): seq<Run> {
    if SeenLive(StableSort(EntryLe, found)) then LiveRuns(runs) else runs
  }

  method KeepLive(entries: seq<Entry>, runs: seq<Run>) returns (liveEntries: seq<Entry>, liveRuns: seq<Run>)
    ensures liveEntries == LiveEntries(entries) && liveRuns == LiveRuns(runs)
  {
    liveEntries, liveRuns := [], [];
    for i := 0 to |entries|
      invariant liveEntries == LiveEntries(entries[..i])
    {
      assert entries[..i + 1][..i] == entries[..i];
      if !entries[i].run.imported {
        liveEntries := liveEntries + [entries[i]];
      }
    }
    assert entries[..|entries|] == entries;
    for i := 0 to |runs|
      invariant liveRuns == LiveRuns(runs[..i])
    {
      assert runs[..i + 1][..i] == runs[..i];
      if !runs[i].imported {
        liveRuns := liveRuns + [runs[i]];
      }
    }
    assert runs[..|runs|] == runs;
  }

  method BuildIndex(runs: seq<Run>) returns (index: RunIndex)
    ensures index == IndexRuns(runs)
  {
    index := map[];
    for i := 0 to |runs|
      invariant index == IndexRuns(runs[..i])
    {
      assert runs[..i + 1][..i] == runs[..i];
      index := index[runs[i].id := i];
    }
    assert runs[..|runs|] == runs;
  }

  lemma {:induction false} LiveEntriesOfSeen(entries: seq<Entry>)
    requires SeenLive(entries)
    ensures LiveEntries(entries) != []
  {
    var n := |entries| - 1;
    if entries[n].run.imported {
      var i :| 0 <= i < |entries| && !entries[i].run.imported;
      assert entries[..n][i] == entries[i];
      LiveEntriesOfSeen(entries[..n]);
    }
  }

  /** What the events are made of, before the final sort. */
  ghost predicate Reports(found: seq<Entry>, recorded: seq<Run>, selected: seq<string>, o: Options, events: seq<Event>,
      snaps: seq<SnapshotChanges>)
  {
    var entries, runs := Followed(found), FollowedRuns(found, recorded);
    && SnapshotsCompared(entries, snaps) && |snaps| == |entries|
    && events == StableSort(EventLe,
         LoopEvents(entries, IndexRuns(runs), o, snaps) + VanishedEvents(runs, ByRun(entries), selected, 0))
  }

  /** The timeline of the entries found for one VM, given every recorded run, newest first. */
  method TimelineOf(found: seq<Entry>, recorded: seq<Run>, selected: seq<string>, o: Options)
    returns (events: seq<Event>, ghost snaps: seq<SnapshotChanges>)
    ensures found == [] ==> events == []
    ensures found != [] ==> Reports(found, recorded, selected, o, events, snaps)
  {
    events, snaps := [], [];
    var entries, runs := StableSort(EntryLe, found), recorded;
    if |entries| == 0 {
      return;
    }
    if SeenLive(entries) {
      LiveEntriesOfSeen(entries);
      entries, runs := KeepLive(entries, recorded);
    }
    var index := BuildIndex(runs);
    events, snaps := ReportEntries(entries, index, o);
    var vanished := ReportVanished(runs, entries, selected);
    events := StableSort(EventLe, events + vanished);
  }
}
