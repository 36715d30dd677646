/** VM events, runs and the stored timeline they are lined up with: the values that event
    matching reads, and the pure rules it applies to one event at a time. Times and durations
    are whole nanoseconds. */
module Events {
  import opened Common
  import opened Sorting

  const MILLISECOND := 1_000_000
  const SECOND := 1_000_000_000
  const BOUNDARY_TOLERANCE := 5 * SECOND

  /** What a stored timeline entry records. */
  datatype ChangeKind =
    | FirstSeen | Appeared | Vanished | Moved | Renamed | Modified | SnapshotCreated | SnapshotRemoved
    | Observed | OtherChange(name: string)

  /** The kind of stored change an event can account for; NoKind is the empty string. */
  datatype EventKind =
    | NoKind | Creates | Removes | Moves | Renames | Modifies | CreatesSnapshot | RemovesSnapshot
    | OtherKind(name: string)

  datatype EventResult = Succeeded | Failed | Unfinished | OtherResult(name: string)

  /** The fields event matching reads; text stands for the ones that are only shown. */
  datatype VMEvent = VMEvent(
    context: string, key: int, time: int, explains: EventKind, result: EventResult,
    fields: seq<string>, fromHost: string, toHost: string, newName: string,
    setName: string, setCPU: int, setMemoryMB: int, text: string)

  datatype Run = Run(id: int, startedAt: int, finishedAt: int, clockOffsetsMS: map<string, int>) {
    /** How far the context's vCenter clock was ahead of the local one, when measured. */
    function ClockOffset(context: string): Option<int> {
      if context in clockOffsetsMS then Some(clockOffsetsMS[context] * MILLISECOND) else None
    }
  }

  /** One entry of a VM's stored timeline. observedHost is the host of the attached
      observation, when there is one. */
  datatype HistoryEvent = HistoryEvent(
    kind: ChangeKind, run: Run, changes: seq<FieldChange>, observedHost: Option<string>)

  datatype ExplainedChange = ExplainedChange(change: HistoryEvent, events: seq<VMEvent>)

  datatype EventSpan = EventSpan(
    from: Option<Run>, to: Option<Run>, changes: seq<ExplainedChange>, unexplained: seq<VMEvent>)

  /** Oldest first, ties by key, the order vCenter logged them in. */
  predicate EventLe(a: VMEvent, b: VMEvent) {
    a.time < b.time || (a.time == b.time && a.key <= b.key)
  }

  function SortEvents(events: seq<VMEvent>): (r: seq<VMEvent>)
    ensures multiset(r) == multiset(events)
  {
    StableSort(EventLe, events)
  }

  lemma SortEventsSorts(events: seq<VMEvent>)
    ensures Sorted(EventLe, SortEvents(events))
    ensures var s := SortEvents(events);
      forall i, j :: 0 <= i < j < |s| ==> s[i].time < s[j].time || (s[i].time == s[j].time && s[i].key <= s[j].key)
  {
    StableSortSorts(EventLe, events);
    var s := SortEvents(events);
    assert forall i, j :: 0 <= i < j < |s| ==> EventLe(s[i], s[j]);
  }

  /** An event's time on the local clock run r was stamped with, and whether r measured the
      offset that takes it there. */
  function OnRunClock(e: VMEvent, r: Run): (int, bool) {
    match r.ClockOffset(e.context)
    case Some(offset) => (e.time - offset, true)
    case None => (e.time, false)
  }

  function ToleranceAt(e: VMEvent, r: Run): int {
    if r.ClockOffset(e.context).Some? then 0 else BOUNDARY_TOLERANCE
  }

  function RunEnd(r: Run): int {
    if r.finishedAt > r.startedAt then r.finishedAt else r.startedAt
  }

  /** The event kind that can produce a stored change. */
  function ExplainedBy(kind: ChangeKind): EventKind {
    match kind
    case FirstSeen | Appeared => Creates
    case Vanished => Removes
    case Moved => Moves
    case Renamed => Renames
    case Modified => Modifies
    case SnapshotCreated => CreatesSnapshot
    case SnapshotRemoved => RemovesSnapshot
    case _ => NoKind
  }

  /** What a reconfiguration set a numeric field to, when it set it and says so. */
  function SetValue(e: VMEvent, field: string): Option<string> {
    if field == "cpu" && e.setCPU != 0 then Some(FormatInt(e.setCPU))
    else if field == "memory" && e.setMemoryMB != 0 then Some(FormatInt(e.setMemoryMB))
    else None
  }

  predicate IsNameReconfiguration(e: VMEvent) {
    e.explains == Modifies && e.fields == ["name"]
  }

  function FieldBefore(changes: seq<FieldChange>, name: string): string {
    if changes == [] then ""
    else if changes[0].field == name then changes[0].before
    else FieldBefore(changes[1..], name)
  }

  function FieldAfter(changes: seq<FieldChange>, name: string): string {
    if changes == [] then ""
    else if changes[0].field == name then changes[0].after
    else FieldAfter(changes[1..], name)
  }

  const METADATA_PREFIX := "metadata."

  /** A stored change's fields in the words a reconfiguration event uses. */
  function ReconfigurableFields(changes: seq<FieldChange>): seq<string> {
    if changes == [] then []
    else
      var f := changes[0].field;
      var rest := ReconfigurableFields(changes[1..]);
      if METADATA_PREFIX <= f then rest
      else if f in {"cpu", "memory", "annotation", "guest_os", "name"} then [f] + rest
      else ["devices"] + rest
  }

  /** The host a move ended on: the recorded field, else the observation's host. */
  function HostAfter(change: HistoryEvent): string {
    var after := FieldAfter(change.changes, "host");
    if after == "" && change.observedHost.Some? then change.observedHost.value else after
  }

  /** The event did not fail and is of a kind that can produce the change. */
  predicate CanExplain(change: HistoryEvent, e: VMEvent) {
    && ExplainedBy(change.kind) != NoKind
    && e.result != Failed
    && (e.explains == ExplainedBy(change.kind) || (change.kind == Renamed && IsNameReconfiguration(e)))
  }

  /** A migration from the host the earlier run recorded to the host the later run did. */
  predicate ExactMigration(change: HistoryEvent, e: VMEvent) {
    var before := FieldBefore(change.changes, "host");
    before != "" && e.fromHost == before && e.toHost == HostAfter(change)
  }

  predicate EndsOnHost(change: HistoryEvent, e: VMEvent) {
    e.toHost == "" || e.toHost == HostAfter(change)
  }

  predicate RenamesTo(change: HistoryEvent, e: VMEvent) {
    var after := FieldAfter(change.changes, "name");
    e.newName == "" || after == "" || e.newName == after
  }

  predicate SetsNameTo(change: HistoryEvent, e: VMEvent) {
    var after := FieldAfter(change.changes, "name");
    after == "" || e.setName == after
  }

  /** The event set field f, one of the changed ones, to the value the later run recorded. */
  predicate SetsRecorded(change: HistoryEvent, e: VMEvent, f: string) {
    && f in e.fields
    && f in ReconfigurableFields(change.changes)
    && SetValue(e, f) == Some(FieldAfter(change.changes, f))
  }

  /** The event touched changed field f without saying what it set it to. */
  predicate TouchesUnstated(change: HistoryEvent, e: VMEvent, f: string) {
    && f in e.fields
    && f in ReconfigurableFields(change.changes)
    && SetValue(e, f) == None
  }

  /** On its own, the event agrees with everything both sides say about the change. */
  ghost predicate Matches(change: HistoryEvent, e: VMEvent) {
    && CanExplain(change, e)
    && (if change.kind == Moved then
          EndsOnHost(change, e)
        else if change.kind == Renamed then
          if IsNameReconfiguration(e) then SetsNameTo(change, e) else RenamesTo(change, e)
        else if change.kind == Modified then
          && ReconfigurableFields(change.changes) != []
          && (e.fields == [] || exists f :: TouchesUnstated(change, e, f) || SetsRecorded(change, e, f))
        else true)
  }

  predicate HasKind(events: seq<VMEvent>, kind: EventKind) {
    exists k :: 0 <= k < |events| && events[k].explains == kind
  }
}
