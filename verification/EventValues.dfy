/** What the picking rule does with the values events state, said of the recorded changes and of the
    events' own fields. */
module EventValues {
  import opened Common
  import opened Events
  import opened EventPick

  // ----- What a change records

  /** The first entry of the field among the recorded ones is at k. */
  predicate FirstAt(changes: seq<FieldChange>, field: string, k: int) {
    0 <= k < |changes| && changes[k].field == field && forall j :: 0 <= j < k ==> changes[j].field != field
  }

  lemma {:induction false} FieldIs(changes: seq<FieldChange>, field: string, k: nat)
    requires FirstAt(changes, field, k)
    ensures FieldBefore(changes, field) == changes[k].before && FieldAfter(changes, field) == changes[k].after
  {
    if k > 0 {
      assert changes[0].field != field;
      FieldIs(changes[1..], field, k - 1);
    }
  }

  lemma {:induction false} FieldMissing(changes: seq<FieldChange>, field: string)
    requires forall j :: 0 <= j < |changes| ==> changes[j].field != field
    ensures FieldBefore(changes, field) == "" && FieldAfter(changes, field) == ""
  {
    if changes != [] {
      FieldMissing(changes[1..], field);
    }
  }

  /** The five fields a reconfiguration names as themselves; metadata is not reconfigured, and
      everything else is the devices. */
  predicate NamedAs(field: string, f: string) {
    && !("metadata." <= field)
    && if field in {"cpu", "memory", "annotation", "guest_os", "name"} then f == field else f == "devices"
  }

  lemma {:induction false} Reconfigurable(changes: seq<FieldChange>, f: string)
    ensures f in ReconfigurableFields(changes) <==> exists k :: 0 <= k < |changes| && NamedAs(changes[k].field, f)
  {
    if changes != [] {
      Reconfigurable(changes[1..], f);
      if f in ReconfigurableFields(changes[1..]) {
        var k :| 0 <= k < |changes[1..]| && NamedAs(changes[1..][k].field, f);
        assert changes[k + 1] == changes[1..][k];
      }
      if k :| 0 <= k < |changes| && NamedAs(changes[k].field, f) {
        assert k > 0 ==> changes[1..][k - 1] == changes[k];
      }
    }
  }

  // ----- Numbers a reconfiguration sets

  /** The two fields whose new value an event states. */
  predicate IsNumber(field: string) { field == "cpu" || field == "memory" }

  function NumberIn(e: VMEvent, field: string): int { if field == "cpu" then e.setCPU else e.setMemoryMB }

  /** An unused reconfiguration that did not fail and names the field. */
  predicate Reconfigures(events: seq<VMEvent>, used: seq<bool>, field: string, i: int) {
    && 0 <= i < |events| && i < |used| && !used[i]
    && events[i].explains == Modifies && events[i].result != Failed && field in events[i].fields
  }

  /** It says it set the field to n. */
  predicate Sets(events: seq<VMEvent>, used: seq<bool>, field: string, n: int, i: int) {
    Reconfigures(events, used, field, i) && NumberIn(events[i], field) == n && n != 0
  }

  predicate IsLater(events: seq<VMEvent>, i: int, j: int)
    requires 0 <= i < |events| && 0 <= j < |events|
  {
    events[j].time < events[i].time || (events[i].time == events[j].time && j < i)
  }

  /** Of the events that set the field to n it is the last in the gap, or, when none in the gap did, the
      last of those after it. */
  ghost predicate LastToSet(events: seq<VMEvent>, used: seq<bool>, field: string, n: int, gap: int, i: int) {
    && Sets(events, used, field, n, i)
    && forall j :: Sets(events, used, field, n, j) && j != i ==>
      if i < gap then j < gap ==> IsLater(events, i, j) else gap <= j && IsLater(events, i, j)
  }

  /** The modification records the number as its field's new value. */
  predicate Records(change: HistoryEvent, field: string, n: int, k: int) {
    change.kind == Modified && FirstAt(change.changes, field, k) && change.changes[k].after == FormatInt(n)
  }

  lemma SettersSet(change: HistoryEvent, events: seq<VMEvent>, used: seq<bool>, field: string, n: int, k: nat, i: nat)
    requires IsNumber(field) && Records(change, field, n, k)
    ensures Setter(change, events, used, field, i) <==> Sets(events, used, field, n, i)
    ensures Reconfigures(events, used, field, i) ==>
      (TouchesUnstated(change, events[i], field) <==> NumberIn(events[i], field) == 0)
  {
    FieldIs(change.changes, field, k);
    Reconfigurable(change.changes, field);
    assert field[0] != "metadata."[0] || field[2] != "metadata."[2];
    assert !("metadata." <= change.changes[k].field);
    if i < |events| {
      FormatIntInjective(NumberIn(events[i], field), n);
    }
  }

  lemma CauseIsLast(change: HistoryEvent, events: seq<VMEvent>, used: seq<bool>, gap: nat, field: string, n: int, k: nat, i: nat)
    requires IsNumber(field) && Records(change, field, n, k)
    ensures IsCause(change, events, used, gap, field, i) <==> LastToSet(events, used, field, n, gap, i)
  {
    forall j: nat ensures Setter(change, events, used, field, j) <==> Sets(events, used, field, n, j) {
      SettersSet(change, events, used, field, n, k, j);
    }
    if IsCause(change, events, used, gap, field, i) {
      forall j | Sets(events, used, field, n, j) && j != i
        ensures if i < gap then j < gap ==> IsLater(events, i, j) else gap <= j && IsLater(events, i, j)
      {
        assert Setter(change, events, used, field, j as nat);
      }
    }
  }

  /** A reconfiguration of the CPU, or of the memory, alone explains a change that records its new value
      exactly when it does not say what it set, or set that very value and was the last to. */
  lemma PickedByValue(change: HistoryEvent, events: seq<VMEvent>, used: seq<bool>, gap: nat, field: string, n: int, k: nat, i: nat)
    requires IsNumber(field) && Records(change, field, n, k)
    requires Reconfigures(events, used, field, i) && events[i].fields == [field]
    ensures Picked(change, events, used, gap, i) <==>
      NumberIn(events[i], field) == 0 || LastToSet(events, used, field, n, gap, i)
  {
    SettersSet(change, events, used, field, n, k, i);
    CauseIsLast(change, events, used, gap, field, n, k, i);
    Reconfigurable(change.changes, field);
    assert field[0] != "metadata."[0] || field[2] != "metadata."[2];
    assert field in ReconfigurableFields(change.changes);
    if Credited(change, events, used, gap, i) {
      var f :| CreditedFor(change, events, used, gap, f, i);
      assert f in events[i].fields;
      assert f == field;
    }
    if CreditedFor(change, events, used, gap, field, i) {
      assert Credited(change, events, used, gap, i);
    }
  }

  predicate SetsCPU(e: VMEvent, n: int) { e.explains == Modifies && e.result != Failed && "cpu" in e.fields && e.setCPU == n }

  predicate SetsMemory(e: VMEvent, n: int) { e.explains == Modifies && e.result != Failed && "memory" in e.fields && e.setMemoryMB == n }

  /** By the events' own fields: a picked reconfiguration of the CPU set the recorded number, and of
      those in the gap that did it is the last. */
  lemma PickedSetsTheCPU(change: HistoryEvent, events: seq<VMEvent>, used: seq<bool>, gap: nat, n: int, k: nat, i: nat)
    requires Records(change, "cpu", n, k) && Picked(change, events, used, gap, i)
    requires events[i].fields == ["cpu"] && events[i].setCPU != 0
    ensures events[i].setCPU == n
    ensures forall j ::
      (i < gap && 0 <= j < gap && j < |events| && j < |used| && j != i && !used[j] && SetsCPU(events[j], n)) ==> IsLater(events, i, j)
  {
    PickedByValue(change, events, used, gap, "cpu", n, k, i);
    forall j | i < gap && 0 <= j < gap && j < |events| && j < |used| && j != i && !used[j] && SetsCPU(events[j], n)
      ensures IsLater(events, i, j)
    {
      assert Sets(events, used, "cpu", n, j);
    }
  }

  /** The same of the memory. */
  lemma PickedSetsTheMemory(change: HistoryEvent, events: seq<VMEvent>, used: seq<bool>, gap: nat, n: int, k: nat, i: nat)
    requires Records(change, "memory", n, k) && Picked(change, events, used, gap, i)
    requires events[i].fields == ["memory"] && events[i].setMemoryMB != 0
    ensures events[i].setMemoryMB == n
    ensures forall j ::
      (i < gap && 0 <= j < gap && j < |events| && j < |used| && j != i && !used[j] && SetsMemory(events[j], n)) ==> IsLater(events, i, j)
  {
    PickedByValue(change, events, used, gap, "memory", n, k, i);
    forall j | i < gap && 0 <= j < gap && j < |events| && j < |used| && j != i && !used[j] && SetsMemory(events[j], n)
      ensures IsLater(events, i, j)
    {
      assert Sets(events, used, "memory", n, j);
    }
  }

  // ----- The other kinds

  predicate Open(events: seq<VMEvent>, used: seq<bool>, kind: EventKind, i: int) {
    0 <= i < |events| && i < |used| && !used[i] && events[i].explains == kind && events[i].result != Failed
  }

  /** A migration that starts where the VM was and ends where it is. */
  predicate FromTo(events: seq<VMEvent>, used: seq<bool>, from: string, to: string, i: int) {
    Open(events, used, Moves, i) && events[i].fromHost == from && events[i].toHost == to
  }

  predicate EndsAt(events: seq<VMEvent>, used: seq<bool>, to: string, i: int) {
    Open(events, used, Moves, i) && (events[i].toHost == to || events[i].toHost == "")
  }

  /** A change of host takes the last migration from the one host to the other, or when there is none the
      last that ended there or does not say where. */
  lemma PickedMigration(change: HistoryEvent, events: seq<VMEvent>, used: seq<bool>, gap: nat, k: nat, i: nat)
    requires change.kind == Moved && FirstAt(change.changes, "host", k)
    requires change.changes[k].before != "" && change.changes[k].after != ""
    ensures var from, to := change.changes[k].before, change.changes[k].after;
      Picked(change, events, used, gap, i) <==>
        if exists j :: FromTo(events, used, from, to, j) then
          FromTo(events, used, from, to, i) && forall j :: FromTo(events, used, from, to, j) ==> j <= i
        else EndsAt(events, used, to, i) && forall j :: EndsAt(events, used, to, j) ==> j <= i
  {
    FieldIs(change.changes, "host", k);
    var from, to := change.changes[k].before, change.changes[k].after;
    assert forall j: nat :: ExactCandidate(change, events, used, j) <==> FromTo(events, used, from, to, j);
    assert forall j: nat :: EndingCandidate(change, events, used, j) <==> EndsAt(events, used, to, j);
    if j :| FromTo(events, used, from, to, j) {
      assert ExactCandidate(change, events, used, j as nat);
    }
  }

  /** When no host was recorded among the changes, the observation's host is where the VM is. */
  lemma PickedMigrationByHost(change: HistoryEvent, events: seq<VMEvent>, used: seq<bool>, gap: nat, to: string, i: nat)
    requires change.kind == Moved && change.observedHost == Some(to)
    requires forall j :: 0 <= j < |change.changes| ==> change.changes[j].field != "host"
    ensures Picked(change, events, used, gap, i) <==>
      EndsAt(events, used, to, i) && forall j :: EndsAt(events, used, to, j) ==> j <= i
  {
    FieldMissing(change.changes, "host");
    assert forall j: nat :: !ExactCandidate(change, events, used, j);
    assert forall j: nat :: EndingCandidate(change, events, used, j) <==> EndsAt(events, used, to, j);
  }

  /** A rename as vCenter writes it first, and as it writes it again: a reconfiguration of the name. */
  predicate RenamedTo(events: seq<VMEvent>, used: seq<bool>, name: string, i: int) {
    Open(events, used, Renames, i) && (events[i].newName == name || events[i].newName == "")
  }

  predicate NameSetTo(events: seq<VMEvent>, used: seq<bool>, name: string, i: int) {
    Open(events, used, Modifies, i) && events[i].fields == ["name"] && events[i].setName == name
  }

  /** A new name takes the last rename to it, and every reconfiguration that set it. */
  lemma PickedRename(change: HistoryEvent, events: seq<VMEvent>, used: seq<bool>, gap: nat, k: nat, i: nat)
    requires change.kind == Renamed && FirstAt(change.changes, "name", k) && change.changes[k].after != ""
    ensures var name := change.changes[k].after;
      Picked(change, events, used, gap, i) <==>
        || NameSetTo(events, used, name, i)
        || (RenamedTo(events, used, name, i) && forall j :: RenamedTo(events, used, name, j) ==> j <= i)
  {
    FieldIs(change.changes, "name", k);
    var name := change.changes[k].after;
    assert forall j: nat :: RenameCandidate(change, events, used, j) <==> RenamedTo(events, used, name, j);
  }

  function KindOf(kind: ChangeKind): EventKind {
    if kind == FirstSeen || kind == Appeared then Creates
    else if kind == Vanished then Removes
    else if kind == SnapshotCreated then CreatesSnapshot
    else RemovesSnapshot
  }

  /** A VM or snapshot that came or went takes the first event that made or removed it. */
  lemma PickedFirst(change: HistoryEvent, events: seq<VMEvent>, used: seq<bool>, gap: nat, i: nat)
    requires change.kind in {FirstSeen, Appeared, Vanished, SnapshotCreated, SnapshotRemoved}
    ensures Picked(change, events, used, gap, i) <==>
      Open(events, used, KindOf(change.kind), i) && forall j :: Open(events, used, KindOf(change.kind), j) ==> i <= j
  {
    assert forall j: nat :: Candidate(change, events, used, j) <==> Open(events, used, KindOf(change.kind), j);
  }
}
