/** A VM that vanished twice came back in between. */
module Lineage {
  import opened Common
  import opened Inventory
  import opened LastKnown
  import opened Sorting
  import opened Timeline
  import HiddenValues

  /** Runs are listed newest first, and a newer run started later. */
  ghost predicate NewestFirst(runs: seq<Run>) {
    forall i, j :: 0 <= i < j < |runs| ==> runs[i].id > runs[j].id && runs[i].startedAt > runs[j].startedAt
  }

  lemma {:induction false} IndexRunsIs(runs: seq<Run>, i: nat)
    requires NewestFirst(runs) && i < |runs|
    ensures runs[i].id in IndexRuns(runs) && IndexRuns(runs)[runs[i].id] == i
  {
    var n := |runs| - 1;
    if i < n {
      IndexRunsIs(runs[..n], i);
    }
  }

  lemma {:induction false} ByRunHolds(entries: seq<Entry>)
    ensures forall e :: e in entries ==> e.run.id in ByRun(entries)
    ensures forall id :: id in ByRun(entries) ==> ByRun(entries)[id] in entries && ByRun(entries)[id].run.id == id
  {
    if entries != [] {
      var n := |entries| - 1;
      ByRunHolds(entries[..n]);
      assert entries == entries[..n] + [entries[n]];
    }
  }

  lemma {:induction false} VanishedEventsAre(runs: seq<Run>, seen: map<int, Entry>, selected: seq<string>, i: nat, e: Event)
    requires i <= |runs|
    ensures e in VanishedEvents(runs, seen, selected, i)
      <==> exists j :: i <= j < |runs| && GoneAfter(runs, seen, selected, j) && e == VanishedEvent(runs, seen, j)
    decreases |runs| - i
  {
    if i < |runs| {
      VanishedEventsAre(runs, seen, selected, i + 1, e);
    }
  }

  function RunID(e: Event): int { e.run.id }

  lemma {:induction false} VanishedOncePerRun(runs: seq<Run>, seen: map<int, Entry>, selected: seq<string>, i: nat)
    requires i <= |runs| && NewestFirst(runs)
    ensures DistinctBy(RunID, VanishedEvents(runs, seen, selected, i))
    decreases |runs| - i
  {
    if i < |runs| {
      VanishedOncePerRun(runs, seen, selected, i + 1);
      var rest := VanishedEvents(runs, seen, selected, i + 1);
      if GoneAfter(runs, seen, selected, i) {
        forall k | 0 <= k < |rest| ensures RunID(rest[k]) != runs[i - 1].id {
          VanishedEventsAre(runs, seen, selected, i + 1, rest[k]);
        }
      }
    }
  }

  // ----- What the loop over the observations reports

  ghost predicate NoneOf(events: seq<Event>) { forall i :: 0 <= i < |events| ==> !events[i].kind.Vanished? }

  lemma NoneOfParts(a: seq<Event>, b: seq<Event>, c: seq<Event>, d: seq<Event>)
    requires NoneOf(a) && NoneOf(b) && NoneOf(c) && NoneOf(d)
    ensures NoneOf(a + b + c + d)
  {
  }

  lemma ChangesNeverVanish(b: Observation, after: Entry, o: Options)
    ensures NoneOf(ChangeEvents(b, after, o))
  {
    var fields := ModifiedFields(b, after.vm.observation, o.includeRuntime);
    MovedIsNotVanished(b, after);
    ModifiedIsNotVanished(fields, after);
    NoneOfParts(RenamedEvents(b, after), MovedEvents(b, after), ModifiedEvents(fields, after), []);
    assert ChangeEvents(b, after, o) == ChangeEvents(b, after, o) + [];
  }

  lemma MovedIsNotVanished(b: Observation, after: Entry)
    ensures NoneOf(MovedEvents(b, after))
  {
  }

  lemma ModifiedIsNotVanished(fields: seq<FieldChange>, after: Entry)
    ensures NoneOf(ModifiedEvents(fields, after))
  {
  }

  lemma StepNeverVanishes(b: Observation, index: RunIndex, before: Entry, after: Entry, o: Options, snaps: SnapshotChanges)
    ensures NoneOf(EventsAgainst(b, index, before, after, o, snaps))
  {
    ChangesNeverVanish(b, after, o);
    NoneOfParts(ReappearedEvents(index, before, after), ChangeEvents(b, after, o), SnapshotEvents(after, snaps),
                ObservedEvents(b, after, o));
  }

  ghost predicate ReportsSkips(events: seq<Event>, entries: seq<Entry>, index: RunIndex) {
    forall n :: 0 < n < |entries| && SkipsARun(index, entries[n - 1], entries[n]) ==> EventOf(Reappeared, entries[n], []) in events
  }

  /** The loop over the observations never reports that the VM vanished, and reports that it
      reappeared wherever an observation skips a run. */
  lemma {:induction false} LoopReports(entries: seq<Entry>, index: RunIndex, o: Options, snaps: seq<SnapshotChanges>)
    requires |snaps| == |entries|
    ensures NoneOf(LoopEvents(entries, index, o, snaps))
    ensures ReportsSkips(LoopEvents(entries, index, o, snaps), entries, index)
  {
    if |entries| > 1 {
      var m := |entries| - 1;
      var front, last, parts, piece := entries[..m], entries[m], snaps[..m], snaps[m];
      assert entries == front + [last] && snaps == parts + [piece];
      LoopReports(front, index, o, parts);
      HiddenValues.LoopEventsOfMore(front, last, index, o, parts, piece);
      StepReports(LoopEvents(front, index, o, parts), KnownAfter(VMs(front)), front, last, index, o, piece);
    }
  }

  lemma StepReports(loop: seq<Event>, k: Known, entries: seq<Entry>, last: Entry, index: RunIndex, o: Options, snaps: SnapshotChanges)
    requires entries != [] && NoneOf(loop) && ReportsSkips(loop, entries, index)
    ensures var more := loop + StepEvents(k, index, entries[|entries| - 1], last, o, snaps);
      NoneOf(more) && ReportsSkips(more, entries + [last], index)
  {
    var m, all := |entries|, entries + [last];
    var b := FilledVM(k, entries[m - 1]).observation;
    StepNeverVanishes(b, index, entries[m - 1], last, o, snaps);
    var more := loop + EventsAgainst(b, index, entries[m - 1], last, o, snaps);
    forall n | 0 < n < |all| && SkipsARun(index, all[n - 1], all[n]) ensures EventOf(Reappeared, all[n], []) in more {
      if n < m {
        assert all[n] == entries[n] && all[n - 1] == entries[n - 1];
      } else {
        StepReappears(b, index, entries[m - 1], last, o, snaps);
      }
    }
  }

  lemma StepReappears(b: Observation, index: RunIndex, before: Entry, after: Entry, o: Options, snaps: SnapshotChanges)
    requires SkipsARun(index, before, after)
    ensures EventOf(Reappeared, after, []) in EventsAgainst(b, index, before, after, o, snaps)
  {
    assert ReappearedEvents(index, before, after)[0] == EventOf(Reappeared, after, []);
  }

  // ----- Between two disappearances

  /** Every entry is of a listed run. */
  ghost predicate Listed(entries: seq<Entry>, runs: seq<Run>) {
    forall i :: 0 <= i < |entries| ==> entries[i].run in runs
  }

  function Position(index: RunIndex, e: Entry): int { if e.run.id in index then index[e.run.id] else -1 }

  lemma PositionIs(entries: seq<Entry>, runs: seq<Run>, i: nat)
    requires NewestFirst(runs) && Listed(entries, runs) && i < |entries|
    ensures var p := Position(IndexRuns(runs), entries[i]); 0 <= p < |runs| && runs[p] == entries[i].run
    ensures entries[i].run.id in IndexRuns(runs)
  {
    assert entries[i].run in runs;
    var p :| 0 <= p < |runs| && runs[p] == entries[i].run;
    IndexRunsIs(runs, p);
  }

  lemma PositionsFall(entries: seq<Entry>, runs: seq<Run>, i: nat, k: nat)
    requires NewestFirst(runs) && Listed(entries, runs) && Sorted(EntryLe, entries) && i <= k < |entries|
    ensures Position(IndexRuns(runs), entries[i]) >= Position(IndexRuns(runs), entries[k])
  {
    PositionIs(entries, runs, i);
    PositionIs(entries, runs, k);
    if i < k {
      assert EntryLe(entries[i], entries[k]);
    }
  }

  /** Somewhere from entry a, at or before run j, to entry b, after it, the history crosses run j. */
  lemma {:induction false} Crossing(entries: seq<Entry>, index: RunIndex, j: int, a: nat, b: nat) returns (n: nat)
    requires a <= b < |entries| && Position(index, entries[a]) >= j > Position(index, entries[b])
    ensures a < n <= b && Position(index, entries[n - 1]) >= j > Position(index, entries[n])
    decreases b - a
  {
    if Position(index, entries[b - 1]) >= j {
      n := b;
    } else {
      n := Crossing(entries, index, j, a, b - 1);
    }
  }

  lemma EntryAt(entries: seq<Entry>, runs: seq<Run>, p: nat) returns (i: nat)
    requires NewestFirst(runs) && Listed(entries, runs) && p < |runs| && runs[p].id in ByRun(entries)
    ensures i < |entries| && Position(IndexRuns(runs), entries[i]) == p
  {
    ByRunHolds(entries);
    i :| i < |entries| && entries[i] == ByRun(entries)[runs[p].id];
    IndexRunsIs(runs, p);
  }

  lemma NoEntryAt(entries: seq<Entry>, runs: seq<Run>, p: nat, i: nat)
    requires NewestFirst(runs) && Listed(entries, runs) && p < |runs| && runs[p].id !in ByRun(entries) && i < |entries|
    ensures Position(IndexRuns(runs), entries[i]) != p
  {
    ByRunHolds(entries);
    PositionIs(entries, runs, i);
    assert entries[i] in entries;
  }

  /** A VM gone after runs[j] that was later gone after runs[k] skipped a run in between. */
  lemma SkipsInBetween(entries: seq<Entry>, runs: seq<Run>, selected: seq<string>, j: nat, k: nat) returns (n: nat)
    requires NewestFirst(runs) && Listed(entries, runs) && Sorted(EntryLe, entries) && k < j < |runs|
    requires GoneAfter(runs, ByRun(entries), selected, j) && GoneAfter(runs, ByRun(entries), selected, k)
    ensures 0 < n < |entries| && SkipsARun(IndexRuns(runs), entries[n - 1], entries[n])
    ensures runs[j - 1].startedAt < entries[n].run.startedAt < runs[k - 1].startedAt
  {
    var index := IndexRuns(runs);
    var a := EntryAt(entries, runs, j);
    var b := EntryAt(entries, runs, k);
    if b < a {
      PositionsFall(entries, runs, b, a);
    }
    n := Crossing(entries, index, j, a, b);
    NoEntryAt(entries, runs, j - 1, n);
    PositionIs(entries, runs, n - 1);
    PositionIs(entries, runs, n);
    PositionsFall(entries, runs, n, b);
  }

  // ----- Over the whole timeline

  lemma EventLeIsTotalPreorder()
    ensures TotalPreorder(EventLe)
  {
  }

  lemma TwiceIsTwo<T>(s: seq<T>, p: nat, q: nat)
    requires p < q < |s| && s[p] == s[q]
    ensures multiset(s)[s[p]] >= 2
  {
    assert s == s[..p] + [s[p]] + s[p + 1..q] + [s[q]] + s[q + 1..];
  }

  /** A "vanished" event of the timeline is one of some run the VM was in and the next run not. */
  lemma VanishedIs(loop: seq<Event>, gone: seq<Event>, runs: seq<Run>, seen: map<int, Entry>, selected: seq<string>, e: Event)
    requires gone == VanishedEvents(runs, seen, selected, 0) && NoneOf(loop)
    requires e in StableSort(EventLe, loop + gone) && e.kind.Vanished?
    ensures exists j :: 0 <= j < |runs| && GoneAfter(runs, seen, selected, j) && e == VanishedEvent(runs, seen, j)
  {
    SameMembers(StableSort(EventLe, loop + gone), loop + gone);
    assert e in gone;
    VanishedEventsAre(runs, seen, selected, 0, e);
  }

  lemma VanishedOnce(loop: seq<Event>, gone: seq<Event>, e: Event)
    requires DistinctBy(RunID, gone) && NoneOf(loop) && e.kind.Vanished?
    ensures multiset(StableSort(EventLe, loop + gone))[e] <= 1
  {
    DistinctOccursOnce(RunID, gone, e);
    assert e !in loop;
    assert multiset(loop + gone) == multiset(loop) + multiset(gone);
  }

  lemma EarlierIsBefore(events: seq<Event>, p: nat, m: nat)
    requires Sorted(EventLe, events) && p < |events| && m < |events|
    requires events[p].run.startedAt < events[m].run.startedAt
    ensures p < m
  {
    assert forall i :: 0 <= i < p ==> EventLe(events[i], events[p]);
  }

  /** Two "vanished" events are of two different runs, the earlier one first. */
  lemma GoneInOrder(loop: seq<Event>, runs: seq<Run>, seen: map<int, Entry>, selected: seq<string>, p: nat, q: nat)
    returns (j: nat, k: nat)
    requires NewestFirst(runs) && NoneOf(loop)
    requires var events := StableSort(EventLe, loop + VanishedEvents(runs, seen, selected, 0));
      p < q < |events| && events[p].kind.Vanished? && events[q].kind.Vanished?
    ensures k < j < |runs| && GoneAfter(runs, seen, selected, j) && GoneAfter(runs, seen, selected, k)
    ensures var events := StableSort(EventLe, loop + VanishedEvents(runs, seen, selected, 0));
      events[p].run == runs[j - 1] && events[q].run == runs[k - 1]
  {
    var gone := VanishedEvents(runs, seen, selected, 0);
    var events := StableSort(EventLe, loop + gone);
    VanishedIs(loop, gone, runs, seen, selected, events[p]);
    VanishedIs(loop, gone, runs, seen, selected, events[q]);
    j :| 0 <= j < |runs| && GoneAfter(runs, seen, selected, j) && events[p] == VanishedEvent(runs, seen, j);
    k :| 0 <= k < |runs| && GoneAfter(runs, seen, selected, k) && events[q] == VanishedEvent(runs, seen, k);
    VanishedOncePerRun(runs, seen, selected, 0);
    VanishedOnce(loop, gone, events[p]);
    if j == k {
      TwiceIsTwo(events, p, q);
      assert false;
    }
    EventLeIsTotalPreorder();
    StableSortSorts(EventLe, loop + gone);
    assert EventLe(events[p], events[q]);
  }

  /** The core of the argument, over the two lists the timeline sorts. */
  lemma BackBetween(entries: seq<Entry>, runs: seq<Run>, selected: seq<string>, loop: seq<Event>, p: nat, q: nat)
    requires NewestFirst(runs) && Listed(entries, runs) && Sorted(EntryLe, entries) && NoneOf(loop)
    requires ReportsSkips(loop, entries, IndexRuns(runs))
    requires var events := StableSort(EventLe, loop + VanishedEvents(runs, ByRun(entries), selected, 0));
      p < q < |events| && events[p].kind.Vanished? && events[q].kind.Vanished?
    ensures var events := StableSort(EventLe, loop + VanishedEvents(runs, ByRun(entries), selected, 0));
      exists m :: p < m < q && events[m].kind.Reappeared?
  {
    var gone := VanishedEvents(runs, ByRun(entries), selected, 0);
    var events := StableSort(EventLe, loop + gone);
    var j, k := GoneInOrder(loop, runs, ByRun(entries), selected, p, q);
    var n := SkipsInBetween(entries, runs, selected, j, k);
    var back := EventOf(Reappeared, entries[n], []);
    SameMembers(events, loop + gone);
    assert back in loop + gone;
    var m: nat :| m < |events| && events[m] == back;
    EventLeIsTotalPreorder();
    StableSortSorts(EventLe, loop + gone);
    EarlierIsBefore(events, p, m);
    EarlierIsBefore(events, m, q);
  }

  lemma {:induction false} LiveRunsKeepOrder(runs: seq<Run>)
    requires NewestFirst(runs)
    ensures NewestFirst(LiveRuns(runs))
    ensures forall r :: r in LiveRuns(runs) <==> r in runs && !r.imported
  {
    if runs != [] {
      var n := |runs| - 1;
      LiveRunsKeepOrder(runs[..n]);
      assert runs == runs[..n] + [runs[n]];
      forall r | r in LiveRuns(runs[..n]) ensures r.id > runs[n].id && r.startedAt > runs[n].startedAt {
        var i :| 0 <= i < n && runs[..n][i] == r;
        assert runs[i] == r;
      }
    }
  }

  lemma {:induction false} LiveEntriesAreLive(entries: seq<Entry>)
    ensures forall e :: e in LiveEntries(entries) ==> e in entries && !e.run.imported
  {
    if entries != [] {
      LiveEntriesAreLive(entries[..|entries| - 1]);
    }
  }

  lemma FollowedAreListed(found: seq<Entry>, recorded: seq<Run>)
    requires NewestFirst(recorded) && Listed(found, recorded)
    ensures NewestFirst(FollowedRuns(found, recorded)) && Listed(Followed(found), FollowedRuns(found, recorded))
  {
    var entries := StableSort(EntryLe, found);
    SameMembers(entries, found);
    LiveRunsKeepOrder(recorded);
    LiveEntriesAreLive(entries);
    forall e | e in Followed(found) ensures e.run in FollowedRuns(found, recorded) {
      assert e in found;
      var i :| 0 <= i < |found| && found[i] == e;
      assert found[i].run in recorded;
    }
  }

  /** Between any two "vanished" events of one timeline there is an "appeared" one. */
  lemma VanishedTwiceReappeared(found: seq<Entry>, recorded: seq<Run>, selected: seq<string>, o: Options, events: seq<Event>,
      snaps: seq<SnapshotChanges>, p: nat, q: nat)
    requires Reports(found, recorded, selected, o, events, snaps)
    requires NewestFirst(recorded) && Listed(found, recorded)
    requires p < q < |events| && events[p].kind.Vanished? && events[q].kind.Vanished?
    ensures exists m :: p < m < q && events[m].kind.Reappeared?
  {
    var entries, runs := Followed(found), FollowedRuns(found, recorded);
    FollowedAreListed(found, recorded);
    HiddenValues.FollowedIsSorted(found);
    LoopReports(entries, IndexRuns(runs), o, snaps);
    BackBetween(entries, runs, selected, LoopEvents(entries, IndexRuns(runs), o, snaps), p, q);
  }
}
