/** Where the clock puts an event among the runs, each run judging it on its own clock. */
module EventPlace {
  import opened Common
  import opened Events
  import opened Sorting

  /** Run i had started by the time of the event, or the event is not after its start: the
      question the search asks of one run. */
  predicate NotAfterStart(e: VMEvent, r: Run) {
    OnRunClock(e, r).0 <= r.startedAt
  }

  /** Go's sort.Search over runs[lo..hi]. The answers need not be monotone: every run may have
      measured its own offset. */
  function Search(e: VMEvent, runs: seq<Run>, lo: nat, hi: nat): (i: nat)
    requires lo <= hi <= |runs|
    requires lo > 0 ==> !NotAfterStart(e, runs[lo - 1])
    requires hi < |runs| ==> NotAfterStart(e, runs[hi])
    ensures lo <= i <= hi
    ensures i > 0 ==> !NotAfterStart(e, runs[i - 1])
    ensures i < |runs| ==> NotAfterStart(e, runs[i])
    decreases hi - lo
  {
    if lo == hi then lo
    else
      var h := lo + (hi - lo) / 2;
      if !NotAfterStart(e, runs[h]) then Search(e, runs, h + 1, hi) else Search(e, runs, lo, h)
  }

  /** The span an event falls in: after run Place - 1 started and not after run Place did. */
  function Place(e: VMEvent, runs: seq<Run>): (i: nat)
    ensures i <= |runs|
  {
    Search(e, runs, 0, |runs|)
  }

  /** Logged while run i was collecting. */
  predicate DuringRun(e: VMEvent, runs: seq<Run>, i: int) {
    && 0 <= i < |runs| && Place(e, runs) == i + 1
    && OnRunClock(e, runs[i]).0 <= RunEnd(runs[i])
  }

  predicate BetweenRuns(e: VMEvent, runs: seq<Run>, i: int) {
    Place(e, runs) == i && !DuringRun(e, runs, i - 1)
  }

  /** However the runs' offsets disagree, the event is after the start of the run before its
      span and not after the start of the run that closes it, each on its own clock. */
  lemma PlacedBetweenStarts(e: VMEvent, runs: seq<Run>)
    ensures var i := Place(e, runs);
      && (i > 0 ==> OnRunClock(e, runs[i - 1]).0 > runs[i - 1].startedAt)
      && (i < |runs| ==> OnRunClock(e, runs[i]).0 <= runs[i].startedAt)
  {
  }

  predicate RunLe(a: Run, b: Run) { a.startedAt <= b.startedAt }

  /** When every run puts the event at the same local time, the span is the only one between
      whose starts that time falls: the search agrees with a linear scan. */
  lemma PlaceIsUnique(e: VMEvent, runs: seq<Run>, t: int, i: nat)
    requires Sorted(RunLe, runs)
    requires forall k :: 0 <= k < |runs| ==> OnRunClock(e, runs[k]).0 == t
    requires i <= |runs|
    requires forall k :: 0 <= k < i ==> runs[k].startedAt < t
    requires forall k :: i <= k < |runs| ==> t <= runs[k].startedAt
    ensures Place(e, runs) == i
  {
  }

  /** Within the tolerance before the edge run started, where its clock was not measured. */
  predicate NearBefore(e: VMEvent, edge: Run) {
    var t := OnRunClock(e, edge).0;
    edge.startedAt - ToleranceAt(e, edge) <= t < edge.startedAt
  }

  /** Within the tolerance after the edge run ended, where its clock was not measured. */
  predicate NearAfter(e: VMEvent, edge: Run) {
    var t := OnRunClock(e, edge).0;
    RunEnd(edge) < t <= RunEnd(edge) + ToleranceAt(e, edge)
  }

  /** An event is near an edge only on the vCenter's own clock, within five seconds, and only of
      a run that measured no offset for its context. */
  lemma NearOnlyWhereUnmeasured(e: VMEvent, edge: Run)
    requires NearBefore(e, edge) || NearAfter(e, edge)
    ensures e.context !in edge.clockOffsetsMS
    ensures NearBefore(e, edge) ==> 0 < edge.startedAt - e.time <= 5 * SECOND
    ensures NearAfter(e, edge) ==> 0 < e.time - RunEnd(edge) <= 5 * SECOND
  {
  }

  /** The runs of a history by first mention, without repeats; a zero ID is no run. */
  function DistinctRuns(history: seq<HistoryEvent>): seq<Run> {
    if history == [] then []
    else
      var n := |history| - 1;
      var rest := DistinctRuns(history[..n]);
      var r := history[n].run;
      if r.id == 0 || (exists k :: 0 <= k < |rest| && rest[k].id == r.id) then rest else rest + [r]
  }

  /** Every distinct run of a timeline, oldest first. */
  function RunsOf(history: seq<HistoryEvent>): seq<Run> {
    StableSort(RunLe, DistinctRuns(history))
  }

  function RunID(r: Run): int { r.id }

  ghost predicate DistinctIDs(runs: seq<Run>) {
    DistinctBy(RunID, runs)
  }

  lemma {:induction false} DistinctRunsAreDistinct(history: seq<HistoryEvent>)
    ensures DistinctIDs(DistinctRuns(history))
    ensures forall r :: r in DistinctRuns(history) ==> r.id != 0
    ensures forall h :: h in history && h.run.id != 0 ==> exists r :: r in DistinctRuns(history) && r.id == h.run.id
  {
    if history != [] {
      var n := |history| - 1;
      var rest := DistinctRuns(history[..n]);
      DistinctRunsAreDistinct(history[..n]);
      forall h | h in history && h.run.id != 0
        ensures exists r :: r in DistinctRuns(history) && r.id == h.run.id
      {
        if h in history[..n] {
          var r :| r in rest && r.id == h.run.id;
          assert r in DistinctRuns(history);
        } else {
          assert h == history[n];
          if exists k :: 0 <= k < |rest| && rest[k].id == h.run.id {
            var k :| 0 <= k < |rest| && rest[k].id == h.run.id;
            assert rest[k] in DistinctRuns(history);
          } else {
            assert h.run in DistinctRuns(history);
          }
        }
      }
    }
  }

  /** The runs are sorted by start, have distinct non-zero IDs, and cover the history. */
  lemma RunsOfHistory(history: seq<HistoryEvent>)
    ensures Sorted(RunLe, RunsOf(history)) && DistinctIDs(RunsOf(history))
    ensures forall h :: h in history ==>
      (h.run.id != 0 <==> exists i :: 0 <= i < |RunsOf(history)| && RunsOf(history)[i].id == h.run.id)
  {
    var d, runs := DistinctRuns(history), RunsOf(history);
    DistinctRunsAreDistinct(history);
    StableSortSorts(RunLe, d);
    DistinctAfterReordering(RunID, d, runs);
    SameMembers(d, runs);
    forall h | h in history
      ensures h.run.id != 0 <==> exists i :: 0 <= i < |runs| && runs[i].id == h.run.id
    {
      if h.run.id != 0 {
        var r :| r in d && r.id == h.run.id;
        assert r in runs;
      }
    }
  }

  method TimelineRuns(history: seq<HistoryEvent>) returns (runs: seq<Run>)
    ensures runs == RunsOf(history)
  {
    var seen: set<int> := {};
    var found: seq<Run> := [];
    for n := 0 to |history|
      invariant found == DistinctRuns(history[..n])
      invariant forall id :: id in seen <==> exists k :: 0 <= k < |found| && found[k].id == id
    {
      var r := history[n].run;
      assert history[..n + 1][..n] == history[..n];
      ghost var was := found;
      if r.id != 0 && r.id !in seen {
        seen := seen + {r.id};
        found := found + [r];
        forall id ensures id in seen <==> exists k :: 0 <= k < |found| && found[k].id == id {
          if exists k :: 0 <= k < |was| && was[k].id == id {
            var k :| 0 <= k < |was| && was[k].id == id;
            assert found[k].id == id;
          }
          assert found[|was|].id == r.id;
        }
      }
    }
    assert history[..|history|] == history;
    runs := StableSort(RunLe, found);
  }
}
