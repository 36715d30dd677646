/** Where an event ends up, said of the recorded times and clock offsets themselves. A run stores
    by how many milliseconds a vCenter's clock was ahead of the one the run is stamped with. */
module EventClock {
  import opened Common
  import opened Events
  import opened EventPlace
  import opened EventMatch
  import opened EventTimeline
  import opened Sorting

  /** On the clock of run r, the event happened at local time t. */
  predicate HappenedAt(e: VMEvent, r: Run, t: int) {
    e.time == t + if e.context in r.clockOffsetsMS then r.clockOffsetsMS[e.context] * 1_000_000 else 0
  }

  /** Every run measured the clock of the event's vCenter, and all put the event at local time t. */
  predicate MeasuredAt(e: VMEvent, runs: seq<Run>, t: int) {
    forall k :: 0 <= k < |runs| ==> e.context in runs[k].clockOffsetsMS && HappenedAt(e, runs[k], t)
  }

  /** Local time t is after the start of the run before span i and not after that of the run that
      closes it. */
  predicate InGap(runs: seq<Run>, t: int, i: int) {
    0 <= i <= |runs| && (i > 0 ==> runs[i - 1].startedAt < t) && (i < |runs| ==> t <= runs[i].startedAt)
  }

  predicate ByStart(runs: seq<Run>) { forall j, k :: 0 <= j < k < |runs| ==> runs[j].startedAt <= runs[k].startedAt }

  /** An event is placed between the runs between whose starts it happened on the local clock. */
  lemma PlacedWhereItHappened(e: VMEvent, runs: seq<Run>, t: int, i: nat)
    requires ByStart(runs) && forall k :: 0 <= k < |runs| ==> HappenedAt(e, runs[k], t)
    ensures Place(e, runs) == i <==> InGap(runs, t, i)
  {
    PlacedBetweenStarts(e, runs);
    OneGap(runs, t, Place(e, runs), i);
  }

  lemma OneGap(runs: seq<Run>, t: int, p: nat, i: nat)
    requires ByStart(runs) && InGap(runs, t, p)
    ensures InGap(runs, t, i) <==> p == i
  {
  }

  /** Logged while run i collected: after its start, not after its end and not after the next start. */
  lemma DuringWhereItHappened(e: VMEvent, runs: seq<Run>, t: int, i: nat)
    requires ByStart(runs) && forall k :: 0 <= k < |runs| ==> HappenedAt(e, runs[k], t)
    ensures DuringRun(e, runs, i) <==>
      i < |runs| && InGap(runs, t, i + 1) && (t <= runs[i].finishedAt || t <= runs[i].startedAt)
  {
    PlacedWhereItHappened(e, runs, t, i + 1);
  }

  /** An event is near a run's start, or its end, exactly when the run measured no offset for its
      vCenter and its own time is at most five seconds before the start, or after the end. */
  lemma NearExactlyWhen(e: VMEvent, edge: Run)
    ensures NearBefore(e, edge) <==>
      e.context !in edge.clockOffsetsMS && edge.startedAt - 5_000_000_000 <= e.time < edge.startedAt
    ensures NearAfter(e, edge) <==>
      e.context !in edge.clockOffsetsMS && edge.startedAt < e.time && edge.finishedAt < e.time
      && (e.time <= edge.startedAt + 5_000_000_000 || e.time <= edge.finishedAt + 5_000_000_000)
  {
  }

  /** Over the finished timeline, an event of a vCenter whose clock every run measured is left
      unexplained in the span in which it happened, and explains only changes of that span or, when it
      happened while a run collected, of the span that run closes. */
  lemma MeasuredEventsStay(history: seq<HistoryEvent>, full: seq<EventSpan>, i: nat, e: VMEvent, t: int)
    requires |full| == |RunsOf(history)| + 1 && i < |full| && Explained(history, full, i)
    requires MeasuredAt(e, RunsOf(history), t)
    ensures e in full[i].unexplained ==> InGap(RunsOf(history), t, i)
    ensures (exists c :: 0 <= c < |full[i].changes| && e in full[i].changes[c].events) ==>
      || InGap(RunsOf(history), t, i)
      || (i < |RunsOf(history)| && RunsOf(history)[i].startedAt < t <= RunsOf(history)[i].finishedAt)
  {
    var runs := RunsOf(history);
    RunsOfHistory(history);
    forall j, k | 0 <= j < k < |runs| ensures runs[j].startedAt <= runs[k].startedAt {
      assert RunLe(runs[j], runs[k]);
    }
    PlacedWhereItHappened(e, runs, t, i);
    DuringWhereItHappened(e, runs, t, i);
    if exists c :: 0 <= c < |full[i].changes| && e in full[i].changes[c].events {
      assert !Skewed(e, runs, i);
    }
  }

  // ----- A clock set forward

  /** The run as it would be had the context's clock been d milliseconds further ahead. */
  function Ahead(r: Run, context: string, d: int): Run {
    if context in r.clockOffsetsMS then r.(clockOffsetsMS := r.clockOffsetsMS[context := r.clockOffsetsMS[context] + d]) else r
  }

  function AllAhead(runs: seq<Run>, context: string, d: int): seq<Run> {
    seq(|runs|, k requires 0 <= k < |runs| => Ahead(runs[k], context, d))
  }

  function Restamped(e: VMEvent, context: string, d: int): VMEvent {
    if e.context == context then e.(time := e.time + d * 1_000_000) else e
  }

  lemma AheadAnswersAlike(e: VMEvent, r: Run, context: string, d: int)
    requires context in r.clockOffsetsMS
    ensures NotAfterStart(Restamped(e, context, d), Ahead(r, context, d)) <==> NotAfterStart(e, r)
  {
  }

  /** The search of runs[lo..hi] may start. */
  predicate MayStart(e: VMEvent, runs: seq<Run>, lo: nat, hi: nat) {
    lo <= hi <= |runs| && (lo > 0 ==> !NotAfterStart(e, runs[lo - 1])) && (hi < |runs| ==> NotAfterStart(e, runs[hi]))
  }

  lemma SearchHalves(e: VMEvent, runs: seq<Run>, lo: nat, hi: nat, h: nat)
    requires MayStart(e, runs, lo, hi) && lo < hi && h == lo + (hi - lo) / 2
    ensures lo <= h < hi
    ensures if NotAfterStart(e, runs[h])
      then MayStart(e, runs, lo, h) && Search(e, runs, lo, hi) == Search(e, runs, lo, h)
      else MayStart(e, runs, h + 1, hi) && Search(e, runs, lo, hi) == Search(e, runs, h + 1, hi)
  {
  }

  ghost predicate AnswersAlike(e: VMEvent, runs: seq<Run>, e': VMEvent, runs': seq<Run>) {
    |runs| == |runs'| && forall k :: 0 <= k < |runs| ==> (NotAfterStart(e', runs'[k]) <==> NotAfterStart(e, runs[k]))
  }

  /** Searches that get the same answers from every run find the same. */
  lemma {:induction false} SearchAlike(e: VMEvent, runs: seq<Run>, e': VMEvent, runs': seq<Run>, lo: nat, hi: nat)
    requires AnswersAlike(e, runs, e', runs') && MayStart(e, runs, lo, hi) && MayStart(e', runs', lo, hi)
    ensures Search(e', runs', lo, hi) == Search(e, runs, lo, hi)
    decreases hi - lo
  {
    if lo < hi {
      var h := lo + (hi - lo) / 2;
      SearchHalves(e, runs, lo, hi, h);
      SearchHalves(e', runs', lo, hi, h);
      if NotAfterStart(e, runs[h]) {
        SearchAlike(e, runs, e', runs', lo, h);
      } else {
        SearchAlike(e, runs, e', runs', h + 1, hi);
      }
    }
  }

  /** Setting one vCenter's clock forward moves no event, of its own or of another, to another span. */
  lemma ClocksDoNotMatter(e: VMEvent, runs: seq<Run>, context: string, d: int, i: int)
    requires forall k :: 0 <= k < |runs| ==> context in runs[k].clockOffsetsMS
    ensures Place(Restamped(e, context, d), AllAhead(runs, context, d)) == Place(e, runs)
    ensures DuringRun(Restamped(e, context, d), AllAhead(runs, context, d), i) <==> DuringRun(e, runs, i)
  {
    var e', runs' := Restamped(e, context, d), AllAhead(runs, context, d);
    forall k | 0 <= k < |runs| ensures NotAfterStart(e', runs'[k]) <==> NotAfterStart(e, runs[k]) {
      AheadAnswersAlike(e, runs[k], context, d);
    }
    SearchAlike(e, runs, e', runs', 0, |runs|);
  }
}
