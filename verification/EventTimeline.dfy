/** ExplainTimeline: the whole alignment, from a stored history and a list of events to the
    spans an operator reads. */
module EventTimeline {
  import opened Common
  import opened Events
  import opened EventPick
  import opened EventPlace
  import opened EventTally
  import opened Multisets
  import opened EventMatch
  import opened EventSpans
  import opened EventRepair

  /** The clock put the event one span away, within tolerance of the edge between, in a run
      that did not measure its clock. */
  ghost predicate Skewed(e: VMEvent, runs: seq<Run>, i: nat) {
    || (0 < i <= |runs| && Place(e, runs) == i - 1 && NearBefore(e, runs[i - 1]))
    || (i < |runs| && Place(e, runs) == i + 1 && NearAfter(e, runs[i]))
  }

  /** No change the span left without events matches what its closing run logged and the next span
      has unexplained. */
  ghost predicate OwnSpanFirst(span: EventSpan, next: EventSpan, runs: seq<Run>, i: nat) {
    forall c, e :: 0 <= c < |span.changes| && span.changes[c].events == [] ==>
      (e in next.unexplained && DuringRun(e, runs, i) ==> !Matches(span.changes[c].change, e))
  }

  /** Span i of the finished alignment. */
  ghost predicate Explained(history: seq<HistoryEvent>, spans: seq<EventSpan>, i: nat)
    requires i < |spans|
  {
    var runs, span := RunsOf(history), spans[i];
    // It lies between two consecutive runs and holds what the later one recorded.
    && Frame(history, runs, span, i)
    // What explains a change matches it, and nothing unexplained matches a change without events.
    && Sound(span.changes) && Exhausted(span)
    && (forall c :: 0 <= c < |span.changes| ==> NothingLeft(spans, runs, i, span.changes[c]))
    // What the closing run logged while it collected was offered here before it was carried on.
    && (i + 1 < |spans| ==> OwnSpanFirst(span, spans[i + 1], runs, i))
    // Everything is where the clock put it, up to carrying and measured doubt.
    && (forall e :: e in span.unexplained ==> Place(e, runs) == i)
    && (forall c, e :: 0 <= c < |span.changes| && e in span.changes[c].events ==>
          Place(e, runs) == i || DuringRun(e, runs, i) || Skewed(e, runs, i))
  }

  /** Spans with neither changes nor unexplained events are left out. */
  function NonEmpty(spans: seq<EventSpan>): seq<EventSpan> {
    if spans == [] then []
    else
      var n := |spans| - 1;
      NonEmpty(spans[..n]) + if |spans[n].changes| > 0 || |spans[n].unexplained| > 0 then [spans[n]] else []
  }

  lemma NonEmptyPush(front: seq<EventSpan>, last: EventSpan)
    requires AllEvents(NonEmpty(front)) == AllEvents(front)
    ensures AllEvents(NonEmpty(front + [last])) == AllEvents(front + [last])
  {
    var kept := NonEmpty(front);
    AllEventsPush(front, last);
    assert (front + [last])[..|front|] == front;
    if |last.changes| > 0 || |last.unexplained| > 0 {
      AllEventsPush(kept, last);
    } else {
      assert SpanEvents(last) == multiset{};
      assert NonEmpty(front + [last]) == kept + [] == kept;
    }
  }

  /** Leaving spans out loses no event. */
  lemma {:induction false} NonEmptyKeepsEvents(spans: seq<EventSpan>)
    ensures AllEvents(NonEmpty(spans)) == AllEvents(spans)
  {
    if spans != [] {
      var n := |spans| - 1;
      NonEmptyKeepsEvents(spans[..n]);
      NonEmptyPush(spans[..n], spans[n]);
      assert spans[..n] + [spans[n]] == spans;
    }
  }

  /** Nor any change. */
  lemma {:induction false} NonEmptyKeepsChanges(spans: seq<EventSpan>, span: EventSpan)
    requires span in spans && span.changes != []
    ensures span in NonEmpty(spans)
  {
    var n := |spans| - 1;
    assert spans == spans[..n] + [spans[n]];
    if span in spans[..n] {
      NonEmptyKeepsChanges(spans[..n], span);
    }
  }

  lemma ChangeAfterRepair(settled: seq<EventSpan>, runs: seq<Run>, i: nat, was: ExplainedChange, ch: ExplainedChange)
    requires |settled| == |runs| + 1 && i < |settled|
    requires forall j :: 0 <= j < |settled| ==> AtHome(settled[j], runs, j)
    requires was in settled[i].changes && RepairedChange(settled, runs, i, was, ch)
    ensures ch.events == [] ==> was.events == []
    ensures forall e :: e in ch.events ==> Place(e, runs) == i || DuringRun(e, runs, i) || Skewed(e, runs, i)
  {
    assert |multiset(was.events)| <= |multiset(ch.events)| by {
      assert multiset(ch.events) == multiset(was.events) + (multiset(ch.events) - multiset(was.events));
    }
    forall e | e in ch.events ensures Place(e, runs) == i || DuringRun(e, runs, i) || Skewed(e, runs, i) {
      assert AtHome(settled[i], runs, i);
      if e !in was.events {
        assert AcrossEdge(settled, runs, i, e);
        assert i > 0 ==> AtHome(settled[i - 1], runs, i - 1);
        assert i + 1 < |settled| ==> AtHome(settled[i + 1], runs, i + 1);
      }
    }
  }

  /** The alignment behind a timeline: the spans as they were settled in turn from the sorted
      events, each change taking what the rule picks, and hands what each handed on to the next;
      the finished spans are those after repair, in which each change in turn took what the rule
      picks across its edges and rows what was taken by then. */
  ghost predicate Alignment(history: seq<HistoryEvent>, sorted: seq<VMEvent>, settled: seq<EventSpan>, hands: seq<seq<VMEvent>>,
      rows: seq<seq<set<Ref>>>, full: seq<EventSpan>)
  {
    && AllSettled(settled, history, RunsOf(history), sorted, hands)
    && AllRepaired(settled, full, RunsOf(history)) && RepairsInTurn(settled, full, RunsOf(history), rows)
  }

  lemma ChangesAfterRepair(history: seq<HistoryEvent>, settled: seq<EventSpan>, span: EventSpan, i: nat)
    requires |settled| == |RunsOf(history)| + 1 && i < |settled|
    requires forall j :: 0 <= j < |settled| ==> Settled(settled[j], RunsOf(history), j)
    requires Repaired(settled, RunsOf(history), i, span)
    ensures SameChanges(span.changes, settled[i].changes) && Sound(span.changes)
    ensures forall c :: 0 <= c < |span.changes| && span.changes[c].events == [] ==> settled[i].changes[c].events == []
    ensures forall c, e :: 0 <= c < |span.changes| && e in span.changes[c].events ==>
      Place(e, RunsOf(history)) == i || DuringRun(e, RunsOf(history), i) || Skewed(e, RunsOf(history), i)
  {
    var runs, was := RunsOf(history), settled[i];
    forall j | 0 <= j < |settled| ensures AtHome(settled[j], runs, j) {
      assert Settled(settled[j], runs, j);
    }
    forall c | 0 <= c < |span.changes|
      ensures span.changes[c].change == was.changes[c].change && SoundChange(span.changes[c])
      ensures span.changes[c].events == [] ==> was.changes[c].events == []
      ensures forall e :: e in span.changes[c].events ==>
        Place(e, runs) == i || DuringRun(e, runs, i) || Skewed(e, runs, i)
    {
      assert RepairedChange(settled, runs, i, was.changes[c], span.changes[c]);
      ChangeAfterRepair(settled, runs, i, was.changes[c], span.changes[c]);
    }
  }

  /** What the run before logged and a span leaves unexplained was handed on to it. */
  lemma WasHandedOn(next: EventSpan, sorted: seq<VMEvent>, runs: seq<Run>, i: nat, handed: seq<VMEvent>, carriedOut: seq<VMEvent>,
      e: VMEvent)
    requires HandedOn(next, sorted, runs, i, handed, carriedOut) && e in next.unexplained && DuringRun(e, runs, i - 1)
    ensures e in handed
  {
    LeftWasOffered(next, Offered(handed, sorted, runs, i), |handed| + |GapEvents(sorted, runs, i)|, carriedOut, e);
    OfferedHead(handed, sorted, runs, i, e);
  }

  /** What a run logged while it collected was offered to its own span: a change that span left
      without events matches none of what it handed on. */
  lemma OfferedFirst(span: EventSpan, sorted: seq<VMEvent>, runs: seq<Run>, i: nat, carriedIn: seq<VMEvent>, handed: seq<VMEvent>,
      c: nat, e: VMEvent)
    requires HandedOn(span, sorted, runs, i, carriedIn, handed)
    requires c < |span.changes| && span.changes[c].events == [] && e in handed
    ensures !Matches(span.changes[c].change, e)
  {
    StarvedMatchesNothingLeft(span, Offered(carriedIn, sorted, runs, i), |carriedIn| + |GapEvents(sorted, runs, i)|, handed, c, e);
  }

  /** An event logged during the run before is offered to a span only because it was handed on. */
  lemma OfferedHead(carriedIn: seq<VMEvent>, sorted: seq<VMEvent>, runs: seq<Run>, i: nat, e: VMEvent)
    requires DuringRun(e, runs, i - 1)
    requires e in Offered(carriedIn, sorted, runs, i)[..|carriedIn| + |GapEvents(sorted, runs, i)|]
    ensures e in carriedIn
  {
    var gap := GapEvents(sorted, runs, i);
    assert Offered(carriedIn, sorted, runs, i)[..|carriedIn| + |gap|] == carriedIn + gap;
    GapEventsAreBetween(sorted, runs, i);
  }

  lemma {:induction false} GapEventsAreBetween(sorted: seq<VMEvent>, runs: seq<Run>, i: int)
    ensures forall e :: e in GapEvents(sorted, runs, i) ==> BetweenRuns(e, runs, i)
  {
    if sorted != [] {
      GapEventsAreBetween(sorted[..|sorted| - 1], runs, i);
    }
  }

  lemma ExplainedAfterRepair(history: seq<HistoryEvent>, sorted: seq<VMEvent>, settled: seq<EventSpan>, hands: seq<seq<VMEvent>>,
      rows: seq<seq<set<Ref>>>, full: seq<EventSpan>, i: nat)
    requires Alignment(history, sorted, settled, hands, rows, full) && i < |full|
    ensures Explained(history, full, i)
  {
    var runs, was, span := RunsOf(history), settled[i], full[i];
    assert Repaired(settled, runs, i, span) && Settled(was, runs, i) && Frame(history, runs, was, i);
    ChangesAfterRepair(history, settled, span, i);
    FrameKept(history, runs, was, span, i);
    assert Exhausted(span) by {
      assert Exhausted(was);
    }
    if i + 1 < |full| {
      KeepsOwnSpanFirst(history, sorted, settled, hands, rows, full, i);
    }
  }

  lemma KeepsOwnSpanFirst(history: seq<HistoryEvent>, sorted: seq<VMEvent>, settled: seq<EventSpan>, hands: seq<seq<VMEvent>>,
      rows: seq<seq<set<Ref>>>, full: seq<EventSpan>, i: nat)
    requires Alignment(history, sorted, settled, hands, rows, full) && i + 1 < |full|
    ensures OwnSpanFirst(full[i], full[i + 1], RunsOf(history), i)
  {
    var runs, span := RunsOf(history), full[i];
    assert Repaired(settled, runs, i, span) && Repaired(settled, runs, i + 1, full[i + 1]);
    assert HandedOn(settled[i], sorted, runs, i, hands[i], hands[i + 1]);
    assert HandedOn(settled[i + 1], sorted, runs, i + 1, hands[i + 1], hands[i + 2]);
    ChangesAfterRepair(history, settled, span, i);
    forall c, e | 0 <= c < |span.changes| && span.changes[c].events == [] && e in full[i + 1].unexplained && DuringRun(e, runs, i)
      ensures !Matches(span.changes[c].change, e)
    {
      WasHandedOn(settled[i + 1], sorted, runs, i + 1, hands[i + 1], hands[i + 2], e);
      OfferedFirst(settled[i], sorted, runs, i, hands[i], hands[i + 1], c, e);
    }
  }

  lemma CountInMore<T>(front: seq<T>, last: seq<T>, x: T)
    requires |last| <= 1
    ensures multiset(front + last)[x] == multiset(front)[x] + if last != [] && last[0] == x then 1 else 0
  {
  }

  lemma {:induction false} ChangesOfCount(history: seq<HistoryEvent>, id: int, h: HistoryEvent)
    ensures multiset(ChangesOf(history, id))[h] == if h.run.id == id && h.kind != Observed then multiset(history)[h] else 0
  {
    if history != [] {
      var n := |history| - 1;
      ChangesOfCount(history[..n], id, h);
      assert history == history[..n] + [history[n]];
      CountInMore(history[..n], [history[n]], h);
      CountInMore(ChangesOf(history[..n], id), if history[n].kind != Observed && history[n].run.id == id then [history[n]] else [], h);
    }
  }

  /** A span holds what the run that closes it recorded, as often as the history does, and no mere
      observation; the last span holds nothing. */
  lemma SpanHoldsItsChanges(history: seq<HistoryEvent>, full: seq<EventSpan>, i: nat, h: HistoryEvent)
    requires |full| == |RunsOf(history)| + 1 && i < |full| && Explained(history, full, i)
    ensures multiset(Stored(full[i].changes))[h]
      == if i < |RunsOf(history)| && h.run.id == RunsOf(history)[i].id && h.kind != Observed then multiset(history)[h] else 0
  {
    if i < |RunsOf(history)| {
      ChangesOfCount(history, RunsOf(history)[i].id, h);
    }
  }

  method DropEmpty(spans: array<EventSpan>) returns (out: seq<EventSpan>)
    ensures out == NonEmpty(spans[..])
  {
    out := [];
    for i := 0 to spans.Length
      invariant out == NonEmpty(spans[..i])
    {
      assert spans[..i + 1][..i] == spans[..i];
      var span := spans[i];
      if |span.changes| > 0 || |span.unexplained| > 0 {
        out := out + [span];
      }
    }
    assert spans[..spans.Length] == spans[..];
  }

  /** Drawing the spans, placing the events and settling. */
  method Settle(history: seq<HistoryEvent>, events: seq<VMEvent>)
    returns (spans: array<EventSpan>, runs: seq<Run>, ghost hands: seq<seq<VMEvent>>)
    ensures fresh(spans) && runs == RunsOf(history)
    ensures AllSettled(spans[..], history, RunsOf(history), SortEvents(events), hands)
    ensures AllEvents(spans[..]) == multiset(events)
  {
    runs := TimelineRuns(history);
    RunsOfHistory(history);
    spans := DrawSpans(history, runs);
    var sorted := SortEvents(events);
    var between, during := PlaceEvents(sorted, runs);
    hands := SettleSpans(spans, runs, between, during, history, sorted);
  }

  lemma SettledIsSound(spans: seq<EventSpan>, history: seq<HistoryEvent>, runs: seq<Run>, sorted: seq<VMEvent>, hands: seq<seq<VMEvent>>)
    requires AllSettled(spans, history, runs, sorted, hands)
    ensures forall j :: 0 <= j < |spans| ==> Sound(spans[j].changes)
  {
    forall j | 0 <= j < |spans| ensures Sound(spans[j].changes) {
      assert Settled(spans[j], runs, j);
    }
  }

  /** Settling and repairing, with the spans they leave. */
  method Align(history: seq<HistoryEvent>, events: seq<VMEvent>)
    returns (spans: array<EventSpan>, ghost settled: seq<EventSpan>, ghost hands: seq<seq<VMEvent>>,
      ghost rows: seq<seq<set<Ref>>>)
    ensures Alignment(history, SortEvents(events), settled, hands, rows, spans[..])
    ensures AllEvents(spans[..]) == multiset(events)
  {
    var runs;
    spans, runs, hands := Settle(history, events);
    settled := spans[..];
    SettledIsSound(settled, history, runs, SortEvents(events), hands);
    rows := RepairBoundaries(spans, runs);
  }

  /** Lines a VM's stored timeline up with its vCenter events. full is the list of spans before
      the empty ones are left out. */
  method ExplainTimeline(history: seq<HistoryEvent>, events: seq<VMEvent>)
    returns (out: seq<EventSpan>, ghost full: seq<EventSpan>)
    ensures AllEvents(out) == multiset(events)
    ensures |full| == |RunsOf(history)| + 1 && out == NonEmpty(full)
    ensures forall i: nat :: i < |full| ==> Explained(history, full, i)
    ensures exists settled, hands, rows :: Alignment(history, SortEvents(events), settled, hands, rows, full)
  {
    ghost var settled, hands, rows;
    var spans;
    spans, settled, hands, rows := Align(history, events);
    full := spans[..];
    forall i: nat | i < |full| ensures Explained(history, full, i) {
      ExplainedAfterRepair(history, SortEvents(events), settled, hands, rows, full, i);
    }
    out := DropEmpty(spans);
    NonEmptyKeepsEvents(full);
  }
}
