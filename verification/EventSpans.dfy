/** Drawing the spans, placing the events in them, and settling each span in turn. */
module EventSpans {
  import opened Common
  import opened Events
  import opened EventPick
  import opened EventPlace
  import opened EventTally
  import opened Multisets
  import opened EventMatch
  import opened Sorting

  /** The stored changes one run recorded, in history order; "observed" entries mark runs. */
  function ChangesOf(history: seq<HistoryEvent>, id: int): seq<HistoryEvent> {
    if history == [] then []
    else
      var n := |history| - 1;
      var h := history[n];
      ChangesOf(history[..n], id) + if h.kind != Observed && h.run.id == id then [h] else []
  }

  function Stored(cs: seq<ExplainedChange>): (r: seq<HistoryEvent>)
    ensures |r| == |cs| && forall c :: 0 <= c < |cs| ==> r[c] == cs[c].change
  {
    seq(|cs|, c requires 0 <= c < |cs| => cs[c].change)
  }

  /** Span i lies between run i - 1 and run i and holds the changes run i recorded. */
  ghost predicate Frame(history: seq<HistoryEvent>, runs: seq<Run>, span: EventSpan, i: int) {
    && 0 <= i <= |runs|
    && span.from == (if i > 0 then Some(runs[i - 1]) else None)
    && span.to == (if i < |runs| then Some(runs[i]) else None)
    && Stored(span.changes) == (if i < |runs| then ChangesOf(history, runs[i].id) else [])
  }

  ghost predicate Blank(span: EventSpan) {
    span.unexplained == [] && forall c :: 0 <= c < |span.changes| ==> span.changes[c].events == []
  }

  method DrawFrames(runs: seq<Run>) returns (spans: array<EventSpan>)
    ensures fresh(spans) && spans.Length == |runs| + 1
    ensures forall i :: 0 <= i < spans.Length ==> Frame([], runs, spans[i], i) && Blank(spans[i])
  {
    spans := new EventSpan[|runs| + 1](_ => EventSpan(None, None, [], []));
    for i := 0 to spans.Length
      invariant forall j :: 0 <= j < i ==> Frame([], runs, spans[j], j) && Blank(spans[j])
    {
      var span := EventSpan(None, None, [], []);
      if i > 0 {
        span := span.(from := Some(runs[i - 1]));
      }
      if i < |runs| {
        span := span.(to := Some(runs[i]));
      }
      spans[i] := span;
    }
  }

  method IndexRuns(runs: seq<Run>) returns (runIndex: map<int, nat>)
    requires DistinctIDs(runs)
    ensures forall id, i: nat :: i < |runs| ==> (runs[i].id == id <==> id in runIndex && runIndex[id] == i)
    ensures forall id :: id in runIndex ==> runIndex[id] < |runs|
  {
    runIndex := map[];
    for i := 0 to |runs|
      invariant forall id, j: nat :: j < i ==> (runs[j].id == id <==> id in runIndex && runIndex[id] == j)
      invariant forall id :: id in runIndex ==> runIndex[id] < i && runs[runIndex[id]].id == id
    {
      runIndex := runIndex[runs[i].id := i];
    }
  }

  lemma ChangesOfNext(history: seq<HistoryEvent>, n: nat, id: int)
    requires n < |history|
    ensures ChangesOf(history[..n + 1], id)
         == ChangesOf(history[..n], id) + if history[n].kind != Observed && history[n].run.id == id then [history[n]] else []
  {
    assert history[..n + 1][..n] == history[..n];
  }

  lemma FrameStep(history: seq<HistoryEvent>, n: nat, runs: seq<Run>, was: EventSpan, span: EventSpan, i: int)
    requires n < |history| && Frame(history[..n], runs, was, i) && Blank(was)
    requires span == if i < |runs| && history[n].kind != Observed && history[n].run.id == runs[i].id
      then was.(changes := was.changes + [ExplainedChange(history[n], [])]) else was
    ensures Frame(history[..n + 1], runs, span, i) && Blank(span)
  {
    ChangesOfNext(history, n, if i < |runs| then runs[i].id else 0);
    if span != was {
      assert Stored(span.changes) == Stored(was.changes) + [history[n]];
    }
  }

  method DrawSpans(history: seq<HistoryEvent>, runs: seq<Run>) returns (spans: array<EventSpan>)
    requires DistinctIDs(runs)
    ensures fresh(spans) && spans.Length == |runs| + 1
    ensures forall i :: 0 <= i < spans.Length ==> Frame(history, runs, spans[i], i) && Blank(spans[i])
  {
    spans := DrawFrames(runs);
    var runIndex := IndexRuns(runs);
    for n := 0 to |history|
      invariant forall i :: 0 <= i < spans.Length ==> Frame(history[..n], runs, spans[i], i) && Blank(spans[i])
    {
      var h := history[n];
      ghost var was := spans[..];
      if h.kind != Observed && h.run.id in runIndex {
        var i := runIndex[h.run.id];
        spans[i] := spans[i].(changes := spans[i].changes + [ExplainedChange(h, [])]);
      }
      forall i | 0 <= i < spans.Length ensures Frame(history[..n + 1], runs, spans[i], i) && Blank(spans[i]) {
        FrameStep(history, n, runs, was[i], spans[i], i);
      }
    }
    assert history[..|history|] == history;
  }

  /** Every event seen is in the list of the gap, or of the run, the clock puts it in. */
  ghost predicate Placed(between: seq<seq<VMEvent>>, during: seq<seq<VMEvent>>, runs: seq<Run>, seen: seq<VMEvent>) {
    && |between| == |runs| + 1 && |during| == |runs|
    && (forall i, e :: 0 <= i < |between| && e in between[i] ==> BetweenRuns(e, runs, i))
    && (forall i, e :: 0 <= i < |during| && e in during[i] ==> DuringRun(e, runs, i))
    && InLists(between) + InLists(during) == multiset(seen)
  }

  /** The events of the gap before run i, in order. */
  function GapEvents(seen: seq<VMEvent>, runs: seq<Run>, i: int): seq<VMEvent> {
    if seen == [] then []
    else
      var n := |seen| - 1;
      GapEvents(seen[..n], runs, i) + if BetweenRuns(seen[n], runs, i) then [seen[n]] else []
  }

  /** The events logged while run i collected, in order. */
  function RunEvents(seen: seq<VMEvent>, runs: seq<Run>, i: int): seq<VMEvent> {
    if seen == [] then []
    else
      var n := |seen| - 1;
      RunEvents(seen[..n], runs, i) + if DuringRun(seen[n], runs, i) then [seen[n]] else []
  }

  /** Every list holds the events of its gap or run, in order. */
  ghost predicate Filed(between: seq<seq<VMEvent>>, during: seq<seq<VMEvent>>, runs: seq<Run>, seen: seq<VMEvent>) {
    && |between| == |runs| + 1 && |during| == |runs|
    && (forall i :: 0 <= i < |between| ==> between[i] == GapEvents(seen, runs, i))
    && (forall i :: 0 <= i < |during| ==> during[i] == RunEvents(seen, runs, i))
  }

  lemma EventsPush(seen: seq<VMEvent>, e: VMEvent, runs: seq<Run>, i: int)
    ensures GapEvents(seen + [e], runs, i) == GapEvents(seen, runs, i) + if BetweenRuns(e, runs, i) then [e] else []
    ensures RunEvents(seen + [e], runs, i) == RunEvents(seen, runs, i) + if DuringRun(e, runs, i) then [e] else []
  {
    assert (seen + [e])[..|seen|] == seen;
  }

  lemma FileBetween(between: seq<seq<VMEvent>>, during: seq<seq<VMEvent>>, runs: seq<Run>, seen: seq<VMEvent>,
      e: VMEvent, i: nat)
    requires Filed(between, during, runs, seen) && i < |between| && BetweenRuns(e, runs, i)
    ensures Filed(between[i := between[i] + [e]], during, runs, seen + [e])
  {
    forall j ensures GapEvents(seen + [e], runs, j) == GapEvents(seen, runs, j) + if j == i then [e] else [] {
      EventsPush(seen, e, runs, j);
    }
    forall j ensures RunEvents(seen + [e], runs, j) == RunEvents(seen, runs, j) {
      EventsPush(seen, e, runs, j);
    }
  }

  lemma FileDuring(between: seq<seq<VMEvent>>, during: seq<seq<VMEvent>>, runs: seq<Run>, seen: seq<VMEvent>,
      e: VMEvent, i: nat)
    requires Filed(between, during, runs, seen) && i < |during| && DuringRun(e, runs, i)
    ensures Filed(between, during[i := during[i] + [e]], runs, seen + [e])
  {
    forall j ensures GapEvents(seen + [e], runs, j) == GapEvents(seen, runs, j) {
      EventsPush(seen, e, runs, j);
    }
    forall j ensures RunEvents(seen + [e], runs, j) == RunEvents(seen, runs, j) + if j == i then [e] else [] {
      EventsPush(seen, e, runs, j);
    }
  }

  lemma NothingPlaced(between: seq<seq<VMEvent>>, during: seq<seq<VMEvent>>, runs: seq<Run>)
    requires |between| == |runs| + 1 && |during| == |runs|
    requires forall i :: 0 <= i < |between| ==> between[i] == []
    requires forall i :: 0 <= i < |during| ==> during[i] == []
    ensures AllPlaced(between, during, runs, [])
  {
    SumOfNothing(ListParts(between));
    SumOfNothing(ListParts(during));
  }

  lemma PlaceBetween(between: seq<seq<VMEvent>>, during: seq<seq<VMEvent>>, runs: seq<Run>, seen: seq<VMEvent>,
      e: VMEvent, i: nat)
    requires Placed(between, during, runs, seen) && i < |between| && BetweenRuns(e, runs, i)
    ensures Placed(between[i := between[i] + [e]], during, runs, seen + [e])
  {
    InListsPush(between, i, e);
  }

  lemma PlaceDuring(between: seq<seq<VMEvent>>, during: seq<seq<VMEvent>>, runs: seq<Run>, seen: seq<VMEvent>,
      e: VMEvent, i: nat)
    requires Placed(between, during, runs, seen) && i < |during| && DuringRun(e, runs, i)
    ensures Placed(between, during[i := during[i] + [e]], runs, seen + [e])
  {
    InListsPush(during, i, e);
  }

  ghost predicate AllPlaced(between: seq<seq<VMEvent>>, during: seq<seq<VMEvent>>, runs: seq<Run>, seen: seq<VMEvent>) {
    Placed(between, during, runs, seen) && Filed(between, during, runs, seen)
  }

  lemma PlaceOneBetween(between: seq<seq<VMEvent>>, during: seq<seq<VMEvent>>, runs: seq<Run>, seen: seq<VMEvent>,
      e: VMEvent, i: nat)
    requires AllPlaced(between, during, runs, seen) && i < |between| && BetweenRuns(e, runs, i)
    ensures AllPlaced(between[i := between[i] + [e]], during, runs, seen + [e])
  {
    PlaceBetween(between, during, runs, seen, e, i);
    FileBetween(between, during, runs, seen, e, i);
  }

  lemma PlaceOneDuring(between: seq<seq<VMEvent>>, during: seq<seq<VMEvent>>, runs: seq<Run>, seen: seq<VMEvent>,
      e: VMEvent, i: nat)
    requires AllPlaced(between, during, runs, seen) && i < |during| && DuringRun(e, runs, i)
    ensures AllPlaced(between, during[i := during[i] + [e]], runs, seen + [e])
  {
    PlaceDuring(between, during, runs, seen, e, i);
    FileDuring(between, during, runs, seen, e, i);
  }

  method PlaceEvent(e: VMEvent, runs: seq<Run>, between: array<seq<VMEvent>>, during: array<seq<VMEvent>>,
      ghost seen: seq<VMEvent>)
    requires between != during && AllPlaced(between[..], during[..], runs, seen)
    modifies between, during
    ensures AllPlaced(between[..], during[..], runs, seen + [e])
  {
    ghost var b, d := between[..], during[..];
    var i := Place(e, runs);
    if i > 0 && OnRunClock(e, runs[i - 1]).0 <= RunEnd(runs[i - 1]) {
      PlaceOneDuring(b, d, runs, seen, e, i - 1);
      during[i - 1] := during[i - 1] + [e];
      assert during[..] == d[i - 1 := d[i - 1] + [e]] && between[..] == b;
    } else {
      PlaceOneBetween(b, d, runs, seen, e, i);
      between[i] := between[i] + [e];
      assert between[..] == b[i := b[i] + [e]] && during[..] == d;
    }
  }

  /** Sorted events split by where the clock puts them. */
  method PlaceEvents(sorted: seq<VMEvent>, runs: seq<Run>)
    returns (between: array<seq<VMEvent>>, during: array<seq<VMEvent>>)
    ensures fresh(between) && fresh(during) && between != during
    ensures AllPlaced(between[..], during[..], runs, sorted)
  {
    between := new seq<VMEvent>[|runs| + 1](_ => []);
    during := new seq<VMEvent>[|runs|](_ => []);
    NothingPlaced(between[..], during[..], runs);
    ghost var seen: seq<VMEvent> := [];
    for n := 0 to |sorted|
      invariant seen == sorted[..n]
      invariant AllPlaced(between[..], during[..], runs, seen)
    {
      PlaceEvent(sorted[n], runs, between, during, seen);
      SeqPush(sorted, n);
      seen := seen + [sorted[n]];
    }
    SeqWhole(sorted);
  }

  /** Where an event may end up before repair: unexplained in the span it was placed in, attached
      there or, when a run logged it while collecting, in that run's own span. */
  ghost predicate AtHome(span: EventSpan, runs: seq<Run>, i: int) {
    && (forall e :: e in span.unexplained ==> Place(e, runs) == i)
    && forall c, e :: 0 <= c < |span.changes| && e in span.changes[c].events ==>
         Place(e, runs) == i || DuringRun(e, runs, i)
  }

  ghost predicate Settled(span: EventSpan, runs: seq<Run>, i: int) {
    Sound(span.changes) && Exhausted(span) && AtHome(span, runs, i)
  }

  /** The events offered from position lo up to hi and not used, in order. */
  function LeftOver(offered: seq<VMEvent>, used: seq<bool>, lo: nat, hi: nat): seq<VMEvent>
    requires hi <= |offered| == |used|
  {
    if hi <= lo then [] else LeftOver(offered, used, lo, hi - 1) + if used[hi - 1] then [] else [offered[hi - 1]]
  }

  /** A span settled from what it was offered: its changes take their events one after the other,
      each the ones the rule picks; of the first gap events the unused stay unexplained, and of the
      others they are carried on. */
  ghost predicate Handled(span: EventSpan, offered: seq<VMEvent>, gap: nat, carried: seq<VMEvent>) {
    exists trail :: HandledBy(span, offered, gap, carried, trail)
  }

  ghost predicate HandledBy(span: EventSpan, offered: seq<VMEvent>, gap: nat, carried: seq<VMEvent>, trail: seq<seq<bool>>) {
    && Assigned(span.changes, offered, gap, trail)
    && gap <= |offered| == |trail[|span.changes|]|
    && span.unexplained == LeftOver(offered, trail[|span.changes|], 0, gap)
    && carried == LeftOver(offered, trail[|span.changes|], gap, |offered|)
  }

  lemma {:induction false} LeftOverMembers(offered: seq<VMEvent>, used: seq<bool>, lo: nat, hi: nat)
    requires hi <= |offered| == |used|
    ensures forall e :: e in LeftOver(offered, used, lo, hi) ==> exists k :: lo <= k < hi && !used[k] && offered[k] == e
  {
    if lo < hi {
      LeftOverMembers(offered, used, lo, hi - 1);
    }
  }

  lemma UnusedNext(offered: seq<VMEvent>, used: seq<bool>, k: nat)
    requires k < |offered| == |used|
    ensures Unused(offered[..k + 1], used[..k + 1])
         == Unused(offered[..k], used[..k]) + if used[k] then multiset{} else multiset{offered[k]}
  {
    assert offered[..k + 1][..k] == offered[..k] && used[..k + 1][..k] == used[..k];
  }

  lemma {:induction false} LeftOverCount(offered: seq<VMEvent>, used: seq<bool>, k: nat)
    requires k <= |offered| == |used|
    ensures multiset(LeftOver(offered, used, 0, k)) == Unused(offered[..k], used[..k])
  {
    if k > 0 {
      LeftOverCount(offered, used, k - 1);
      UnusedNext(offered, used, k - 1);
    }
  }

  lemma {:induction false} LeftOverSplits(offered: seq<VMEvent>, used: seq<bool>, gap: nat, k: nat)
    requires gap <= k <= |offered| == |used|
    ensures LeftOver(offered, used, 0, k) == LeftOver(offered, used, 0, gap) + LeftOver(offered, used, gap, k)
    decreases k
  {
    if gap < k {
      LeftOverSplits(offered, used, gap, k - 1);
    }
  }

  /** Splits what a span did not use into what is carried on and what stays unexplained. */
  method Leave(offered: seq<VMEvent>, used: array<bool>, settled: nat)
    returns (carried: seq<VMEvent>, unexplained: seq<VMEvent>)
    requires used.Length == |offered| && settled <= |offered|
    ensures carried == LeftOver(offered, used[..], settled, |offered|)
    ensures unexplained == LeftOver(offered, used[..], 0, settled)
  {
    carried, unexplained := [], [];
    for k := 0 to |offered|
      invariant carried == LeftOver(offered, used[..], settled, k)
      invariant unexplained == LeftOver(offered, used[..], 0, if k < settled then k else settled)
    {
      if used[k] {
      } else if k >= settled {
        carried := carried + [offered[k]];
      } else {
        unexplained := unexplained + [offered[k]];
      }
    }
  }

  lemma LeavesNothingOut(offered: seq<VMEvent>, used: seq<bool>, gap: nat)
    requires gap <= |offered| == |used|
    ensures multiset(LeftOver(offered, used, gap, |offered|)) + multiset(LeftOver(offered, used, 0, gap)) == Unused(offered, used)
  {
    LeftOverSplits(offered, used, gap, |offered|);
    LeftOverCount(offered, used, |offered|);
    SeqWhole(offered);
    SeqWhole(used);
  }

  lemma AttachedWasOffered(cs: seq<ExplainedChange>, offered: seq<VMEvent>, used: seq<bool>, c: nat, e: VMEvent)
    requires |used| == |offered| && Attached(cs) + Unused(offered, used) == multiset(offered)
    requires c < |cs| && e in cs[c].events
    ensures e in offered
  {
    assert e in AttachedParts(cs)[c];
    InSum(AttachedParts(cs), c, e);
    assert e in multiset(offered);
  }

  /** A change left without events matches nothing its span was offered and did not use. */
  lemma StarvedMatchesNothingLeft(span: EventSpan, offered: seq<VMEvent>, gap: nat, carried: seq<VMEvent>, c: nat, e: VMEvent)
    requires Handled(span, offered, gap, carried) && c < |span.changes| && span.changes[c].events == []
    requires e in span.unexplained || e in carried
    ensures !Matches(span.changes[c].change, e)
  {
    var trail :| HandledBy(span, offered, gap, carried, trail);
    var used := trail[|span.changes|];
    LeftOverMembers(offered, used, 0, gap);
    LeftOverMembers(offered, used, gap, |offered|);
    var k: nat :| k < |offered| && !used[k] && offered[k] == e;
    TakesNothingMatchesNothing(span.changes, offered, gap, trail, c, k);
  }

  /** What a span leaves unexplained or carries on is what it was offered and did not use. */
  lemma LeftWasOffered(span: EventSpan, offered: seq<VMEvent>, gap: nat, carried: seq<VMEvent>, e: VMEvent)
    requires Handled(span, offered, gap, carried)
    ensures e in span.unexplained ==> gap <= |offered| && e in offered[..gap]
    ensures e in carried ==> gap <= |offered| && e in offered[gap..]
  {
    var trail :| HandledBy(span, offered, gap, carried, trail);
    var used := trail[|span.changes|];
    LeftOverMembers(offered, used, 0, gap);
    LeftOverMembers(offered, used, gap, |offered|);
    if e in span.unexplained {
      var k :| 0 <= k < gap && offered[k] == e;
      assert offered[..gap][k] == e;
    }
    if e in carried {
      var k :| gap <= k < |offered| && offered[k] == e;
      assert offered[gap..][k - gap] == e;
    }
  }

  /** Explains one span from the events offered to it: the first settled of them belong to it,
      the others were logged while its closing run collected and are carried on if not needed. */
  method SettleSpan(blank: EventSpan, offered: seq<VMEvent>, settled: nat, runs: seq<Run>, ghost i: int)
    returns (span: EventSpan, carried: seq<VMEvent>)
    requires Blank(blank) && settled <= |offered|
    requires forall k :: 0 <= k < settled ==> Place(offered[k], runs) == i
    requires forall k :: settled <= k < |offered| ==> DuringRun(offered[k], runs, i)
    ensures Settled(span, runs, i)
    ensures span.from == blank.from && span.to == blank.to && SameChanges(span.changes, blank.changes)
    ensures forall e :: e in carried ==> DuringRun(e, runs, i)
    ensures settled == |offered| ==> carried == []
    ensures SpanEvents(span) + multiset(carried) == multiset(offered)
    ensures Handled(span, offered, settled, carried)
  {
    var explained, used, trail := ExplainSpan(blank, offered, settled);
    var unexplained: seq<VMEvent>;
    carried, unexplained := Leave(offered, used, settled);
    span := explained.(unexplained := unexplained);
    assert HandledBy(span, offered, settled, carried, trail);
    LeavesNothingOut(offered, used[..], settled);
    SpanIsSettled(span, offered, settled, carried, used[..], runs, i);
    forall e | e in carried ensures DuringRun(e, runs, i) && settled < |offered| {
      LeftWasOffered(span, offered, settled, carried, e);
    }
    assert carried != [] ==> carried[0] in carried;
  }

  lemma SpanIsSettled(span: EventSpan, offered: seq<VMEvent>, gap: nat, carried: seq<VMEvent>, used: seq<bool>, runs: seq<Run>, i: int)
    requires Handled(span, offered, gap, carried) && Sound(span.changes)
    requires gap <= |offered| == |used| && Attached(span.changes) + Unused(offered, used) == multiset(offered)
    requires forall k :: 0 <= k < gap ==> Place(offered[k], runs) == i
    requires forall k :: gap <= k < |offered| ==> DuringRun(offered[k], runs, i)
    ensures Settled(span, runs, i)
  {
    forall c, e | 0 <= c < |span.changes| && span.changes[c].events == [] && e in span.unexplained
      ensures !Matches(span.changes[c].change, e)
    {
      StarvedMatchesNothingLeft(span, offered, gap, carried, c, e);
    }
    forall e | e in span.unexplained ensures Place(e, runs) == i {
      LeftWasOffered(span, offered, gap, carried, e);
    }
    forall c, e | 0 <= c < |span.changes| && e in span.changes[c].events
      ensures Place(e, runs) == i || DuringRun(e, runs, i)
    {
      AttachedWasOffered(span.changes, offered, used, c, e);
    }
  }

  lemma FrameKept(history: seq<HistoryEvent>, runs: seq<Run>, was: EventSpan, span: EventSpan, i: int)
    requires Frame(history, runs, was, i)
    requires span.from == was.from && span.to == was.to && SameChanges(span.changes, was.changes)
    ensures Frame(history, runs, span, i)
  {
    assert Stored(span.changes) == Stored(was.changes);
  }

  lemma SeqWhole<T>(s: seq<T>)
    ensures s[..|s|] == s
  {
  }

  lemma SeqPush<T>(s: seq<T>, i: nat)
    requires i < |s|
    ensures s[..i + 1] == s[..i] + [s[i]]
  {
  }

  /** What the spans up to i took in and hand on, counted. */
  ghost predicate Balanced(spans: seq<EventSpan>, between: seq<seq<VMEvent>>, during: seq<seq<VMEvent>>, i: nat,
      carried: seq<VMEvent>)
  {
    && i <= |spans| == |between| == |during| + 1
    && AllEvents(spans[..i]) + multiset(carried)
       == InLists(between[..i]) + InLists(during[..if i < |between| then i else |during|])
  }

  lemma InListsSnoc(lists: seq<seq<VMEvent>>, x: seq<VMEvent>)
    ensures InLists(lists + [x]) == InLists(lists) + multiset(x)
  {
    SumPush(ListParts(lists), multiset(x));
    assert ListParts(lists + [x]) == ListParts(lists) + [multiset(x)];
  }

  lemma AllEventsNext(was: seq<EventSpan>, i: nat, span: EventSpan)
    requires i < |was|
    ensures AllEvents(was[i := span][..i + 1]) == AllEvents(was[..i]) + SpanEvents(span)
  {
    assert was[i := span][..i + 1] == was[..i] + [span];
    AllEventsPush(was[..i], span);
  }

  lemma InListsNext(lists: seq<seq<VMEvent>>, i: nat)
    requires i < |lists|
    ensures InLists(lists[..i + 1]) == InLists(lists[..i]) + multiset(lists[i])
  {
    SeqPush(lists, i);
    InListsSnoc(lists[..i], lists[i]);
  }

  lemma BalanceStep(was: seq<EventSpan>, between: seq<seq<VMEvent>>, during: seq<seq<VMEvent>>,
      i: nat, carriedIn: seq<VMEvent>, span: EventSpan, carriedOut: seq<VMEvent>)
    requires Balanced(was, between, during, i, carriedIn) && i < |was|
    requires var d := if i < |during| then during[i] else [];
      SpanEvents(span) + multiset(carriedOut) == multiset(carriedIn + between[i] + d)
    ensures Balanced(was[i := span], between, during, i + 1, carriedOut)
  {
    var d := if i < |during| then during[i] else [];
    AllEventsNext(was, i, span);
    InListsNext(between, i);
    if i < |during| {
      InListsNext(during, i);
    } else {
      assert InLists(during) == InLists(during) + multiset(d);
    }
    assert multiset(carriedIn + between[i] + d) == (multiset(carriedIn) + multiset(between[i])) + multiset(d);
    Rebalance(AllEvents(was[..i]), SpanEvents(span), multiset(carriedIn), multiset(carriedOut),
              InLists(between[..i]), InLists(during[..if i < |between| then i else |during|]), multiset(between[i]), multiset(d));
  }

  /** What span i is offered: what was carried on, then its gap's events, then those logged while
      its closing run collected. */
  function Offered(carriedIn: seq<VMEvent>, sorted: seq<VMEvent>, runs: seq<Run>, i: nat): seq<VMEvent> {
    carriedIn + GapEvents(sorted, runs, i) + if i < |runs| then RunEvents(sorted, runs, i) else []
  }

  ghost predicate HandedOn(span: EventSpan, sorted: seq<VMEvent>, runs: seq<Run>, i: nat, carriedIn: seq<VMEvent>, carriedOut: seq<VMEvent>) {
    Handled(span, Offered(carriedIn, sorted, runs, i), |carriedIn| + |GapEvents(sorted, runs, i)|, carriedOut)
  }

  /** The first spans, each settled from what the one before it handed on; hands[i] is what comes
      in at span i. */
  ghost predicate Relay(spans: seq<EventSpan>, sorted: seq<VMEvent>, runs: seq<Run>, hands: seq<seq<VMEvent>>) {
    && 0 < |hands| <= |spans| + 1 && hands[0] == []
    && forall i :: 0 <= i < |hands| - 1 ==> HandedOn(spans[i], sorted, runs, i, hands[i], hands[i + 1])
  }

  lemma RelayStep(was: seq<EventSpan>, span: EventSpan, sorted: seq<VMEvent>, runs: seq<Run>, hands: seq<seq<VMEvent>>,
      carriedIn: seq<VMEvent>, carriedOut: seq<VMEvent>, i: nat)
    requires Relay(was, sorted, runs, hands) && |hands| == i + 1 <= |was| && hands[i] == carriedIn
    requires HandedOn(span, sorted, runs, i, carriedIn, carriedOut)
    ensures Relay(was[i := span], sorted, runs, hands + [carriedOut])
  {
    var spans := was[i := span];
    var more := hands + [carriedOut];
    forall k | 0 <= k < |more| - 1 ensures HandedOn(spans[k], sorted, runs, k, more[k], more[k + 1]) {
      if k < |hands| - 1 {
        assert HandedOn(was[k], sorted, runs, k, hands[k], hands[k + 1]);
      }
    }
  }

  /** The spans up to i are settled and the rest untouched. */
  ghost predicate Shape(spans: seq<EventSpan>, history: seq<HistoryEvent>, runs: seq<Run>, i: nat, carried: seq<VMEvent>)
  {
    && i <= |spans| == |runs| + 1
    && (forall j :: 0 <= j < |spans| ==> Frame(history, runs, spans[j], j))
    && (forall j :: 0 <= j < i ==> Settled(spans[j], runs, j))
    && (forall j :: i <= j < |spans| ==> Blank(spans[j]))
    && (forall e :: e in carried ==> DuringRun(e, runs, i - 1))
    && (i == |spans| ==> carried == [])
  }

  lemma ShapeStep(was: seq<EventSpan>, history: seq<HistoryEvent>, runs: seq<Run>, i: nat, carriedIn: seq<VMEvent>,
      span: EventSpan, carriedOut: seq<VMEvent>)
    requires Shape(was, history, runs, i, carriedIn) && i < |was|
    requires Settled(span, runs, i) && SameChanges(span.changes, was[i].changes)
    requires span.from == was[i].from && span.to == was[i].to
    requires forall e :: e in carriedOut ==> DuringRun(e, runs, i)
    requires i == |runs| ==> carriedOut == []
    ensures Shape(was[i := span], history, runs, i + 1, carriedOut)
  {
    FrameKept(history, runs, was[i], span, i);
  }

  /** The state of the main loop: hands records what each span so far handed on. */
  ghost predicate Going(spans: seq<EventSpan>, history: seq<HistoryEvent>, runs: seq<Run>, between: seq<seq<VMEvent>>,
      during: seq<seq<VMEvent>>, sorted: seq<VMEvent>, i: nat, carried: seq<VMEvent>, hands: seq<seq<VMEvent>>)
  {
    && AllPlaced(between, during, runs, sorted)
    && Shape(spans, history, runs, i, carried) && Balanced(spans, between, during, i, carried)
    && Relay(spans, sorted, runs, hands) && |hands| == i + 1 && hands[i] == carried
  }

  lemma HandedFrom(span: EventSpan, offered: seq<VMEvent>, gap: nat, sorted: seq<VMEvent>, runs: seq<Run>, i: nat,
      carriedIn: seq<VMEvent>, carriedOut: seq<VMEvent>)
    requires Handled(span, offered, gap, carriedOut)
    requires offered == Offered(carriedIn, sorted, runs, i) && gap == |carriedIn| + |GapEvents(sorted, runs, i)|
    ensures HandedOn(span, sorted, runs, i, carriedIn, carriedOut)
  {
  }

  /** What settling span i gives. */
  ghost predicate SettledNext(blank: EventSpan, span: EventSpan, sorted: seq<VMEvent>, runs: seq<Run>, i: nat,
      carriedIn: seq<VMEvent>, carriedOut: seq<VMEvent>)
  {
    && Settled(span, runs, i) && SameChanges(span.changes, blank.changes)
    && span.from == blank.from && span.to == blank.to
    && (forall e :: e in carriedOut ==> DuringRun(e, runs, i))
    && (i >= |runs| ==> carriedOut == [])
    && SpanEvents(span) + multiset(carriedOut) == multiset(Offered(carriedIn, sorted, runs, i))
    && HandedOn(span, sorted, runs, i, carriedIn, carriedOut)
  }

  lemma GoingNext(was: seq<EventSpan>, history: seq<HistoryEvent>, runs: seq<Run>, between: seq<seq<VMEvent>>,
      during: seq<seq<VMEvent>>, sorted: seq<VMEvent>, i: nat, carriedIn: seq<VMEvent>, hands: seq<seq<VMEvent>>,
      span: EventSpan, carriedOut: seq<VMEvent>)
    requires Going(was, history, runs, between, during, sorted, i, carriedIn, hands) && i < |was|
    requires SettledNext(was[i], span, sorted, runs, i, carriedIn, carriedOut)
    ensures Going(was[i := span], history, runs, between, during, sorted, i + 1, carriedOut, hands + [carriedOut])
  {
    ListsOfSpan(between, during, runs, sorted, i, carriedIn);
    ShapeStep(was, history, runs, i, carriedIn, span, carriedOut);
    BalanceStep(was, between, during, i, carriedIn, span, carriedOut);
    RelayStep(was, span, sorted, runs, hands, carriedIn, carriedOut, i);
  }

  /** between and during are the lists of span i. */
  method SettleOne(blank: EventSpan, carriedIn: seq<VMEvent>, between: seq<VMEvent>, during: seq<VMEvent>, i: nat, runs: seq<Run>,
      ghost sorted: seq<VMEvent>)
    returns (span: EventSpan, carried: seq<VMEvent>)
    requires Blank(blank) && between == GapEvents(sorted, runs, i) && during == (if i < |runs| then RunEvents(sorted, runs, i) else [])
    requires forall e :: e in carriedIn || e in between ==> Place(e, runs) == i
    requires forall e :: e in during ==> DuringRun(e, runs, i)
    ensures SettledNext(blank, span, sorted, runs, i, carriedIn, carried)
  {
    var settled := carriedIn + between;
    var offered := settled + during;
    forall k | 0 <= k < |settled| ensures Place(offered[k], runs) == i {
      assert offered[k] in carriedIn || offered[k] in between;
    }
    span, carried := SettleSpan(blank, offered, |settled|, runs, i);
    HandedFrom(span, offered, |settled|, sorted, runs, i, carriedIn, carried);
  }

  /** The lists of span i hold what the clock puts there. */
  lemma ListsOfSpan(between: seq<seq<VMEvent>>, during: seq<seq<VMEvent>>, runs: seq<Run>, sorted: seq<VMEvent>, i: nat,
      carriedIn: seq<VMEvent>)
    requires AllPlaced(between, during, runs, sorted) && i < |between|
    requires forall e :: e in carriedIn ==> DuringRun(e, runs, i - 1)
    ensures between[i] == GapEvents(sorted, runs, i) && (i < |runs| ==> during[i] == RunEvents(sorted, runs, i))
    ensures forall e :: e in carriedIn || e in between[i] ==> Place(e, runs) == i
    ensures i < |runs| ==> forall e :: e in during[i] ==> DuringRun(e, runs, i)
  {
  }

  method SettleNext(spans: array<EventSpan>, i: nat, runs: seq<Run>, between: seq<VMEvent>, during: seq<VMEvent>,
      carriedIn: seq<VMEvent>, ghost history: seq<HistoryEvent>, ghost sorted: seq<VMEvent>,
      ghost b: seq<seq<VMEvent>>, ghost d: seq<seq<VMEvent>>, ghost hands: seq<seq<VMEvent>>)
    returns (carried: seq<VMEvent>)
    requires Going(spans[..], history, runs, b, d, sorted, i, carriedIn, hands) && i < spans.Length
    requires i < |b| && between == b[i] && during == if i < |d| then d[i] else []
    modifies spans
    ensures Going(spans[..], history, runs, b, d, sorted, i + 1, carried, hands + [carried])
  {
    ghost var was := spans[..];
    ListsOfSpan(b, d, runs, sorted, i, carriedIn);
    var span;
    span, carried := SettleOne(spans[i], carriedIn, between, during, i, runs, sorted);
    GoingNext(was, history, runs, b, d, sorted, i, carriedIn, hands, span, carried);
    spans[i] := span;
    assert spans[..] == was[i := span];
  }

  /** Every span is settled, in turn, and the last hands nothing on. */
  ghost predicate AllSettled(spans: seq<EventSpan>, history: seq<HistoryEvent>, runs: seq<Run>, sorted: seq<VMEvent>,
      hands: seq<seq<VMEvent>>)
  {
    && |spans| == |runs| + 1 && |hands| == |runs| + 2 && hands[|runs| + 1] == []
    && (forall i :: 0 <= i < |spans| ==> Frame(history, runs, spans[i], i) && Settled(spans[i], runs, i))
    && Relay(spans, sorted, runs, hands)
  }

  /** The main loop: each span in turn, oldest first, handing on what it leaves. */
  method SettleSpans(spans: array<EventSpan>, runs: seq<Run>, between: array<seq<VMEvent>>, during: array<seq<VMEvent>>,
      ghost history: seq<HistoryEvent>, ghost sorted: seq<VMEvent>)
    returns (ghost hands: seq<seq<VMEvent>>)
    requires spans.Length == |runs| + 1
    requires spans != between as object && spans != during as object
    requires forall i :: 0 <= i < spans.Length ==> Frame(history, runs, spans[i], i) && Blank(spans[i])
    requires AllPlaced(between[..], during[..], runs, sorted)
    modifies spans
    ensures AllSettled(spans[..], history, runs, sorted, hands)
    ensures AllEvents(spans[..]) == multiset(sorted)
  {
    var carried: seq<VMEvent> := [];
    hands := [[]];
    ghost var b, d := between[..], during[..];
    for i := 0 to spans.Length
      invariant between[..] == b && during[..] == d
      invariant Going(spans[..], history, runs, b, d, sorted, i, carried, hands)
    {
      carried := SettleNext(spans, i, runs, between[i], if i < |runs| then during[i] else [], carried, history, sorted, b, d, hands);
      hands := hands + [carried];
    }
    StageEnds(spans[..], history, runs, b, d, sorted, carried, hands);
  }

  lemma StageEnds(spans: seq<EventSpan>, history: seq<HistoryEvent>, runs: seq<Run>, between: seq<seq<VMEvent>>,
      during: seq<seq<VMEvent>>, sorted: seq<VMEvent>, carried: seq<VMEvent>, hands: seq<seq<VMEvent>>)
    requires Going(spans, history, runs, between, during, sorted, |spans|, carried, hands)
    ensures AllSettled(spans, history, runs, sorted, hands) && AllEvents(spans) == multiset(sorted)
  {
    SeqWhole(spans);
    SeqWhole(between);
    SeqWhole(during);
  }
}
