/** Lining a VM's stored timeline up with its vCenter events: placing the events between the
    runs, offering them to the changes of each span, and carrying the ones a run logged while
    it was collecting into the next span. */
module EventMatch {
  import opened Common
  import opened Events
  import opened EventPick
  import opened EventPlace
  import opened EventTally
  import opened Multisets
  import opened Sorting

  /** No unexplained event of the span matches a change left without events. */
  ghost predicate Exhausted(span: EventSpan) {
    forall c, e :: 0 <= c < |span.changes| && span.changes[c].events == [] && e in span.unexplained ==>
      !Matches(span.changes[c].change, e)
  }

  /** Attached events match their change and are oldest first. */
  ghost predicate Sound(cs: seq<ExplainedChange>) {
    forall c :: 0 <= c < |cs| ==> SoundChange(cs[c])
  }

  ghost predicate SoundChange(ch: ExplainedChange) {
    Sorted(EventLe, ch.events) && forall e :: e in ch.events ==> Matches(ch.change, e)
  }

  /** The same stored changes, whatever events they carry. */
  ghost predicate SameChanges(a: seq<ExplainedChange>, b: seq<ExplainedChange>) {
    |a| == |b| && forall c :: 0 <= c < |a| ==> a[c].change == b[c].change
  }

  // ----- One span

  /** The change takes, of the events still free, exactly the ones the rule picks. */
  ghost predicate Takes(ch: ExplainedChange, events: seq<VMEvent>, gap: nat, before: seq<bool>, after: seq<bool>) {
    && |before| == |after| == |events|
    && (forall k: nat :: k < |events| ==> (after[k] <==> before[k] || Picked(ch.change, events, before, gap, k)))
    && Unused(events, before) == Unused(events, after) + multiset(ch.events)
  }

  /** The changes take their events one after the other; trail records the flags in between. */
  ghost predicate Assigned(cs: seq<ExplainedChange>, events: seq<VMEvent>, gap: nat, trail: seq<seq<bool>>) {
    && |trail| == |cs| + 1
    && |trail[0]| == |events| && (forall k :: 0 <= k < |events| ==> !trail[0][k])
    && forall c :: 0 <= c < |cs| ==> Takes(cs[c], events, gap, trail[c], trail[c + 1])
  }

  /** The inner loop: mark what explains one change as used and attach it. */
  method ExplainChange(change: HistoryEvent, events: seq<VMEvent>, used: array<bool>, gap: nat)
    returns (ch: ExplainedChange)
    requires used.Length == |events|
    modifies used
    ensures ch.change == change && SoundChange(ch)
    ensures Takes(ch, events, gap, old(used[..]), used[..])
  {
    var picks := Explainers(change, events, used, gap);
    var taken := MarkUsed(change, events, used, gap, picks);
    assert picks[..|picks|] == picks;
    var attached := SortEvents(taken);
    SortEventsSorts(taken);
    SameMembers(attached, taken);
    ch := ExplainedChange(change, attached);
  }

  /** The first n picks are marked and taken. */
  ghost predicate Marked(change: HistoryEvent, events: seq<VMEvent>, before: seq<bool>, picks: seq<nat>, n: nat,
      flags: seq<bool>, taken: seq<VMEvent>)
  {
    && n <= |picks| && |before| == |flags| == |events|
    && (forall k: nat :: k < |events| ==> (flags[k] <==> before[k] || k in picks[..n]))
    && Unused(events, before) == Unused(events, flags) + multiset(taken)
    && (forall e :: e in taken ==> Matches(change, e))
  }

  lemma MarkedNext(change: HistoryEvent, events: seq<VMEvent>, before: seq<bool>, picks: seq<nat>, n: nat,
      flags: seq<bool>, taken: seq<VMEvent>)
    requires Marked(change, events, before, picks, n, flags, taken) && NoRepeats(picks) && n < |picks|
    requires picks[n] < |events| && !before[picks[n]] && Matches(change, events[picks[n]])
    ensures Marked(change, events, before, picks, n + 1, flags[picks[n] := true], taken + [events[picks[n]]])
  {
    var i := picks[n];
    assert i !in picks[..n];
    UnusedMark(events, flags, i);
    FlagsNext(before, picks, n, flags);
    Swap(Unused(events, flags[i := true]), multiset{events[i]}, multiset(taken));
    assert multiset(taken + [events[i]]) == multiset(taken) + multiset{events[i]};
  }

  lemma FlagsNext(before: seq<bool>, picks: seq<nat>, n: nat, flags: seq<bool>)
    requires n < |picks| && |before| == |flags| && picks[n] < |flags|
    requires forall k: nat :: k < |flags| ==> (flags[k] <==> before[k] || k in picks[..n])
    ensures forall k: nat :: k < |flags| ==> (flags[picks[n] := true][k] <==> before[k] || k in picks[..n + 1])
  {
    assert picks[..n + 1] == picks[..n] + [picks[n]];
  }

  method MarkUsed(change: HistoryEvent, events: seq<VMEvent>, used: array<bool>, gap: nat, picks: seq<nat>)
    returns (taken: seq<VMEvent>)
    requires used.Length == |events| && NoRepeats(picks)
    requires forall i: nat :: i in picks <==> Picked(change, events, used[..], gap, i)
    modifies used
    ensures Marked(change, events, old(used[..]), picks, |picks|, used[..], taken)
  {
    ghost var u := used[..];
    forall n | 0 <= n < |picks|
      ensures picks[n] < |events| && !u[picks[n]] && Matches(change, events[picks[n]])
    {
      assert picks[n] in picks;
      PickedMatches(change, events, u, gap, picks[n]);
    }
    taken := [];
    for n := 0 to |picks|
      invariant Marked(change, events, u, picks, n, used[..], taken)
    {
      ghost var flags := used[..];
      MarkedNext(change, events, u, picks, n, flags, taken);
      used[picks[n]] := true;
      assert used[..] == flags[picks[n] := true];
      taken := taken + [events[picks[n]]];
    }
  }

  /** What holds once the first changes of a span have taken their events. */
  ghost predicate Progress(cs: seq<ExplainedChange>, done: seq<ExplainedChange>, events: seq<VMEvent>, gap: nat,
      trail: seq<seq<bool>>, flags: seq<bool>)
  {
    && SameChanges(done, cs) && Sound(done)
    && Assigned(done, events, gap, trail) && trail[|done|] == flags
    && |flags| == |events| && Attached(done) + Unused(events, flags) == multiset(events)
  }

  lemma ProgressStart(events: seq<VMEvent>, gap: nat, flags: seq<bool>)
    requires |flags| == |events| && forall k :: 0 <= k < |flags| ==> !flags[k]
    ensures Progress([], [], events, gap, [flags], flags)
  {
    UnusedAll(events, flags);
  }

  lemma ProgressStep(cs: seq<ExplainedChange>, done: seq<ExplainedChange>, events: seq<VMEvent>, gap: nat,
      trail: seq<seq<bool>>, before: seq<bool>, x: ExplainedChange, ch: ExplainedChange, after: seq<bool>)
    requires Progress(cs, done, events, gap, trail, before)
    requires ch.change == x.change && SoundChange(ch) && Takes(ch, events, gap, before, after)
    ensures Progress(cs + [x], done + [ch], events, gap, trail + [after], after)
  {
    AttachedPush(done, ch);
    var all, longer := done + [ch], trail + [after];
    forall c | 0 <= c < |all| ensures Takes(all[c], events, gap, longer[c], longer[c + 1]) {
      assert c < |done| ==> Takes(done[c], events, gap, trail[c], trail[c + 1]);
    }
  }

  method ExplainNext(cs: seq<ExplainedChange>, done: seq<ExplainedChange>, events: seq<VMEvent>, gap: nat,
      used: array<bool>, x: ExplainedChange, ghost trail: seq<seq<bool>>)
    returns (ch: ExplainedChange)
    requires used.Length == |events| && Progress(cs, done, events, gap, trail, used[..])
    modifies used
    ensures Progress(cs + [x], done + [ch], events, gap, trail + [used[..]], used[..])
  {
    ghost var before := used[..];
    ch := ExplainChange(x.change, events, used, gap);
    ProgressStep(cs, done, events, gap, trail, before, x, ch, used[..]);
  }

  /** Attaches events to the span's changes, first change first, and reports which it used.
      trail records the flags before each change and after the last. */
  method ExplainSpan(span: EventSpan, events: seq<VMEvent>, gap: nat)
    returns (explained: EventSpan, used: array<bool>, ghost trail: seq<seq<bool>>)
    requires forall c :: 0 <= c < |span.changes| ==> span.changes[c].events == []
    ensures fresh(used) && used.Length == |events|
    ensures explained == span.(changes := explained.changes)
    ensures Progress(span.changes, explained.changes, events, gap, trail, used[..])
  {
    used := new bool[|events|](_ => false);
    trail := [used[..]];
    var done: seq<ExplainedChange> := [];
    ProgressStart(events, gap, used[..]);
    for c := 0 to |span.changes|
      invariant Progress(span.changes[..c], done, events, gap, trail, used[..])
    {
      var ch := ExplainNext(span.changes[..c], done, events, gap, used, span.changes[c], trail);
      done, trail := done + [ch], trail + [used[..]];
      assert span.changes[..c + 1] == span.changes[..c] + [span.changes[c]];
    }
    assert span.changes[..|span.changes|] == span.changes;
    explained := span.(changes := done);
  }

  /** Flags only ever go up along a trail. */
  lemma {:induction false} TrailGrows(cs: seq<ExplainedChange>, events: seq<VMEvent>, gap: nat, trail: seq<seq<bool>>,
      c: nat, d: nat, k: nat)
    requires Assigned(cs, events, gap, trail) && c <= d < |trail| && k < |events|
    requires |trail[c]| == |trail[d]| == |events| && trail[c][k]
    ensures trail[d][k]
    decreases d - c
  {
    if c < d {
      assert Takes(cs[c], events, gap, trail[c], trail[c + 1]);
      TrailGrows(cs, events, gap, trail, c + 1, d, k);
    }
  }

  /** A change that took nothing matches none of the events left unused at the end. */
  lemma TakesNothingMatchesNothing(cs: seq<ExplainedChange>, events: seq<VMEvent>, gap: nat, trail: seq<seq<bool>>,
      c: nat, k: nat)
    requires Assigned(cs, events, gap, trail) && c < |cs| && k < |events|
    requires |trail[|cs|]| == |events| && !trail[|cs|][k]
    requires cs[c].events == []
    ensures !Matches(cs[c].change, events[k])
  {
    assert Takes(cs[c], events, gap, trail[c], trail[c + 1]);
    if trail[c][k] {
      TrailGrows(cs, events, gap, trail, c, |cs|, k);
    }
    if Matches(cs[c].change, events[k]) {
      var p := SomethingIsPicked(cs[c].change, events, trail[c], gap, k);
      UnusedShrinks(events, trail[c], trail[c + 1], p);
      assert false;
    }
  }

  lemma {:induction false} UnusedAtMost(events: seq<VMEvent>, more: seq<bool>, less: seq<bool>)
    requires |more| == |less| == |events|
    requires forall k :: 0 <= k < |more| && more[k] ==> less[k]
    ensures Unused(events, less) <= Unused(events, more)
  {
    if events != [] {
      var n := |events| - 1;
      UnusedAtMost(events[..n], more[..n], less[..n]);
    }
  }

  lemma UnusedShrinks(events: seq<VMEvent>, before: seq<bool>, after: seq<bool>, p: nat)
    requires |before| == |after| == |events| && p < |events| && !before[p] && after[p]
    requires forall k :: 0 <= k < |before| && before[k] ==> after[k]
    ensures Unused(events, before) != Unused(events, after)
  {
    UnusedMark(events, before, p);
    UnusedAtMost(events, before[p := true], after);
    assert |Unused(events, after)| <= |Unused(events, before[p := true])| by {
      var a, b := Unused(events, after), Unused(events, before[p := true]);
      assert b == a + (b - a);
    }
    assert |Unused(events, before)| == |Unused(events, before[p := true])| + 1;
  }
}
