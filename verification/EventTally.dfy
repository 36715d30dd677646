/** Counting events: the multisets that say where every event of a timeline went. */
module EventTally {
  import opened Common
  import opened Events
  import opened Multisets

  ghost function AttachedParts(cs: seq<ExplainedChange>): (r: seq<multiset<VMEvent>>)
    ensures |r| == |cs| && forall i :: 0 <= i < |cs| ==> r[i] == multiset(cs[i].events)
  {
    seq(|cs|, i requires 0 <= i < |cs| => multiset(cs[i].events))
  }

  /** Every event attached to some change, counted. */
  ghost function Attached(cs: seq<ExplainedChange>): multiset<VMEvent> {
    Sum(AttachedParts(cs))
  }

  lemma AttachedUpdate(cs: seq<ExplainedChange>, c: nat, x: ExplainedChange)
    requires c < |cs|
    ensures Attached(cs[c := x]) + multiset(cs[c].events) == Attached(cs) + multiset(x.events)
  {
    SumUpdate(AttachedParts(cs), c, multiset(x.events));
    assert AttachedParts(cs[c := x]) == AttachedParts(cs)[c := multiset(x.events)];
  }

  lemma AttachedPush(cs: seq<ExplainedChange>, x: ExplainedChange)
    ensures Attached(cs + [x]) == Attached(cs) + multiset(x.events)
  {
    SumPush(AttachedParts(cs), multiset(x.events));
    assert AttachedParts(cs + [x]) == AttachedParts(cs) + [multiset(x.events)];
  }

  /** The events no flag marks as used. */
  ghost function Unused(events: seq<VMEvent>, used: seq<bool>): multiset<VMEvent>
    requires |used| == |events|
  {
    if events == [] then multiset{}
    else
      var n := |events| - 1;
      Unused(events[..n], used[..n]) + if used[n] then multiset{} else multiset{events[n]}
  }

  lemma {:induction false} UnusedMark(events: seq<VMEvent>, used: seq<bool>, k: nat)
    requires |used| == |events| && k < |events| && !used[k]
    ensures Unused(events, used[k := true]) + multiset{events[k]} == Unused(events, used)
  {
    var n := |events| - 1;
    if k == n {
      assert used[k := true][..n] == used[..n];
    } else {
      UnusedMark(events[..n], used[..n], k);
      assert used[k := true][..n] == used[..n][k := true];
    }
  }

  lemma {:induction false} UnusedAll(events: seq<VMEvent>, used: seq<bool>)
    requires |used| == |events| && forall k :: 0 <= k < |used| ==> !used[k]
    ensures Unused(events, used) == multiset(events)
  {
    if events != [] {
      var n := |events| - 1;
      UnusedAll(events[..n], used[..n]);
      assert events == events[..n] + [events[n]];
    }
  }

  ghost function SpanEvents(span: EventSpan): multiset<VMEvent> {
    Attached(span.changes) + multiset(span.unexplained)
  }

  ghost function SpanParts(spans: seq<EventSpan>): (r: seq<multiset<VMEvent>>)
    ensures |r| == |spans| && forall i :: 0 <= i < |spans| ==> r[i] == SpanEvents(spans[i])
  {
    seq(|spans|, i requires 0 <= i < |spans| => SpanEvents(spans[i]))
  }

  /** Every event a timeline holds, attached or unexplained, counted. */
  ghost function AllEvents(spans: seq<EventSpan>): multiset<VMEvent> {
    Sum(SpanParts(spans))
  }

  lemma AllEventsPush(spans: seq<EventSpan>, x: EventSpan)
    ensures AllEvents(spans + [x]) == AllEvents(spans) + SpanEvents(x)
  {
    SumPush(SpanParts(spans), SpanEvents(x));
    assert SpanParts(spans + [x]) == SpanParts(spans) + [SpanEvents(x)];
  }

  ghost function ListParts(lists: seq<seq<VMEvent>>): (r: seq<multiset<VMEvent>>)
    ensures |r| == |lists| && forall i :: 0 <= i < |lists| ==> r[i] == multiset(lists[i])
  {
    seq(|lists|, i requires 0 <= i < |lists| => multiset(lists[i]))
  }

  ghost function InLists(lists: seq<seq<VMEvent>>): multiset<VMEvent> {
    Sum(ListParts(lists))
  }

  lemma InListsUpdate(lists: seq<seq<VMEvent>>, i: nat, x: seq<VMEvent>)
    requires i < |lists|
    ensures InLists(lists[i := x]) + multiset(lists[i]) == InLists(lists) + multiset(x)
  {
    SumUpdate(ListParts(lists), i, multiset(x));
    assert ListParts(lists[i := x]) == ListParts(lists)[i := multiset(x)];
  }

  lemma InListsPush(lists: seq<seq<VMEvent>>, i: nat, e: VMEvent)
    requires i < |lists|
    ensures InLists(lists[i := lists[i] + [e]]) == InLists(lists) + multiset{e}
  {
    var x := lists[i] + [e];
    InListsUpdate(lists, i, x);
    Cancel(InLists(lists[i := x]), InLists(lists) + multiset{e}, multiset(lists[i]));
  }

  ghost function AttachedLists(spans: seq<EventSpan>): (r: seq<multiset<VMEvent>>)
    ensures |r| == |spans| && forall i :: 0 <= i < |spans| ==> r[i] == Attached(spans[i].changes)
  {
    seq(|spans|, i requires 0 <= i < |spans| => Attached(spans[i].changes))
  }

  function UnexplainedLists(spans: seq<EventSpan>): (r: seq<seq<VMEvent>>)
    ensures |r| == |spans| && forall i :: 0 <= i < |spans| ==> r[i] == spans[i].unexplained
  {
    seq(|spans|, i requires 0 <= i < |spans| => spans[i].unexplained)
  }

  lemma AllEventsSplit(spans: seq<EventSpan>)
    ensures AllEvents(spans) == Sum(AttachedLists(spans)) + InLists(UnexplainedLists(spans))
  {
    SumSplits(SpanParts(spans), AttachedLists(spans), ListParts(UnexplainedLists(spans)));
  }

  /** An event the timeline holds once explains at most one change, and then is not also
      among the unexplained. */
  lemma HeldOnceExplainsOnce(spans: seq<EventSpan>, e: VMEvent, s: nat, c: nat)
    requires AllEvents(spans)[e] == 1
    requires s < |spans| && c < |spans[s].changes| && e in spans[s].changes[c].events
    ensures forall t, d :: 0 <= t < |spans| && 0 <= d < |spans[t].changes| && e in spans[t].changes[d].events ==>
      t == s && d == c
    ensures forall t :: 0 <= t < |spans| ==> e !in spans[t].unexplained
  {
    InSum(AttachedParts(spans[s].changes), c, e);
    assert e in SpanParts(spans)[s];
    forall t, d | 0 <= t < |spans| && 0 <= d < |spans[t].changes| && e in spans[t].changes[d].events
      ensures t == s && d == c
    {
      InSum(AttachedParts(spans[t].changes), d, e);
      if t != s {
        InTwoParts(SpanParts(spans), t, s, e);
      } else if d != c {
        InTwoParts(AttachedParts(spans[s].changes), c, d, e);
        PartAtMost(SpanParts(spans), s, e);
      }
    }
    forall t | 0 <= t < |spans| ensures e !in spans[t].unexplained {
      if e in spans[t].unexplained {
        if t != s {
          InTwoParts(SpanParts(spans), t, s, e);
        } else {
          PartAtMost(SpanParts(spans), s, e);
        }
      }
    }
  }
}
