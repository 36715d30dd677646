/** The second pass over the spans: a change no event of its own kind explains takes, from the
    unexplained events just across a run edge, those a skewed clock may have put there. */
module EventRepair {
  import opened Common
  import opened Events
  import opened EventPick
  import opened EventPlace
  import opened EventTally
  import opened Multisets
  import opened EventMatch
  import opened Sorting

  // left holds the unexplained events of each span, as the pass found them.

  /** The unexplained event at position idx of a span. */
  datatype Ref = Ref(span: nat, idx: nat)

  ghost predicate Valid(left: seq<seq<VMEvent>>, r: Ref) {
    r.span < |left| && r.idx < |left[r.span]|
  }

  ghost function EventAt(left: seq<seq<VMEvent>>, r: Ref): VMEvent
    requires Valid(left, r)
  {
    left[r.span][r.idx]
  }

  predicate Near(e: VMEvent, edge: Run, before: bool) {
    if before then NearBefore(e, edge) else NearAfter(e, edge)
  }

  /** r is within tolerance of an edge of span s, on the other side of it. */
  ghost predicate NearRef(left: seq<seq<VMEvent>>, runs: seq<Run>, s: nat, r: Ref) {
    && Valid(left, r)
    && (|| (0 < s <= |runs| && r.span == s - 1 && Near(EventAt(left, r), runs[s - 1], true))
        || (s < |runs| && r.span == s + 1 && Near(EventAt(left, r), runs[s], false)))
  }

  /** The unexplained events of a span that are not taken, in order. */
  function Kept(unexplained: seq<VMEvent>, taken: set<Ref>, s: nat): seq<VMEvent> {
    if unexplained == [] then []
    else
      var n := |unexplained| - 1;
      Kept(unexplained[..n], taken, s) + if Ref(s, n) in taken then [] else [unexplained[n]]
  }

  /** The unexplained events of every span without the taken ones. */
  ghost function KeptLists(left: seq<seq<VMEvent>>, taken: set<Ref>): (r: seq<seq<VMEvent>>)
    ensures |r| == |left| && forall s :: 0 <= s < |left| ==> r[s] == Kept(left[s], taken, s)
  {
    seq(|left|, s requires 0 <= s < |left| => Kept(left[s], taken, s))
  }

  lemma {:induction false} KeptIsUnchanged(u: seq<VMEvent>, taken: set<Ref>, s: nat, r: Ref)
    requires r.span != s || r.idx >= |u|
    ensures Kept(u, taken + {r}, s) == Kept(u, taken, s)
  {
    if u != [] {
      KeptIsUnchanged(u[..|u| - 1], taken, s, r);
    }
  }

  lemma {:induction false} KeptTake(u: seq<VMEvent>, taken: set<Ref>, s: nat, k: nat)
    requires k < |u| && Ref(s, k) !in taken
    ensures multiset(Kept(u, taken, s)) == multiset(Kept(u, taken + {Ref(s, k)}, s)) + multiset{u[k]}
  {
    var n := |u| - 1;
    var more := taken + {Ref(s, k)};
    var tail := if Ref(s, n) in taken then [] else [u[n]];
    if k == n {
      KeptIsUnchanged(u[..n], taken, s, Ref(s, k));
      assert Kept(u, more, s) == Kept(u[..n], taken, s) + [];
      assert Kept(u, taken, s) == Kept(u[..n], taken, s) + [u[k]];
    } else {
      KeptTake(u[..n], taken, s, k);
      assert Ref(s, n) in more <==> Ref(s, n) in taken;
      assert Kept(u, taken, s) == Kept(u[..n], taken, s) + tail;
      assert Kept(u, more, s) == Kept(u[..n], more, s) + tail;
      Swap(multiset(Kept(u[..n], more, s)), multiset{u[k]}, multiset(tail));
    }
  }

  lemma {:induction false} KeptAll(u: seq<VMEvent>, s: nat)
    ensures Kept(u, {}, s) == u
  {
    if u != [] {
      KeptAll(u[..|u| - 1], s);
    }
  }

  lemma {:induction false} KeptMembers(u: seq<VMEvent>, taken: set<Ref>, s: nat, e: VMEvent)
    ensures e in Kept(u, taken, s) <==> exists k: nat :: k < |u| && Ref(s, k) !in taken && u[k] == e
  {
    if u != [] {
      var n := |u| - 1;
      KeptMembers(u[..n], taken, s, e);
      if exists k: nat :: k < |u| && Ref(s, k) !in taken && u[k] == e {
        var k: nat :| k < |u| && Ref(s, k) !in taken && u[k] == e;
        assert k < n ==> u[..n][k] == e;
      }
    }
  }

  /** Taking one event out of the unexplained leaves everything else where it was. */
  lemma TakeOne(left: seq<seq<VMEvent>>, taken: set<Ref>, r: Ref)
    requires Valid(left, r) && r !in taken
    ensures InLists(KeptLists(left, taken)) == InLists(KeptLists(left, taken + {r})) + multiset{EventAt(left, r)}
  {
    var was, now := KeptLists(left, taken), KeptLists(left, taken + {r});
    KeptTake(left[r.span], taken, r.span, r.idx);
    forall s: nat | s < |left| && s != r.span ensures now[s] == was[s] {
      KeptIsUnchanged(left[s], taken, s, r);
    }
    assert now == was[r.span := now[r.span]];
    InListsUpdate(was, r.span, now[r.span]);
    var e := multiset{EventAt(left, r)};
    Swap(InLists(now), multiset(now[r.span]), e);
    Cancel(InLists(was), InLists(now) + e, multiset(now[r.span]));
  }

  // ----- One change

  /** The places of a span's untaken unexplained events near the edge, in order. */
  function NearRefs(u: seq<VMEvent>, span: nat, taken: set<Ref>, edge: Run, before: bool): seq<Ref> {
    if u == [] then []
    else
      var n := |u| - 1;
      NearRefs(u[..n], span, taken, edge, before)
      + if Ref(span, n) !in taken && Near(u[n], edge, before) then [Ref(span, n)] else []
  }

  /** The places near the two edges of span s, earlier edge first: those of its pool. */
  ghost function PoolRefs(left: seq<seq<VMEvent>>, runs: seq<Run>, s: nat, taken: set<Ref>): seq<Ref> {
    (if 0 < s <= |left| && s <= |runs| then NearRefs(left[s - 1], s - 1, taken, runs[s - 1], true) else [])
    + if s < |runs| && s + 1 < |left| then NearRefs(left[s + 1], s + 1, taken, runs[s], false) else []
  }

  ghost predicate Lists(left: seq<seq<VMEvent>>, from: seq<Ref>, pool: seq<VMEvent>) {
    |pool| == |from| && forall k :: 0 <= k < |from| ==> Valid(left, from[k]) && pool[k] == EventAt(left, from[k])
  }

  ghost function NoneUsed(n: nat): seq<bool> { seq(n, k => false) }

  /** The flags of the events the rule picks from a pool none of which is used. */
  ghost function PickedFlags(change: HistoryEvent, pool: seq<VMEvent>): seq<bool> {
    seq(|pool|, k requires 0 <= k < |pool| => Picked(change, pool, NoneUsed(|pool|), |pool|, k))
  }

  /** What the change takes is what the rule picks from the pool of its span, and no more. */
  ghost predicate PicksAcross(left: seq<seq<VMEvent>>, runs: seq<Run>, s: nat, taken: set<Ref>, taken': set<Ref>,
      change: HistoryEvent, added: seq<VMEvent>)
  {
    exists pool :: PicksFrom(left, PoolRefs(left, runs, s, taken), pool, taken, taken', change, added)
  }

  ghost predicate PicksFrom(left: seq<seq<VMEvent>>, from: seq<Ref>, pool: seq<VMEvent>, taken: set<Ref>, taken': set<Ref>,
      change: HistoryEvent, added: seq<VMEvent>)
  {
    && Lists(left, from, pool)
    && multiset(pool) == Unused(pool, PickedFlags(change, pool)) + multiset(added)
    && taken' == taken + RefsOf(from, PickedFlags(change, pool))
  }

  ghost function RefsOf(from: seq<Ref>, flags: seq<bool>): set<Ref> {
    set k | 0 <= k < |from| && k < |flags| && flags[k] :: from[k]
  }

  /** pool and from list the untaken events near the edges, each with its place. */
  ghost predicate Gathered(u: seq<VMEvent>, span: nat, taken: set<Ref>, edge: Run, before: bool, hi: nat,
      pool: seq<VMEvent>, from: seq<Ref>)
  {
    && |pool| == |from| && hi <= |u|
    && (forall k :: 0 <= k < |from| ==>
          && from[k].span == span && from[k].idx < hi && from[k] !in taken
          && pool[k] == u[from[k].idx] && Near(pool[k], edge, before))
    && NoRepeats(from) && from == NearRefs(u[..hi], span, taken, edge, before)
    && forall i: nat :: i < hi && Ref(span, i) !in taken && Near(u[i], edge, before) ==> Ref(span, i) in from
  }

  method Gather(u: seq<VMEvent>, span: nat, taken: set<Ref>, edge: Run, before: bool)
    returns (pool: seq<VMEvent>, from: seq<Ref>)
    ensures Gathered(u, span, taken, edge, before, |u|, pool, from)
  {
    pool, from := [], [];
    for k := 0 to |u|
      invariant Gathered(u, span, taken, edge, before, k, pool, from)
    {
      assert u[..k + 1][..k] == u[..k];
      if Ref(span, k) !in taken && Near(u[k], edge, before) {
        pool, from := pool + [u[k]], from + [Ref(span, k)];
      }
    }
  }

  ghost predicate Pool(left: seq<seq<VMEvent>>, runs: seq<Run>, s: nat, taken: set<Ref>,
      pool: seq<VMEvent>, from: seq<Ref>)
  {
    && |pool| == |from| && NoRepeats(from) && from == PoolRefs(left, runs, s, taken)
    && (forall k :: 0 <= k < |from| ==>
          NearRef(left, runs, s, from[k]) && from[k] !in taken && pool[k] == EventAt(left, from[k]))
    && forall r :: NearRef(left, runs, s, r) && r !in taken ==> r in from
  }

  /** One side of the pool: nothing where the edge does not exist. */
  ghost predicate Side(left: seq<seq<VMEvent>>, runs: seq<Run>, s: nat, taken: set<Ref>, before: bool,
      pool: seq<VMEvent>, from: seq<Ref>)
  {
    if before then
      if s > 0 then
        s <= |left| && s <= |runs|
        && Gathered(left[s - 1], s - 1, taken, runs[s - 1], true, |left[s - 1]|, pool, from)
      else pool == [] && from == []
    else
      if s < |runs| && s + 1 < |left| then
        Gathered(left[s + 1], s + 1, taken, runs[s], false, |left[s + 1]|, pool, from)
      else pool == [] && from == []
  }

  lemma SidesMakePool(left: seq<seq<VMEvent>>, runs: seq<Run>, s: nat, taken: set<Ref>,
      p0: seq<VMEvent>, f0: seq<Ref>, p1: seq<VMEvent>, f1: seq<Ref>)
    requires |left| == |runs| + 1 && s < |left|
    requires Side(left, runs, s, taken, true, p0, f0) && Side(left, runs, s, taken, false, p1, f1)
    ensures Pool(left, runs, s, taken, p0 + p1, f0 + f1)
  {
    var pool, from := p0 + p1, f0 + f1;
    assert s > 0 ==> left[s - 1][..|left[s - 1]|] == left[s - 1];
    assert s < |runs| ==> left[s + 1][..|left[s + 1]|] == left[s + 1];
    forall k | 0 <= k < |from|
      ensures NearRef(left, runs, s, from[k]) && from[k] !in taken && pool[k] == EventAt(left, from[k])
    {
      if k < |f0| {
        assert from[k] == f0[k] && pool[k] == p0[k];
      } else {
        assert from[k] == f1[k - |f0|] && pool[k] == p1[k - |f0|];
      }
    }
    forall r | NearRef(left, runs, s, r) && r !in taken ensures r in from {
      assert r == Ref(r.span, r.idx);
    }
  }

  method GatherPool(left: seq<seq<VMEvent>>, runs: seq<Run>, s: nat, taken: set<Ref>)
    returns (pool: seq<VMEvent>, from: seq<Ref>)
    requires |left| == |runs| + 1 && s < |left|
    ensures Pool(left, runs, s, taken, pool, from)
  {
    pool, from := [], [];
    if s > 0 {
      pool, from := Gather(left[s - 1], s - 1, taken, runs[s - 1], true);
    }
    var pool', from' := [], [];
    if s < |runs| && s + 1 < |left| {
      pool', from' := Gather(left[s + 1], s + 1, taken, runs[s], false);
    }
    SidesMakePool(left, runs, s, taken, pool, from, pool', from');
    pool, from := pool + pool', from + from';
  }

  /** What one change may gain: events from across an edge that match it. */
  ghost predicate Gains(left: seq<seq<VMEvent>>, runs: seq<Run>, s: nat, taken: set<Ref>, taken': set<Ref>,
      was: ExplainedChange, ch: ExplainedChange, added: seq<VMEvent>)
  {
    && ch.change == was.change
    && multiset(ch.events) == multiset(was.events) + multiset(added)
    && taken <= taken'
    && InLists(KeptLists(left, taken)) == InLists(KeptLists(left, taken')) + multiset(added)
    && (forall e :: e in added ==> Matches(was.change, e) && FromAcross(left, runs, s, taken', e))
  }

  ghost predicate FromAcross(left: seq<seq<VMEvent>>, runs: seq<Run>, s: nat, taken: set<Ref>, e: VMEvent) {
    exists r :: r in taken && NearRef(left, runs, s, r) && EventAt(left, r) == e
  }

  /** Across the edges of span s no untaken event of the change's own kind matches it. */
  ghost predicate NothingAcross(left: seq<seq<VMEvent>>, runs: seq<Run>, s: nat, taken: set<Ref>, change: HistoryEvent) {
    forall r :: (NearRef(left, runs, s, r) && r !in taken && EventAt(left, r).explains == ExplainedBy(change.kind)) ==>
      !Matches(change, EventAt(left, r))
  }

  ghost predicate Starved(left: seq<seq<VMEvent>>, runs: seq<Run>, s: nat, taken: set<Ref>, ch: ExplainedChange) {
    ExplainedBy(ch.change.kind) != NoKind && !HasKind(ch.events, ExplainedBy(ch.change.kind)) ==>
      NothingAcross(left, runs, s, taken, ch.change)
  }

  /** The first n picked events have been taken. */
  ghost predicate TakeState(left: seq<seq<VMEvent>>, taken0: set<Ref>, pool: seq<VMEvent>, from: seq<Ref>,
      picked: seq<nat>, n: nat, added: seq<VMEvent>, taken: set<Ref>)
  {
    && |pool| == |from| && |added| == n <= |picked| && taken0 <= taken
    && (forall m :: 0 <= m < |picked| ==> picked[m] < |pool|)
    && (forall m :: 0 <= m < n ==> added[m] == pool[picked[m]] && from[picked[m]] in taken)
    && (forall m :: n <= m < |picked| ==> from[picked[m]] !in taken)
    && InLists(KeptLists(left, taken0)) == InLists(KeptLists(left, taken)) + multiset(added)
  }

  lemma TakeStep(left: seq<seq<VMEvent>>, taken0: set<Ref>, pool: seq<VMEvent>, from: seq<Ref>,
      picked: seq<nat>, n: nat, added: seq<VMEvent>, taken: set<Ref>)
    requires TakeState(left, taken0, pool, from, picked, n, added, taken) && n < |picked|
    requires NoRepeats(from) && NoRepeats(picked)
    requires Valid(left, from[picked[n]]) && pool[picked[n]] == EventAt(left, from[picked[n]])
    ensures TakeState(left, taken0, pool, from, picked, n + 1, added + [pool[picked[n]]], taken + {from[picked[n]]})
  {
    var r := from[picked[n]];
    TakeOne(left, taken, r);
    Swap(InLists(KeptLists(left, taken + {r})), multiset{EventAt(left, r)}, multiset(added));
    forall m | n + 1 <= m < |picked| ensures from[picked[m]] !in taken + {r} {
      assert picked[m] != picked[n];
    }
  }

  /** The places of the first n picked events. */
  ghost function PickedRefs(from: seq<Ref>, picked: seq<nat>, n: nat): set<Ref> {
    set m | 0 <= m < n && m < |picked| && picked[m] < |from| :: from[picked[m]]
  }

  ghost predicate PickState(left: seq<seq<VMEvent>>, change: HistoryEvent, taken0: set<Ref>, pool: seq<VMEvent>, from: seq<Ref>,
      picked: seq<nat>, n: nat, added: seq<VMEvent>, taken: set<Ref>, flags: seq<bool>)
  {
    && TakeState(left, taken0, pool, from, picked, n, added, taken)
    && taken == taken0 + PickedRefs(from, picked, n)
    && Marked(change, pool, NoneUsed(|pool|), picked, n, flags, added)
  }

  lemma PickStep(left: seq<seq<VMEvent>>, runs: seq<Run>, s: nat, change: HistoryEvent, taken0: set<Ref>,
      pool: seq<VMEvent>, from: seq<Ref>, picked: seq<nat>, n: nat, added: seq<VMEvent>, taken: set<Ref>, flags: seq<bool>)
    requires Pool(left, runs, s, taken0, pool, from) && NoRepeats(picked) && n < |picked|
    requires PickState(left, change, taken0, pool, from, picked, n, added, taken, flags)
    requires picked[n] < |pool| && Matches(change, pool[picked[n]])
    ensures PickState(left, change, taken0, pool, from, picked, n + 1, added + [pool[picked[n]]], taken + {from[picked[n]]},
                      flags[picked[n] := true])
  {
    TakeStep(left, taken0, pool, from, picked, n, added, taken);
    MarkedNext(change, pool, NoneUsed(|pool|), picked, n, flags, added);
    PickedRefsNext(from, picked, n);
  }

  method TakePicked(left: seq<seq<VMEvent>>, runs: seq<Run>, s: nat, change: HistoryEvent, taken0: set<Ref>,
      pool: seq<VMEvent>, from: seq<Ref>, picked: seq<nat>)
    returns (added: seq<VMEvent>, taken: set<Ref>, ghost flags: seq<bool>)
    requires Pool(left, runs, s, taken0, pool, from) && NoRepeats(picked)
    requires forall n :: 0 <= n < |picked| ==> picked[n] < |pool| && Matches(change, pool[picked[n]])
    ensures taken == taken0 + PickedRefs(from, picked, |picked|)
    ensures |added| == |picked| && forall n :: 0 <= n < |picked| ==> added[n] == pool[picked[n]]
    ensures InLists(KeptLists(left, taken0)) == InLists(KeptLists(left, taken)) + multiset(added)
    ensures forall e :: e in added ==> Matches(change, e) && FromAcross(left, runs, s, taken, e)
    ensures Marked(change, pool, NoneUsed(|pool|), picked, |picked|, flags, added)
  {
    added, taken, flags := [], taken0, NoneUsed(|pool|);
    for n := 0 to |picked|
      invariant PickState(left, change, taken0, pool, from, picked, n, added, taken, flags)
    {
      PickStep(left, runs, s, change, taken0, pool, from, picked, n, added, taken, flags);
      flags := flags[picked[n] := true];
      added, taken := added + [pool[picked[n]]], taken + {from[picked[n]]};
    }
    forall e | e in added ensures Matches(change, e) && FromAcross(left, runs, s, taken, e) {
      var n :| 0 <= n < |added| && added[n] == e;
      assert from[picked[n]] in taken;
    }
  }

  lemma PickedRefsNext(from: seq<Ref>, picked: seq<nat>, n: nat)
    requires n < |picked| && picked[n] < |from|
    ensures PickedRefs(from, picked, n + 1) == PickedRefs(from, picked, n) + {from[picked[n]]}
  {
  }

  /** Taking exactly the picked positions is taking what the rule picks. */
  lemma TookThePicked(left: seq<seq<VMEvent>>, runs: seq<Run>, s: nat, change: HistoryEvent, taken0: set<Ref>, taken: set<Ref>,
      pool: seq<VMEvent>, from: seq<Ref>, picked: seq<nat>, flags: seq<bool>, added: seq<VMEvent>)
    requires Pool(left, runs, s, taken0, pool, from)
    requires forall i: nat :: i in picked <==> Picked(change, pool, NoneUsed(|pool|), |pool|, i)
    requires taken == taken0 + PickedRefs(from, picked, |picked|)
    requires Marked(change, pool, NoneUsed(|pool|), picked, |picked|, flags, added)
    ensures PicksAcross(left, runs, s, taken0, taken, change, added)
  {
    assert picked[..|picked|] == picked;
    assert flags == PickedFlags(change, pool);
    UnusedAll(pool, NoneUsed(|pool|));
    SameRefs(from, picked, flags);
    assert PicksFrom(left, from, pool, taken0, taken, change, added);
  }

  lemma SameRefs(from: seq<Ref>, picked: seq<nat>, flags: seq<bool>)
    requires |flags| == |from| && forall k: nat :: k < |flags| ==> (flags[k] <==> k in picked)
    ensures RefsOf(from, flags) == PickedRefs(from, picked, |picked|)
  {
    forall k: nat | k < |from| && flags[k] ensures from[k] in PickedRefs(from, picked, |picked|) {
      var m :| 0 <= m < |picked| && picked[m] == k;
    }
  }

  lemma NothingLeftAcross(left: seq<seq<VMEvent>>, runs: seq<Run>, s: nat, taken0: set<Ref>, taken: set<Ref>,
      pool: seq<VMEvent>, from: seq<Ref>, change: HistoryEvent, used: seq<bool>, gap: nat)
    requires Pool(left, runs, s, taken0, pool, from) && taken0 <= taken
    requires |used| == |pool| && forall k :: 0 <= k < |used| ==> !used[k]
    requires forall k: nat :: Picked(change, pool, used, gap, k) ==> pool[k].explains != ExplainedBy(change.kind)
    ensures NothingAcross(left, runs, s, taken, change)
  {
    forall r | NearRef(left, runs, s, r) && r !in taken && EventAt(left, r).explains == ExplainedBy(change.kind)
      ensures !Matches(change, EventAt(left, r))
    {
      assert r in from;
      var k: nat :| k < |from| && from[k] == r;
      if Matches(change, pool[k]) {
        var p := SomethingIsPicked(change, pool, used, gap, k);
        assert false;
      }
    }
  }

  lemma AddedHasNoKind(picked: seq<nat>, pool: seq<VMEvent>, added: seq<VMEvent>, events: seq<VMEvent>, kind: EventKind)
    requires |added| == |picked|
    requires forall n :: 0 <= n < |picked| ==> picked[n] < |pool| && added[n] == pool[picked[n]]
    requires forall e :: e in added ==> e in events
    requires !HasKind(events, kind)
    ensures forall k :: k in picked ==> k < |pool| && pool[k].explains != kind
  {
    forall k | k in picked ensures k < |pool| && pool[k].explains != kind {
      var n :| 0 <= n < |picked| && picked[n] == k;
      assert added[n] in events;
      var m :| 0 <= m < |events| && events[m] == added[n];
    }
  }

  /** The events a change takes from across the edges, and what is taken after it has. */
  method TakeFromAcross(left: seq<seq<VMEvent>>, runs: seq<Run>, s: nat, change: HistoryEvent, taken0: set<Ref>)
    returns (added: seq<VMEvent>, taken: set<Ref>)
    requires |left| == |runs| + 1 && s < |left| && ExplainedBy(change.kind) != NoKind
    ensures taken0 <= taken
    ensures InLists(KeptLists(left, taken0)) == InLists(KeptLists(left, taken)) + multiset(added)
    ensures forall e :: e in added ==> Matches(change, e) && FromAcross(left, runs, s, taken, e)
    ensures !HasKind(added, ExplainedBy(change.kind)) ==> NothingAcross(left, runs, s, taken, change)
    ensures PicksAcross(left, runs, s, taken0, taken, change, added)
  {
    var pool, from := GatherPool(left, runs, s, taken0);
    var used := new bool[|pool|](_ => false);
    var picked := Explainers(change, pool, used, |pool|);
    forall n | 0 <= n < |picked| ensures picked[n] < |pool| && Matches(change, pool[picked[n]]) {
      assert picked[n] in picked;
      PickedMatches(change, pool, used[..], |pool|, picked[n]);
    }
    ghost var flags;
    added, taken, flags := TakePicked(left, runs, s, change, taken0, pool, from, picked);
    assert used[..] == NoneUsed(|pool|);
    TookThePicked(left, runs, s, change, taken0, taken, pool, from, picked, flags, added);
    if !HasKind(added, ExplainedBy(change.kind)) {
      AddedHasNoKind(picked, pool, added, added, ExplainedBy(change.kind));
      NothingLeftAcross(left, runs, s, taken0, taken, pool, from, change, used[..], |pool|);
    }
  }

  lemma HasKindGrows(events: seq<VMEvent>, more: seq<VMEvent>, kind: EventKind)
    requires HasKind(events, kind) && forall e :: e in events ==> e in more
    ensures HasKind(more, kind)
  {
    var k :| 0 <= k < |events| && events[k].explains == kind;
    assert events[k] in more;
  }

  /** A change with an event of its own kind, or that no event could explain, stays as it is; any other
      keeps its events and gains those the rule picks across the edges. */
  ghost predicate RepairsOne(left: seq<seq<VMEvent>>, runs: seq<Run>, s: nat, taken: set<Ref>, taken': set<Ref>,
      was: ExplainedChange, ch: ExplainedChange)
  {
    var want := ExplainedBy(was.change.kind);
    if want == NoKind || HasKind(was.events, want) then ch == was && taken' == taken
    else
      && ch.change == was.change && SoundChange(ch)
      && exists added :: GainsPicked(left, runs, s, taken, taken', was, ch, added)
  }

  ghost predicate GainsPicked(left: seq<seq<VMEvent>>, runs: seq<Run>, s: nat, taken: set<Ref>, taken': set<Ref>,
      was: ExplainedChange, ch: ExplainedChange, added: seq<VMEvent>)
  {
    && PicksAcross(left, runs, s, taken, taken', was.change, added)
    && multiset(ch.events) == multiset(was.events) + multiset(added)
  }

  method RepairChange(left: seq<seq<VMEvent>>, runs: seq<Run>, s: nat, was: ExplainedChange, taken0: set<Ref>)
    returns (ch: ExplainedChange, taken: set<Ref>, ghost added: seq<VMEvent>)
    requires |left| == |runs| + 1 && s < |left|
    requires SoundChange(was)
    ensures Gains(left, runs, s, taken0, taken, was, ch, added)
    ensures SoundChange(ch) && Starved(left, runs, s, taken, ch)
    ensures RepairsOne(left, runs, s, taken0, taken, was, ch)
  {
    var want := ExplainedBy(was.change.kind);
    ch, taken, added := was, taken0, [];
    if want == NoKind || HasKind(was.events, want) {
      return;
    }
    var more;
    more, taken := TakeFromAcross(left, runs, s, was.change, taken0);
    added := more;
    if |more| > 0 {
      var all := was.events + more;
      ch := ExplainedChange(was.change, SortEvents(all));
      SortEventsSorts(all);
      SameMembers(ch.events, all);
    }
    if HasKind(more, want) {
      HasKindGrows(more, ch.events, want);
    }
    assert GainsPicked(left, runs, s, taken0, taken, was, ch, more);
  }

  // ----- All of them

  /** A change after the pass: it kept its events and gained only from across an edge. */
  ghost predicate Gained(left: seq<seq<VMEvent>>, runs: seq<Run>, s: nat, taken: set<Ref>,
      was: ExplainedChange, ch: ExplainedChange)
  {
    && ch.change == was.change && SoundChange(ch)
    && multiset(was.events) <= multiset(ch.events)
    && forall e :: e in ch.events ==> e in was.events || FromAcross(left, runs, s, taken, e)
  }

  ghost predicate SpanGained(left: seq<seq<VMEvent>>, runs: seq<Run>, s: nat, taken: set<Ref>,
      was: EventSpan, span: EventSpan)
  {
    && span.from == was.from && span.to == was.to && span.unexplained == was.unexplained
    && |span.changes| == |was.changes|
    && forall c :: 0 <= c < |was.changes| ==> Gained(left, runs, s, taken, was.changes[c], span.changes[c])
  }

  ghost predicate StarvedUpTo(left: seq<seq<VMEvent>>, spans: seq<EventSpan>, runs: seq<Run>, taken: set<Ref>,
      s: nat, c: nat)
  {
    forall j, k :: 0 <= j < |spans| && 0 <= k < |spans[j].changes| && (j < s || (j == s && k < c)) ==>
      Starved(left, runs, j, taken, spans[j].changes[k])
  }

  /** The pass has dealt with every change of the spans before s and the first c of span s. */
  ghost predicate RepairState(orig: seq<EventSpan>, spans: seq<EventSpan>, runs: seq<Run>, taken: set<Ref>,
      s: nat, c: nat)
  {
    var left := UnexplainedLists(orig);
    && |spans| == |orig| == |runs| + 1
    && (forall j :: 0 <= j < |orig| ==> SpanGained(left, runs, j, taken, orig[j], spans[j]))
    && StarvedUpTo(left, spans, runs, taken, s, c)
    && SameTotal(orig, spans, left, taken)
  }

  /** What the changes gained is what the unexplained events lost. */
  ghost predicate SameTotal(orig: seq<EventSpan>, spans: seq<EventSpan>, left: seq<seq<VMEvent>>, taken: set<Ref>) {
    Sum(AttachedLists(orig)) + InLists(left) == Sum(AttachedLists(spans)) + InLists(KeptLists(left, taken))
  }

  lemma GainedMore(left: seq<seq<VMEvent>>, runs: seq<Run>, s: nat, taken: set<Ref>, more: set<Ref>,
      was: ExplainedChange, ch: ExplainedChange)
    requires Gained(left, runs, s, taken, was, ch) && taken <= more
    ensures Gained(left, runs, s, more, was, ch)
  {
  }

  lemma StarvedStep(left: seq<seq<VMEvent>>, was: seq<EventSpan>, spans: seq<EventSpan>, runs: seq<Run>,
      taken: set<Ref>, more: set<Ref>, s: nat, c: nat, ch: ExplainedChange)
    requires StarvedUpTo(left, was, runs, taken, s, c) && taken <= more && s < |was| && c < |was[s].changes|
    requires spans == was[s := was[s].(changes := was[s].changes[c := ch])]
    requires Starved(left, runs, s, more, ch)
    ensures StarvedUpTo(left, spans, runs, more, s, c + 1)
  {
    forall j, k | 0 <= j < |spans| && 0 <= k < |spans[j].changes| && (j < s || (j == s && k < c + 1))
      ensures Starved(left, runs, j, more, spans[j].changes[k])
    {
      if !(j == s && k == c) {
        assert spans[j].changes[k] == was[j].changes[k];
        assert Starved(left, runs, j, taken, was[j].changes[k]);
      }
    }
  }

  lemma GainedAgain(left: seq<seq<VMEvent>>, runs: seq<Run>, s: nat, taken: set<Ref>, more: set<Ref>,
      first: ExplainedChange, was: ExplainedChange, ch: ExplainedChange, added: seq<VMEvent>)
    requires Gained(left, runs, s, taken, first, was) && Gains(left, runs, s, taken, more, was, ch, added)
    requires SoundChange(ch)
    ensures Gained(left, runs, s, more, first, ch)
  {
    GainedMore(left, runs, s, taken, more, first, was);
    assert multiset(first.events) <= multiset(was.events) <= multiset(ch.events);
    forall e | e in ch.events ensures e in first.events || FromAcross(left, runs, s, more, e) {
      assert e in multiset(was.events) + multiset(added);
      assert e in was.events || e in added;
    }
  }

  lemma GainStep(left: seq<seq<VMEvent>>, orig: seq<EventSpan>, was: seq<EventSpan>, spans: seq<EventSpan>, runs: seq<Run>,
      taken: set<Ref>, more: set<Ref>, s: nat, c: nat, ch: ExplainedChange, added: seq<VMEvent>)
    requires |orig| == |was| && s < |was| && c < |was[s].changes|
    requires forall j :: 0 <= j < |orig| ==> SpanGained(left, runs, j, taken, orig[j], was[j])
    requires spans == was[s := was[s].(changes := was[s].changes[c := ch])]
    requires Gains(left, runs, s, taken, more, was[s].changes[c], ch, added) && SoundChange(ch)
    ensures forall j :: 0 <= j < |orig| ==> SpanGained(left, runs, j, more, orig[j], spans[j])
  {
    forall j | 0 <= j < |orig| ensures SpanGained(left, runs, j, more, orig[j], spans[j]) {
      assert SpanGained(left, runs, j, taken, orig[j], was[j]);
      forall k | 0 <= k < |orig[j].changes| ensures Gained(left, runs, j, more, orig[j].changes[k], spans[j].changes[k]) {
        if j == s && k == c {
          GainedAgain(left, runs, s, taken, more, orig[s].changes[c], was[s].changes[c], ch, added);
        } else {
          GainedMore(left, runs, j, taken, more, orig[j].changes[k], was[j].changes[k]);
        }
      }
    }
  }

  lemma RepairStep(orig: seq<EventSpan>, was: seq<EventSpan>, spans: seq<EventSpan>, runs: seq<Run>,
      taken: set<Ref>, more: set<Ref>, s: nat, c: nat, ch: ExplainedChange, added: seq<VMEvent>)
    requires RepairState(orig, was, runs, taken, s, c) && s < |was| && c < |was[s].changes|
    requires spans == was[s := was[s].(changes := was[s].changes[c := ch])]
    requires Gains(UnexplainedLists(orig), runs, s, taken, more, was[s].changes[c], ch, added)
    requires SoundChange(ch) && Starved(UnexplainedLists(orig), runs, s, more, ch)
    ensures RepairState(orig, spans, runs, more, s, c + 1)
  {
    var left := UnexplainedLists(orig);
    GainStep(left, orig, was, spans, runs, taken, more, s, c, ch, added);
    StarvedStep(left, was, spans, runs, taken, more, s, c, ch);
    SameTotalStep(orig, was, spans, left, taken, more, s, c, ch, added);
  }

  lemma SameTotalStep(orig: seq<EventSpan>, was: seq<EventSpan>, spans: seq<EventSpan>, left: seq<seq<VMEvent>>,
      taken: set<Ref>, more: set<Ref>, s: nat, c: nat, ch: ExplainedChange, added: seq<VMEvent>)
    requires SameTotal(orig, was, left, taken) && s < |was| && c < |was[s].changes|
    requires spans == was[s := was[s].(changes := was[s].changes[c := ch])]
    requires multiset(ch.events) == multiset(was[s].changes[c].events) + multiset(added)
    requires InLists(KeptLists(left, taken)) == InLists(KeptLists(left, more)) + multiset(added)
    ensures SameTotal(orig, spans, left, more)
  {
    RepairBalance(was, spans, s, c, ch, added);
    Swap(Sum(AttachedLists(was)), multiset(added), InLists(KeptLists(left, more)));
  }

  lemma RepairBalance(was: seq<EventSpan>, spans: seq<EventSpan>, s: nat, c: nat, ch: ExplainedChange, added: seq<VMEvent>)
    requires s < |was| && c < |was[s].changes|
    requires spans == was[s := was[s].(changes := was[s].changes[c := ch])]
    requires multiset(ch.events) == multiset(was[s].changes[c].events) + multiset(added)
    ensures Sum(AttachedLists(spans)) == Sum(AttachedLists(was)) + multiset(added)
  {
    var before, after := was[s].changes, spans[s].changes;
    AttachedUpdate(before, c, ch);
    var had := multiset(before[c].events);
    assert Attached(after) + had == (Attached(before) + multiset(added)) + had;
    Cancel(Attached(after), Attached(before) + multiset(added), had);
    SumUpdate(AttachedLists(was), s, Attached(after));
    assert AttachedLists(spans) == AttachedLists(was)[s := Attached(after)];
    Swap(Sum(AttachedLists(was)), Attached(before), multiset(added));
    Cancel(Sum(AttachedLists(spans)), Sum(AttachedLists(was)) + multiset(added), Attached(before));
  }

  lemma RepairStart(orig: seq<EventSpan>, runs: seq<Run>)
    requires |orig| == |runs| + 1 && forall j :: 0 <= j < |orig| ==> Sound(orig[j].changes)
    ensures RepairState(orig, orig, runs, {}, 0, 0)
  {
    var left := UnexplainedLists(orig);
    forall j: nat | j < |left| ensures KeptLists(left, {})[j] == left[j] {
      KeptAll(left[j], j);
    }
    assert KeptLists(left, {}) == left;
  }

  lemma OneFlag(change: HistoryEvent, pool: seq<VMEvent>, k: nat)
    requires change.kind != Renamed && change.kind != Modified && k < |pool| && PickedFlags(change, pool)[k]
    ensures PickedFlags(change, pool) == NoneUsed(|pool|)[k := true]
  {
    var none, flags := NoneUsed(|pool|), PickedFlags(change, pool);
    forall m: nat | m < |pool| ensures flags[m] == none[k := true][m] {
      if flags[m] {
        OnlyPick(change, pool, k, m);
      }
    }
  }

  lemma OnlyPick(change: HistoryEvent, pool: seq<VMEvent>, k: nat, m: nat)
    requires change.kind != Renamed && change.kind != Modified
    requires Picked(change, pool, NoneUsed(|pool|), |pool|, k) && Picked(change, pool, NoneUsed(|pool|), |pool|, m)
    ensures k == m
  {
  }

  /** When the rule picks at most one event, the rest of the pool is left. */
  lemma OnePick(change: HistoryEvent, pool: seq<VMEvent>)
    requires change.kind != Renamed && change.kind != Modified
    ensures |pool| <= |Unused(pool, PickedFlags(change, pool))| + 1
  {
    var none, flags := NoneUsed(|pool|), PickedFlags(change, pool);
    UnusedAll(pool, none);
    assert |pool| == |multiset(pool)|;
    if k: nat :| k < |pool| && flags[k] {
      OneFlag(change, pool, k);
      UnusedMark(pool, none, k);
    } else {
      UnusedAll(pool, flags);
    }
  }

  /** Repair attaches at most one event to a change that is neither a rename nor a modification, however
      many events across the edges would fit it. */
  lemma GainsAtMostOne(left: seq<seq<VMEvent>>, runs: seq<Run>, s: nat, taken: set<Ref>, taken': set<Ref>,
      was: ExplainedChange, ch: ExplainedChange)
    requires RepairsOne(left, runs, s, taken, taken', was, ch)
    requires was.change.kind != Renamed && was.change.kind != Modified
    ensures |ch.events| <= |was.events| + 1
  {
    if ch != was {
      var added :| GainsPicked(left, runs, s, taken, taken', was, ch, added);
      var pool :| PicksFrom(left, PoolRefs(left, runs, s, taken), pool, taken, taken', was.change, added);
      OnePick(was.change, pool);
      assert |multiset(pool)| == |Unused(pool, PickedFlags(was.change, pool))| + |multiset(added)|;
      assert |multiset(ch.events)| == |multiset(was.events)| + |multiset(added)|;
    }
  }

  // ----- In turn

  /** The changes of a span are repaired one after the other; row records what was taken in between. */
  ghost predicate RowRepairs(left: seq<seq<VMEvent>>, runs: seq<Run>, s: nat, was: seq<ExplainedChange>, now: seq<ExplainedChange>,
      row: seq<set<Ref>>)
  {
    && |row| == |was| + 1 == |now| + 1
    && forall c :: 0 <= c < |was| ==> RepairsOne(left, runs, s, row[c], row[c + 1], was[c], now[c])
  }

  /** What is taken when the last of the rows ends. */
  ghost function TakenAfter(rows: seq<seq<set<Ref>>>): set<Ref> {
    if rows == [] || rows[|rows| - 1] == [] then {} else rows[|rows| - 1][|rows[|rows| - 1]| - 1]
  }

  /** Each span goes on from what those before it took. */
  ghost predicate Chained(rows: seq<seq<set<Ref>>>) {
    forall s :: 0 <= s < |rows| ==> rows[s] != [] && rows[s][0] == TakenAfter(rows[..s])
  }

  /** The spans before s are repaired in turn, and the others are as they were. */
  ghost predicate RepairedUpTo(orig: seq<EventSpan>, spans: seq<EventSpan>, runs: seq<Run>, rows: seq<seq<set<Ref>>>, s: nat) {
    && |spans| == |orig| && |rows| == s <= |orig| && Chained(rows)
    && (forall j: nat :: j < s ==> RowRepairs(UnexplainedLists(orig), runs, j, orig[j].changes, spans[j].changes, rows[j]))
    && forall j :: s <= j < |orig| ==> spans[j] == orig[j]
  }

  /** The first c changes of a span are repaired, and the others are as they were. */
  ghost predicate RowUpTo(left: seq<seq<VMEvent>>, runs: seq<Run>, s: nat, was: seq<ExplainedChange>, now: seq<ExplainedChange>,
      taken0: set<Ref>, row: seq<set<Ref>>, c: nat, taken: set<Ref>)
  {
    && |now| == |was| && |row| == c + 1 <= |was| + 1 && row[0] == taken0 && row[c] == taken
    && (forall k :: 0 <= k < c ==> RepairsOne(left, runs, s, row[k], row[k + 1], was[k], now[k]))
    && forall k :: c <= k < |was| ==> now[k] == was[k]
  }

  lemma RowNext(left: seq<seq<VMEvent>>, runs: seq<Run>, s: nat, was: seq<ExplainedChange>, now: seq<ExplainedChange>,
      taken0: set<Ref>, row: seq<set<Ref>>, c: nat, taken: set<Ref>, ch: ExplainedChange)
    requires c < |was| && c < |row| && RowUpTo(left, runs, s, was, now, taken0, row, c, row[c])
    requires RepairsOne(left, runs, s, row[c], taken, now[c], ch)
    ensures RowUpTo(left, runs, s, was, now[c := ch], taken0, row + [taken], c + 1, taken)
  {
    var longer, after := row + [taken], now[c := ch];
    forall k | 0 <= k < c + 1 ensures RepairsOne(left, runs, s, longer[k], longer[k + 1], was[k], after[k]) {
      assert k < c ==> RepairsOne(left, runs, s, row[k], row[k + 1], was[k], now[k]);
    }
  }

  lemma RowsPush(orig: seq<EventSpan>, was: seq<EventSpan>, spans: seq<EventSpan>, runs: seq<Run>, rows: seq<seq<set<Ref>>>, s: nat,
      row: seq<set<Ref>>)
    requires RepairedUpTo(orig, was, runs, rows, s) && s < |orig| && |spans| == |orig|
    requires forall j :: 0 <= j < |orig| && j != s ==> spans[j] == was[j]
    requires RowRepairs(UnexplainedLists(orig), runs, s, orig[s].changes, spans[s].changes, row) && row[0] == TakenAfter(rows)
    ensures RepairedUpTo(orig, spans, runs, rows + [row], s + 1)
    ensures TakenAfter(rows + [row]) == row[|row| - 1]
  {
    var more := rows + [row];
    forall j | 0 <= j < |more| ensures more[j] != [] && more[j][0] == TakenAfter(more[..j]) {
      assert more[..j] == rows[..j];
      assert j == s ==> rows[..j] == rows;
    }
  }

  /** The first pass: every change in turn takes what it can from across the edges. */
  method TakeAcross(spans: array<EventSpan>, runs: seq<Run>) returns (taken: set<Ref>, ghost rows: seq<seq<set<Ref>>>)
    requires spans.Length == |runs| + 1 && forall j :: 0 <= j < spans.Length ==> Sound(spans[j].changes)
    modifies spans
    ensures RepairState(old(spans[..]), spans[..], runs, taken, spans.Length, 0)
    ensures RepairedUpTo(old(spans[..]), spans[..], runs, rows, spans.Length) && taken == TakenAfter(rows)
  {
    ghost var orig := spans[..];
    var left := UnexplainedLists(spans[..]);
    taken, rows := {}, [];
    RepairStart(orig, runs);
    for s := 0 to spans.Length
      invariant RepairState(orig, spans[..], runs, taken, s, 0)
      invariant RepairedUpTo(orig, spans[..], runs, rows, s) && taken == TakenAfter(rows)
    {
      ghost var was := spans[..];
      ghost var row;
      taken, row := TakeAcrossSpan(spans, runs, left, taken, s, orig);
      RowsPush(orig, was, spans[..], runs, rows, s, row);
      rows := rows + [row];
    }
  }

  /** The pass is at change c of span s, and row says how it got there. */
  ghost predicate At(orig: seq<EventSpan>, spans: seq<EventSpan>, runs: seq<Run>, taken0: set<Ref>, row: seq<set<Ref>>, taken: set<Ref>,
      s: nat, c: nat)
  {
    && RepairState(orig, spans, runs, taken, s, c) && s < |spans|
    && RowUpTo(UnexplainedLists(orig), runs, s, orig[s].changes, spans[s].changes, taken0, row, c, taken)
  }

  /** The changes of one span in turn. */
  method TakeAcrossSpan(spans: array<EventSpan>, runs: seq<Run>, left: seq<seq<VMEvent>>, taken0: set<Ref>, s: nat,
      ghost orig: seq<EventSpan>)
    returns (taken: set<Ref>, ghost row: seq<set<Ref>>)
    requires RepairState(orig, spans[..], runs, taken0, s, 0) && left == UnexplainedLists(orig)
    requires s < spans.Length && spans[s] == orig[s]
    modifies spans
    ensures RepairState(orig, spans[..], runs, taken, s + 1, 0)
    ensures RowRepairs(left, runs, s, orig[s].changes, spans[s].changes, row) && row[0] == taken0 && row[|row| - 1] == taken
    ensures forall j :: 0 <= j < spans.Length && j != s ==> spans[j] == old(spans[j])
  {
    taken, row := taken0, [taken0];
    var c, n := 0, |spans[s].changes|;
    while c < n
      invariant 0 <= c <= n == |spans[s].changes|
      invariant At(orig, spans[..], runs, taken0, row, taken, s, c)
      invariant forall j :: 0 <= j < spans.Length && j != s ==> spans[j] == old(spans[j])
    {
      taken, row := TakeAcrossOne(spans, runs, left, taken, s, c, orig, taken0, row);
      c := c + 1;
    }
    RowEnds(orig, spans[..], runs, taken0, row, taken, s);
  }

  lemma RowEnds(orig: seq<EventSpan>, spans: seq<EventSpan>, runs: seq<Run>, taken0: set<Ref>, row: seq<set<Ref>>, taken: set<Ref>, s: nat)
    requires s < |spans| && At(orig, spans, runs, taken0, row, taken, s, |spans[s].changes|)
    ensures RepairState(orig, spans, runs, taken, s + 1, 0)
    ensures RowRepairs(UnexplainedLists(orig), runs, s, orig[s].changes, spans[s].changes, row)
    ensures row[0] == taken0 && row[|row| - 1] == taken
  {
    RepairNextSpan(orig, spans, runs, taken, s);
  }

  lemma RepairNextSpan(orig: seq<EventSpan>, spans: seq<EventSpan>, runs: seq<Run>, taken: set<Ref>, s: nat)
    requires s < |spans| && RepairState(orig, spans, runs, taken, s, |spans[s].changes|)
    ensures RepairState(orig, spans, runs, taken, s + 1, 0)
  {
  }

  method TakeAcrossOne(spans: array<EventSpan>, runs: seq<Run>, left: seq<seq<VMEvent>>, taken1: set<Ref>,
      s: nat, c: nat, ghost orig: seq<EventSpan>, ghost taken0: set<Ref>, ghost row1: seq<set<Ref>>)
    returns (taken: set<Ref>, ghost row: seq<set<Ref>>)
    requires s < spans.Length && c < |spans[s].changes| && left == UnexplainedLists(orig)
    requires At(orig, spans[..], runs, taken0, row1, taken1, s, c)
    modifies spans
    ensures At(orig, spans[..], runs, taken0, row, taken, s, c + 1)
    ensures |spans[s].changes| == |old(spans[s].changes)|
    ensures forall j :: 0 <= j < spans.Length && j != s ==> spans[j] == old(spans[j])
  {
    ghost var was := spans[..];
    var before := spans[s].changes[c];
    assert SpanGained(left, runs, s, taken1, orig[s], was[s]);
    assert Gained(left, runs, s, taken1, orig[s].changes[c], was[s].changes[c]);
    var ch;
    ghost var added;
    ch, taken, added := RepairChange(left, runs, s, before, taken1);
    spans[s] := spans[s].(changes := spans[s].changes[c := ch]);
    row := row1 + [taken];
    assert spans[..] == was[s := was[s].(changes := was[s].changes[c := ch])];
    RepairStep(orig, was, spans[..], runs, taken1, taken, s, c, ch, added);
    RowNext(left, runs, s, orig[s].changes, was[s].changes, taken0, row1, c, taken, ch);
  }

  method KeepUntaken(unexplained: seq<VMEvent>, taken: set<Ref>, s: nat) returns (kept: seq<VMEvent>)
    ensures kept == Kept(unexplained, taken, s)
  {
    kept := [];
    for k := 0 to |unexplained|
      invariant kept == Kept(unexplained[..k], taken, s)
    {
      assert unexplained[..k + 1][..k] == unexplained[..k];
      if Ref(s, k) !in taken {
        kept := kept + [unexplained[k]];
      }
    }
    assert unexplained[..|unexplained|] == unexplained;
  }

  /** An unexplained event of a neighboring span, within tolerance of the edge between. */
  ghost predicate AcrossEdge(spans: seq<EventSpan>, runs: seq<Run>, s: nat, e: VMEvent) {
    || (0 < s <= |runs| && s <= |spans| && e in spans[s - 1].unexplained && NearBefore(e, runs[s - 1]))
    || (s < |runs| && s + 1 < |spans| && e in spans[s + 1].unexplained && NearAfter(e, runs[s]))
  }

  /** A span after repair: no event left a change, and every one gained came across an edge. */
  ghost predicate Repaired(orig: seq<EventSpan>, runs: seq<Run>, s: nat, span: EventSpan)
    requires s < |orig|
  {
    && span.from == orig[s].from && span.to == orig[s].to
    && |span.changes| == |orig[s].changes|
    && (forall e :: e in span.unexplained ==> e in orig[s].unexplained)
    && forall c :: 0 <= c < |span.changes| ==> RepairedChange(orig, runs, s, orig[s].changes[c], span.changes[c])
  }

  ghost predicate RepairedChange(orig: seq<EventSpan>, runs: seq<Run>, s: nat, was: ExplainedChange, ch: ExplainedChange) {
    && ch.change == was.change && SoundChange(ch)
    && multiset(was.events) <= multiset(ch.events)
    && forall e :: e in ch.events ==> e in was.events || AcrossEdge(orig, runs, s, e)
  }

  /** A change still without an event of its own kind matches none of that kind left across
      its edges. */
  ghost predicate NothingLeft(spans: seq<EventSpan>, runs: seq<Run>, s: nat, ch: ExplainedChange) {
    var want := ExplainedBy(ch.change.kind);
    want != NoKind && !HasKind(ch.events, want) ==>
      forall e :: AcrossEdge(spans, runs, s, e) && e.explains == want ==> !Matches(ch.change, e)
  }

  lemma RepairedFromGained(orig: seq<EventSpan>, runs: seq<Run>, taken: set<Ref>, s: nat, was: EventSpan)
    requires |orig| == |runs| + 1 && s < |orig|
    requires SpanGained(UnexplainedLists(orig), runs, s, taken, orig[s], was)
    ensures Repaired(orig, runs, s, was.(unexplained := Kept(was.unexplained, taken, s)))
  {
    var left := UnexplainedLists(orig);
    forall e | e in Kept(was.unexplained, taken, s) ensures e in orig[s].unexplained {
      KeptMembers(was.unexplained, taken, s, e);
    }
    forall c | 0 <= c < |was.changes| ensures RepairedChange(orig, runs, s, orig[s].changes[c], was.changes[c]) {
      assert Gained(left, runs, s, taken, orig[s].changes[c], was.changes[c]);
      forall e | e in was.changes[c].events && e !in orig[s].changes[c].events ensures AcrossEdge(orig, runs, s, e) {
        var r :| r in taken && NearRef(left, runs, s, r) && EventAt(left, r) == e;
      }
    }
  }

  lemma NothingLeftFromStarved(orig: seq<EventSpan>, spans: seq<EventSpan>, runs: seq<Run>, taken: set<Ref>,
      s: nat, ch: ExplainedChange)
    requires |orig| == |spans| == |runs| + 1 && s < |orig|
    requires forall j: nat :: j < |spans| ==> spans[j].unexplained == Kept(orig[j].unexplained, taken, j)
    requires Starved(UnexplainedLists(orig), runs, s, taken, ch)
    ensures NothingLeft(spans, runs, s, ch)
  {
    var left := UnexplainedLists(orig);
    var want := ExplainedBy(ch.change.kind);
    if want != NoKind && !HasKind(ch.events, want) {
      forall e | AcrossEdge(spans, runs, s, e) && e.explains == want ensures !Matches(ch.change, e) {
        var j: nat := if s > 0 && e in spans[s - 1].unexplained && NearBefore(e, runs[s - 1]) then s - 1 else s + 1;
        KeptMembers(orig[j].unexplained, taken, j, e);
        var k: nat :| k < |orig[j].unexplained| && Ref(j, k) !in taken && orig[j].unexplained[k] == e;
        assert NearRef(left, runs, s, Ref(j, k)) && EventAt(left, Ref(j, k)) == e;
      }
    }
  }

  /** The second pass: the taken events leave the unexplained lists they were in. */
  method DropTaken(spans: array<EventSpan>, taken: set<Ref>)
    modifies spans
    ensures forall j: nat :: j < spans.Length ==>
      spans[j] == old(spans[j]).(unexplained := Kept(old(spans[j].unexplained), taken, j))
  {
    for s := 0 to spans.Length
      invariant forall j: nat :: j < s ==>
        spans[j] == old(spans[j]).(unexplained := Kept(old(spans[j].unexplained), taken, j))
      invariant forall j :: s <= j < spans.Length ==> spans[j] == old(spans[j])
    {
      var kept := KeepUntaken(spans[s].unexplained, taken, s);
      spans[s] := spans[s].(unexplained := kept);
    }
  }

  /** Every span is repaired, and no change left without an event of its kind could have one. */
  ghost predicate AllRepaired(orig: seq<EventSpan>, spans: seq<EventSpan>, runs: seq<Run>) {
    && |spans| == |orig|
    && (forall s: nat :: s < |spans| ==> Repaired(orig, runs, s, spans[s]))
    && forall s: nat, c :: s < |spans| && 0 <= c < |spans[s].changes| ==> NothingLeft(spans, runs, s, spans[s].changes[c])
  }

  /** The repair as a whole: span after span and change after change takes what the rule picks from what
      is left across its edges, and what was taken leaves the unexplained events. */
  ghost predicate RepairsInTurn(orig: seq<EventSpan>, spans: seq<EventSpan>, runs: seq<Run>, rows: seq<seq<set<Ref>>>) {
    && |spans| == |orig| == |rows| && Chained(rows)
    && forall s: nat :: s < |spans| ==>
      && RowRepairs(UnexplainedLists(orig), runs, s, orig[s].changes, spans[s].changes, rows[s])
      && spans[s] == orig[s].(changes := spans[s].changes, unexplained := Kept(orig[s].unexplained, TakenAfter(rows), s))
  }

  lemma RepairedInTurn(orig: seq<EventSpan>, was: seq<EventSpan>, spans: seq<EventSpan>, runs: seq<Run>, taken: set<Ref>,
      rows: seq<seq<set<Ref>>>)
    requires RepairState(orig, was, runs, taken, |was|, 0) && RepairedUpTo(orig, was, runs, rows, |was|) && taken == TakenAfter(rows)
    requires |spans| == |was| && forall j: nat :: j < |was| ==> spans[j] == was[j].(unexplained := Kept(was[j].unexplained, taken, j))
    ensures RepairsInTurn(orig, spans, runs, rows)
  {
    forall s: nat | s < |spans|
      ensures spans[s] == orig[s].(changes := spans[s].changes, unexplained := Kept(orig[s].unexplained, taken, s))
    {
      assert SpanGained(UnexplainedLists(orig), runs, s, taken, orig[s], was[s]);
    }
  }

  lemma RepairDone(orig: seq<EventSpan>, was: seq<EventSpan>, spans: seq<EventSpan>, runs: seq<Run>, taken: set<Ref>)
    requires RepairState(orig, was, runs, taken, |was|, 0) && |spans| == |was| == |orig|
    requires forall j: nat :: j < |was| ==> spans[j] == was[j].(unexplained := Kept(was[j].unexplained, taken, j))
    ensures AllRepaired(orig, spans, runs)
  {
    var left := UnexplainedLists(orig);
    assert forall j: nat :: j < |was| ==> SpanGained(left, runs, j, taken, orig[j], was[j]);
    forall s: nat | s < |spans| ensures Repaired(orig, runs, s, spans[s]) {
      RepairedFromGained(orig, runs, taken, s, was[s]);
    }
    forall s: nat, c | s < |spans| && 0 <= c < |spans[s].changes|
      ensures NothingLeft(spans, runs, s, spans[s].changes[c])
    {
      assert Starved(left, runs, s, taken, was[s].changes[c]);
      NothingLeftFromStarved(orig, spans, runs, taken, s, was[s].changes[c]);
    }
  }

  /** Looks across run edges for the events clock skew put on the wrong side. */
  method RepairBoundaries(spans: array<EventSpan>, runs: seq<Run>) returns (ghost rows: seq<seq<set<Ref>>>)
    requires spans.Length == |runs| + 1 && forall j :: 0 <= j < spans.Length ==> Sound(spans[j].changes)
    modifies spans
    ensures AllEvents(spans[..]) == AllEvents(old(spans[..]))
    ensures AllRepaired(old(spans[..]), spans[..], runs)
    ensures RepairsInTurn(old(spans[..]), spans[..], runs, rows)
  {
    ghost var orig := spans[..];
    var taken;
    taken, rows := TakeAcross(spans, runs);
    ghost var was := spans[..];
    DropTaken(spans, taken);
    RepairTotals(orig, was, spans[..], runs, taken);
    RepairDone(orig, was, spans[..], runs, taken);
    RepairedInTurn(orig, was, spans[..], runs, taken, rows);
  }

  lemma RepairTotals(orig: seq<EventSpan>, was: seq<EventSpan>, spans: seq<EventSpan>, runs: seq<Run>, taken: set<Ref>)
    requires RepairState(orig, was, runs, taken, |was|, 0) && |spans| == |was|
    requires forall j: nat :: j < |was| ==> spans[j] == was[j].(unexplained := Kept(was[j].unexplained, taken, j))
    ensures AllEvents(spans) == AllEvents(orig)
  {
    AllEventsSplit(orig);
    AllEventsSplit(spans);
    assert AttachedLists(spans) == AttachedLists(was);
    assert UnexplainedLists(spans) == KeptLists(UnexplainedLists(orig), taken);
  }
}
