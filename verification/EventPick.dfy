/** Which events account for one stored change: the rule, stated without the loops that apply
    it, the methods that apply it, and what the rule guarantees. */
module EventPick {
  import opened Common
  import opened Events
  import opened Sorting

  ghost predicate Candidate(change: HistoryEvent, events: seq<VMEvent>, used: seq<bool>, i: nat) {
    i < |events| && i < |used| && !used[i] && CanExplain(change, events[i])
  }

  /** Event j comes after event i in time, ties by position. */
  predicate Later(events: seq<VMEvent>, j: nat, i: nat)
    requires i < |events| && j < |events|
  {
    events[j].time > events[i].time || (events[j].time == events[i].time && j > i)
  }

  ghost predicate Setter(change: HistoryEvent, events: seq<VMEvent>, used: seq<bool>, f: string, i: nat) {
    Candidate(change, events, used, i) && SetsRecorded(change, events[i], f)
  }

  /** Last writer wins: i is the last event before index gap to set f to the recorded value,
      or, when none before gap did, the last one after. */
  ghost predicate IsCause(change: HistoryEvent, events: seq<VMEvent>, used: seq<bool>, gap: nat, f: string, i: nat) {
    && Setter(change, events, used, f, i)
    && (if i < gap then
          forall j: nat :: Setter(change, events, used, f, j) && j < gap && j != i ==> Later(events, i, j)
        else
          forall j: nat :: Setter(change, events, used, f, j) && j != i ==> gap <= j && Later(events, i, j))
  }

  ghost predicate Credited(change: HistoryEvent, events: seq<VMEvent>, used: seq<bool>, gap: nat, i: nat)
    requires i < |events|
  {
    || events[i].fields == []
    || exists f :: CreditedFor(change, events, used, gap, f, i)
  }

  ghost predicate CreditedFor(change: HistoryEvent, events: seq<VMEvent>, used: seq<bool>, gap: nat, f: string, i: nat)
    requires i < |events|
  {
    TouchesUnstated(change, events[i], f) || IsCause(change, events, used, gap, f, i)
  }

  ghost predicate ExactCandidate(change: HistoryEvent, events: seq<VMEvent>, used: seq<bool>, i: nat) {
    Candidate(change, events, used, i) && ExactMigration(change, events[i])
  }

  ghost predicate EndingCandidate(change: HistoryEvent, events: seq<VMEvent>, used: seq<bool>, i: nat) {
    Candidate(change, events, used, i) && EndsOnHost(change, events[i])
  }

  ghost predicate RenameCandidate(change: HistoryEvent, events: seq<VMEvent>, used: seq<bool>, i: nat) {
    Candidate(change, events, used, i) && !IsNameReconfiguration(events[i]) && RenamesTo(change, events[i])
  }

  /** The rule: event i is among those that account for the change. */
  ghost predicate Picked(change: HistoryEvent, events: seq<VMEvent>, used: seq<bool>, gap: nat, i: nat) {
    && Candidate(change, events, used, i)
    && (if change.kind == Moved then
          if exists j: nat :: ExactCandidate(change, events, used, j) then
            && ExactCandidate(change, events, used, i)
            && forall j: nat :: ExactCandidate(change, events, used, j) ==> j <= i
          else
            && EndingCandidate(change, events, used, i)
            && forall j: nat :: EndingCandidate(change, events, used, j) ==> j <= i
        else if change.kind == Renamed then
          if IsNameReconfiguration(events[i]) then
            SetsNameTo(change, events[i])
          else
            && RenameCandidate(change, events, used, i)
            && forall j: nat :: RenameCandidate(change, events, used, j) ==> j <= i
        else if change.kind == Modified then
          ReconfigurableFields(change.changes) != [] && Credited(change, events, used, gap, i)
        else
          forall j: nat :: Candidate(change, events, used, j) ==> i <= j)
  }

  // ----- What the rule guarantees

  /** Nothing is picked that does not match the change on its own. */
  lemma PickedMatches(change: HistoryEvent, events: seq<VMEvent>, used: seq<bool>, gap: nat, i: nat)
    requires Picked(change, events, used, gap, i)
    ensures Matches(change, events[i])
  {
    if change.kind == Modified && events[i].fields != [] {
      var f :| CreditedFor(change, events, used, gap, f, i);
      assert TouchesUnstated(change, events[i], f) || SetsRecorded(change, events[i], f);
    }
  }

  /** A greatest element of a non-empty set under a total preorder. */
  lemma {:induction false} GreatestBy(le: (nat, nat) -> bool, s: set<nat>) returns (m: nat)
    requires TotalPreorder(le) && s != {}
    ensures m in s && forall j :: j in s ==> le(j, m)
    decreases s
  {
    m :| m in s;
    if s != {m} {
      var rest := s - {m};
      var r := GreatestBy(le, rest);
      assert forall j :: j in s ==> j == m || j in rest;
      if le(m, r) {
        m := r;
      }
    }
  }

  function TimeAt(events: seq<VMEvent>, i: nat): int {
    if i < |events| then events[i].time else 0
  }

  /** The last of a non-empty set of events, by time and then position. */
  lemma LastOf(events: seq<VMEvent>, s: set<nat>) returns (m: nat)
    requires s != {} && forall i :: i in s ==> i < |events|
    ensures m in s && forall j :: j in s && j != m ==> Later(events, m, j)
  {
    m := GreatestBy((a: nat, b: nat) =>
        TimeAt(events, a) < TimeAt(events, b) || (TimeAt(events, a) == TimeAt(events, b) && a <= b), s);
  }

  lemma CauseExists(change: HistoryEvent, events: seq<VMEvent>, used: seq<bool>, gap: nat, f: string, i: nat)
    returns (c: nat)
    requires Setter(change, events, used, f, i)
    ensures IsCause(change, events, used, gap, f, c)
  {
    var all := set j: nat | j < |events| && Setter(change, events, used, f, j);
    var early := set j: nat | j < |events| && j < gap && Setter(change, events, used, f, j);
    if early != {} {
      c := LastOf(events, early);
    } else {
      assert i in all;
      c := LastOf(events, all);
      assert forall j: nat :: Setter(change, events, used, f, j) ==> j in all && j !in early;
    }
  }

  /** Each field has at most one cause. */
  lemma CauseIsUnique(change: HistoryEvent, events: seq<VMEvent>, used: seq<bool>, gap: nat, f: string, i: nat, j: nat)
    requires IsCause(change, events, used, gap, f, i) && IsCause(change, events, used, gap, f, j)
    ensures i == j
  {
    assert Setter(change, events, used, f, i) && Setter(change, events, used, f, j);
  }

  /** Whenever an unused event matches the change, something is picked, and something of the
      change's own event kind if that event is of it. */
  lemma SomethingIsPicked(change: HistoryEvent, events: seq<VMEvent>, used: seq<bool>, gap: nat, i: nat)
    returns (p: nat)
    requires Candidate(change, events, used, i) && Matches(change, events[i])
    ensures Picked(change, events, used, gap, p)
    ensures events[i].explains == ExplainedBy(change.kind) ==> events[p].explains == ExplainedBy(change.kind)
  {
    if change.kind == Moved {
      var exact := set j: nat | j < |events| && ExactCandidate(change, events, used, j);
      if exact != {} {
        p := GreatestBy((a: nat, b: nat) => a <= b, exact);
        assert forall j: nat :: ExactCandidate(change, events, used, j) ==> j in exact;
        assert ExactCandidate(change, events, used, p);
      } else {
        assert forall j: nat :: ExactCandidate(change, events, used, j) ==> j in exact;
        var ending := set j: nat | j < |events| && EndingCandidate(change, events, used, j);
        assert i in ending;
        p := GreatestBy((a: nat, b: nat) => a <= b, ending);
        assert forall j: nat :: EndingCandidate(change, events, used, j) ==> j in ending;
      }
    } else if change.kind == Renamed {
      if IsNameReconfiguration(events[i]) {
        p := i;
      } else {
        var renames := set j: nat | j < |events| && RenameCandidate(change, events, used, j);
        assert i in renames;
        p := GreatestBy((a: nat, b: nat) => a <= b, renames);
        assert forall j: nat :: RenameCandidate(change, events, used, j) ==> j in renames;
      }
    } else if change.kind == Modified {
      if events[i].fields == [] {
        p := i;
      } else {
        var f :| TouchesUnstated(change, events[i], f) || SetsRecorded(change, events[i], f);
        if TouchesUnstated(change, events[i], f) {
          assert CreditedFor(change, events, used, gap, f, i);
          p := i;
        } else {
          p := CauseExists(change, events, used, gap, f, i);
          assert CreditedFor(change, events, used, gap, f, p);
          assert Credited(change, events, used, gap, p);
        }
      }
    } else {
      var all := set j: nat | j < |events| && Candidate(change, events, used, j);
      assert i in all;
      p := GreatestBy((a: nat, b: nat) => a >= b, all);
      assert forall j: nat :: Candidate(change, events, used, j) ==> j in all;
    }
  }

  // ----- The methods that apply the rule

  ghost predicate Increasing(s: seq<nat>) {
    forall a, b :: 0 <= a < b < |s| ==> s[a] < s[b]
  }

  /** candidates lists the candidate positions in order. */
  ghost predicate Lists(change: HistoryEvent, events: seq<VMEvent>, used: seq<bool>, candidates: seq<nat>) {
    && Increasing(candidates)
    && (forall m :: 0 <= m < |candidates| ==> Candidate(change, events, used, candidates[m]))
    && forall i: nat :: Candidate(change, events, used, i) ==> i in candidates
  }

  /** The last migration to fit the recorded move best. */
  method PickMigration(change: HistoryEvent, events: seq<VMEvent>, candidates: seq<nat>, ghost used: seq<bool>)
    returns (out: seq<nat>)
    requires change.kind == Moved && Lists(change, events, used, candidates)
    ensures |out| <= 1
    ensures forall gap: nat, i: nat :: i in out <==> Picked(change, events, used, gap, i)
  {
    var before, after := FieldBefore(change.changes, "host"), HostAfter(change);
    var k := |candidates| - 1;
    while k >= 0
      invariant -1 <= k < |candidates|
      invariant forall m :: k < m < |candidates| ==> !ExactMigration(change, events[candidates[m]])
    {
      var e := events[candidates[k]];
      if before != "" && e.fromHost == before && e.toHost == after {
        assert ExactCandidate(change, events, used, candidates[k]);
        return [candidates[k]];
      }
      k := k - 1;
    }
    k := |candidates| - 1;
    while k >= 0
      invariant -1 <= k < |candidates|
      invariant forall m :: k < m < |candidates| ==> !EndsOnHost(change, events[candidates[m]])
    {
      var e := events[candidates[k]];
      if e.toHost == "" || e.toHost == after {
        assert EndingCandidate(change, events, used, candidates[k]);
        return [candidates[k]];
      }
      k := k - 1;
    }
    out := [];
  }

  ghost predicate RenamePick(change: HistoryEvent, events: seq<VMEvent>, used: seq<bool>, last: Option<nat>, i: nat) {
    && Candidate(change, events, used, i)
    && if IsNameReconfiguration(events[i]) then SetsNameTo(change, events[i]) else last == Some(i)
  }

  /** From event lo on, last is the last rename event that fits, when there is one. */
  ghost predicate LastRename(change: HistoryEvent, events: seq<VMEvent>, used: seq<bool>, last: Option<nat>, lo: nat) {
    match last
    case Some(l) =>
      && lo <= l && RenameCandidate(change, events, used, l)
      && forall j: nat :: RenameCandidate(change, events, used, j) ==> j <= l
    case None => forall j: nat :: RenameCandidate(change, events, used, j) ==> j < lo
  }

  lemma RenamePicksArePicked(change: HistoryEvent, events: seq<VMEvent>, used: seq<bool>, last: Option<nat>)
    requires change.kind == Renamed && LastRename(change, events, used, last, 0)
    ensures forall gap: nat, i: nat :: RenamePick(change, events, used, last, i) <==> Picked(change, events, used, gap, i)
  {
  }

  /** The scan from the end has looked at candidates[k..]. */
  ghost predicate RenameScan(change: HistoryEvent, events: seq<VMEvent>, used: seq<bool>, candidates: seq<nat>,
      k: nat, out: seq<nat>, last: Option<nat>)
  {
    && k <= |candidates|
    && LastRename(change, events, used, last, if k < |candidates| then candidates[k] else |events|)
    && NoRepeats(out)
    && forall i :: i in out <==> i in candidates[k..] && RenamePick(change, events, used, last, i)
  }

  lemma RenameScanTakes(change: HistoryEvent, events: seq<VMEvent>, used: seq<bool>, candidates: seq<nat>,
      k: nat, out: seq<nat>, last: Option<nat>, last': Option<nat>)
    requires Lists(change, events, used, candidates) && k < |candidates|
    requires RenameScan(change, events, used, candidates, k + 1, out, last)
    requires RenamePick(change, events, used, last', candidates[k])
    requires last' == last || (last == None && last' == Some(candidates[k]))
    requires LastRename(change, events, used, last', candidates[k])
    ensures RenameScan(change, events, used, candidates, k, out + [candidates[k]], last')
  {
    NoneBetween(change, events, used, candidates, k);
    assert candidates[k..] == [candidates[k]] + candidates[k + 1..];
  }

  lemma RenameScanSkips(change: HistoryEvent, events: seq<VMEvent>, used: seq<bool>, candidates: seq<nat>,
      k: nat, out: seq<nat>, last: Option<nat>)
    requires Lists(change, events, used, candidates) && k < |candidates|
    requires RenameScan(change, events, used, candidates, k + 1, out, last)
    requires !RenamePick(change, events, used, last, candidates[k])
    requires last == None ==> !RenameCandidate(change, events, used, candidates[k])
    ensures RenameScan(change, events, used, candidates, k, out, last)
  {
    NoneBetween(change, events, used, candidates, k);
    assert candidates[k..] == [candidates[k]] + candidates[k + 1..];
  }

  /** vCenter logs one rename as a rename event and as a reconfiguration that set the name. */
  method PickRename(change: HistoryEvent, events: seq<VMEvent>, candidates: seq<nat>, ghost used: seq<bool>)
    returns (out: seq<nat>)
    requires change.kind == Renamed && Lists(change, events, used, candidates)
    ensures NoRepeats(out)
    ensures forall gap: nat, i: nat :: i in out <==> Picked(change, events, used, gap, i)
  {
    out := [];
    var renamed := false;
    ghost var last: Option<nat> := None;
    var k := |candidates|;
    while k > 0
      invariant 0 <= k <= |candidates|
      invariant renamed <==> last.Some?
      invariant RenameScan(change, events, used, candidates, k, out, last)
    {
      k := k - 1;
      var i := candidates[k];
      var e := events[i];
      NoneBetween(change, events, used, candidates, k);
      if IsNameReconfiguration(e) {
        if SetsNameTo(change, e) {
          RenameScanTakes(change, events, used, candidates, k, out, last, last);
          out := out + [i];
        } else {
          RenameScanSkips(change, events, used, candidates, k, out, last);
        }
      } else if !renamed && RenamesTo(change, e) {
        RenameScanTakes(change, events, used, candidates, k, out, last, Some(i));
        renamed, last := true, Some(i);
        out := out + [i];
      } else {
        RenameScanSkips(change, events, used, candidates, k, out, last);
      }
    }
    assert candidates[0..] == candidates;
    assert forall j: nat :: RenameCandidate(change, events, used, j) ==> j in candidates;
    RenamePicksArePicked(change, events, used, last);
  }

  lemma NoneBetween(change: HistoryEvent, events: seq<VMEvent>, used: seq<bool>, candidates: seq<nat>, k: nat)
    requires Lists(change, events, used, candidates) && k < |candidates|
    ensures forall j: nat :: Candidate(change, events, used, j) && j > candidates[k] ==>
      j >= if k + 1 < |candidates| then candidates[k + 1] else |events|
    ensures candidates[k] !in candidates[k + 1..]
  {
    forall j: nat | Candidate(change, events, used, j) && j > candidates[k]
      ensures j >= if k + 1 < |candidates| then candidates[k + 1] else |events|
    {
      assert j in candidates;
      var m :| 0 <= m < |candidates| && candidates[m] == j;
      assert m > k;
    }
  }

  function ByTime(events: seq<VMEvent>): (nat, nat) -> bool {
    (a: nat, b: nat) => TimeAt(events, a) <= TimeAt(events, b)
  }

  ghost predicate Chronological(events: seq<VMEvent>, s: seq<nat>) {
    && (forall a :: 0 <= a < |s| ==> s[a] < |events|)
    && forall a, b :: 0 <= a < b < |s| ==> Later(events, s[b], s[a])
  }

  lemma {:induction false} InsertKeepsChronology(events: seq<VMEvent>, x: nat, s: seq<nat>)
    requires Chronological(events, s) && x < |events| && forall y :: y in s ==> x < y
    ensures Chronological(events, Insert(ByTime(events), x, s))
  {
    if s == [] || ByTime(events)(x, s[0]) {
      assert Insert(ByTime(events), x, s) == [x] + s;
      forall b | 0 <= b < |s| ensures Later(events, s[b], x) {
        assert s[b] in s;
        assert b > 0 ==> Later(events, s[b], s[0]);
      }
    } else {
      assert forall y :: y in s[1..] ==> y in s;
      InsertKeepsChronology(events, x, s[1..]);
      var rest := Insert(ByTime(events), x, s[1..]);
      SameMembers(rest, s[1..] + [x]);
      assert forall y :: y in s[1..] ==> y in s;
      forall b | 0 <= b < |rest| ensures Later(events, rest[b], s[0]) {
        assert rest[b] in s[1..] + [x];
      }
    }
  }

  /** A stable sort by time puts positions in order of time and then position. */
  lemma {:induction false} SortIsChronological(events: seq<VMEvent>, s: seq<nat>)
    requires Increasing(s) && forall a :: 0 <= a < |s| ==> s[a] < |events|
    ensures Chronological(events, StableSort(ByTime(events), s))
  {
    if s != [] {
      assert Increasing(s[1..]) && forall y :: y in s[1..] ==> s[0] < y;
      SortIsChronological(events, s[1..]);
      SameMembers(StableSort(ByTime(events), s[1..]), s[1..]);
      InsertKeepsChronology(events, s[0], StableSort(ByTime(events), s[1..]));
    }
  }

  /** What the pass knows about one field: the event credited so far, and whether it was
      logged in the gap. */
  datatype Credit = Credit(cause: Option<nat>, inGap: bool)

  function CreditOf(cause: map<string, nat>, inGap: set<string>, f: string): Credit {
    Credit(if f in cause then Some(cause[f]) else None, f in inGap)
  }

  ghost function AfterEvent(change: HistoryEvent, events: seq<VMEvent>, gap: nat, f: string, c: Credit, i: nat): Credit
    requires i < |events|
  {
    if !SetsRecorded(change, events[i], f) then c
    else if i < gap then Credit(Some(i), true)
    else if c.inGap then c
    else Credit(Some(i), false)
  }

  /** Of the setters of f among the events seen, c holds the one to credit. */
  ghost predicate Tracks(change: HistoryEvent, events: seq<VMEvent>, used: seq<bool>, gap: nat, f: string,
      c: Credit, seen: set<nat>)
  {
    && (c.cause.None? ==> !c.inGap && forall j :: j in seen ==> !Setter(change, events, used, f, j))
    && (c.cause.Some? ==>
          var i := c.cause.value;
          && i in seen
          && Setter(change, events, used, f, i)
          && (i < gap <==> c.inGap)
          && forall j :: j in seen && Setter(change, events, used, f, j) && j != i ==>
               (c.inGap && gap <= j) || (Later(events, i, j) && (gap <= j || c.inGap)))
  }

  lemma TracksStep(change: HistoryEvent, events: seq<VMEvent>, used: seq<bool>, gap: nat, f: string,
      c: Credit, seen: set<nat>, i: nat)
    requires Tracks(change, events, used, gap, f, c, seen)
    requires Candidate(change, events, used, i)
    requires forall j :: j in seen ==> j < |events| && Later(events, i, j)
    ensures Tracks(change, events, used, gap, f, AfterEvent(change, events, gap, f, c, i), seen + {i})
  {
  }

  lemma TracksAll(change: HistoryEvent, events: seq<VMEvent>, used: seq<bool>, gap: nat, f: string,
      c: Credit, seen: set<nat>)
    requires Tracks(change, events, used, gap, f, c, seen)
    requires forall j: nat :: Candidate(change, events, used, j) ==> j in seen
    ensures forall i: nat :: c.cause == Some(i) <==> IsCause(change, events, used, gap, f, i)
  {
    if c.cause.Some? {
      var k := c.cause.value;
      assert IsCause(change, events, used, gap, f, k);
      forall i: nat | IsCause(change, events, used, gap, f, i) ensures i == k {
        assert Setter(change, events, used, f, i) && Setter(change, events, used, f, k);
      }
    }
  }

  /** One pass over the fields of event i. */
  method CreditFields(change: HistoryEvent, events: seq<VMEvent>, gap: nat, changed: seq<string>, i: nat,
      cause0: map<string, nat>, inGap0: set<string>)
    returns (cause: map<string, nat>, inGap: set<string>)
    requires changed == ReconfigurableFields(change.changes) && i < |events|
    ensures forall f: string ::
      CreditOf(cause, inGap, f) == AfterEvent(change, events, gap, f, CreditOf(cause0, inGap0, f), i)
  {
    cause, inGap := cause0, inGap0;
    var fields := events[i].fields;
    for m := 0 to |fields|
      invariant forall f: string ::
        var c := CreditOf(cause0, inGap0, f);
        CreditOf(cause, inGap, f) == if f in fields[..m] then AfterEvent(change, events, gap, f, c, i) else c
    {
      var f := fields[m];
      var value := SetValue(events[i], f);
      if value.Some? && f in changed && value.value == FieldAfter(change.changes, f) {
        if i < gap {
          cause, inGap := cause[f := i], inGap + {f};
        } else if f !in inGap {
          cause := cause[f := i];
        }
      }
      assert fields[..m + 1] == fields[..m] + [f];
    }
    assert fields[..|fields|] == fields;
  }

  /** Per field, the event credited with bringing it to the recorded value. */
  method FindCauses(change: HistoryEvent, events: seq<VMEvent>, ordered: seq<nat>, gap: nat, changed: seq<string>,
      ghost used: seq<bool>)
    returns (cause: map<string, nat>)
    requires changed == ReconfigurableFields(change.changes)
    requires Chronological(events, ordered)
    requires forall n :: 0 <= n < |ordered| ==> Candidate(change, events, used, ordered[n])
    requires forall j: nat :: Candidate(change, events, used, j) ==> j in ordered
    ensures forall f, i: nat :: (f in cause && cause[f] == i) <==> IsCause(change, events, used, gap, f, i)
  {
    cause := map[];
    var inGap: set<string> := {};
    ghost var seen: set<nat> := {};
    for n := 0 to |ordered|
      invariant forall j :: j in seen <==> j in ordered[..n]
      invariant forall f: string :: Tracks(change, events, used, gap, f, CreditOf(cause, inGap, f), seen)
    {
      var i := ordered[n];
      ghost var was, wasIn := cause, inGap;
      cause, inGap := CreditFields(change, events, gap, changed, i, cause, inGap);
      forall f: string ensures Tracks(change, events, used, gap, f, CreditOf(cause, inGap, f), seen + {i}) {
        TracksStep(change, events, used, gap, f, CreditOf(was, wasIn, f), seen, i);
      }
      seen := seen + {i};
    }
    forall f, i: nat ensures (f in cause && cause[f] == i) <==> IsCause(change, events, used, gap, f, i) {
      TracksAll(change, events, used, gap, f, CreditOf(cause, inGap, f), seen);
      assert CreditOf(cause, inGap, f).cause == Some(i) <==> f in cause && cause[f] == i;
    }
  }

  method PickReconfigurations(change: HistoryEvent, events: seq<VMEvent>, candidates: seq<nat>, gap: nat,
      ghost used: seq<bool>)
    returns (out: seq<nat>)
    requires change.kind == Modified && Lists(change, events, used, candidates)
    ensures NoRepeats(out)
    ensures forall i: nat :: i in out <==> Picked(change, events, used, gap, i)
  {
    out := [];
    var changed := ReconfigurableFields(change.changes);
    if changed == [] {
      return;
    }
    var ordered := StableSort(ByTime(events), candidates);
    SameMembers(ordered, candidates);
    SortIsChronological(events, candidates);
    forall n | 0 <= n < |ordered| ensures Candidate(change, events, used, ordered[n]) {
      assert ordered[n] in candidates;
    }
    var cause := FindCauses(change, events, ordered, gap, changed, used);
    out := SelectCredited(change, events, ordered, gap, changed, cause, used);
  }

  method SelectCredited(change: HistoryEvent, events: seq<VMEvent>, ordered: seq<nat>, gap: nat,
      changed: seq<string>, cause: map<string, nat>, ghost used: seq<bool>)
    returns (out: seq<nat>)
    requires changed == ReconfigurableFields(change.changes)
    requires Chronological(events, ordered)
    requires forall f, i: nat :: (f in cause && cause[f] == i) <==> IsCause(change, events, used, gap, f, i)
    ensures NoRepeats(out)
    ensures forall i: nat :: i in out <==> i in ordered && Credited(change, events, used, gap, i)
  {
    out := [];
    ghost var credited := set i | i in ordered && Credited(change, events, used, gap, i);
    for n := 0 to |ordered|
      invariant forall i :: i in out ==> i in ordered[..n]
      invariant NoRepeats(out)
      invariant forall m :: 0 <= m < n ==> (ordered[m] in out <==> ordered[m] in credited)
    {
      var i := ordered[n];
      assert forall m :: 0 <= m < n ==> Later(events, i, ordered[m]);
      assert i !in ordered[..n];
      var explains := IsCredited(change, events, gap, changed, i, cause, used);
      if explains {
        out := out + [i];
      }
    }
  }

  method IsCredited(change: HistoryEvent, events: seq<VMEvent>, gap: nat, changed: seq<string>, i: nat,
      cause: map<string, nat>, ghost used: seq<bool>)
    returns (explains: bool)
    requires changed == ReconfigurableFields(change.changes) && i < |events|
    requires forall f :: (f in cause && cause[f] == i) <==> IsCause(change, events, used, gap, f, i)
    ensures explains <==> Credited(change, events, used, gap, i)
  {
    var fields := events[i].fields;
    if |fields| == 0 {
      return true;
    }
    explains := false;
    for m := 0 to |fields|
      invariant explains ==> Credited(change, events, used, gap, i)
      invariant !explains ==> forall f :: f in fields[..m] ==> !CreditedFor(change, events, used, gap, f, i)
    {
      var f := fields[m];
      if f in changed {
        if SetValue(events[i], f).None? {
          assert CreditedFor(change, events, used, gap, f, i);
          explains := true;
        } else if f in cause && cause[f] == i {
          assert CreditedFor(change, events, used, gap, f, i);
          explains := true;
        }
      }
    }
  }

  /** The events, by position, that account for one change. */
  method Explainers(change: HistoryEvent, events: seq<VMEvent>, used: array<bool>, gap: nat)
    returns (out: seq<nat>)
    requires used.Length == |events|
    ensures NoRepeats(out)
    ensures forall i: nat :: i in out <==> Picked(change, events, used[..], gap, i)
  {
    var want := ExplainedBy(change.kind);
    if want == NoKind {
      return [];
    }
    ghost var u := used[..];
    var candidates: seq<nat> := [];
    for i := 0 to |events|
      invariant Increasing(candidates)
      invariant forall m :: 0 <= m < |candidates| ==> candidates[m] < i && Candidate(change, events, u, candidates[m])
      invariant forall j: nat :: j < i && Candidate(change, events, u, j) ==> j in candidates
    {
      var e := events[i];
      if used[i] || e.result == Failed {
        continue;
      }
      if e.explains != want && !(change.kind == Renamed && IsNameReconfiguration(e)) {
        continue;
      }
      candidates := candidates + [i];
    }
    if |candidates| == 0 {
      return [];
    }
    if change.kind == Moved {
      out := PickMigration(change, events, candidates, u);
    } else if change.kind == Renamed {
      out := PickRename(change, events, candidates, u);
    } else if change.kind == Modified {
      out := PickReconfigurations(change, events, candidates, gap, u);
    } else {
      // Lifecycle and snapshot changes: the earliest event of the kind.
      out := candidates[..1];
    }
  }
}
