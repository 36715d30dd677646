/** Pairing the snapshots of one VM between two runs. A pair has the same ID or, when an import
    made one of the IDs up, the same name and creation times less than a second apart. */
module SnapshotDiff {
  import opened Common
  import opened Inventory
  import opened Multisets

  /** name and createTime are the snapshot's; formerly is its name in the earlier run. */
  datatype SnapshotChange =
    | SnapshotChanged(vm: string, context: string, name: string, formerly: string, createTime: int)
    | SnapshotCreated(vm: string, context: string, name: string, createTime: int)
    | SnapshotRemoved(vm: string, context: string, name: string, createTime: int)

  type ByID = map<string, Snapshot>

  /** Where the IDs repeat, the last snapshot wins. */
  function Index(snaps: seq<Snapshot>): (m: ByID)
    ensures forall id :: id in m <==> exists i :: 0 <= i < |snaps| && snaps[i].id == id
    ensures forall id :: id in m ==> m[id].id == id && m[id] in snaps
  {
    if snaps == [] then map[]
    else
      var n := |snaps| - 1;
      var m := Index(snaps[..n])[snaps[n].id := snaps[n]];
      assert forall i :: 0 <= i < n ==> snaps[..n][i] == snaps[i];
      m
  }

  ghost predicate DistinctIDs(snaps: seq<Snapshot>) {
    forall i, j :: 0 <= i < j < |snaps| ==> snaps[i].id != snaps[j].id
  }

  function Abs(x: int): int { if x < 0 then -x else x }

  /** The two may be one snapshot under an ID an import made up. */
  predicate Counterpart(was: Snapshot, s: Snapshot) {
    && (was.Imported() || s.Imported())
    && was.name == s.name && Abs(was.createTime - s.createTime) < SECOND
  }

  method ImportedCounterpart(base: seq<Snapshot>, remaining: ByID, s: Snapshot) returns (found: Option<Snapshot>)
    ensures found.Some? ==>
      found.value in base && found.value.id in remaining && Counterpart(found.value, s)
    ensures found.None? ==> forall i :: 0 <= i < |base| && base[i].id in remaining ==> !Counterpart(base[i], s)
  {
    for i := 0 to |base|
      invariant forall j :: 0 <= j < i && base[j].id in remaining ==> !Counterpart(base[j], s)
    {
      var was := base[i];
      if was.id !in remaining || (!was.Imported() && !s.Imported()) {
        continue;
      }
      var gap := Abs(was.createTime - s.createTime);
      if was.name == s.name && gap < SECOND {
        return Some(was);
      }
    }
    found := None;
  }

  type Pairs = seq<Option<Snapshot>>

  predicate FirstWithID(after: seq<Snapshot>, i: nat)
    requires i < |after|
  {
    forall j :: 0 <= j < i ==> after[j].id != after[i].id
  }

  /** The pair an ID alone gives: the first later snapshot with it takes the earlier one. */
  function PairByID(before: seq<Snapshot>, after: seq<Snapshot>, i: nat): Option<Snapshot>
    requires i < |after|
  {
    if after[i].id in Index(before) && FirstWithID(after, i) then Some(Index(before)[after[i].id]) else None
  }

  predicate Paired(pairs: Pairs, id: string) {
    exists i :: 0 <= i < |pairs| && pairs[i].Some? && pairs[i].value.id == id
  }

  /** pairs[i] is the earlier snapshot of after[i]; left holds the earlier ones still free. IDs
      come first, and an earlier snapshot is paired at most once. */
  ghost predicate Pairing(before: seq<Snapshot>, after: seq<Snapshot>, pairs: Pairs, left: ByID) {
    && |pairs| == |after|
    && (forall i :: 0 <= i < |pairs| ==> PairAllowed(before, after, i, pairs[i]))
    && (forall i, j :: 0 <= i < j < |pairs| && pairs[i].Some? && pairs[j].Some? ==>
          pairs[i].value.id != pairs[j].value.id)
    && (forall id :: id in left <==> id in Index(before) && !Paired(pairs, id))
    && (forall id :: id in left ==> left[id] == Index(before)[id])
  }

  ghost predicate PairAllowed(before: seq<Snapshot>, after: seq<Snapshot>, i: nat, pair: Option<Snapshot>)
    requires i < |after|
  {
    var byID := PairByID(before, after, i);
    && (byID.Some? ==> pair == byID)
    && (byID.None? && pair.Some? ==> pair.value in before && Counterpart(pair.value, after[i]))
  }

  /** No earlier snapshot left over is the counterpart of a later one without a pair. */
  ghost predicate NoneLeft(before: seq<Snapshot>, s: Snapshot, pair: Option<Snapshot>, left: ByID) {
    pair.None? ==> forall j :: 0 <= j < |before| && before[j].id in left ==> !Counterpart(before[j], s)
  }

  // ----- What is reported

  function ChangedReport(vm: string, context: string, was: Snapshot, s: Snapshot): seq<SnapshotChange> {
    var current := was.current != s.current && !was.Imported() && !s.Imported();
    if was.name != s.name || was.description != s.description || current then
      [SnapshotChanged(vm, context, s.name, was.name, s.createTime)]
    else []
  }

  function CreatedReport(vm: string, context: string, s: Snapshot): SnapshotChange {
    SnapshotCreated(vm, context, s.name, s.createTime)
  }

  function RemovedReport(vm: string, context: string, s: Snapshot): SnapshotChange {
    SnapshotRemoved(vm, context, s.name, s.createTime)
  }

  /** The report on one later snapshot, once created ones are reported up to position settled. */
  ghost function PairReport(vm: string, context: string, pair: Option<Snapshot>, s: Snapshot, created: bool): multiset<SnapshotChange> {
    match pair
    case Some(was) => multiset(ChangedReport(vm, context, was, s))
    case None => if created then multiset{CreatedReport(vm, context, s)} else multiset{}
  }

  ghost function PairParts(vm: string, context: string, after: seq<Snapshot>, pairs: Pairs, created: set<nat>): (r: seq<multiset<SnapshotChange>>)
    requires |pairs| <= |after|
    ensures |r| == |pairs| && forall i :: 0 <= i < |r| ==> r[i] == PairReport(vm, context, pairs[i], after[i], i in created)
  {
    seq(|pairs|, i requires 0 <= i < |pairs| => PairReport(vm, context, pairs[i], after[i], i in created))
  }

  /** Everything reported on the later snapshots: those in created that have no pair as created. */
  ghost function PairReports(vm: string, context: string, after: seq<Snapshot>, pairs: Pairs, created: set<nat>): multiset<SnapshotChange>
    requires |pairs| <= |after|
  {
    Sum(PairParts(vm, context, after, pairs, created))
  }

  ghost function RemovedReports(vm: string, context: string, left: ByID): multiset<SnapshotChange> {
    if left == map[] then multiset{}
    else
      var id :| id in left;
      RemovedReports(vm, context, left - {id}) + multiset{RemovedReport(vm, context, left[id])}
  }

  /** The order in which the map is walked does not matter. */
  lemma {:induction false} RemovedInAnyOrder(vm: string, context: string, left: ByID, id: string)
    requires id in left
    ensures RemovedReports(vm, context, left)
      == RemovedReports(vm, context, left - {id}) + multiset{RemovedReport(vm, context, left[id])}
    decreases |left|
  {
    var first :| first in left && RemovedReports(vm, context, left)
      == RemovedReports(vm, context, left - {first}) + multiset{RemovedReport(vm, context, left[first])};
    if first != id {
      var rest := left - {first} - {id};
      assert left - {id} - {first} == rest;
      RemovedInAnyOrder(vm, context, left - {first}, id);
      RemovedInAnyOrder(vm, context, left - {id}, first);
      Swap(RemovedReports(vm, context, rest), multiset{RemovedReport(vm, context, left[id])},
           multiset{RemovedReport(vm, context, left[first])});
    }
  }

  // ----- The two passes

  /** The first n later snapshots have been looked up by ID. */
  ghost predicate FirstPass(vm: string, context: string, before: seq<Snapshot>, after: seq<Snapshot>, n: nat,
      pairs: Pairs, left: ByID, unmatched: seq<nat>, out: seq<SnapshotChange>)
  {
    && |pairs| == n <= |after|
    && PairedByID(before, after, pairs) && LeftAfter(before, after, n, left)
    && Unmatched(pairs, unmatched)
    && multiset(out) == PairReports(vm, context, after, pairs, {})
  }

  ghost predicate PairedByID(before: seq<Snapshot>, after: seq<Snapshot>, pairs: Pairs) {
    |pairs| <= |after| && forall i :: 0 <= i < |pairs| ==> pairs[i] == PairByID(before, after, i)
  }

  /** What the IDs of the first n later snapshots leave. */
  ghost predicate LeftAfter(before: seq<Snapshot>, after: seq<Snapshot>, n: nat, left: ByID) {
    && n <= |after|
    && (forall id :: id in left <==> id in Index(before) && forall i :: 0 <= i < n ==> after[i].id != id)
    && (forall id :: id in left ==> left[id] == Index(before)[id])
  }

  lemma LeftNext(before: seq<Snapshot>, after: seq<Snapshot>, n: nat, left: ByID)
    requires n < |after| && LeftAfter(before, after, n, left)
    ensures LeftAfter(before, after, n + 1, left - {after[n].id})
    ensures PairByID(before, after, n) == if after[n].id in left then Some(left[after[n].id]) else None
  {
  }

  /** The positions without a pair, in order. */
  ghost predicate Unmatched(pairs: Pairs, unmatched: seq<nat>) {
    && (forall m :: 0 <= m < |unmatched| ==> unmatched[m] < |pairs| && pairs[unmatched[m]].None?)
    && (forall i: nat :: i < |pairs| && pairs[i].None? ==> i in unmatched)
    && (forall a, b :: 0 <= a < b < |unmatched| ==> unmatched[a] < unmatched[b])
  }

  lemma UnmatchedPush(pairs: Pairs, unmatched: seq<nat>)
    requires Unmatched(pairs, unmatched)
    ensures Unmatched(pairs + [None], unmatched + [|pairs|])
  {
    var more := unmatched + [|pairs|];
    assert more[|unmatched|] == |pairs|;
    forall i: nat | i < |pairs| && pairs[i].None? ensures i in more {
      assert i in unmatched;
    }
  }

  lemma MatchedPush(pairs: Pairs, unmatched: seq<nat>, was: Snapshot)
    requires Unmatched(pairs, unmatched)
    ensures Unmatched(pairs + [Some(was)], unmatched)
  {
  }

  lemma PairReportsPush(vm: string, context: string, after: seq<Snapshot>, pairs: Pairs, pair: Option<Snapshot>)
    requires |pairs| < |after|
    ensures PairReports(vm, context, after, pairs + [pair], {})
      == PairReports(vm, context, after, pairs, {}) + PairReport(vm, context, pair, after[|pairs|], false)
  {
    var more := PairReport(vm, context, pair, after[|pairs|], false);
    SumPush(PairParts(vm, context, after, pairs, {}), more);
    assert PairParts(vm, context, after, pairs + [pair], {}) == PairParts(vm, context, after, pairs, {}) + [more];
  }

  lemma FirstPassMatches(vm: string, context: string, before: seq<Snapshot>, after: seq<Snapshot>, n: nat,
      pairs: Pairs, left: ByID, unmatched: seq<nat>, out: seq<SnapshotChange>)
    requires FirstPass(vm, context, before, after, n, pairs, left, unmatched, out)
    requires n < |after| && after[n].id in left
    ensures FirstPass(vm, context, before, after, n + 1, pairs + [Some(left[after[n].id])], left - {after[n].id}, unmatched,
                      out + ChangedReport(vm, context, left[after[n].id], after[n]))
  {
    PairReportsPush(vm, context, after, pairs, Some(left[after[n].id]));
    MatchedPush(pairs, unmatched, left[after[n].id]);
    LeftNext(before, after, n, left);
  }

  lemma FirstPassMisses(vm: string, context: string, before: seq<Snapshot>, after: seq<Snapshot>, n: nat,
      pairs: Pairs, left: ByID, unmatched: seq<nat>, out: seq<SnapshotChange>)
    requires FirstPass(vm, context, before, after, n, pairs, left, unmatched, out)
    requires n < |after| && after[n].id !in left
    ensures FirstPass(vm, context, before, after, n + 1, pairs + [None], left, unmatched + [n], out)
  {
    PairReportsPush(vm, context, after, pairs, None);
    UnmatchedPush(pairs, unmatched);
    LeftNext(before, after, n, left);
    assert left - {after[n].id} == left;
  }

  method MatchByID(vm: string, context: string, before: seq<Snapshot>, after: seq<Snapshot>)
    returns (out: seq<SnapshotChange>, left: ByID, unmatched: seq<nat>, ghost pairs: Pairs)
    ensures FirstPass(vm, context, before, after, |after|, pairs, left, unmatched, out)
  {
    left := Index(before);
    out, unmatched, pairs := [], [], [];
    for n := 0 to |after|
      invariant FirstPass(vm, context, before, after, n, pairs, left, unmatched, out)
    {
      var s := after[n];
      if s.id in left {
        FirstPassMatches(vm, context, before, after, n, pairs, left, unmatched, out);
        var was := left[s.id];
        left := left - {s.id};
        out := out + ChangedReport(vm, context, was, s);
        pairs := pairs + [Some(was)];
      } else {
        FirstPassMisses(vm, context, before, after, n, pairs, left, unmatched, out);
        unmatched := unmatched + [n];
        pairs := pairs + [None];
      }
    }
  }

  ghost predicate CreatedForGood(before: seq<Snapshot>, after: seq<Snapshot>, pairs: Pairs, left: ByID, created: set<nat>)
    requires |pairs| == |after|
  {
    forall i :: i in created ==> i < |after| && pairs[i].None? && NoneLeft(before, after[i], pairs[i], left)
  }

  lemma CreatedStays(before: seq<Snapshot>, after: seq<Snapshot>, pairs: Pairs, left: ByID, created: set<nat>,
      u: nat, was: Snapshot)
    requires |pairs| == |after| && CreatedForGood(before, after, pairs, left, created) && u < |after| && u !in created
    ensures CreatedForGood(before, after, pairs[u := Some(was)], left - {was.id}, created)
  {
  }

  lemma CreatedGrows(before: seq<Snapshot>, after: seq<Snapshot>, pairs: Pairs, left: ByID, created: set<nat>, u: nat)
    requires |pairs| == |after| && CreatedForGood(before, after, pairs, left, created)
    requires u < |after| && pairs[u].None? && NoneLeft(before, after[u], None, left)
    ensures CreatedForGood(before, after, pairs, left, created + {u})
  {
  }

  /** The first k snapshots without an ID match have been settled. */
  ghost predicate SecondPass(vm: string, context: string, before: seq<Snapshot>, after: seq<Snapshot>,
      unmatched: seq<nat>, k: nat, pairs: Pairs, left: ByID, created: set<nat>, out: seq<SnapshotChange>)
  {
    && k <= |unmatched|
    && Pairing(before, after, pairs, left)
    && (forall m :: 0 <= m < |unmatched| ==> unmatched[m] < |after|)
    && (forall m :: k <= m < |unmatched| ==> pairs[unmatched[m]].None? && PairByID(before, after, unmatched[m]).None?)
    && CreatedForGood(before, after, pairs, left, created)
    && (forall a, b :: 0 <= a < b < |unmatched| ==> unmatched[a] < unmatched[b])
    && CreatedOrLater(pairs, created, unmatched[k..])
    && multiset(out) == PairReports(vm, context, after, pairs, created)
  }

  /** Every position without a pair is reported as created or still to come, not both. */
  ghost predicate CreatedOrLater(pairs: Pairs, created: set<nat>, later: seq<nat>) {
    && (forall i: nat :: i < |pairs| && pairs[i].None? ==> i in created || i in later)
    && (forall i :: i in created ==> i !in later)
  }

  lemma CreatedNext(pairs: Pairs, created: set<nat>, u: nat, later: seq<nat>)
    requires CreatedOrLater(pairs, created, [u] + later) && u !in later
    ensures CreatedOrLater(pairs, created + {u}, later) && u !in created
  {
    assert u in [u] + later;
    assert forall i :: i in [u] + later <==> i == u || i in later;
  }

  lemma TakenNext(pairs: Pairs, created: set<nat>, u: nat, later: seq<nat>, was: Snapshot)
    requires u < |pairs| && CreatedOrLater(pairs, created, [u] + later) && u !in later
    ensures CreatedOrLater(pairs[u := Some(was)], created, later) && u !in created
  {
    assert u in [u] + later;
    assert forall i :: i in [u] + later <==> i == u || i in later;
  }

  lemma NotAmongLater(unmatched: seq<nat>, k: nat)
    requires k < |unmatched| && forall a, b :: 0 <= a < b < |unmatched| ==> unmatched[a] < unmatched[b]
    ensures unmatched[k..] == [unmatched[k]] + unmatched[k + 1..] && unmatched[k] !in unmatched[k + 1..]
  {
  }

  lemma PairedExactlyWhen(before: seq<Snapshot>, after: seq<Snapshot>, pairs: Pairs, id: string)
    requires PairedByID(before, after, pairs) && |pairs| == |after| && id in Index(before)
    ensures Paired(pairs, id) <==> exists i :: 0 <= i < |after| && after[i].id == id
  {
    if exists i :: 0 <= i < |after| && after[i].id == id {
      var i: nat :| i < |after| && after[i].id == id;
      FirstOccurrence(after, i);
      var f: nat :| f <= i && after[f].id == id && FirstWithID(after, f);
      assert pairs[f].Some? && pairs[f].value.id == id;
    }
  }

  lemma SecondPassStarts(vm: string, context: string, before: seq<Snapshot>, after: seq<Snapshot>,
      pairs: Pairs, left: ByID, unmatched: seq<nat>, out: seq<SnapshotChange>)
    requires FirstPass(vm, context, before, after, |after|, pairs, left, unmatched, out)
    ensures SecondPass(vm, context, before, after, unmatched, 0, pairs, left, {}, out)
  {
    forall id | id in Index(before) ensures Paired(pairs, id) <==> exists i :: 0 <= i < |after| && after[i].id == id {
      PairedExactlyWhen(before, after, pairs, id);
    }
  }

  lemma {:induction false} FirstOccurrence(after: seq<Snapshot>, i: nat)
    requires i < |after|
    ensures exists f: nat :: f <= i && after[f].id == after[i].id && FirstWithID(after, f)
  {
    if !FirstWithID(after, i) {
      var j: nat :| j < i && after[j].id == after[i].id;
      FirstOccurrence(after, j);
    }
  }

  lemma PairReportsUpdate(vm: string, context: string, after: seq<Snapshot>, pairs: Pairs, created: set<nat>,
      pairs': Pairs, created': set<nat>, u: nat, more: multiset<SnapshotChange>)
    requires |pairs| == |pairs'| == |after| && u < |after|
    requires forall i: nat :: i < |after| && i != u ==> pairs'[i] == pairs[i] && (i in created' <==> i in created)
    requires pairs[u].None? && u !in created
    requires more == PairReport(vm, context, pairs'[u], after[u], u in created')
    ensures PairReports(vm, context, after, pairs', created') == PairReports(vm, context, after, pairs, created) + more
  {
    var parts, parts' := PairParts(vm, context, after, pairs, created), PairParts(vm, context, after, pairs', created');
    SumUpdate(parts, u, more);
    assert parts' == parts[u := more];
    assert parts[u] == multiset{};
    assert Sum(parts') == Sum(parts') + multiset{};
  }

  lemma SecondPassTakes(vm: string, context: string, before: seq<Snapshot>, after: seq<Snapshot>,
      unmatched: seq<nat>, k: nat, pairs: Pairs, left: ByID, created: set<nat>, out: seq<SnapshotChange>, was: Snapshot)
    requires SecondPass(vm, context, before, after, unmatched, k, pairs, left, created, out) && k < |unmatched|
    requires was in before && was.id in left && Counterpart(was, after[unmatched[k]])
    ensures SecondPass(vm, context, before, after, unmatched, k + 1, pairs[unmatched[k] := Some(was)], left - {was.id},
                       created, out + ChangedReport(vm, context, was, after[unmatched[k]]))
  {
    var u := unmatched[k];
    var pairs' := pairs[u := Some(was)];
    NotAmongLater(unmatched, k);
    TakenNext(pairs, created, u, unmatched[k + 1..], was);
    PairReportsUpdate(vm, context, after, pairs, created, pairs', created, u, multiset(ChangedReport(vm, context, was, after[u])));
    SecondPassPairing(before, after, u, pairs, left, was);
    CreatedStays(before, after, pairs, left, created, u, was);
    forall m | k + 1 <= m < |unmatched| ensures pairs'[unmatched[m]].None? {
      assert unmatched[m] > u;
    }
  }

  lemma SecondPassPairing(before: seq<Snapshot>, after: seq<Snapshot>, u: nat, pairs: Pairs, left: ByID, was: Snapshot)
    requires Pairing(before, after, pairs, left) && u < |after| && pairs[u].None? && PairByID(before, after, u).None?
    requires was in before && was.id in left && Counterpart(was, after[u])
    ensures Pairing(before, after, pairs[u := Some(was)], left - {was.id})
  {
    var pairs' := pairs[u := Some(was)];
    forall id ensures Paired(pairs', id) <==> Paired(pairs, id) || id == was.id {
      if Paired(pairs, id) {
        var i :| 0 <= i < |pairs| && pairs[i].Some? && pairs[i].value.id == id;
        assert pairs'[i].Some? && pairs'[i].value.id == id;
      }
      assert pairs'[u].Some?;
    }
    forall i | 0 <= i < |pairs| && pairs[i].Some? ensures pairs[i].value.id != was.id {
      assert Paired(pairs, pairs[i].value.id);
    }
  }

  lemma SecondPassCreates(vm: string, context: string, before: seq<Snapshot>, after: seq<Snapshot>,
      unmatched: seq<nat>, k: nat, pairs: Pairs, left: ByID, created: set<nat>, out: seq<SnapshotChange>)
    requires SecondPass(vm, context, before, after, unmatched, k, pairs, left, created, out) && k < |unmatched|
    requires forall j :: 0 <= j < |before| && before[j].id in left ==> !Counterpart(before[j], after[unmatched[k]])
    ensures SecondPass(vm, context, before, after, unmatched, k + 1, pairs, left,
                       created + {unmatched[k]}, out + [CreatedReport(vm, context, after[unmatched[k]])])
  {
    var u := unmatched[k];
    NotAmongLater(unmatched, k);
    CreatedNext(pairs, created, u, unmatched[k + 1..]);
    PairReportsUpdate(vm, context, after, pairs, created, pairs, created + {u}, u,
      multiset{CreatedReport(vm, context, after[u])});
    CreatedGrows(before, after, pairs, left, created, u);
  }

  method MatchCounterparts(vm: string, context: string, before: seq<Snapshot>, after: seq<Snapshot>,
      unmatched: seq<nat>, left0: ByID, out0: seq<SnapshotChange>, ghost pairs0: Pairs)
    returns (out: seq<SnapshotChange>, left: ByID, ghost pairs: Pairs, ghost created: set<nat>)
    requires FirstPass(vm, context, before, after, |after|, pairs0, left0, unmatched, out0)
    ensures SecondPass(vm, context, before, after, unmatched, |unmatched|, pairs, left, created, out)
  {
    out, left, pairs, created := out0, left0, pairs0, {};
    SecondPassStarts(vm, context, before, after, pairs, left, unmatched, out);
    for k := 0 to |unmatched|
      invariant SecondPass(vm, context, before, after, unmatched, k, pairs, left, created, out)
    {
      var s := after[unmatched[k]];
      var found := ImportedCounterpart(before, left, s);
      if found.Some? {
        var was := found.value;
        SecondPassTakes(vm, context, before, after, unmatched, k, pairs, left, created, out, was);
        left := left - {was.id};
        out := out + ChangedReport(vm, context, was, s);
        pairs := pairs[unmatched[k] := Some(was)];
      } else {
        SecondPassCreates(vm, context, before, after, unmatched, k, pairs, left, created, out);
        out := out + [CreatedReport(vm, context, s)];
        created := created + {unmatched[k]};
      }
    }
  }

  method ReportRemoved(vm: string, context: string, left: ByID) returns (out: seq<SnapshotChange>)
    ensures multiset(out) == RemovedReports(vm, context, left)
  {
    out := [];
    var rest := left;
    while rest != map[]
      invariant multiset(out) + RemovedReports(vm, context, rest) == RemovedReports(vm, context, left)
      decreases |rest|
    {
      var id :| id in rest;
      RemovedInAnyOrder(vm, context, rest, id);
      out := out + [RemovedReport(vm, context, rest[id])];
      rest := rest - {id};
    }
  }

  /** The comparison pairs what it can, and reports each later snapshot by its pair and each
      earlier one left over as removed. */
  ghost predicate Compared(a: StoredVM, b: StoredVM, out: seq<SnapshotChange>, pairs: Pairs, left: ByID) {
    && Pairing(a.snapshots, b.snapshots, pairs, left)
    && (forall i :: 0 <= i < |pairs| ==> NoneLeft(a.snapshots, b.snapshots[i], pairs[i], left))
    && multiset(out)
       == PairReports(b.observation.vm.name, b.observation.context, b.snapshots, pairs, UpTo(|pairs|))
          + RemovedReports(a.observation.vm.name, a.observation.context, left)
  }

  /** out is what some such pairing of the two reports. */
  ghost predicate IsReport(a: StoredVM, b: StoredVM, out: seq<SnapshotChange>) {
    exists pairs, left :: Compared(a, b, out, pairs, left)
  }

  method CompareSnapshots(a: StoredVM, b: StoredVM) returns (out: seq<SnapshotChange>)
    ensures IsReport(a, b, out)
  {
    var vm, context := b.observation.vm.name, b.observation.context;
    ghost var pairs;
    var found, rest, unmatched;
    found, rest, unmatched, pairs := MatchByID(vm, context, a.snapshots, b.snapshots);
    ghost var created;
    out, rest, pairs, created := MatchCounterparts(vm, context, a.snapshots, b.snapshots, unmatched, rest, found, pairs);
    ghost var left := rest;
    assert unmatched[|unmatched|..] == [];
    CreatedAreAll(vm, context, b.snapshots, pairs, created);
    var removed := ReportRemoved(a.observation.vm.name, a.observation.context, rest);
    out := out + removed;
    assert Compared(a, b, out, pairs, left);
  }

  lemma CreatedOrPaired(vm: string, context: string, pair: Option<Snapshot>, s: Snapshot, created: bool)
    requires pair.None? ==> created
    ensures PairReport(vm, context, pair, s, created) == PairReport(vm, context, pair, s, true)
  {
  }

  lemma CreatedAreAll(vm: string, context: string, after: seq<Snapshot>, pairs: Pairs, created: set<nat>)
    requires |pairs| == |after| && forall i: nat :: i < |after| && pairs[i].None? ==> i in created
    ensures PairReports(vm, context, after, pairs, created) == PairReports(vm, context, after, pairs, UpTo(|pairs|))
  {
    var some, all := PairParts(vm, context, after, pairs, created), PairParts(vm, context, after, pairs, UpTo(|pairs|));
    forall i: nat | i < |pairs| ensures some[i] == all[i] {
      CreatedOrPaired(vm, context, pairs[i], after[i], i in created);
    }
    assert some == all;
  }

  // ----- What the comparison guarantees

  function Kept(pairs: Pairs): nat {
    if pairs == [] then 0 else Kept(pairs[..|pairs| - 1]) + if pairs[|pairs| - 1].Some? then 1 else 0
  }

  function Created(pairs: Pairs): nat {
    if pairs == [] then 0 else Created(pairs[..|pairs| - 1]) + if pairs[|pairs| - 1].None? then 1 else 0
  }

  ghost function PairedIDs(pairs: Pairs): set<string> {
    set i | 0 <= i < |pairs| && pairs[i].Some? :: pairs[i].value.id
  }

  lemma PairedIDsNext(pairs: Pairs)
    requires pairs != []
    ensures var n := |pairs| - 1;
      PairedIDs(pairs) == PairedIDs(pairs[..n]) + if pairs[n].Some? then {pairs[n].value.id} else {}
  {
    assert forall i :: 0 <= i < |pairs| - 1 ==> pairs[..|pairs| - 1][i] == pairs[i];
  }

  lemma {:induction false} KeptIsASize(pairs: Pairs)
    requires forall i, j :: 0 <= i < j < |pairs| && pairs[i].Some? && pairs[j].Some? ==> pairs[i].value.id != pairs[j].value.id
    ensures |PairedIDs(pairs)| == Kept(pairs)
    ensures Kept(pairs) + Created(pairs) == |pairs|
  {
    if pairs != [] {
      var n := |pairs| - 1;
      KeptIsASize(pairs[..n]);
      PairedIDsNext(pairs);
      assert pairs[n].Some? ==> pairs[n].value.id !in PairedIDs(pairs[..n]);
    }
  }

  lemma {:induction false} DistinctIndexHolds(snaps: seq<Snapshot>)
    requires DistinctIDs(snaps)
    ensures forall i :: 0 <= i < |snaps| ==> snaps[i].id in Index(snaps) && Index(snaps)[snaps[i].id] == snaps[i]
  {
    if snaps != [] {
      var n := |snaps| - 1;
      DistinctIndexHolds(snaps[..n]);
      assert forall i :: 0 <= i < n ==> snaps[..n][i] == snaps[i];
    }
  }

  lemma {:induction false} DistinctIndexSize(snaps: seq<Snapshot>)
    requires DistinctIDs(snaps)
    ensures |Index(snaps)| == |snaps|
    ensures forall i :: 0 <= i < |snaps| ==> snaps[i].id in Index(snaps) && Index(snaps)[snaps[i].id] == snaps[i]
  {
    DistinctIndexHolds(snaps);
    if snaps != [] {
      var n := |snaps| - 1;
      DistinctIndexSize(snaps[..n]);
      assert forall i :: 0 <= i < n ==> snaps[..n][i] == snaps[i];
      assert snaps[n].id !in Index(snaps[..n]);
      assert Index(snaps).Keys == Index(snaps[..n]).Keys + {snaps[n].id};
    }
  }

  lemma LeftIsUnpaired(before: seq<Snapshot>, after: seq<Snapshot>, pairs: Pairs, left: ByID)
    requires Pairing(before, after, pairs, left)
    ensures PairedIDs(pairs) <= Index(before).Keys
    ensures left.Keys == Index(before).Keys - PairedIDs(pairs)
  {
    forall i: nat | i < |pairs| && pairs[i].Some? ensures pairs[i].value.id in Index(before) {
      assert PairAllowed(before, after, i, pairs[i]);
    }
    forall id ensures id in PairedIDs(pairs) <==> Paired(pairs, id) {
    }
  }

  /** Every later snapshot is kept or created and, when the earlier IDs are distinct, every
      earlier one is kept or left over. */
  lemma PairingConserves(before: seq<Snapshot>, after: seq<Snapshot>, pairs: Pairs, left: ByID)
    requires Pairing(before, after, pairs, left) && DistinctIDs(before)
    ensures Kept(pairs) + Created(pairs) == |after|
    ensures Kept(pairs) + |left| == |before|
  {
    KeptIsASize(pairs);
    DistinctIndexSize(before);
    LeftIsUnpaired(before, after, pairs, left);
    SplitSize(left, Index(before), PairedIDs(pairs));
  }

  lemma SplitSize(left: ByID, all: ByID, paired: set<string>)
    requires paired <= all.Keys && left.Keys == all.Keys - paired
    ensures |left| + |paired| == |all|
  {
    assert |left| == |left.Keys| && |all| == |all.Keys|;
    assert all.Keys == left.Keys + paired;
  }

  predicate IsCreated(c: SnapshotChange) { c.SnapshotCreated? }

  predicate IsRemoved(c: SnapshotChange) { c.SnapshotRemoved? }

  /** The reports on the later snapshots, one after another. */
  lemma {:induction false} ReportsInOrder(vm: string, context: string, after: seq<Snapshot>, pairs: Pairs) returns (r: seq<SnapshotChange>)
    requires |pairs| <= |after|
    ensures multiset(r) == PairReports(vm, context, after, pairs, UpTo(|pairs|))
    ensures Count(r, IsCreated) == Created(pairs) && Count(r, IsRemoved) == 0
    decreases |pairs|
  {
    if pairs == [] {
      return [];
    }
    var n := |pairs| - 1;
    var front := ReportsInOrder(vm, context, after, pairs[..n]);
    var last := match pairs[n]
      case Some(was) => ChangedReport(vm, context, was, after[n])
      case None => [CreatedReport(vm, context, after[n])];
    CountOfOne(last);
    CountConcat(front, last, IsCreated);
    CountConcat(front, last, IsRemoved);
    FrontParts(vm, context, after, pairs);
    r := front + last;
  }

  lemma CountOfOne(s: seq<SnapshotChange>)
    requires |s| <= 1
    ensures Count(s, IsCreated) == (if s != [] && IsCreated(s[0]) then 1 else 0)
    ensures Count(s, IsRemoved) == if s != [] && IsRemoved(s[0]) then 1 else 0
  {
    if s != [] {
      assert s[..|s| - 1] == [];
    }
  }

  lemma FrontParts(vm: string, context: string, after: seq<Snapshot>, pairs: Pairs)
    requires 0 < |pairs| <= |after|
    ensures var n := |pairs| - 1;
      PairParts(vm, context, after, pairs, UpTo(|pairs|))[..n] == PairParts(vm, context, after, pairs[..n], UpTo(n))
  {
  }

  /** The reports on the earlier snapshots left over, one after another. */
  lemma {:induction false} RemovedInOrder(vm: string, context: string, left: ByID) returns (r: seq<SnapshotChange>)
    ensures multiset(r) == RemovedReports(vm, context, left)
    ensures Count(r, IsCreated) == 0 && Count(r, IsRemoved) == |left|
    decreases |left|
  {
    if left == map[] {
      return [];
    }
    var id :| id in left;
    var front := RemovedInOrder(vm, context, left - {id});
    var last := [RemovedReport(vm, context, left[id])];
    RemovedInAnyOrder(vm, context, left, id);
    CountOfOne(last);
    CountConcat(front, last, IsCreated);
    CountConcat(front, last, IsRemoved);
    r := front + last;
  }

  lemma ReportsCount(a: StoredVM, b: StoredVM, out: seq<SnapshotChange>, pairs: Pairs, left: ByID)
    requires Compared(a, b, out, pairs, left)
    ensures Count(out, IsCreated) == Created(pairs) && Count(out, IsRemoved) == |left|
  {
    var first := ReportsInOrder(b.observation.vm.name, b.observation.context, b.snapshots, pairs);
    var second := RemovedInOrder(a.observation.vm.name, a.observation.context, left);
    assert multiset(out) == multiset(first) + multiset(second);
    CountOfBoth(out, first, second, IsCreated);
    CountOfBoth(out, first, second, IsRemoved);
  }

  lemma CountOfBoth(out: seq<SnapshotChange>, first: seq<SnapshotChange>, second: seq<SnapshotChange>, p: SnapshotChange -> bool)
    requires multiset(out) == multiset(first) + multiset(second)
    ensures Count(out, p) == Count(first, p) + Count(second, p)
  {
    CountConcat(first, second, p);
    CountAnyOrder(out, first + second, p);
  }

  /** Conservation over the whole comparison: what is not reported created was there before, and
      what is not reported removed is still there. */
  lemma SnapshotsAreConserved(a: StoredVM, b: StoredVM, out: seq<SnapshotChange>, pairs: Pairs, left: ByID)
    requires Compared(a, b, out, pairs, left) && DistinctIDs(a.snapshots)
    ensures Kept(pairs) + Count(out, IsCreated) == |b.snapshots|
    ensures Kept(pairs) + Count(out, IsRemoved) == |a.snapshots|
  {
    PairingConserves(a.snapshots, b.snapshots, pairs, left);
    ReportsCount(a, b, out, pairs, left);
  }

  /** A pair under two different IDs has an import on one side, equal names and creation times
      less than a second apart. */
  lemma PairsAreSound(a: StoredVM, b: StoredVM, out: seq<SnapshotChange>, pairs: Pairs, left: ByID, i: nat)
    requires Compared(a, b, out, pairs, left) && i < |pairs| && pairs[i].Some?
    requires pairs[i].value.id != b.snapshots[i].id
    ensures pairs[i].value in a.snapshots && Counterpart(pairs[i].value, b.snapshots[i])
  {
    assert PairAllowed(a.snapshots, b.snapshots, i, pairs[i]);
  }

  lemma SelfPairing(snaps: seq<Snapshot>, pairs: Pairs, left: ByID)
    requires Pairing(snaps, snaps, pairs, left) && DistinctIDs(snaps)
    ensures left == map[] && forall i :: 0 <= i < |snaps| ==> pairs[i] == Some(snaps[i])
  {
    DistinctIndexSize(snaps);
    forall i: nat | i < |pairs| ensures pairs[i] == Some(snaps[i]) {
      assert PairAllowed(snaps, snaps, i, pairs[i]);
      assert FirstWithID(snaps, i);
    }
    forall id | id in Index(snaps) ensures id !in left {
      var i :| 0 <= i < |snaps| && snaps[i].id == id;
      assert pairs[i].Some? && pairs[i].value.id == id;
    }
  }

  /** Comparing a VM's snapshots with themselves reports nothing. */
  lemma SameSnapshotsReportNothing(a: StoredVM, b: StoredVM, out: seq<SnapshotChange>, pairs: Pairs, left: ByID)
    requires Compared(a, b, out, pairs, left) && a.snapshots == b.snapshots && DistinctIDs(a.snapshots)
    ensures out == []
  {
    SelfPairing(a.snapshots, pairs, left);
    SumOfNothing(PairParts(b.observation.vm.name, b.observation.context, b.snapshots, pairs, UpTo(|pairs|)));
    assert |multiset(out)| == |out|;
  }

  // ----- What the reports say, in the fields of the snapshots

  /** The two are one snapshot whose record changed; whether it is the current one counts only where
      neither ID was made up by an import. */
  predicate RecordDiffers(was: Snapshot, s: Snapshot) {
    || was.name != s.name || was.description != s.description
    || (was.current != s.current && !("import:" <= was.id) && !("import:" <= s.id))
  }

  /** The report of one later snapshot: it differs from the earlier one it is paired with, or has none. */
  ghost predicate OfOne(vm: string, context: string, pair: Option<Snapshot>, s: Snapshot, c: SnapshotChange) {
    match pair
    case Some(was) => RecordDiffers(was, s) && c == SnapshotChanged(vm, context, s.name, was.name, s.createTime)
    case None => c == SnapshotCreated(vm, context, s.name, s.createTime)
  }

  /** The report is of later snapshot i. */
  ghost predicate OfLater(vm: string, context: string, after: seq<Snapshot>, pairs: Pairs, c: SnapshotChange, i: int) {
    && 0 <= i < |pairs| && i < |after|
    && OfOne(vm, context, pairs[i], after[i], c)
  }

  /** The report is of an earlier snapshot without a pair. */
  ghost predicate OfEarlier(vm: string, context: string, left: ByID, c: SnapshotChange) {
    exists id :: id in left && c == SnapshotRemoved(vm, context, left[id].name, left[id].createTime)
  }

  lemma EarlierOrOne(vm: string, context: string, left: ByID, id: string, c: SnapshotChange)
    requires id in left
    ensures OfEarlier(vm, context, left, c) <==> OfEarlier(vm, context, left - {id}, c) || c == RemovedReport(vm, context, left[id])
  {
    var rest := left - {id};
    if x :| x in left && c == SnapshotRemoved(vm, context, left[x].name, left[x].createTime) {
      assert x != id ==> x in rest && rest[x] == left[x];
    }
    if x :| x in rest && c == SnapshotRemoved(vm, context, rest[x].name, rest[x].createTime) {
      assert x in left && left[x] == rest[x];
    }
  }

  lemma {:induction false} RemovedIs(vm: string, context: string, left: ByID, c: SnapshotChange)
    ensures c in RemovedReports(vm, context, left) <==> OfEarlier(vm, context, left, c)
    decreases |left|
  {
    if left != map[] {
      var id :| id in left;
      RemovedInAnyOrder(vm, context, left, id);
      RemovedIs(vm, context, left - {id}, c);
      EarlierOrOne(vm, context, left, id, c);
    }
  }

  lemma InReport(vm: string, context: string, pair: Option<Snapshot>, s: Snapshot, c: SnapshotChange)
    ensures c in PairReport(vm, context, pair, s, true) <==> OfOne(vm, context, pair, s, c)
  {
  }

  lemma PartAt(vm: string, context: string, after: seq<Snapshot>, pairs: Pairs, i: nat)
    requires i < |pairs| <= |after|
    ensures PairParts(vm, context, after, pairs, UpTo(|pairs|))[i] == PairReport(vm, context, pairs[i], after[i], true)
  {
  }

  lemma InPart(vm: string, context: string, after: seq<Snapshot>, pairs: Pairs, part: multiset<SnapshotChange>, c: SnapshotChange, i: nat)
    requires i < |pairs| <= |after| && part == PairReport(vm, context, pairs[i], after[i], true)
    ensures c in part <==> OfLater(vm, context, after, pairs, c, i)
  {
    InReport(vm, context, pairs[i], after[i], c);
  }

  lemma InParts(vm: string, context: string, after: seq<Snapshot>, pairs: Pairs, c: SnapshotChange)
    requires |pairs| <= |after|
    ensures c in PairReports(vm, context, after, pairs, UpTo(|pairs|)) <==> exists i :: OfLater(vm, context, after, pairs, c, i)
  {
    var parts := PairParts(vm, context, after, pairs, UpTo(|pairs|));
    if c in Sum(parts) {
      OfSomePart(parts, c);
      var i: nat :| i < |parts| && c in parts[i];
      PartAt(vm, context, after, pairs, i);
      InPart(vm, context, after, pairs, parts[i], c, i);
    }
    if i: nat :| OfLater(vm, context, after, pairs, c, i) {
      PartAt(vm, context, after, pairs, i);
      InPart(vm, context, after, pairs, parts[i], c, i);
      InSum(parts, i, c);
    }
  }

  /** The snapshots of two records are compared truly and completely: exactly what happened is
      reported. */
  lemma ReportsExactly(a: StoredVM, b: StoredVM, out: seq<SnapshotChange>, pairs: Pairs, left: ByID, c: SnapshotChange)
    requires Compared(a, b, out, pairs, left)
    ensures c in out <==>
      || (exists i :: OfLater(b.observation.vm.name, b.observation.context, b.snapshots, pairs, c, i))
      || OfEarlier(a.observation.vm.name, a.observation.context, left, c)
  {
    InParts(b.observation.vm.name, b.observation.context, b.snapshots, pairs, c);
    RemovedIs(a.observation.vm.name, a.observation.context, left, c);
    assert c in out <==> c in multiset(out);
  }

  /** A pair under two IDs: an import made one of them up, the names are the same, and the creation times
      lie less than a second apart. */
  lemma PairsAcrossAnImport(a: StoredVM, b: StoredVM, out: seq<SnapshotChange>, pairs: Pairs, left: ByID, i: nat)
    requires Compared(a, b, out, pairs, left) && i < |pairs| && pairs[i].Some? && pairs[i].value.id != b.snapshots[i].id
    ensures "import:" <= pairs[i].value.id || "import:" <= b.snapshots[i].id
    ensures pairs[i].value.name == b.snapshots[i].name
    ensures -1_000_000_000 < b.snapshots[i].createTime - pairs[i].value.createTime < 1_000_000_000
  {
    PairsAreSound(a, b, out, pairs, left, i);
  }
}
