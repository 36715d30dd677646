/** What matching by identity guarantees, for every pair of runs and every order of their VMs. */
module VMMatching {
  import opened Common
  import opened Inventory
  import opened SnapshotDiff
  import opened VMDiff
  import opened Sorting

  // ----- A partial injection

  /** No base VM is matched twice. */
  lemma MatchedOnce(base: seq<StoredVM>, targets: seq<StoredVM>, matches: seq<Match>, i: nat, k: nat)
    requires Matching(base, targets, matches) && i < k < |matches|
    requires matches[i].Matched? && matches[k].Matched?
    ensures matches[i].index < |base| && matches[i].index != matches[k].index
  {
    assert matches[..k][i] == matches[i];
    assert !Used(matches[..k], matches[k].index);
  }

  function MatchedCount(matches: seq<Match>): nat {
    if matches == [] then 0
    else MatchedCount(matches[..|matches| - 1]) + if matches[|matches| - 1].Matched? then 1 else 0
  }

  ghost function UsedSet(matches: seq<Match>): set<int> {
    set i | 0 <= i < |matches| && matches[i].Matched? :: matches[i].index
  }

  lemma MatchingPrefix(base: seq<StoredVM>, targets: seq<StoredVM>, matches: seq<Match>, n: nat)
    requires Matching(base, targets, matches) && n <= |matches|
    ensures Matching(base, targets, matches[..n])
  {
    forall i | 0 <= i < n ensures matches[..n][..i] == matches[..i] {
    }
  }

  lemma LastTakesAFreeOne(base: seq<StoredVM>, targets: seq<StoredVM>, matches: seq<Match>, n: nat)
    requires Matching(base, targets, matches) && n < |matches| && matches[n].Matched?
    ensures matches[n].index < |base| && matches[n].index !in UsedSet(matches[..n])
  {
    assert Finds(base, targets, matches[..n], targets[n].observation, matches[n]);
    assert !Used(matches[..n], matches[n].index);
  }

  lemma UsedSetPush(matches: seq<Match>, m: Match)
    ensures UsedSet(matches + [m]) == UsedSet(matches) + if m.Matched? then {m.index as int} else {}
  {
    var more := matches + [m];
    assert more[|matches|] == m && forall i :: 0 <= i < |matches| ==> more[i] == matches[i];
  }

  lemma {:induction false} UsedSetSize(base: seq<StoredVM>, targets: seq<StoredVM>, matches: seq<Match>)
    requires Matching(base, targets, matches)
    ensures |UsedSet(matches)| == MatchedCount(matches)
    ensures forall j :: j in UsedSet(matches) ==> 0 <= j < |base|
  {
    if matches != [] {
      var n := |matches| - 1;
      var front, last := matches[..n], matches[n];
      MatchingPrefix(base, targets, matches, n);
      UsedSetSize(base, targets, front);
      UsedSetPush(front, last);
      assert matches == front + [last];
      if last.Matched? {
        LastTakesAFreeOne(base, targets, matches, n);
      }
    }
  }

  function CountKind(out: seq<VMChange>, kind: VMDiff.ChangeKind): nat {
    if out == [] then 0
    else CountKind(out[..|out| - 1], kind) + if out[|out| - 1].changes == [kind] then 1 else 0
  }

  lemma {:induction false} CountKindConcat(a: seq<VMChange>, b: seq<VMChange>, kind: VMDiff.ChangeKind)
    ensures CountKind(a + b, kind) == CountKind(a, kind) + CountKind(b, kind)
  {
    if b == [] {
      assert a + b == a;
    } else {
      var n := |b| - 1;
      CountKindConcat(a, b[..n], kind);
      assert (a + b)[..|a + b| - 1] == a + b[..n];
    }
  }

  lemma CountKindOne(c: VMChange, kind: VMDiff.ChangeKind)
    ensures CountKind([c], kind) == if c.changes == [kind] then 1 else 0
  {
    assert [c][..0] == [];
  }

  lemma PairChangeCounts(a: Observation, b: Observation, basis: Basis, runtime: bool)
    ensures CountKind(PairChange(a, b, basis, runtime), Appeared) == 0
    ensures CountKind(PairChange(a, b, basis, runtime), Vanished) == 0
  {
    var out := PairChange(a, b, basis, runtime);
    if out != [] {
      assert out == [out[0]];
      assert out[0].changes[0] == MovedVM || out[0].changes[0] == Modified;
      CountKindOne(out[0], Appeared);
      CountKindOne(out[0], Vanished);
    }
  }

  lemma TargetReportCount(base: seq<StoredVM>, o: Observation, m: Match, runtime: bool)
    ensures CountKind(TargetReport(base, o, m, runtime), Appeared) == if m.Matched? then 0 else 1
    ensures CountKind(TargetReport(base, o, m, runtime), Vanished) == 0
  {
    match m
    case NoMatch =>
      CountKindOne(AppearedChange(o), Appeared);
      CountKindOne(AppearedChange(o), Vanished);
    case Matched(j, basis) =>
      if j < |base| {
        PairChangeCounts(base[j].observation, o, basis, runtime);
      }
  }

  lemma {:induction false} TargetReportCounts(base: seq<StoredVM>, targets: seq<StoredVM>, matches: seq<Match>, runtime: bool)
    requires |matches| <= |targets|
    ensures CountKind(TargetReports(base, targets, matches, runtime), Appeared) == |matches| - MatchedCount(matches)
    ensures CountKind(TargetReports(base, targets, matches, runtime), Vanished) == 0
  {
    if matches != [] {
      var n := |matches| - 1;
      TargetReportCounts(base, targets, matches[..n], runtime);
      var before := TargetReports(base, targets, matches[..n], runtime);
      var last := TargetReport(base, targets[n].observation, matches[n], runtime);
      CountKindConcat(before, last, Appeared);
      CountKindConcat(before, last, Vanished);
      TargetReportCount(base, targets[n].observation, matches[n], runtime);
    }
  }

  lemma {:induction false} BaseReportCounts(base: seq<StoredVM>, matches: seq<Match>, n: nat)
    requires n <= |base|
    ensures CountKind(BaseReports(base, matches, n), Appeared) == 0
    ensures CountKind(BaseReports(base, matches, n), Vanished) == |UnusedBelow(matches, n)|
  {
    if n > 0 {
      BaseReportCounts(base, matches, n - 1);
      var last := if Used(matches, n - 1) then [] else [VanishedChange(base[n - 1].observation)];
      CountKindConcat(BaseReports(base, matches, n - 1), last, Appeared);
      CountKindConcat(BaseReports(base, matches, n - 1), last, Vanished);
      if |last| == 1 {
        CountKindOne(VanishedChange(base[n - 1].observation), Appeared);
        CountKindOne(VanishedChange(base[n - 1].observation), Vanished);
        assert UnusedBelow(matches, n) == UnusedBelow(matches, n - 1) + {n - 1};
      } else {
        assert UnusedBelow(matches, n) == UnusedBelow(matches, n - 1);
      }
    }
  }

  ghost function UnusedBelow(matches: seq<Match>, n: nat): set<int> {
    set j | 0 <= j < n && !Used(matches, j)
  }

  lemma UnusedSize(base: seq<StoredVM>, targets: seq<StoredVM>, matches: seq<Match>)
    requires Matching(base, targets, matches)
    ensures |UnusedBelow(matches, |base|)| + MatchedCount(matches) == |base|
  {
    UsedSetSize(base, targets, matches);
    var used, free := UsedSet(matches), UnusedBelow(matches, |base|);
    forall j ensures j in used <==> Used(matches, j) {
    }
    assert used + free == UpTo(|base|);
  }

  /** Every target VM is matched or reported as appeared, every base VM is matched or reported as
      vanished, and none is both. */
  lemma VMsAreConserved(base: seq<StoredVM>, targets: seq<StoredVM>, runtime: bool, matches: seq<Match>,
      pieces: seq<seq<SnapshotChange>>, out: seq<VMChange>, snaps: seq<SnapshotChange>)
    requires Reports(base, targets, runtime, matches, pieces, out, snaps)
    ensures MatchedCount(matches) + CountKind(out, Appeared) == |targets|
    ensures MatchedCount(matches) + CountKind(out, Vanished) == |base|
  {
    TargetReportCounts(base, targets, matches, runtime);
    BaseReportCounts(base, matches, |base|);
    var a, b := TargetReports(base, targets, matches, runtime), BaseReports(base, matches, |base|);
    CountKindConcat(a, b, Appeared);
    CountKindConcat(a, b, Vanished);
    UnusedSize(base, targets, matches);
  }

  // ----- UUIDs

  lemma {:induction false} HoldersAtLeast(vms: seq<StoredVM>, kind: Basis, value: string, i: nat)
    requires i < |vms| && UUID(vms[i].observation, kind) == value
    ensures Holders(vms, kind, value) >= 1
    ensures forall k :: 0 <= k < |vms| && k != i && UUID(vms[k].observation, kind) == value ==> Holders(vms, kind, value) >= 2
  {
    var n := |vms| - 1;
    if i < n {
      HoldersAtLeast(vms[..n], kind, value, i);
      assert forall k :: 0 <= k < n ==> vms[..n][k] == vms[k];
    } else {
      forall k: nat | k < n && UUID(vms[k].observation, kind) == value ensures Holders(vms, kind, value) >= 2 {
        HoldersAtLeast(vms[..n], kind, value, k);
      }
    }
  }

  /** A match by UUID is never ambiguous: the value is not empty, no other target VM has it, and
      no other base VM that was still free has it. */
  lemma UUIDMatchIsUnambiguous(base: seq<StoredVM>, targets: seq<StoredVM>, matches: seq<Match>, i: nat)
    requires Matching(base, targets, matches) && i < |matches|
    requires matches[i].Matched? && matches[i].basis != Moref
    ensures var Matched(j, kind) := matches[i];
      var value := UUID(targets[i].observation, kind);
      && j < |base| && value != "" && UUID(base[j].observation, kind) == value
      && (forall k :: 0 <= k < |targets| && k != i ==> UUID(targets[k].observation, kind) != value)
      && (forall b :: 0 <= b < |base| && b != j && UUID(base[b].observation, kind) == value ==> Used(matches[..i], b))
  {
    var Matched(j, kind) := matches[i];
    assert Finds(base, targets, matches[..i], targets[i].observation, matches[i]);
    var value := UUID(targets[i].observation, kind);
    HoldersAtLeast(targets, kind, value, i);
    forall b | 0 <= b < |base| && b != j && UUID(base[b].observation, kind) == value ensures Used(matches[..i], b) {
      assert !FreeHolder(base, matches[..i], kind, value, b);
    }
  }

  // ----- No stealing

  function MorefKey(vm: StoredVM): (string, string) { (vm.observation.vcenterID, vm.observation.vm.id) }

  /** The base VM was taken by an earlier target VM through a UUID. */
  ghost predicate StolenBy(matches: seq<Match>, j: nat, k: nat) {
    k < |matches| && matches[k].Matched? && matches[k].index == j && matches[k].basis != Moref
  }

  /** Only the partner itself can take a base VM by managed object. */
  lemma OnlyThePartnerTakesByMoref(base: seq<StoredVM>, targets: seq<StoredVM>, matches: seq<Match>, i: nat, j: nat, k: nat)
    requires Matching(base, targets, matches) && |matches| == |targets|
    requires DistinctBy(MorefKey, targets)
    requires k < i < |targets| && j < |base| && SameMoref(base[j].observation, targets[i].observation)
    ensures matches[k] != Matched(j, Moref)
  {
    assert Finds(base, targets, matches[..k], targets[k].observation, matches[k]);
    assert MorefKey(targets[k]) != MorefKey(targets[i]);
  }

  /** A VM with a managed-object partner in the base run is matched to it, unless an earlier
      target VM took the partner by UUID; there is no other way to lose it. */
  lemma PartnerIsMatchedUnlessStolen(base: seq<StoredVM>, targets: seq<StoredVM>, matches: seq<Match>, i: nat, j: nat)
    requires Matching(base, targets, matches) && |matches| == |targets|
    requires DistinctBy(MorefKey, base) && DistinctBy(MorefKey, targets)
    requires i < |targets| && j < |base| && SameMoref(base[j].observation, targets[i].observation)
    ensures matches[i] == Matched(j, Moref) <==> forall k :: 0 <= k < i ==> !StolenBy(matches, j, k)
  {
    var o := targets[i].observation;
    assert Finds(base, targets, matches[..i], o, matches[i]);
    assert forall b :: FreeMoref(base, matches[..i], o, b) ==> b == j by {
      assert forall b :: 0 <= b < |base| && b != j ==> MorefKey(base[b]) != MorefKey(base[j]);
    }
    if matches[i] == Matched(j, Moref) {
      forall k: nat | k < i ensures !StolenBy(matches, j, k) {
        assert matches[..i][k] == matches[k];
      }
    } else {
      assert !FreeMoref(base, matches[..i], o, j);
      assert Used(matches[..i], j);
      var k: nat :| k < i && matches[..i][k].Matched? && matches[..i][k].index == j;
      assert matches[..i][k] == matches[k];
      OnlyThePartnerTakesByMoref(base, targets, matches, i, j, k);
      assert StolenBy(matches, j, k);
    }
  }

  /** A base VM is only ever stolen from a partner that disagrees with it on that very UUID. */
  lemma StealingNeedsDisagreement(base: seq<StoredVM>, targets: seq<StoredVM>, matches: seq<Match>, i: nat, j: nat, k: nat)
    requires Matching(base, targets, matches) && |matches| == |targets|
    requires k != i && i < |targets| && StolenBy(matches, j, k)
    ensures j < |base| && UUID(base[j].observation, matches[k].basis) != UUID(targets[i].observation, matches[k].basis)
  {
    UUIDMatchIsUnambiguous(base, targets, matches, k);
  }

  /** No stealing: for every order of both runs, a VM and its managed-object partner that agree on
      both UUIDs are matched to each other, whatever the other VMs carry. */
  lemma NoStealing(base: seq<StoredVM>, targets: seq<StoredVM>, matches: seq<Match>, i: nat, j: nat)
    requires Matching(base, targets, matches) && |matches| == |targets|
    requires DistinctBy(MorefKey, base) && DistinctBy(MorefKey, targets)
    requires i < |targets| && j < |base| && SameMoref(base[j].observation, targets[i].observation)
    requires UUID(base[j].observation, InstanceUUID) == UUID(targets[i].observation, InstanceUUID)
    requires UUID(base[j].observation, BIOSUUID) == UUID(targets[i].observation, BIOSUUID)
    ensures matches[i] == Matched(j, Moref)
  {
    forall k: nat | k < i ensures !StolenBy(matches, j, k) {
      if StolenBy(matches, j, k) {
        StealingNeedsDisagreement(base, targets, matches, i, j, k);
      }
    }
    PartnerIsMatchedUnlessStolen(base, targets, matches, i, j);
  }

  function Plain(id: string, instanceUUID: string): StoredVM {
    StoredVM(Observation("vc", "prod",
      VM(id, "vm", instanceUUID, "", "", "", "", [], true, 1, 1, "", "", "", "")), [])
  }

  /** Without that agreement it happens: a VM re-registered under a new managed object takes the
      old one by instance UUID, and the VM now under the old managed object reads as appeared. */
  lemma StealingExample(matches: seq<Match>)
    requires |matches| == 2
    requires Matching([Plain("vm-1", "A")], [Plain("vm-2", "A"), Plain("vm-1", "B")], matches)
    ensures matches == [Matched(0, InstanceUUID), NoMatch]
  {
    var base, targets := [Plain("vm-1", "A")], [Plain("vm-2", "A"), Plain("vm-1", "B")];
    assert Finds(base, targets, matches[..0], targets[0].observation, matches[0]);
    assert Finds(base, targets, matches[..1], targets[1].observation, matches[1]);
    assert targets[..1] == [targets[0]] && targets[..1][..0] == [];
    assert Holders(targets[..1], InstanceUUID, "A") == 1;
    assert Holders(targets, InstanceUUID, "A") == 1;
    assert "vm-2"[3] != "vm-1"[3];
    assert UniqueHolder(base, targets, matches[..0], InstanceUUID, targets[0].observation, 0);
    assert Used(matches[..1], 0) by {
      assert matches[..1][0] == Matched(0, InstanceUUID);
    }
  }

  // ----- A run against itself

  lemma {:induction false} NothingReported(base: seq<StoredVM>, targets: seq<StoredVM>, matches: seq<Match>, runtime: bool,
      pieces: seq<seq<SnapshotChange>>)
    requires |matches| == |pieces| <= |targets|
    requires forall i :: 0 <= i < |matches| ==> TargetReport(base, targets[i].observation, matches[i], runtime) == []
    requires forall i :: 0 <= i < |pieces| ==> pieces[i] == []
    ensures TargetReports(base, targets, matches, runtime) == [] && Flatten(pieces) == []
  {
    if matches != [] {
      var n := |matches| - 1;
      NothingReported(base, targets, matches[..n], runtime, pieces[..n]);
    }
  }

  lemma {:induction false} NoneVanished(base: seq<StoredVM>, matches: seq<Match>, n: nat)
    requires n <= |base| && UnusedBelow(matches, |base|) == {}
    ensures BaseReports(base, matches, n) == []
  {
    if n > 0 {
      NoneVanished(base, matches, n - 1);
      assert n - 1 !in UnusedBelow(matches, |base|);
    }
  }

  lemma {:induction false} AllMatched(matches: seq<Match>)
    requires forall i :: 0 <= i < |matches| ==> matches[i].Matched?
    ensures MatchedCount(matches) == |matches|
  {
    if matches != [] {
      AllMatched(matches[..|matches| - 1]);
    }
  }

  lemma FindsItself(base: seq<StoredVM>, targets: seq<StoredVM>, matches: seq<Match>, i: nat)
    requires multiset(base) == multiset(targets) && DistinctBy(MorefKey, base)
    requires Matching(base, targets, matches) && i < |matches| == |targets|
    ensures matches[i].Matched? && matches[i].index < |base| && base[matches[i].index] == targets[i]
  {
    SameMembers(base, targets);
    assert targets[i] in base;
    var j: nat :| j < |base| && base[j] == targets[i];
    DistinctAfterReordering(MorefKey, base, targets);
    NoStealing(base, targets, matches, i, j);
  }

  lemma SelfPieceIsEmpty(base: seq<StoredVM>, target: StoredVM, m: Match, piece: seq<SnapshotChange>)
    requires SnapshotPiece(base, target, m, piece) && m.Matched? && m.index < |base| && base[m.index] == target
    requires DistinctIDs(target.snapshots)
    ensures piece == []
  {
    var pairs, left :| Compared(base[m.index], target, piece, pairs, left);
    SameSnapshotsReportNothing(base[m.index], target, piece, pairs, left);
  }

  /** Comparing a run with any reordering of itself reports no change and no snapshot change. */
  lemma ReorderingReportsNothing(base: seq<StoredVM>, targets: seq<StoredVM>, runtime: bool, out: seq<VMChange>, snaps: seq<SnapshotChange>)
    requires multiset(base) == multiset(targets) && DistinctBy(MorefKey, base)
    requires forall i :: 0 <= i < |targets| ==> DistinctIDs(targets[i].snapshots)
    requires IsComparison(base, targets, runtime, out, snaps)
    ensures out == [] && snaps == []
  {
    var matches, pieces :| Reports(base, targets, runtime, matches, pieces, out, snaps);
    PairsReportNothing(base, targets, matches, runtime, out, pieces, snaps);
  }

  lemma PairsReportNothing(base: seq<StoredVM>, targets: seq<StoredVM>, matches: seq<Match>, runtime: bool,
      out: seq<VMChange>, pieces: seq<seq<SnapshotChange>>, snaps: seq<SnapshotChange>)
    requires multiset(base) == multiset(targets) && DistinctBy(MorefKey, base)
    requires forall i :: 0 <= i < |targets| ==> DistinctIDs(targets[i].snapshots)
    requires Reports(base, targets, runtime, matches, pieces, out, snaps)
    ensures out == [] && snaps == []
  {
    forall i: nat | i < |matches|
      ensures matches[i].Matched? && TargetReport(base, targets[i].observation, matches[i], runtime) == []
      ensures pieces[i] == []
    {
      FindsItself(base, targets, matches, i);
      NothingChanged(targets[i].observation.vm, targets[i].observation.vcenterID, runtime);
      SelfPieceIsEmpty(base, targets[i], matches[i], pieces[i]);
    }
    NothingReported(base, targets, matches, runtime, pieces);
    AllMatched(matches);
    UnusedSize(base, targets, matches);
    SameCardinality(base, targets);
    assert |UnusedBelow(matches, |base|)| == 0;
    NoneVanished(base, matches, |base|);
  }
}
