/** Matching the VMs of two runs by identity, and what each match reports. */
module VMDiff {
  import opened Common
  import opened Inventory
  import opened SnapshotDiff
  import opened Strings
  import opened Sorting

  datatype Basis = Moref | InstanceUUID | BIOSUUID

  datatype Match = NoMatch | Matched(index: nat, basis: Basis)

  type Counts = map<string, int>

  function UUID(o: Observation, kind: Basis): string {
    if kind == InstanceUUID then o.vm.instanceUUID else o.vm.biosUUID
  }

  function KindName(kind: Basis): string {
    if kind == InstanceUUID then "instance_uuid" else "bios_uuid"
  }

  const SEPARATOR: char := 0 as char

  function IdentityKey(kind: Basis, value: string): string { KindName(kind) + [SEPARATOR] + value }

  /** Keys of different kinds or values never collide. */
  lemma IdentityKeyInjective(k: Basis, v: string, k': Basis, v': string)
    requires k != Moref && k' != Moref && IdentityKey(k, v) == IdentityKey(k', v')
    ensures k == k' && v == v'
  {
    assert IdentityKey(k, v)[0] == KindName(k)[0] && IdentityKey(k', v')[0] == KindName(k')[0];
    assert KindName(InstanceUUID)[0] == 'i' && KindName(BIOSUUID)[0] == 'b';
    var n := |KindName(k)| + 1;
    assert v == IdentityKey(k, v)[n..] && v' == IdentityKey(k', v')[n..];
  }

  /** How many of the VMs carry the identity. */
  function Holders(vms: seq<StoredVM>, kind: Basis, value: string): nat {
    if vms == [] then 0
    else Holders(vms[..|vms| - 1], kind, value) + if UUID(vms[|vms| - 1].observation, kind) == value then 1 else 0
  }

  predicate SameMoref(a: Observation, b: Observation) {
    a.vcenterID == b.vcenterID && a.vm.id == b.vm.id
  }

  // ----- The rule, stated without the loops that apply it

  predicate Used(matches: seq<Match>, j: int) {
    exists i :: 0 <= i < |matches| && matches[i].Matched? && matches[i].index == j
  }

  ghost predicate FreeMoref(base: seq<StoredVM>, matches: seq<Match>, o: Observation, j: int) {
    0 <= j < |base| && !Used(matches, j) && SameMoref(base[j].observation, o)
  }

  ghost predicate FreeHolder(base: seq<StoredVM>, matches: seq<Match>, kind: Basis, value: string, j: int) {
    0 <= j < |base| && !Used(matches, j) && UUID(base[j].observation, kind) == value
  }

  /** The identity is held by exactly one target VM and exactly one free base VM, j. */
  ghost predicate UniqueHolder(base: seq<StoredVM>, targets: seq<StoredVM>, matches: seq<Match>, kind: Basis,
      o: Observation, j: int)
  {
    var value := UUID(o, kind);
    && value != "" && Holders(targets, kind, value) == 1
    && FreeHolder(base, matches, kind, value, j)
    && forall i :: FreeHolder(base, matches, kind, value, i) ==> i == j
  }

  ghost predicate NoMoref(base: seq<StoredVM>, matches: seq<Match>, o: Observation) {
    forall j :: !FreeMoref(base, matches, o, j)
  }

  ghost predicate NoHolder(base: seq<StoredVM>, targets: seq<StoredVM>, matches: seq<Match>, kind: Basis, o: Observation) {
    forall j :: !UniqueHolder(base, targets, matches, kind, o, j)
  }

  /** m is what a target VM finds among the base VMs the earlier matches left free: the same
      managed object first, then a unique instance UUID, then a unique BIOS UUID. */
  ghost predicate Finds(base: seq<StoredVM>, targets: seq<StoredVM>, matches: seq<Match>, o: Observation, m: Match) {
    match m
    case Matched(j, Moref) =>
      FreeMoref(base, matches, o, j) && forall i :: FreeMoref(base, matches, o, i) ==> j <= i
    case Matched(j, InstanceUUID) =>
      NoMoref(base, matches, o) && UniqueHolder(base, targets, matches, InstanceUUID, o, j)
    case Matched(j, BIOSUUID) =>
      && NoMoref(base, matches, o) && NoHolder(base, targets, matches, InstanceUUID, o)
      && UniqueHolder(base, targets, matches, BIOSUUID, o, j)
    case NoMatch =>
      && NoMoref(base, matches, o) && NoHolder(base, targets, matches, InstanceUUID, o)
      && NoHolder(base, targets, matches, BIOSUUID, o)
  }

  /** Each target VM in turn, given what the ones before it took. */
  ghost predicate Matching(base: seq<StoredVM>, targets: seq<StoredVM>, matches: seq<Match>) {
    && |matches| <= |targets|
    && forall i :: 0 <= i < |matches| ==> Finds(base, targets, matches[..i], targets[i].observation, matches[i])
  }

  /** The rule leaves no choice. */
  lemma FindsIsAFunction(base: seq<StoredVM>, targets: seq<StoredVM>, matches: seq<Match>, o: Observation, m: Match, n: Match)
    requires Finds(base, targets, matches, o, m) && Finds(base, targets, matches, o, n)
    ensures m == n
  {
    if m.Matched? && n.Matched? && m.basis == Moref && n.basis == Moref {
      assert m.index <= n.index && n.index <= m.index;
    }
  }

  // ----- The methods that apply it

  ghost predicate Counted(vms: seq<StoredVM>, counts: Counts) {
    forall kind, value :: kind != Moref && value != "" ==>
      (if IdentityKey(kind, value) in counts then counts[IdentityKey(kind, value)] else 0) == Holders(vms, kind, value)
  }

  function CountOf(counts: Counts, key: string): int { if key in counts then counts[key] else 0 }

  function Bump(counts: Counts, kind: Basis, value: string): Counts {
    if value == "" then counts
    else counts[IdentityKey(kind, value) := CountOf(counts, IdentityKey(kind, value)) + 1]
  }

  lemma BumpCounts(counts: Counts, kind: Basis, value: string, k: Basis, v: string)
    requires kind != Moref && k != Moref && v != ""
    ensures CountOf(Bump(counts, kind, value), IdentityKey(k, v))
      == CountOf(counts, IdentityKey(k, v)) + if k == kind && v == value then 1 else 0
  {
    if value != "" && IdentityKey(kind, value) == IdentityKey(k, v) {
      IdentityKeyInjective(kind, value, k, v);
    }
  }

  method CountIdentities(targets: seq<StoredVM>) returns (counts: Counts)
    ensures Counted(targets, counts)
  {
    counts := map[];
    for n := 0 to |targets|
      invariant Counted(targets[..n], counts)
    {
      var o := targets[n].observation;
      ghost var was := counts;
      counts := Bump(counts, InstanceUUID, o.vm.instanceUUID);
      ghost var mid := counts;
      counts := Bump(counts, BIOSUUID, o.vm.biosUUID);
      assert targets[..n + 1][..n] == targets[..n];
      forall kind, value | kind != Moref && value != ""
        ensures CountOf(counts, IdentityKey(kind, value)) == Holders(targets[..n + 1], kind, value)
      {
        assert CountOf(was, IdentityKey(kind, value)) == Holders(targets[..n], kind, value);
        BumpCounts(was, InstanceUUID, o.vm.instanceUUID, kind, value);
        BumpCounts(mid, BIOSUUID, o.vm.biosUUID, kind, value);
      }
    }
    assert targets[..|targets|] == targets;
  }

  /** The flags say which base VMs are used. */
  ghost predicate Flags(used: seq<bool>, base: seq<StoredVM>, matches: seq<Match>) {
    |used| == |base| && forall j :: 0 <= j < |used| ==> (used[j] <==> Used(matches, j))
  }

  method FindUnique(base: seq<StoredVM>, used: array<bool>, kind: Basis, value: string, ghost matches: seq<Match>)
    returns (candidate: int, count: nat)
    requires Flags(used[..], base, matches)
    ensures count == 1 ==> FreeHolder(base, matches, kind, value, candidate)
    ensures count == 1 ==> forall i :: FreeHolder(base, matches, kind, value, i) ==> i == candidate
    ensures count != 1 ==> forall j :: FreeHolder(base, matches, kind, value, j) ==>
      exists i :: i != j && FreeHolder(base, matches, kind, value, i)
  {
    candidate, count := -1, 0;
    ghost var first := -1;
    for i := 0 to |base|
      invariant count == 0 ==> forall j :: FreeHolder(base, matches, kind, value, j) ==> j >= i
      invariant count >= 1 ==> FreeHolder(base, matches, kind, value, candidate) && candidate < i
      invariant count == 1 ==> forall j :: FreeHolder(base, matches, kind, value, j) && j < i ==> j == candidate
      invariant count >= 2 ==> FreeHolder(base, matches, kind, value, first) && first != candidate
    {
      if used[i] {
        continue;
      }
      if UUID(base[i].observation, kind) == value {
        first := candidate;
        candidate := i;
        count := count + 1;
      }
    }
    if count >= 2 {
      forall j | FreeHolder(base, matches, kind, value, j)
        ensures exists i :: i != j && FreeHolder(base, matches, kind, value, i)
      {
        var other := if j == candidate then first else candidate;
        assert other != j && FreeHolder(base, matches, kind, value, other);
      }
    }
  }

  method FindMatch(base: seq<StoredVM>, used: array<bool>, o: Observation, counts: Counts,
      ghost targets: seq<StoredVM>, ghost matches: seq<Match>)
    returns (m: Match)
    requires Flags(used[..], base, matches) && Counted(targets, counts)
    ensures Finds(base, targets, matches, o, m)
  {
    for i := 0 to |base|
      invariant forall j :: FreeMoref(base, matches, o, j) ==> j >= i
    {
      if used[i] {
        continue;
      }
      if base[i].observation.vcenterID == o.vcenterID && base[i].observation.vm.id == o.vm.id {
        assert FreeMoref(base, matches, o, i);
        return Matched(i, Moref);
      }
    }
    var found := FindByUUID(base, used, o, counts, InstanceUUID, targets, matches);
    if found.Some? {
      return Matched(found.value, InstanceUUID);
    }
    found := FindByUUID(base, used, o, counts, BIOSUUID, targets, matches);
    if found.Some? {
      return Matched(found.value, BIOSUUID);
    }
    m := NoMatch;
  }

  /** One turn of the loop over the two kinds of UUID. */
  method FindByUUID(base: seq<StoredVM>, used: array<bool>, o: Observation, counts: Counts, kind: Basis,
      ghost targets: seq<StoredVM>, ghost matches: seq<Match>)
    returns (found: Option<nat>)
    requires Flags(used[..], base, matches) && Counted(targets, counts) && kind != Moref
    ensures found.Some? ==> UniqueHolder(base, targets, matches, kind, o, found.value)
    ensures found.None? ==> NoHolder(base, targets, matches, kind, o)
  {
    var value := UUID(o, kind);
    if value == "" {
      return None;
    }
    // A duplicated identity is not strong enough evidence to infer a move.
    if CountOf(counts, IdentityKey(kind, value)) != 1 {
      return None;
    }
    var candidate, count := FindUnique(base, used, kind, value, matches);
    found := if count == 1 then Some(candidate) else None;
  }

  // ----- The comparison

  datatype ChangeKind = Appeared | Vanished | MovedVM | Modified

  datatype VMChange = VMChange(
    changes: seq<ChangeKind>, name: string, context: string, basis: Option<Basis>, fields: seq<FieldChange>,
    before: Option<Observation>, after: Option<Observation>)

  function AppearedChange(o: Observation): VMChange {
    VMChange([Appeared], o.vm.name, o.context, None, [], None, Some(o))
  }

  function VanishedChange(o: Observation): VMChange {
    VMChange([Vanished], o.vm.name, o.context, None, [], Some(o), None)
  }

  /** What a matched pair reports: nothing when neither its placement nor its fields changed. */
  function PairChange(a: Observation, b: Observation, basis: Basis, runtime: bool): seq<VMChange> {
    var fields := ChangedFields(a.vm, b.vm, runtime);
    var changes := (if Moved(a.vm, b.vm, a.vcenterID, b.vcenterID) then [MovedVM] else [])
      + if |fields| > 0 then [Modified] else [];
    if |changes| > 0 then [VMChange(changes, b.vm.name, b.context, Some(basis), fields, Some(a), Some(b))] else []
  }

  function TargetReport(base: seq<StoredVM>, o: Observation, m: Match, runtime: bool): seq<VMChange> {
    match m
    case NoMatch => [AppearedChange(o)]
    case Matched(j, basis) => if j < |base| then PairChange(base[j].observation, o, basis, runtime) else []
  }

  function TargetReports(base: seq<StoredVM>, targets: seq<StoredVM>, matches: seq<Match>, runtime: bool): seq<VMChange>
    requires |matches| <= |targets|
  {
    if matches == [] then []
    else
      var n := |matches| - 1;
      TargetReports(base, targets, matches[..n], runtime)
      + TargetReport(base, targets[n].observation, matches[n], runtime)
  }

  /** The unmatched among the first n base VMs vanished. */
  function BaseReports(base: seq<StoredVM>, matches: seq<Match>, n: nat): seq<VMChange>
    requires n <= |base|
  {
    if n == 0 then []
    else BaseReports(base, matches, n - 1) + if Used(matches, n - 1) then [] else [VanishedChange(base[n - 1].observation)]
  }

  function CreatedReports(o: Observation, snaps: seq<Snapshot>): seq<SnapshotChange> {
    if snaps == [] then []
    else CreatedReports(o, snaps[..|snaps| - 1]) + [CreatedReport(o.vm.name, o.context, snaps[|snaps| - 1])]
  }

  /** The snapshot reports of one target VM: all created when it appeared, none when it was matched
      in another vCenter, else the comparison's. */
  ghost predicate SnapshotPiece(base: seq<StoredVM>, target: StoredVM, m: Match, piece: seq<SnapshotChange>) {
    match m
    case NoMatch => piece == CreatedReports(target.observation, target.snapshots)
    case Matched(j, _) =>
      j < |base| &&
      if base[j].observation.vcenterID != target.observation.vcenterID then piece == []
      else IsReport(base[j], target, piece)
  }

  function Flatten<T>(parts: seq<seq<T>>): seq<T> {
    if parts == [] then [] else Flatten(parts[..|parts| - 1]) + parts[|parts| - 1]
  }

  ghost predicate SnapshotPieces(base: seq<StoredVM>, targets: seq<StoredVM>, matches: seq<Match>,
      pieces: seq<seq<SnapshotChange>>, snaps: seq<SnapshotChange>)
  {
    && |pieces| == |matches| <= |targets| && snaps == Flatten(pieces)
    && forall i :: 0 <= i < |pieces| ==> SnapshotPiece(base, targets[i], matches[i], pieces[i])
  }

  method ReportCreated(o: Observation, snaps: seq<Snapshot>) returns (out: seq<SnapshotChange>)
    ensures out == CreatedReports(o, snaps)
  {
    out := [];
    for i := 0 to |snaps|
      invariant out == CreatedReports(o, snaps[..i])
    {
      assert snaps[..i + 1][..i] == snaps[..i];
      out := out + [SnapshotCreated(o.vm.name, o.context, snaps[i].name, snaps[i].createTime)];
    }
    assert snaps[..|snaps|] == snaps;
  }

  /** The body of the main loop: report one target VM and its snapshots. */
  method ReportTarget(base: seq<StoredVM>, target: StoredVM, m: Match, runtime: bool)
    returns (out: seq<VMChange>, snaps: seq<SnapshotChange>)
    requires m.Matched? ==> m.index < |base|
    ensures out == TargetReport(base, target.observation, m, runtime)
    ensures SnapshotPiece(base, target, m, snaps)
  {
    if m.NoMatch? {
      out := [AppearedChange(target.observation)];
      snaps := ReportCreated(target.observation, target.snapshots);
      return;
    }
    var before, after := base[m.index], target;
    var fields := ChangedFields(before.observation.vm, after.observation.vm, runtime);
    var changes: seq<ChangeKind> := [];
    if Moved(before.observation.vm, after.observation.vm, before.observation.vcenterID, after.observation.vcenterID) {
      changes := changes + [MovedVM];
    }
    if |fields| > 0 {
      changes := changes + [Modified];
    }
    assert changes == (if Moved(before.observation.vm, after.observation.vm, before.observation.vcenterID, after.observation.vcenterID)
                       then [MovedVM] else []) + if |fields| > 0 then [Modified] else [];
    out := [];
    if |changes| > 0 {
      out := [VMChange(changes, after.observation.vm.name, after.observation.context, Some(m.basis), fields,
                       Some(before.observation), Some(after.observation))];
    }
    snaps := [];
    if before.observation.vcenterID == after.observation.vcenterID {
      snaps := CompareSnapshots(before, after);
    }
  }

  /** The state of the main loop after some target VMs. */
  ghost predicate Progress(base: seq<StoredVM>, targets: seq<StoredVM>, runtime: bool, used: seq<bool>,
      matches: seq<Match>, out: seq<VMChange>, snaps: seq<SnapshotChange>, pieces: seq<seq<SnapshotChange>>)
  {
    && Matching(base, targets, matches) && Flags(used, base, matches)
    && out == TargetReports(base, targets, matches, runtime)
    && SnapshotPieces(base, targets, matches, pieces, snaps)
  }

  lemma MatchingPush(base: seq<StoredVM>, targets: seq<StoredVM>, matches: seq<Match>, m: Match)
    requires Matching(base, targets, matches) && |matches| < |targets|
    requires Finds(base, targets, matches, targets[|matches|].observation, m)
    ensures Matching(base, targets, matches + [m])
  {
    var more := matches + [m];
    forall i | 0 <= i < |more| ensures Finds(base, targets, more[..i], targets[i].observation, more[i]) {
      assert more[..i] == matches[..i];
      assert matches[..|matches|] == matches;
    }
  }

  lemma FlagsPush(used: seq<bool>, base: seq<StoredVM>, matches: seq<Match>, m: Match)
    requires Flags(used, base, matches) && (m.Matched? ==> m.index < |base|)
    ensures Flags(if m.Matched? then used[m.index := true] else used, base, matches + [m])
  {
    var more := matches + [m];
    forall j ensures Used(more, j) <==> Used(matches, j) || (m.Matched? && m.index == j) {
      assert more[|matches|] == m;
      if Used(matches, j) {
        var i :| 0 <= i < |matches| && matches[i].Matched? && matches[i].index == j;
        assert more[i] == matches[i];
      }
    }
  }

  lemma ReportsPush(base: seq<StoredVM>, targets: seq<StoredVM>, matches: seq<Match>, runtime: bool, m: Match,
      snaps: seq<SnapshotChange>, pieces: seq<seq<SnapshotChange>>, piece: seq<SnapshotChange>)
    requires |matches| < |targets| && SnapshotPieces(base, targets, matches, pieces, snaps)
    requires SnapshotPiece(base, targets[|matches|], m, piece)
    ensures TargetReports(base, targets, matches + [m], runtime)
      == TargetReports(base, targets, matches, runtime) + TargetReport(base, targets[|matches|].observation, m, runtime)
    ensures SnapshotPieces(base, targets, matches + [m], pieces + [piece], snaps + piece)
  {
    assert (matches + [m])[..|matches|] == matches;
    assert (pieces + [piece])[..|pieces|] == pieces;
  }

  lemma ProgressPush(base: seq<StoredVM>, targets: seq<StoredVM>, runtime: bool, used: seq<bool>,
      matches: seq<Match>, out: seq<VMChange>, snaps: seq<SnapshotChange>, pieces: seq<seq<SnapshotChange>>,
      m: Match, more: seq<VMChange>, piece: seq<SnapshotChange>)
    requires Progress(base, targets, runtime, used, matches, out, snaps, pieces) && |matches| < |targets|
    requires Finds(base, targets, matches, targets[|matches|].observation, m)
    requires more == TargetReport(base, targets[|matches|].observation, m, runtime)
    requires SnapshotPiece(base, targets[|matches|], m, piece)
    ensures Progress(base, targets, runtime, if m.Matched? then used[m.index := true] else used, matches + [m],
                     out + more, snaps + piece, pieces + [piece])
  {
    MatchingPush(base, targets, matches, m);
    FlagsPush(used, base, matches, m);
    ReportsPush(base, targets, matches, runtime, m, snaps, pieces, piece);
  }

  /** One turn of the main loop. */
  method CompareNext(base: seq<StoredVM>, targets: seq<StoredVM>, i: nat, runtime: bool, used: array<bool>, counts: Counts,
      out0: seq<VMChange>, snaps0: seq<SnapshotChange>, ghost matches: seq<Match>, ghost pieces: seq<seq<SnapshotChange>>)
    returns (out: seq<VMChange>, snaps: seq<SnapshotChange>, ghost m: Match, ghost piece: seq<SnapshotChange>)
    requires Counted(targets, counts) && |matches| == i < |targets|
    requires Progress(base, targets, runtime, used[..], matches, out0, snaps0, pieces)
    modifies used
    ensures Progress(base, targets, runtime, used[..], matches + [m], out, snaps, pieces + [piece])
  {
    ghost var flags := used[..];
    var found := FindMatch(base, used, targets[i].observation, counts, targets, matches);
    var more, report := ReportTarget(base, targets[i], found, runtime);
    m, piece := found, report;
    ProgressPush(base, targets, runtime, flags, matches, out0, snaps0, pieces, m, more, piece);
    if found.Matched? {
      used[found.index] := true;
      assert used[..] == flags[m.index := true];
    }
    out, snaps := out0 + more, snaps0 + report;
  }

  method ReportVanished(base: seq<StoredVM>, used: array<bool>, ghost matches: seq<Match>) returns (out: seq<VMChange>)
    requires Flags(used[..], base, matches)
    ensures out == BaseReports(base, matches, |base|)
  {
    out := [];
    for i := 0 to |base|
      invariant out == BaseReports(base, matches, i)
    {
      if used[i] {
        continue;
      }
      out := out + [VanishedChange(base[i].observation)];
    }
  }

  /** out and snaps are what these matches of the two runs report. */
  ghost predicate Reports(base: seq<StoredVM>, targets: seq<StoredVM>, runtime: bool, matches: seq<Match>,
      pieces: seq<seq<SnapshotChange>>, out: seq<VMChange>, snaps: seq<SnapshotChange>)
  {
    && |matches| == |targets| && Matching(base, targets, matches)
    && out == TargetReports(base, targets, matches, runtime) + BaseReports(base, matches, |base|)
    && SnapshotPieces(base, targets, matches, pieces, snaps)
  }

  ghost predicate IsComparison(base: seq<StoredVM>, targets: seq<StoredVM>, runtime: bool, out: seq<VMChange>,
      snaps: seq<SnapshotChange>)
  {
    exists matches, pieces :: Reports(base, targets, runtime, matches, pieces, out, snaps)
  }

  method CompareVMs(base: seq<StoredVM>, targets: seq<StoredVM>, runtime: bool)
    returns (out: seq<VMChange>, snaps: seq<SnapshotChange>)
    ensures IsComparison(base, targets, runtime, out, snaps)
  {
    var used := new bool[|base|](_ => false);
    var counts := CountIdentities(targets);
    out, snaps := [], [];
    ghost var matches: seq<Match>, pieces: seq<seq<SnapshotChange>> := [], [];
    for i := 0 to |targets|
      invariant |matches| == i
      invariant Progress(base, targets, runtime, used[..], matches, out, snaps, pieces)
    {
      ghost var m, piece;
      out, snaps, m, piece := CompareNext(base, targets, i, runtime, used, counts, out, snaps, matches, pieces);
      matches, pieces := matches + [m], pieces + [piece];
    }
    var vanished := ReportVanished(base, used, matches);
    out := out + vanished;
    assert Reports(base, targets, runtime, matches, pieces, out, snaps);
  }
}
