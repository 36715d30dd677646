/** Capturing one context: which collections a capture records, in what order and with what
    status, given what the vCenter answered. */
module Capture {
  import opened Common
  import opened Ledger

  datatype GroupFetch = GroupFailed(message: string) | GroupRead(count: nat, unreadable: bool)

  datatype Connection = NotConnected(error: string) | NoIndex(error: string) | Connected

  /** What the vCenter answered. hidden are the kinds the rest of the capture contradicts;
      license is the status license collection ended with. */
  datatype Answers = Answers(
    connection: Connection, vcenterID: string, groups: Kind -> GroupFetch,
    morefs: seq<string>, snapshots: nat, hidden: set<Kind>, license: Status)

  const GROUPS: seq<Kind> := [VMs, Hosts, Clusters, ResourcePools, VApps, DVSwitches, Datastores, Networks]

  predicate Persisted(k: Kind) {
    match k
    case VMs | Hosts | Clusters | Datastores | ResourcePools | VApps | DVSwitches | Networks | Snapshots => true
    case _ => false
  }

  predicate Requested(k: Kind, licenses: bool) {
    Persisted(k) || (licenses && k == License)
  }

  predicate Covers(cs: seq<CollectionResult>, k: Kind) {
    exists i :: 0 <= i < |cs| && cs[i].kind == k
  }

  ghost predicate NoKindTwice(cs: seq<CollectionResult>) {
    forall i, j :: 0 <= i < j < |cs| ==> cs[i].kind != cs[j].kind
  }

  /** What the collector hands to the ledger for one context. */
  ghost predicate FromCollector(r: ContextResult, licenses: bool) {
    && (forall i :: 0 <= i < |r.collections| ==> Requested(r.collections[i].kind, licenses))
    && NoKindTwice(r.collections)
    && r.status != Unset
    && (Successful(r.status) ==> Covers(r.collections, VMs))
  }

  ghost predicate CoversRequested(cs: seq<CollectionResult>, licenses: bool) {
    && NoKindTwice(cs)
    && forall k :: Covers(cs, k) <==> Requested(k, licenses)
  }

  lemma PersistedKindsListed(k: Kind)
    ensures k in PERSISTED_KINDS <==> Persisted(k)
  {
    var p := PERSISTED_KINDS;
    match k
    case VMs => assert p[0] == k;
    case Hosts => assert p[1] == k;
    case Clusters => assert p[2] == k;
    case Datastores => assert p[3] == k;
    case ResourcePools => assert p[4] == k;
    case VApps => assert p[5] == k;
    case DVSwitches => assert p[6] == k;
    case Networks => assert p[7] == k;
    case Snapshots => assert p[8] == k;
    case _ =>
  }

  lemma GroupsListed(k: Kind)
    ensures k in GROUPS <==> Persisted(k) && k != Snapshots
  {
    var p := GROUPS;
    match k
    case VMs => assert p[0] == k;
    case Hosts => assert p[1] == k;
    case Clusters => assert p[2] == k;
    case ResourcePools => assert p[3] == k;
    case VApps => assert p[4] == k;
    case DVSwitches => assert p[5] == k;
    case Datastores => assert p[6] == k;
    case Networks => assert p[7] == k;
    case _ =>
  }

  /** What a collection has to say of the fetch it stands for: that it failed and how, or how much was
      read and whether that was anything. */
  predicate Tells(a: Answers, c: CollectionResult) {
    if c.kind == License then c.status == a.license
    else if c.kind == Snapshots then
      match a.groups(VMs)
      case GroupFailed(message) => c.status == Failed && c.error == message
      case GroupRead(_, _) => c.itemCount == a.snapshots && c.status == if a.snapshots > 0 then Success else Empty
    else
      match a.groups(c.kind)
      case GroupFailed(message) => c.status == Failed && c.error == message
      case GroupRead(count, unreadable) =>
        c.itemCount == count && c.status == if unreadable && c.kind != VMs then Failed else if count > 0 then Success else Empty
  }

  /** Unless the rest of the capture contradicts it: then what was read is only partial. */
  ghost predicate TellsOrHides(a: Answers, c: CollectionResult) {
    if c.kind in {Hosts, Networks, DVSwitches} && c.kind in a.hidden then
      || (Tells(a, c) && c.status == Failed)
      || (c.status == Partial && (Tells(a, c.(status := Success)) || Tells(a, c.(status := Empty))))
    else Tells(a, c)
  }

  ghost predicate AllTell(a: Answers, cs: seq<CollectionResult>) { forall i :: 0 <= i < |cs| ==> Tells(a, cs[i]) }

  function ResourceCollection(kind: Kind, fetch: GroupFetch): CollectionResult {
    match fetch
    case GroupFailed(message) => CollectionResult(kind, Failed, message, 0, 0)
    case GroupRead(count, unreadable) =>
      CollectionResult(kind, if unreadable then Failed else if count == 0 then Empty else Success, "", count, count)
  }

  predicate Demotable(kind: Kind) { kind == Hosts || kind == Networks || kind == DVSwitches }

  /** A collection the rest of the capture contradicts is partial, not successful. */
  function Demote(c: CollectionResult, hidden: set<Kind>): CollectionResult {
    if Demotable(c.kind) && c.kind in hidden && Successful(c.status) then c.(status := Partial) else c
  }

  /** One more collection, of a kind not there yet. */
  lemma CoversPush(cs: seq<CollectionResult>, c: CollectionResult)
    requires NoKindTwice(cs) && !Covers(cs, c.kind)
    ensures NoKindTwice(cs + [c])
    ensures forall k :: Covers(cs + [c], k) <==> Covers(cs, k) || k == c.kind
  {
    var more := cs + [c];
    assert more[|cs|] == c;
    forall k ensures Covers(more, k) <==> Covers(cs, k) || k == c.kind {
      if Covers(cs, k) {
        var i :| 0 <= i < |cs| && cs[i].kind == k;
        assert more[i].kind == k;
      }
    }
  }

  method FailAll(licenses: bool, error: string) returns (cs: seq<CollectionResult>)
    ensures CoversRequested(cs, licenses)
    ensures |cs| > 0 && forall i :: 0 <= i < |cs| ==> cs[i].status == Failed
  {
    cs := [];
    for i := 0 to |PERSISTED_KINDS|
      invariant NoKindTwice(cs) && forall k :: Covers(cs, k) <==> k in PERSISTED_KINDS[..i]
      invariant (i > 0 ==> |cs| > 0) && forall j :: 0 <= j < |cs| ==> cs[j].status == Failed
    {
      var kind := PERSISTED_KINDS[i];
      assert kind !in PERSISTED_KINDS[..i];
      CoversPush(cs, CollectionResult(kind, Failed, error, 0, 0));
      assert PERSISTED_KINDS[..i + 1] == PERSISTED_KINDS[..i] + [kind];
      cs := cs + [CollectionResult(kind, Failed, error, 0, 0)];
    }
    assert PERSISTED_KINDS[..|PERSISTED_KINDS|] == PERSISTED_KINDS;
    forall k ensures Covers(cs, k) <==> Persisted(k) { PersistedKindsListed(k); }
    if licenses {
      CoversPush(cs, CollectionResult(License, Failed, error, 0, 0));
      cs := cs + [CollectionResult(License, Failed, error, 0, 0)];
    }
  }

  method VMCollections(fetch: GroupFetch, snapshots: nat) returns (vm: CollectionResult, snapshot: CollectionResult)
    ensures vm.kind == VMs && snapshot.kind == Snapshots && vm.status != Unset
    ensures fetch.GroupFailed? <==> vm.status == Failed
    ensures forall a: Answers :: a.groups(VMs) == fetch && a.snapshots == snapshots ==> Tells(a, vm) && Tells(a, snapshot)
  {
    match fetch {
      case GroupFailed(message) =>
        vm := CollectionResult(VMs, Failed, message, 0, 0);
        snapshot := CollectionResult(Snapshots, Failed, message, 0, 0);
      case GroupRead(count, _) =>
        vm := CollectionResult(VMs, if count == 0 then Empty else Success, "", count, 0);
        snapshot := CollectionResult(Snapshots, if snapshots == 0 then Empty else Success, "", snapshots, 0);
    }
  }

  /** What the first g groups gave. */
  ghost predicate GroupsUpTo(a: Answers, cs: seq<CollectionResult>, g: nat)
    requires g <= |GROUPS|
  {
    && NoKindTwice(cs) && AllTell(a, cs)
    && (forall k :: Covers(cs, k) <==> k in GROUPS[..g] || (g > 0 && k == Snapshots))
    && (g == 0 ==> cs == [])
    && (g > 0 ==> |cs| > 0 && cs[0].kind == VMs && cs[0].status != Unset)
  }

  lemma GroupsPush(a: Answers, cs: seq<CollectionResult>, g: nat, c: CollectionResult)
    requires 0 < g < |GROUPS| && GroupsUpTo(a, cs, g) && c.kind == GROUPS[g] && Tells(a, c)
    ensures GroupsUpTo(a, cs + [c], g + 1)
  {
    assert GROUPS[g] !in GROUPS[..g] && GROUPS[g] != Snapshots;
    assert GROUPS[..g + 1] == GROUPS[..g] + [GROUPS[g]];
    CoversPush(cs, c);
  }

  lemma FirstGroup(a: Answers, vm: CollectionResult, snapshot: CollectionResult)
    requires vm.kind == VMs && snapshot.kind == Snapshots && vm.status != Unset && Tells(a, vm) && Tells(a, snapshot)
    ensures GroupsUpTo(a, [vm] + [snapshot], 1)
  {
    CoversPush([], vm);
    CoversPush([vm], snapshot);
    assert [] + [vm] == [vm] && GROUPS[..1] == [VMs];
  }

  /** The collections of a context whose index was read: every requested kind, exactly once, saying what
      its fetch came to. */
  method CollectGroups(a: Answers, licenses: bool) returns (cs: seq<CollectionResult>)
    ensures CoversRequested(cs, licenses)
    ensures |cs| > 0 && cs[0].kind == VMs && cs[0].status != Unset
    ensures AllTell(a, cs)
  {
    cs := [];
    for g := 0 to |GROUPS|
      invariant GroupsUpTo(a, cs, g)
    {
      var kind := GROUPS[g];
      if kind == VMs {
        assert g == 0;
        var vm, snapshot := VMCollections(a.groups(VMs), a.snapshots);
        FirstGroup(a, vm, snapshot);
        assert cs + [vm] + [snapshot] == [vm] + [snapshot];
        cs := cs + [vm] + [snapshot];
      } else {
        var c := ResourceCollection(kind, a.groups(kind));
        assert g > 0;
        GroupsPush(a, cs, g, c);
        cs := cs + [c];
      }
    }
    assert GROUPS[..|GROUPS|] == GROUPS;
    forall k ensures Covers(cs, k) <==> Persisted(k) { GroupsListed(k); }
    if licenses {
      var c := CollectionResult(License, a.license, "", 0, 0);
      CoversPush(cs, c);
      cs := cs + [c];
    }
  }

  method MarkHidden(cs: seq<CollectionResult>, hidden: set<Kind>) returns (out: seq<CollectionResult>)
    ensures |out| == |cs| && forall i :: 0 <= i < |cs| ==> out[i] == Demote(cs[i], hidden)
  {
    out := [];
    for i := 0 to |cs|
      invariant |out| == i && forall j :: 0 <= j < i ==> out[j] == Demote(cs[j], hidden)
    {
      out := out + [Demote(cs[i], hidden)];
    }
  }

  lemma DemotionKeepsKinds(cs: seq<CollectionResult>, out: seq<CollectionResult>, hidden: set<Kind>, licenses: bool)
    requires |out| == |cs| && forall i :: 0 <= i < |cs| ==> out[i] == Demote(cs[i], hidden)
    requires CoversRequested(cs, licenses)
    ensures CoversRequested(out, licenses)
  {
    assert forall i :: 0 <= i < |cs| ==> out[i].kind == cs[i].kind;
    forall k ensures Covers(out, k) <==> Covers(cs, k) {
      if Covers(cs, k) {
        var i :| 0 <= i < |cs| && cs[i].kind == k;
        assert out[i].kind == k;
      }
    }
  }

  /** Captures one context. A context that could not be reached records no collection; every
      other one records each requested kind exactly once, and none the capture contradicts as
      successful. */
  method CaptureContext(name: string, licenses: bool, a: Answers) returns (r: ContextResult)
    ensures r.name == name && FromCollector(r, licenses)
    ensures a.connection.NotConnected? ==> r.collections == [] && r.status == Failed
    ensures !a.connection.NotConnected? ==> CoversRequested(r.collections, licenses)
    ensures a.connection.NoIndex? ==> forall i :: 0 <= i < |r.collections| ==> r.collections[i].status == Failed
    ensures a.connection.Connected? ==> forall i :: 0 <= i < |r.collections| ==> TellsOrHides(a, r.collections[i])
    ensures forall i :: 0 <= i < |r.collections| && r.collections[i].kind == VMs ==> r.collections[i].status == r.status
    ensures forall i :: 0 <= i < |r.collections| && Demotable(r.collections[i].kind) && r.collections[i].kind in a.hidden ==>
      !Successful(r.collections[i].status)
  {
    r := ContextResult(name, a.vcenterID, Failed, "", [], []);
    if a.connection.NotConnected? {
      r := r.(error := a.connection.error);
      return;
    }
    var cs;
    if a.connection.NoIndex? {
      cs := FailAll(licenses, a.connection.error);
      r := r.(error := a.connection.error, collections := cs);
    } else {
      cs := CollectVisible(a, licenses);
      r := r.(morefs := if a.groups(VMs).GroupRead? then a.morefs else [], collections := cs, status := cs[0].status);
    }
    CoversWhatItHolds(cs, licenses);
  }

  method CollectVisible(a: Answers, licenses: bool) returns (cs: seq<CollectionResult>)
    ensures CoversRequested(cs, licenses)
    ensures |cs| > 0 && cs[0].kind == VMs && cs[0].status != Unset
    ensures forall i :: 0 <= i < |cs| && Demotable(cs[i].kind) && cs[i].kind in a.hidden ==> !Successful(cs[i].status)
    ensures forall i :: 0 <= i < |cs| ==> TellsOrHides(a, cs[i])
  {
    var found := CollectGroups(a, licenses);
    cs := MarkHidden(found, a.hidden);
    DemotionKeepsKinds(found, cs, a.hidden, licenses);
    forall i | 0 <= i < |cs| ensures TellsOrHides(a, cs[i]) {
      DemotionTells(a, found[i]);
    }
  }

  lemma DemotionTells(a: Answers, c: CollectionResult)
    requires Tells(a, c)
    ensures TellsOrHides(a, Demote(c, a.hidden))
  {
    assert c == c.(status := c.status);
  }

  lemma CoversWhatItHolds(cs: seq<CollectionResult>, licenses: bool)
    requires CoversRequested(cs, licenses)
    ensures forall i :: 0 <= i < |cs| ==> Requested(cs[i].kind, licenses)
    ensures Covers(cs, VMs)
  {
    assert forall i :: 0 <= i < |cs| ==> Covers(cs, cs[i].kind);
  }
}
