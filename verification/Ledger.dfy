/** The ledger's tables, and what each statement or transaction does to them. A statement that
    is refused leaves the tables as they were. Times are milliseconds. */
module Ledger {
  import opened Common
  import opened Strings

  type Token = string

  const LEASE_DURATION := 120_000

  datatype RunStatus = RunRunning | RunComplete | RunPartial | RunFailed

  /** The status of a context or of one of its collections. */
  datatype Status = Unset | Running | Success | Empty | Partial | Failed | OtherStatus(name: string)

  predicate Successful(s: Status) { s == Success || s == Empty }

  datatype Kind =
    | VMs | Hosts | Clusters | Datastores | ResourcePools | VApps | DVSwitches | Networks | Snapshots
    | License | Blank | OtherKind(name: string)

  const PERSISTED_KINDS: seq<Kind> :=
    [VMs, Hosts, Clusters, Datastores, ResourcePools, VApps, DVSwitches, Networks, Snapshots]

  datatype Lease = Lease(token: Token, runID: int, operation: string, acquiredAt: int, expiresAt: int)

  datatype RunRow = RunRow(
    status: RunStatus, pinned: bool, startedAt: int, finishedAt: Option<int>,
    requestedContexts: int, successfulContexts: int, requestedCollections: int, successfulCollections: int,
    runLabel: string)

  datatype ContextKey = ContextKey(run: int, name: string)
  datatype ContextRow = ContextRow(vcenterID: string, finishedAt: Option<int>, vmStatus: Status, error: string)

  datatype CollectionKey = CollectionKey(run: int, name: string, kind: Kind)
  datatype CollectionRow = CollectionRow(finishedAt: int, status: Status, error: string, itemCount: int)

  datatype VMKey = VMKey(run: int, name: string, moref: string)

  /** The map keys are the tables' UNIQUE constraints; at most one lease row can exist. Run IDs
      are never reused. */
  datatype Db = Db(
    lease: Option<Lease>,
    runs: map<int, RunRow>,
    contexts: map<ContextKey, ContextRow>,
    collections: map<CollectionKey, CollectionRow>,
    vms: set<VMKey>,
    nextRun: int)

  predicate Holds(db: Db, token: Token) { db.lease.Some? && db.lease.value.token == token }

  /** The guard of every fenced statement: the row is the caller's and outlives the given time. */
  predicate HoldsAt(db: Db, token: Token, now: int) {
    Holds(db, token) && db.lease.value.expiresAt > now
  }

  predicate LeasedPast(db: Db, now: int) { db.lease.Some? && db.lease.value.expiresAt > now }

  // ----- The lease row

  /** Reclaims an expired row and inserts the new one, or fails on the constraint. */
  function Acquire(db: Db, token: Token, operation: string, now: int): (Db, bool) {
    if LeasedPast(db, now) then (db, false)
    else (db.(lease := Some(Lease(token, 0, operation, now, now + LEASE_DURATION))), true)
  }

  function SetRun(db: Db, token: Token, runID: int, now: int): (Db, bool) {
    if HoldsAt(db, token, now) then (db.(lease := Some(db.lease.value.(runID := runID))), true) else (db, false)
  }

  function Renew(db: Db, token: Token, now: int): (Db, bool) {
    if HoldsAt(db, token, now) then
      (db.(lease := Some(db.lease.value.(expiresAt := now + LEASE_DURATION))), true)
    else (db, false)
  }

  function Release(db: Db, token: Token): Db {
    if Holds(db, token) then db.(lease := None) else db
  }

  // ----- Runs

  /** How many collection rows a complete run must hold. */
  function RequestedCollections(contexts: int, licenses: bool): int {
    contexts * |PERSISTED_KINDS| + if licenses then contexts else 0
  }

  function NewContexts(id: int, names: seq<string>): map<ContextKey, ContextRow> {
    map n | n in names :: ContextKey(id, n) := ContextRow("", None, Running, "")
  }

  /** Two labels are the same when only the case of ASCII letters tells them apart. */
  predicate LabelTaken(runs: map<int, RunRow>, runLabel: string) {
    runLabel != "" && exists r :: r in runs && Lower(runs[r].runLabel) == Lower(runLabel)
  }

  /** Inserts a running run and one running row per context; a label another run has, or a name given
      twice, breaks a constraint and rolls back. */
  function StartRun(db: Db, names: seq<string>, runLabel: string, licenses: bool, pinned: bool, now: int): (Db, Option<int>) {
    if LabelTaken(db.runs, runLabel) || exists i, j :: 0 <= i < j < |names| && names[i] == names[j] then (db, None)
    else
      var id := db.nextRun;
      var row := RunRow(RunRunning, pinned, now, None, |names|, 0, RequestedCollections(|names|, licenses), 0, runLabel);
      (db.(runs := db.runs[id := row],
           contexts := db.contexts + NewContexts(id, names),
           nextRun := id + 1),
       Some(id))
  }

  datatype CollectionResult = CollectionResult(kind: Kind, status: Status, error: string, itemCount: int, resources: nat)

  datatype ContextResult = ContextResult(
    name: string, vcenterID: string, status: Status, error: string,
    morefs: seq<string>, collections: seq<CollectionResult>)

  function OrSuccess(s: Status): Status { if s == Unset then Success else s }

  function CollectionRowOf(c: CollectionResult, now: int): CollectionRow {
    CollectionRow(now, OrSuccess(c.status), c.error,
      if c.itemCount == 0 && c.resources > 0 then c.resources else c.itemCount)
  }

  /** The collections inserted or replaced, first to last; a blank kind is skipped. */
  function Upsert(rows: map<CollectionKey, CollectionRow>, run: int, name: string,
      cs: seq<CollectionResult>, now: int): map<CollectionKey, CollectionRow>
  {
    if cs == [] then rows
    else
      var c := cs[|cs| - 1];
      var before := Upsert(rows, run, name, cs[..|cs| - 1], now);
      if c.kind == Blank then before
      else before[CollectionKey(run, name, c.kind) := CollectionRowOf(c, now)]
  }

  /** The VM rows can be inserted: no moref twice, none already recorded for the context. */
  predicate VMsInsertable(db: Db, run: int, name: string, morefs: seq<string>) {
    && (forall i, j :: 0 <= i < j < |morefs| ==> morefs[i] != morefs[j])
    && forall i :: 0 <= i < |morefs| ==> VMKey(run, name, morefs[i]) !in db.vms
  }

  function Saved(db: Db, run: int, result: ContextResult, now: int): Db
    requires ContextKey(run, result.name) in db.contexts
  {
    var key := ContextKey(run, result.name);
    db.(contexts := db.contexts[key := ContextRow(result.vcenterID, Some(now), OrSuccess(result.status), result.error)],
        vms := db.vms + (set m | m in result.morefs :: VMKey(run, result.name, m)),
        collections := Upsert(db.collections, run, result.name, result.collections, now))
  }

  /** One context's result in one transaction. With a lease, the transaction commits only while
      the lease row is the caller's and live at the clock. */
  function SaveContext(db: Db, run: int, result: ContextResult, now: int, token: Option<Token>, clock: int): (Db, bool) {
    if ContextKey(run, result.name) !in db.contexts then (db, false)
    else if !VMsInsertable(db, run, result.name, result.morefs) then (db, false)
    else if token.Some? && !HoldsAt(db, token.value, clock) then (db, false)
    else (Saved(db, run, result, now), true)
  }

  // ----- Finishing a run

  function SuccessfulContexts(db: Db, run: int): set<ContextKey> {
    set k | k in db.contexts && k.run == run && Successful(db.contexts[k].vmStatus)
  }

  function RunningContexts(db: Db, run: int): set<ContextKey> {
    set k | k in db.contexts && k.run == run && db.contexts[k].vmStatus == Running
  }

  function CollectionsOf(db: Db, run: int): set<CollectionKey> {
    set k | k in db.collections && k.run == run
  }

  function SuccessfulCollections(db: Db, run: int): set<CollectionKey> {
    set k | k in db.collections && k.run == run && Successful(db.collections[k].status)
  }

  function RunningCollections(db: Db, run: int): set<CollectionKey> {
    set k | k in db.collections && k.run == run && db.collections[k].status == Running
  }

  /** What finishing reads, one query after the other, before it decides. */
  datatype Counts = Counts(
    requestedContexts: int, requestedCollections: int,
    successContexts: int, runningContexts: int,
    collected: int, successful: int, runningCollections: int)

  function Decide(c: Counts): RunStatus {
    if c.collected > 0 then
      var requested := if c.requestedCollections == 0 then c.collected else c.requestedCollections;
      if c.successful == 0 then RunFailed
      else if c.successful == requested && c.runningCollections == 0 && c.collected == requested then RunComplete
      else RunPartial
    else if c.successContexts == 0 then RunFailed
    else if c.successContexts == c.requestedContexts && c.runningContexts == 0 then RunComplete
    else RunPartial
  }

  /** The final update, guarded by the lease row when the caller has one. */
  function Finish(db: Db, run: int, c: Counts, now: int, token: Option<Token>): (Db, bool) {
    if run !in db.runs || (token.Some? && !HoldsAt(db, token.value, now)) then (db, false)
    else
      var successful := if c.collected > 0 then c.successful else 0;
      var row := db.runs[run].(finishedAt := Some(now), status := Decide(c),
                               successfulContexts := c.successContexts, successfulCollections := successful);
      (db.(runs := db.runs[run := row]), true)
  }

  // ----- Orphan recovery: three statements, each on its own

  const INTERRUPTED := "capture interrupted"

  function RecoverContexts(db: Db, now: int): Db {
    if LeasedPast(db, now) then db
    else db.(contexts := map k | k in db.contexts ::
      var c := db.contexts[k];
      if c.vmStatus == Running then
        c.(vmStatus := Failed, error := if c.error == "" then INTERRUPTED else c.error, finishedAt := Some(now))
      else c)
  }

  function RecoverCollections(db: Db, now: int): Db {
    if LeasedPast(db, now) then db
    else db.(collections := map k | k in db.collections ::
      var c := db.collections[k];
      if c.status == Running then
        c.(status := Failed, error := if c.error == "" then INTERRUPTED else c.error, finishedAt := now)
      else c)
  }

  function RecoverRuns(db: Db, now: int): Db {
    if LeasedPast(db, now) then db
    else db.(runs := map id | id in db.runs ::
      var r := db.runs[id];
      if r.status == RunRunning then r.(status := RunFailed, finishedAt := Some(now)) else r)
  }

  /** Nothing runs any more. */
  ghost predicate NothingRuns(db: Db) {
    && (forall r :: r in db.runs ==> db.runs[r].status != RunRunning)
    && (forall k :: k in db.contexts ==> db.contexts[k].vmStatus != Running)
    && (forall k :: k in db.collections ==> db.collections[k].status != Running)
  }

  /** The same rows, and those that were not running just as they were. */
  ghost predicate SparesFinished(a: Db, b: Db) {
    && b.runs.Keys == a.runs.Keys && b.contexts.Keys == a.contexts.Keys && b.collections.Keys == a.collections.Keys
    && b.lease == a.lease && b.vms == a.vms && b.nextRun == a.nextRun
    && (forall r :: r in a.runs && a.runs[r].status != RunRunning ==> b.runs[r] == a.runs[r])
    && (forall k :: k in a.contexts && a.contexts[k].vmStatus != Running ==> b.contexts[k] == a.contexts[k])
    && (forall k :: k in a.collections && a.collections[k].status != Running ==> b.collections[k] == a.collections[k])
  }

  /** Those that were running are failed, ended at the time and say why. */
  ghost predicate FailsRunning(a: Db, b: Db, now: int) {
    && (forall r :: r in a.runs && r in b.runs && a.runs[r].status == RunRunning ==>
          b.runs[r].status == RunFailed && b.runs[r].finishedAt == Some(now))
    && (forall k :: k in a.contexts && k in b.contexts && a.contexts[k].vmStatus == Running ==>
          b.contexts[k].vmStatus == Failed && b.contexts[k].finishedAt == Some(now) && b.contexts[k].error != "")
    && (forall k :: k in a.collections && k in b.collections && a.collections[k].status == Running ==>
          b.collections[k].status == Failed && b.collections[k].finishedAt == now && b.collections[k].error != "")
  }

  /** With nothing in between, the three statements change nothing while a lease is live, and
      without one leave nothing running and everything finished as it was. */
  lemma RecoveryAsAWhole(db: Db, now: int)
    ensures var after := RecoverRuns(RecoverCollections(RecoverContexts(db, now), now), now);
      if LeasedPast(db, now) then after == db
      else NothingRuns(after) && SparesFinished(db, after) && FailsRunning(db, after, now)
  {
  }

  // ----- Changing a run's metadata

  /** Labels and pins a run; a label another run has is refused. */
  function Update(db: Db, id: int, runLabel: Option<string>, pinned: Option<bool>): Db {
    if id !in db.runs || (runLabel.Some? && LabelTaken(db.runs - {id}, runLabel.value)) then db
    else
      var row := db.runs[id];
      db.(runs := db.runs[id := row.(runLabel := if runLabel.Some? then runLabel.value else row.runLabel,
                                     pinned := if pinned.Some? then pinned.value else row.pinned)])
  }

  // ----- Deleting a run and everything recorded under it

  function Cascade(db: Db, id: int): Db {
    db.(runs := db.runs - {id},
        contexts := map k | k in db.contexts && k.run != id :: db.contexts[k],
        collections := map k | k in db.collections && k.run != id :: db.collections[k],
        vms := set k | k in db.vms && k.run != id)
  }

  /** Prune's guarded delete. */
  function DeleteUnpinned(db: Db, id: int): (Db, bool) {
    if id in db.runs && !db.runs[id].pinned && db.runs[id].status != RunRunning then (Cascade(db, id), true)
    else (db, false)
  }
}
