/** The store: its tables as fields, its operations as the methods that rewrite them. Each is one
    statement or transaction; a refused one leaves every table alone. */
module Store {
  import opened Common
  import opened Ledger
  import opened Strings

  datatype Result<+T> = Ok(value: T) | Err(message: string)

  /** One more name adds its row, unless an earlier name took it. */
  lemma NewContextsNext(id: int, names: seq<string>, i: nat)
    requires i < |names|
    ensures NewContexts(id, names[..i + 1]) == NewContexts(id, names[..i])[ContextKey(id, names[i]) := ContextRow("", None, Running, "")]
    ensures ContextKey(id, names[i]) in NewContexts(id, names[..i]) <==> exists a :: 0 <= a < i && names[a] == names[i]
  {
    assert names[..i + 1] == names[..i] + [names[i]];
    assert forall a :: 0 <= a < i ==> names[a] in names[..i];
    if names[i] in names[..i] {
      var a :| 0 <= a < i && names[..i][a] == names[i];
      assert names[a] == names[i];
    }
  }

  ghost predicate Inserted(id: int, names: seq<string>, i: int, rows: map<ContextKey, ContextRow>) {
    && 0 <= i <= |names| && (forall a, b :: 0 <= a < b < i ==> names[a] != names[b])
    && rows == NewContexts(id, names[..i])
  }

  lemma InsertedNext(id: int, names: seq<string>, i: nat, rows: map<ContextKey, ContextRow>)
    requires i < |names| && Inserted(id, names, i, rows) && ContextKey(id, names[i]) !in rows
    ensures Inserted(id, names, i + 1, rows[ContextKey(id, names[i]) := ContextRow("", None, Running, "")])
  {
    NewContextsNext(id, names, i);
  }

  lemma InsertedTwice(id: int, names: seq<string>, i: nat, rows: map<ContextKey, ContextRow>)
    requires i < |names| && Inserted(id, names, i, rows) && ContextKey(id, names[i]) in rows
    ensures exists a, b :: 0 <= a < b < |names| && names[a] == names[b]
  {
    NewContextsNext(id, names, i);
    var a :| 0 <= a < i && names[a] == names[i];
    assert 0 <= a < i < |names| && names[a] == names[i];
  }

  predicate LabelChar(c: char) { 'a' <= c <= 'z' || 'A' <= c <= 'Z' || '0' <= c <= '9' }

  /** A label is empty, or up to 64 letters, digits, dots, underscores and dashes that start with a
      letter or digit, other than the two names that select runs by position. */
  predicate ValidLabel(runLabel: string) {
    runLabel == ""
    || (|runLabel| <= 64 && LabelChar(runLabel[0])
        && (forall i :: 0 < i < |runLabel| ==> LabelChar(runLabel[i]) || runLabel[i] == '.' || runLabel[i] == '_' || runLabel[i] == '-')
        && Lower(runLabel) != "latest" && Lower(runLabel) != "previous")
  }

  /** The two names that select runs by position are refused in any case of their letters. */
  lemma PositionsAreNoLabels(s: string)
    requires Lower(s) == "latest" || Lower(s) == "previous"
    ensures !ValidLabel(s)
  {
  }

  lemma LatestInCapitals()
    ensures !ValidLabel("Latest") && !ValidLabel("previous")
  {
    assert Lower("Latest") == "latest" && Lower("previous") == "previous";
  }

  /** So are a label of more than 64 characters, and one with a character that is no letter, digit, dot,
      underscore or dash, or that starts with one of the last three. */
  lemma RefusedLabels(s: string)
    ensures |s| > 64 ==> !ValidLabel(s)
    ensures s != "" && s[0] in {'.', '_', '-'} ==> !ValidLabel(s)
    ensures (exists c :: c in s && c in {' ', '/', ':', '@', '[', '`', '{'}) ==> !ValidLabel(s)
  {
    if c :| c in s && c in {' ', '/', ':', '@', '[', '`', '{'} {
      var i :| 0 <= i < |s| && s[i] == c;
    }
  }

  /** Any other label may be given. */
  lemma AllowedLabels(s: string)
    requires 0 < |s| <= 64 && s[0] in {'a', 'z', 'A', 'Z', '0', '9'}
    requires forall i :: 0 < i < |s| ==> 'a' <= s[i] <= 'z' || 'A' <= s[i] <= 'Z' || '0' <= s[i] <= '9' || s[i] in {'.', '_', '-'}
    ensures ValidLabel(s)
  {
    assert Lower(s)[0] in {'a', 'z', '0', '9'};
    assert "latest"[0] == 'l' && "previous"[0] == 'p';
  }

  const NO_LONGER_VALID := "capture lease is no longer valid"

  class Store {
    var lease: Option<Lease>
    var runs: map<int, RunRow>
    var contexts: map<ContextKey, ContextRow>
    var collections: map<CollectionKey, CollectionRow>
    var vms: set<VMKey>
    var nextRun: int

    constructor ()
      ensures State() == Db(None, map[], map[], map[], {}, 1)
    {
      lease, runs, contexts, collections, vms, nextRun := None, map[], map[], map[], {}, 1;
    }

    ghost function State(): Db
      reads this
    {
      Db(lease, runs, contexts, collections, vms, nextRun)
    }

    /** sidecarFree is the answer of the lock file beside the database, which can only refuse. */
    method AcquireOperationLease(token: Token, operation: string, now: int, sidecarFree: bool)
      returns (r: Result<Lease>)
      modifies this
      ensures r.Ok? <==> sidecarFree && !LeasedPast(old(State()), now)
      ensures State() == if sidecarFree then Acquire(old(State()), token, OrOperation(operation), now).0 else old(State())
      ensures r.Ok? ==> State().lease == Some(r.value) && r.value.token == token
      ensures r.Ok? ==> r.value.operation == if operation == "" then "operation" else operation
    {
      var op := OrOperation(operation);
      if !sidecarFree {
        return Err("another capture operation is already running");
      }
      var row := lease;
      if row.Some? && row.value.expiresAt <= now {
        row := None;
      }
      if row.Some? {
        return Err("another capture is already running");
      }
      var l := Lease(token, 0, op, now, now + LEASE_DURATION);
      lease := Some(l);
      r := Ok(l);
    }

    method SetCaptureLeaseRun(token: Token, runID: int, clock: int) returns (r: Result<()>)
      modifies this`lease
      ensures r.Ok? <==> HoldsAt(old(State()), token, clock)
      ensures State() == SetRun(old(State()), token, runID, clock).0
    {
      if lease.Some? && lease.value.token == token && lease.value.expiresAt > clock {
        lease := Some(lease.value.(runID := runID));
        return Ok(());
      }
      r := Err(NO_LONGER_VALID);
    }

    /** The row is renewed first; the sidecar may still refuse, which fails the call only. */
    method RenewCaptureLease(token: Token, now: int, sidecarOurs: bool) returns (r: Result<int>)
      modifies this`lease
      ensures r.Ok? <==> HoldsAt(old(State()), token, now) && sidecarOurs
      ensures State() == Renew(old(State()), token, now).0
      ensures r.Ok? ==> r.value == now + LEASE_DURATION
    {
      var expires := now + LEASE_DURATION;
      if !(lease.Some? && lease.value.token == token && lease.value.expiresAt > now) {
        return Err(NO_LONGER_VALID);
      }
      lease := Some(lease.value.(expiresAt := expires));
      if !sidecarOurs {
        return Err("capture operation sidecar lease is no longer valid");
      }
      r := Ok(expires);
    }

    method ReleaseCaptureLease(token: Token)
      modifies this`lease
      ensures State() == Release(old(State()), token)
    {
      if lease.Some? && lease.value.token == token {
        lease := None;
      }
    }

    method ValidateCaptureLease(token: Token, clock: int) returns (ok: bool)
      ensures ok <==> HoldsAt(State(), token, clock)
    {
      ok := lease.Some? && lease.value.token == token && lease.value.expiresAt > clock;
    }

    method StartRunWithMetadata(names: seq<string>, runLabel: string, licenses: bool, pinned: bool, now: int) returns (r: Result<int>)
      modifies this
      ensures !ValidLabel(runLabel) ==> r.Err? && State() == old(State())
      ensures ValidLabel(runLabel) ==> State() == StartRun(old(State()), names, runLabel, licenses, pinned, now).0
      ensures ValidLabel(runLabel) ==> match StartRun(old(State()), names, runLabel, licenses, pinned, now).1
        case Some(id) => r == Ok(id)
        case None => r.Err?
    {
      if !ValidLabel(runLabel) {
        return Err("invalid run label");
      }
      if LabelTaken(runs, runLabel) {
        return Err("UNIQUE constraint failed: runs.label");
      }
      var id := nextRun;
      var inserted, rows := InsertContexts(id, names);
      if !inserted {
        return Err("UNIQUE constraint failed: context_runs.run_id, context_runs.name");
      }
      runs := runs[id := RunRow(RunRunning, pinned, now, None, |names|, 0, RequestedCollections(|names|, licenses), 0, runLabel)];
      contexts := contexts + rows;
      nextRun := id + 1;
      r := Ok(id);
    }

    static method InsertContexts(id: int, names: seq<string>) returns (ok: bool, rows: map<ContextKey, ContextRow>)
      ensures ok <==> !exists i, j :: 0 <= i < j < |names| && names[i] == names[j]
      ensures ok ==> rows == NewContexts(id, names)
    {
      rows := map[];
      for i := 0 to |names|
        invariant Inserted(id, names, i, rows)
      {
        var key := ContextKey(id, names[i]);
        if key in rows {
          InsertedTwice(id, names, i, rows);
          return false, rows;
        }
        InsertedNext(id, names, i, rows);
        rows := rows[key := ContextRow("", None, Running, "")];
      }
      assert names[..|names|] == names;
      ok := true;
    }

    /** The transaction works on copies of the tables and commits them together. clock is read
        once for the check before and once for the check inside the transaction. */
    method SaveContext(runID: int, result: ContextResult, now: int, token: Option<Token>, clock0: int, clock: int)
      returns (r: Result<()>)
      modifies this
      ensures token.Some? && !HoldsAt(old(State()), token.value, clock0) ==> r.Err? && State() == old(State())
      ensures token.None? || HoldsAt(old(State()), token.value, clock0) ==>
        && State() == Ledger.SaveContext(old(State()), runID, result, now, token, clock).0
        && (r.Ok? <==> Ledger.SaveContext(old(State()), runID, result, now, token, clock).1)
    {
      if token.Some? {
        var ok := ValidateCaptureLease(token.value, clock0);
        if !ok {
          return Err(NO_LONGER_VALID);
        }
      }
      var key := ContextKey(runID, result.name);
      if key !in contexts {
        return Err("sql: no rows in result set");
      }
      var status := OrSuccess(result.status);
      var contexts' := contexts[key := ContextRow(result.vcenterID, Some(now), status, result.error)];
      var inserted, vms' := InsertVMs(runID, result.name, result.morefs);
      if !inserted {
        return Err("UNIQUE constraint failed: vm_observations.context_run_id, vm_observations.moref");
      }
      var collections' := UpsertCollections(runID, result.name, result.collections, now);
      if token.Some? && !(lease.Some? && lease.value.token == token.value && lease.value.expiresAt > clock) {
        return Err(NO_LONGER_VALID);
      }
      contexts, vms, collections := contexts', vms', collections';
      r := Ok(());
    }

    method InsertVMs(runID: int, name: string, morefs: seq<string>) returns (ok: bool, rows: set<VMKey>)
      ensures ok <==> VMsInsertable(State(), runID, name, morefs)
      ensures ok ==> rows == vms + (set m | m in morefs :: VMKey(runID, name, m))
    {
      rows := vms;
      for i := 0 to |morefs|
        invariant VMsInsertable(State(), runID, name, morefs[..i])
        invariant rows == vms + (set m | m in morefs[..i] :: VMKey(runID, name, m))
      {
        var key := VMKey(runID, name, morefs[i]);
        assert key in rows <==> key in vms || morefs[i] in morefs[..i];
        if key in rows {
          if morefs[i] in morefs[..i] {
            var j :| 0 <= j < i && morefs[..i][j] == morefs[i];
            assert morefs[j] == morefs[i];
          }
          return false, rows;
        }
        assert forall j :: 0 <= j < i ==> morefs[j] in morefs[..i];
        assert morefs[..i + 1] == morefs[..i] + [morefs[i]];
        rows := rows + {key};
      }
      assert morefs[..|morefs|] == morefs;
      ok := true;
    }

    method UpsertCollections(runID: int, name: string, cs: seq<CollectionResult>, now: int)
      returns (rows: map<CollectionKey, CollectionRow>)
      ensures rows == Upsert(collections, runID, name, cs, now)
    {
      rows := collections;
      for i := 0 to |cs|
        invariant rows == Upsert(collections, runID, name, cs[..i], now)
      {
        assert cs[..i + 1][..i] == cs[..i];
        var c := cs[i];
        if c.kind == Blank {
          continue;
        }
        var status := if c.status == Unset then Success else c.status;
        var itemCount := c.itemCount;
        if itemCount == 0 && c.resources > 0 {
          itemCount := c.resources;
        }
        rows := rows[CollectionKey(runID, name, c.kind) := CollectionRow(now, status, c.error, itemCount)];
      }
      assert cs[..|cs|] == cs;
    }

    ghost function CountsNow(runID: int): Counts
      requires runID in runs
      reads this
    {
      var db := State();
      Counts(runs[runID].requestedContexts, runs[runID].requestedCollections,
             |SuccessfulContexts(db, runID)|, |RunningContexts(db, runID)|,
             |CollectionsOf(db, runID)|, |SuccessfulCollections(db, runID)|, |RunningCollections(db, runID)|)
    }

    method ReadCounts(runID: int) returns (c: Counts)
      requires runID in runs
      ensures c == CountsNow(runID)
    {
      var success := |set k | k in contexts && k.run == runID && Successful(contexts[k].vmStatus)|;
      var running := |set k | k in contexts && k.run == runID && contexts[k].vmStatus == Running|;
      var collected := |set k | k in collections && k.run == runID|;
      var successful := |set k | k in collections && k.run == runID && Successful(collections[k].status)|;
      var unfinished := |set k | k in collections && k.run == runID && collections[k].status == Running|;
      c := Counts(runs[runID].requestedContexts, runs[runID].requestedCollections,
                  success, running, collected, successful, unfinished);
    }

    static method DecideStatus(c: Counts) returns (status: RunStatus, successful: int)
      ensures status == Decide(c)
      ensures successful == if c.collected > 0 then c.successful else 0
    {
      status, successful := RunPartial, 0;
      if c.collected > 0 {
        successful := c.successful;
        var requested := c.requestedCollections;
        if requested == 0 {
          requested := c.collected;
        }
        if successful == 0 {
          status := RunFailed;
        } else if successful == requested && c.runningCollections == 0 && c.collected == requested {
          status := RunComplete;
        }
      } else if c.successContexts == 0 {
        status := RunFailed;
      } else if c.successContexts == c.requestedContexts && c.runningContexts == 0 {
        status := RunComplete;
      }
    }

    /** The queries and the guarded update, with nothing in between. */
    method FinishRun(runID: int, now: int, token: Option<Token>, clock0: int) returns (r: Result<RunRow>)
      modifies this`runs
      ensures runID !in old(runs) || (token.Some? && !HoldsAt(old(State()), token.value, clock0)) ==>
        r.Err? && State() == old(State())
      ensures runID in old(runs) && (token.None? || HoldsAt(old(State()), token.value, clock0)) ==>
        && State() == Finish(old(State()), runID, old(CountsNow(runID)), now, token).0
        && (r.Ok? <==> Finish(old(State()), runID, old(CountsNow(runID)), now, token).1)
      ensures r.Ok? ==> runID in runs && r.value == runs[runID]
    {
      if token.Some? {
        var ok := ValidateCaptureLease(token.value, clock0);
        if !ok {
          return Err(NO_LONGER_VALID);
        }
      }
      if runID !in runs {
        return Err("sql: no rows in result set");
      }
      var c := ReadCounts(runID);
      var status, successful := DecideStatus(c);
      if token.Some? && !(lease.Some? && lease.value.token == token.value && lease.value.expiresAt > now) {
        return Err(NO_LONGER_VALID);
      }
      var row := runs[runID].(finishedAt := Some(now), status := status,
                              successfulContexts := c.successContexts, successfulCollections := successful);
      runs := runs[runID := row];
      r := Ok(row);
    }

    /** Three statements, run here with nothing in between; now is read once. A live lease stops
        all three; without one nothing is left running, and what had finished is as it was. */
    method RecoverOrphanedRuns(now: int)
      modifies this
      ensures LeasedPast(old(State()), now) ==> State() == old(State())
      ensures !LeasedPast(old(State()), now) ==>
        NothingRuns(State()) && SparesFinished(old(State()), State()) && FailsRunning(old(State()), State(), now)
      ensures State() == RecoverRuns(RecoverCollections(RecoverContexts(old(State()), now), now), now)
    {
      RecoveryAsAWhole(State(), now);
      FailRunningContexts(now);
      FailRunningCollections(now);
      FailRunningRuns(now);
    }

    method FailRunningContexts(now: int)
      modifies this`contexts
      ensures State() == RecoverContexts(old(State()), now)
    {
      if !(lease.Some? && lease.value.expiresAt > now) {
        contexts := map k | k in contexts ::
          var c := contexts[k];
          if c.vmStatus == Running then
            c.(vmStatus := Failed, error := if c.error == "" then INTERRUPTED else c.error, finishedAt := Some(now))
          else c;
      }
    }

    method FailRunningCollections(now: int)
      modifies this`collections
      ensures State() == RecoverCollections(old(State()), now)
    {
      if !(lease.Some? && lease.value.expiresAt > now) {
        collections := map k | k in collections ::
          var c := collections[k];
          if c.status == Running then
            c.(status := Failed, error := if c.error == "" then INTERRUPTED else c.error, finishedAt := now)
          else c;
      }
    }

    method FailRunningRuns(now: int)
      modifies this`runs
      ensures State() == RecoverRuns(old(State()), now)
    {
      if !(lease.Some? && lease.value.expiresAt > now) {
        runs := map id | id in runs ::
          var r := runs[id];
          if r.status == RunRunning then r.(status := RunFailed, finishedAt := Some(now)) else r;
      }
    }

    method DeleteRunIfUnpinned(id: int) returns (deleted: bool)
      modifies this
      ensures State() == DeleteUnpinned(old(State()), id).0
      ensures deleted <==> DeleteUnpinned(old(State()), id).1
    {
      deleted := id in runs && !runs[id].pinned && runs[id].status != RunRunning;
      if deleted {
        runs := runs - {id};
        contexts := map k | k in contexts && k.run != id :: contexts[k];
        collections := map k | k in collections && k.run != id :: collections[k];
        vms := set k | k in vms && k.run != id;
      }
    }
  }

  function OrOperation(operation: string): string {
    if operation == "" then "operation" else operation
  }
}
