/** What each statement leaves in the tables, said of the rows themselves. */
module LedgerStatements {
  import opened Common
  import opened Ledger
  import opened LedgerRuns

  // ----- The lease row: at most one, of one token, until one time

  /** At time t the row is this token's and has not run out. */
  predicate HeldBy(db: Db, token: Token, t: int) {
    db.lease.Some? && db.lease.value.token == token && t < db.lease.value.expiresAt
  }

  /** Acquiring succeeds exactly when nobody's row outlives the time, and gives the token two minutes. */
  lemma AcquireGives(db: Db, token: Token, operation: string, now: int, other: Token, t: int)
    ensures var (after, ok) := Acquire(db, token, operation, now);
      && (ok <==> db.lease == None || db.lease.value.expiresAt <= now)
      && (ok ==> (HeldBy(after, other, t) <==> other == token && t < now + 120_000))
      && (ok ==> after.lease.value.runID == 0 && after.lease.value.operation == operation && after.lease.value.acquiredAt == now)
      && after == db.(lease := after.lease) && (!ok ==> after == db)
  {
  }

  /** Renewing succeeds exactly while the row is the token's, and gives it two minutes from the time. */
  lemma RenewGives(db: Db, token: Token, now: int, other: Token, t: int)
    ensures var (after, ok) := Renew(db, token, now);
      && (ok <==> HeldBy(db, token, now))
      && (ok ==> (HeldBy(after, other, t) <==> other == token && t < now + 120_000))
      && (ok ==> after.lease.value.(expiresAt := 0) == db.lease.value.(expiresAt := 0))
      && after == db.(lease := after.lease) && (!ok ==> after == db)
  {
  }

  /** Entering the run needs the same, and changes nothing but the run. */
  lemma SetRunGives(db: Db, token: Token, runID: int, now: int, other: Token, t: int)
    ensures var (after, ok) := SetRun(db, token, runID, now);
      && (ok <==> HeldBy(db, token, now)) && (ok ==> after.lease.value.runID == runID)
      && (HeldBy(after, other, t) <==> HeldBy(db, other, t))
      && after == db.(lease := after.lease) && (!ok ==> after == db)
  {
  }

  /** Releasing ends the token's row, expired or not, and nobody else's. */
  lemma ReleaseGives(db: Db, token: Token, other: Token, t: int)
    ensures var after := Release(db, token);
      && (HeldBy(after, other, t) <==> other != token && HeldBy(db, other, t))
      && (db.lease.Some? && db.lease.value.token == token ==> after.lease == None)
      && after == db.(lease := after.lease)
  {
  }

  // ----- Runs and contexts

  /** A started run is running, asks for nine collections of each context, ten with licenses, and has a
      running row for each; no other row changes. */
  lemma StartGives(db: Db, names: seq<string>, runLabel: string, licenses: bool, pinned: bool, now: int)
    requires StartRun(db, names, runLabel, licenses, pinned, now).1.Some?
    ensures var (after, id) := StartRun(db, names, runLabel, licenses, pinned, now);
      && id == Some(db.nextRun) && after.nextRun == db.nextRun + 1 && after.lease == db.lease
      && after.runs == db.runs[db.nextRun := RunRow(RunRunning, pinned, now, None, |names|, 0,
           |names| * (if licenses then 10 else 9), 0, runLabel)]
      && (forall k :: k in after.contexts <==> k in db.contexts || (k.run == db.nextRun && k.name in names))
      && (forall k :: k in after.contexts ==>
           after.contexts[k] == if k.run == db.nextRun && k.name in names then ContextRow("", None, Running, "") else db.contexts[k])
      && after.collections == db.collections && after.vms == db.vms
  {
    assert |PERSISTED_KINDS| == 9;
  }

  /** A saved context holds what was collected; the VMs are added, and rows of other contexts and runs
      stay. */
  lemma SaveGives(db: Db, run: int, result: ContextResult, now: int, token: Token, clock: int)
    ensures var (after, ok) := SaveContext(db, run, result, now, Some(token), clock);
      && (ok ==> HeldBy(db, token, clock) && ContextKey(run, result.name) in db.contexts)
      && (!ok ==> after == db)
      && (ok ==> after.contexts == db.contexts[ContextKey(run, result.name) :=
           ContextRow(result.vcenterID, Some(now), if result.status == Unset then Success else result.status, result.error)])
      && (ok ==> forall k :: k in after.vms <==> k in db.vms || (k.run == run && k.name == result.name && k.moref in result.morefs))
      && (ok ==> |after.vms| == |db.vms| + |result.morefs|)
      && after.runs == db.runs && after.lease == db.lease && after.nextRun == db.nextRun
  {
    if SaveContext(db, run, result, now, Some(token), clock).1 {
      NewKeys(run, result.name, result.morefs);
      var more := set m | m in result.morefs :: VMKey(run, result.name, m);
      assert db.vms !! more;
      assert |db.vms + more| == |db.vms| + |more|;
    }
  }

  lemma {:induction false} NewKeys(run: int, name: string, morefs: seq<string>)
    requires forall i, j :: 0 <= i < j < |morefs| ==> morefs[i] != morefs[j]
    ensures |(set m | m in morefs :: VMKey(run, name, m))| == |morefs|
  {
    if morefs != [] {
      var front, last := morefs[..|morefs| - 1], morefs[|morefs| - 1];
      NewKeys(run, name, front);
      assert last !in front;
      assert (set m | m in morefs :: VMKey(run, name, m)) == (set m | m in front :: VMKey(run, name, m)) + {VMKey(run, name, last)};
    }
  }

  /** The final update writes when the run ended, how, and what was counted, into that run's row only. */
  lemma FinishGives(db: Db, run: int, c: Counts, now: int, token: Token)
    ensures var (after, ok) := Finish(db, run, c, now, Some(token));
      && (ok <==> run in db.runs && HeldBy(db, token, now)) && (!ok ==> after == db)
      && after == db.(runs := after.runs) && after.runs.Keys == db.runs.Keys
      && (forall r :: r in db.runs && r != run ==> after.runs[r] == db.runs[r])
      && (ok ==> var row := after.runs[run];
           && row.finishedAt == Some(now) && row.successfulContexts == c.successContexts
           && row.successfulCollections == (if c.collected > 0 then c.successful else 0)
           && row.(status := RunRunning, finishedAt := None, successfulContexts := 0, successfulCollections := 0)
              == db.runs[run].(status := RunRunning, finishedAt := None, successfulContexts := 0, successfulCollections := 0))
  {
  }

  function ContextsIn(db: Db, run: int, statuses: set<Status>): set<ContextKey> {
    set k | k in db.contexts && k.run == run && db.contexts[k].vmStatus in statuses
  }

  function RowsIn(db: Db, run: int, statuses: set<Status>): set<CollectionKey> {
    set k | k in db.collections && k.run == run && db.collections[k].status in statuses
  }

  /** The counts a finish reads are those of the run's own rows. */
  lemma ReadsCount(db: Db, run: int, p: Progress)
    requires run in db.runs
    ensures var q := ReadNext(db, run, p);
      && q.now == p.now
      && (p.phase < READS ==> q.phase == p.phase + 1)
      && (p.phase == 0 ==> q.counts.requestedContexts == db.runs[run].requestedContexts)
      && (p.phase == 0 ==> q.counts.requestedCollections == db.runs[run].requestedCollections)
      && (p.phase == 1 ==> q.counts.successContexts == |ContextsIn(db, run, {Success, Empty})|)
      && (p.phase == 2 ==> q.counts.runningContexts == |ContextsIn(db, run, {Running})|)
      && (p.phase == 3 ==> q.counts.collected == |(set k | k in db.collections && k.run == run)|)
      && (p.phase == 4 ==> q.counts.successful == |RowsIn(db, run, {Success, Empty})|)
      && (p.phase == 5 ==> q.counts.runningCollections == |RowsIn(db, run, {Running})|)
  {
    assert SuccessfulContexts(db, run) == ContextsIn(db, run, {Success, Empty});
    assert RunningContexts(db, run) == ContextsIn(db, run, {Running});
    assert SuccessfulCollections(db, run) == RowsIn(db, run, {Success, Empty});
    assert RunningCollections(db, run) == RowsIn(db, run, {Running});
  }

  /** Relabelling and pinning change the label and the pin of that run alone. */
  lemma UpdateGives(db: Db, id: int, runLabel: Option<string>, pinned: Option<bool>)
    ensures var after := Update(db, id, runLabel, pinned);
      && after == db.(runs := after.runs) && after.runs.Keys == db.runs.Keys
      && (forall r :: r in db.runs && r != id ==> after.runs[r] == db.runs[r])
      && (id in db.runs ==> after.runs[id].(runLabel := "", pinned := false) == db.runs[id].(runLabel := "", pinned := false))
      && (id in db.runs && after != db ==>
            && (pinned.Some? ==> after.runs[id].pinned == pinned.value) && (pinned.None? ==> after.runs[id].pinned == db.runs[id].pinned)
            && (runLabel.Some? ==> after.runs[id].runLabel == runLabel.value)
            && (runLabel.None? ==> after.runs[id].runLabel == db.runs[id].runLabel))
  {
  }
}
