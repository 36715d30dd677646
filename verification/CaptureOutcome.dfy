/** From what a vCenter answered to how the run ends: what a capture could not read is stored as not
    read, and keeps the run from being complete. */
module CaptureOutcome {
  import opened Common
  import opened Ledger
  import opened Capture
  import opened LedgerRuns
  import opened Completeness

  // ----- What is stored

  /** The row of a kind holds what its collection says; a status left unset counts as success, and
      resources that were not counted are counted. */
  predicate Stores(row: CollectionRow, c: CollectionResult, now: int) {
    && row.finishedAt == now && row.error == c.error
    && row.status == (if c.status == Unset then Success else c.status)
    && row.itemCount == if c.itemCount != 0 || c.resources == 0 then c.itemCount else c.resources
  }

  lemma {:induction false} StoredAsCollected(rows: map<CollectionKey, CollectionRow>, run: int, name: string, cs: seq<CollectionResult>,
      now: int, i: nat)
    requires NoKindTwice(cs) && i < |cs| && cs[i].kind != Blank
    ensures var key, after := CollectionKey(run, name, cs[i].kind), Upsert(rows, run, name, cs, now);
      key in after && Stores(after[key], cs[i], now)
    ensures var row := Upsert(rows, run, name, cs, now)[CollectionKey(run, name, cs[i].kind)];
      row.status == Success || row.status == Empty <==> cs[i].status == Success || cs[i].status == Empty || cs[i].status == Unset
  {
    var n := |cs| - 1;
    if i < n {
      StoredAsCollected(rows, run, name, cs[..n], now, i);
    }
  }

  // ----- What keeps a run from being complete

  /** As long as the run is there, the kind of the context is stored neither as success nor as empty. */
  predicate Unread(db: Db, run: int, key: CollectionKey) {
    key.run == run && (run in db.runs ==>
      key in db.collections && db.collections[key].status != Success && db.collections[key].status != Empty)
  }

  /** The step saves the context again. */
  predicate SavesAgain(step: Step, key: CollectionKey) {
    step.SaveStep? && step.run == key.run && step.result.name == key.name
  }

  lemma UnreadStays(w: World, step: Step, next: World, run: int, key: CollectionKey)
    requires Inv(w) && Proper(w, step, next) && run in w.captures && Unread(w.db, run, key) && !SavesAgain(step, key)
    ensures Inv(next) && run in next.captures && Unread(next.db, run, key)
  {
    InvStays(w, step);
    CaptureStaysOk(w, step, run);
    if !Touches(w, step, run) {
      StepKeepsRun(w, step, run);
    } else if step.SaveStep? {
      SavedElsewhere(w.db, step, run, key);
    }
  }

  lemma SavedElsewhere(db: Db, step: Step, run: int, key: CollectionKey)
    requires step.SaveStep? && step.run == run && key.run == run && step.result.name != key.name && Unread(db, run, key)
    ensures Unread(SaveContext(db, step.run, step.result, step.now, Some(step.token), step.at).0, run, key)
  {
    if ContextKey(run, step.result.name) in db.contexts {
      UpsertKeys(db.collections, run, step.result.name, step.result.collections, step.now, key);
    }
  }

  lemma {:induction false} UnreadForever(worlds: seq<World>, steps: seq<Step>, i: nat, j: nat, run: int, key: CollectionKey)
    requires i <= j < |worlds| <= |steps| + 1 && forall k :: i <= k < j ==> Proper(worlds[k], steps[k], worlds[k + 1])
    requires Inv(worlds[i]) && run in worlds[i].captures && Unread(worlds[i].db, run, key)
    requires forall k :: i <= k < j ==> !SavesAgain(steps[k], key)
    ensures Inv(worlds[j]) && run in worlds[j].captures && Unread(worlds[j].db, run, key)
    decreases j
  {
    if i < j {
      UnreadForever(worlds, steps, i, j - 1, run, key);
      UnreadStays(worlds[j - 1], steps[j - 1], worlds[j], run, key);
    }
  }

  /** The step's save went through. */
  predicate Committed(w: World, step: Step) {
    step.SaveStep? && SaveContext(w.db, step.run, step.result, step.now, Some(step.token), step.at).1
  }

  lemma SavedUnread(w: World, step: Step, c: nat)
    requires Enabled(w, step) && Committed(w, step) && c < |step.result.collections|
    requires step.result.collections[c].status !in {Success, Empty, Unset}
    ensures Unread(Next(w, step).db, step.run, CollectionKey(step.run, step.result.name, step.result.collections[c].kind))
  {
    StoredAsCollected(w.db.collections, step.run, step.result.name, step.result.collections, step.now, c);
  }

  lemma UnreadIsNotFull(db: Db, run: int, s: Started, key: CollectionKey)
    requires RowsFit(db, run, s) && run in db.runs && Unread(db, run, key)
    ensures !FullyRecorded(db, run, s)
  {
    assert key == CollectionKey(run, key.name, key.kind);
  }

  lemma InvAt(w: World, steps: seq<Step>, k: nat)
    requires Inv(w) && AllEnabled(w, steps) && k <= |steps|
    ensures Inv(After(w, steps[..k]))
  {
    forall i | 0 <= i < k ensures Enabled(After(w, steps[..k][..i]), steps[..k][i]) {
      assert steps[..k][..i] == steps[..i];
    }
    InvAlways(w, steps[..k]);
  }

  lemma UnreadAtTheEnd(w: World, steps: seq<Step>, k: nat, c: nat)
    requires Inv(w) && AllEnabled(w, steps) && k < |steps| && Committed(After(w, steps[..k]), steps[k])
    requires c < |steps[k].result.collections| && steps[k].result.collections[c].status !in {Success, Empty, Unset}
    requires forall m :: k < m < |steps| ==>
      !SavesAgain(steps[m], CollectionKey(steps[k].run, steps[k].result.name, steps[k].result.collections[c].kind))
    ensures Inv(After(w, steps)) && steps[k].run in After(w, steps).captures
    ensures Unread(After(w, steps).db, steps[k].run,
                   CollectionKey(steps[k].run, steps[k].result.name, steps[k].result.collections[c].kind))
  {
    var worlds, run := Worlds(w, steps), steps[k].run;
    var key := CollectionKey(run, steps[k].result.name, steps[k].result.collections[c].kind);
    WorldsAreProper(w, steps);
    InvAt(w, steps, k);
    SavedUnread(worlds[k], steps[k], c);
    InvStays(worlds[k], steps[k]);
    assert Proper(worlds[k], steps[k], worlds[k + 1]);
    UnreadForever(worlds, steps, k + 1, |steps|, run, key);
    assert steps[..|steps|] == steps;
  }

  /** In any interleaving, a run one of whose saved contexts has a collection that was not read, and is
      not saved again, is not marked complete. */
  lemma UnreadIsNotComplete(w: World, steps: seq<Step>, k: nat, c: nat, token: Token)
    requires Inv(w) && AllEnabled(w, steps) && k < |steps| && Committed(After(w, steps[..k]), steps[k])
    requires c < |steps[k].result.collections| && steps[k].result.collections[c].status !in {Success, Empty, Unset}
    requires forall m :: k < m < |steps| ==>
      !SavesAgain(steps[m], CollectionKey(steps[k].run, steps[k].result.name, steps[k].result.collections[c].kind))
    requires Enabled(After(w, steps), FinishStep(token, steps[k].run)) && steps[k].run in After(w, steps).db.runs
    requires HoldsAt(After(w, steps).db, token, ProgressOf(After(w, steps), steps[k].run).now)
    ensures Next(After(w, steps), FinishStep(token, steps[k].run)).db.runs[steps[k].run].status != RunComplete
  {
    var last, run := After(w, steps), steps[k].run;
    UnreadAtTheEnd(w, steps, k, c);
    assert CaptureOk(last, run);
    UnreadIsNotFull(last.db, run, last.captures[run],
                    CollectionKey(run, steps[k].result.name, steps[k].result.collections[c].kind));
    CompleteMeansFullyRecorded(w, steps, token, run);
  }

  /** So one failed fetch of one connected context is enough. */
  lemma FailedFetchIsNotComplete(w: World, steps: seq<Step>, k: nat, a: Answers, kind: Kind, token: Token)
    requires Inv(w) && AllEnabled(w, steps) && k < |steps| && Committed(After(w, steps[..k]), steps[k])
    requires forall i :: 0 <= i < |steps[k].result.collections| ==> TellsOrHides(a, steps[k].result.collections[i])
    requires Covers(steps[k].result.collections, kind) && kind !in {License, Snapshots} && a.groups(kind).GroupFailed?
    requires forall m :: k < m < |steps| ==> !SavesAgain(steps[m], CollectionKey(steps[k].run, steps[k].result.name, kind))
    requires Enabled(After(w, steps), FinishStep(token, steps[k].run)) && steps[k].run in After(w, steps).db.runs
    requires HoldsAt(After(w, steps).db, token, ProgressOf(After(w, steps), steps[k].run).now)
    ensures Next(After(w, steps), FinishStep(token, steps[k].run)).db.runs[steps[k].run].status != RunComplete
  {
    var c: nat :| c < |steps[k].result.collections| && steps[k].result.collections[c].kind == kind;
    assert TellsOrHides(a, steps[k].result.collections[c]);
    UnreadIsNotComplete(w, steps, k, c, token);
  }

  // ----- Failed and partial

  /** Some collection of the run is stored as success or empty. */
  predicate SomethingRead(db: Db, run: int) {
    exists k :: k in db.collections && k.run == run && (db.collections[k].status == Success || db.collections[k].status == Empty)
  }

  /** In any interleaving the final update of a leased run marks it failed exactly when nothing was read,
      and partial exactly when something was and something requested was not. */
  lemma FailedAndPartial(w: World, steps: seq<Step>, token: Token, run: int)
    requires Inv(w) && AllEnabled(w, steps) && Enabled(After(w, steps), FinishStep(token, run))
    requires run in After(w, steps).db.runs && HoldsAt(After(w, steps).db, token, ProgressOf(After(w, steps), run).now)
    ensures var last := After(w, steps);
      var status := Next(last, FinishStep(token, run)).db.runs[run].status;
      && (status == RunFailed <==> !SomethingRead(last.db, run))
      && (status == RunPartial <==> SomethingRead(last.db, run) && !FullyRecorded(last.db, run, last.captures[run]))
  {
    var last := After(w, steps);
    InvAlways(w, steps);
    assert CaptureOk(last, run);
    var s, p := last.captures[run], ProgressOf(last, run);
    DecideIff(last.db, run, s, p);
    NothingReadIff(last.db, run);
    if FullyRecorded(last.db, run, s) && s.names != {} {
      FullReadsSomething(last.db, run, s);
    }
  }

  lemma NothingReadIff(db: Db, run: int)
    ensures |SuccessfulCollections(db, run)| == 0 <==> !SomethingRead(db, run)
    ensures |CollectionsOf(db, run)| == 0 ==> !SomethingRead(db, run)
  {
    if SomethingRead(db, run) {
      var k :| k in db.collections && k.run == run && (db.collections[k].status == Success || db.collections[k].status == Empty);
      assert k in SuccessfulCollections(db, run) && k in CollectionsOf(db, run);
    } else {
      assert SuccessfulCollections(db, run) == {};
    }
  }

  lemma FullReadsSomething(db: Db, run: int, s: Started)
    requires FullyRecorded(db, run, s) && s.names != {}
    ensures SomethingRead(db, run)
  {
    var n :| n in s.names;
    assert CollectionKey(run, n, VMs) in db.collections;
  }
}
