/** When a capture's run is marked complete: exactly when every context it asked for has every
    collection it asked for, recorded as successful or empty. The ledger only counts rows. */
module Completeness {
  import opened Common
  import opened Ledger
  import opened Capture
  import opened LedgerRuns

  // ----- Counting the rows a run can have

  ghost function Kinds(licenses: bool): (s: set<Kind>)
    ensures forall k :: k in s <==> Requested(k, licenses)
    ensures |s| == |PERSISTED_KINDS| + if licenses then 1 else 0
  {
    var nine := {VMs, Hosts, Clusters, Datastores, ResourcePools, VApps, DVSwitches, Networks, Snapshots};
    if licenses then nine + {License} else nine
  }

  ghost function KeysOf(run: int, name: string, kinds: set<Kind>): set<CollectionKey> {
    set k | k in kinds :: CollectionKey(run, name, k)
  }

  ghost function Grid(run: int, names: set<string>, kinds: set<Kind>): set<CollectionKey> {
    set n, k | n in names && k in kinds :: CollectionKey(run, n, k)
  }

  lemma {:induction false} KeysOfCount(run: int, name: string, kinds: set<Kind>)
    ensures |KeysOf(run, name, kinds)| == |kinds|
  {
    if kinds != {} {
      var k :| k in kinds;
      KeysOfCount(run, name, kinds - {k});
      assert KeysOf(run, name, kinds) == KeysOf(run, name, kinds - {k}) + {CollectionKey(run, name, k)};
    }
  }

  lemma {:induction false} GridCount(run: int, names: set<string>, kinds: set<Kind>)
    ensures |Grid(run, names, kinds)| == |names| * |kinds|
  {
    if names == {} {
      assert Grid(run, names, kinds) == {};
    } else {
      var n :| n in names;
      var rest := names - {n};
      GridCount(run, rest, kinds);
      KeysOfCount(run, n, kinds);
      assert Grid(run, names, kinds) == Grid(run, rest, kinds) + KeysOf(run, n, kinds);
      assert Grid(run, rest, kinds) !! KeysOf(run, n, kinds);
      calc {
        |names| * |kinds|;
        (|rest| + 1) * |kinds|;
        |rest| * |kinds| + |kinds|;
      }
    }
  }

  lemma {:induction false} DistinctNamesCount(names: seq<string>)
    requires forall i, j :: 0 <= i < j < |names| ==> names[i] != names[j]
    ensures |(set n | n in names)| == |names|
  {
    if names != [] {
      var front, last := names[..|names| - 1], names[|names| - 1];
      DistinctNamesCount(front);
      assert last !in front;
      assert (set n | n in names) == (set n | n in front) + {last};
    }
  }

  // ----- What every step keeps

  /** The rows of one capture's run stay inside what it asked for. */
  ghost predicate RowsFit(db: Db, run: int, s: Started) {
    && (run in db.runs ==>
          && db.runs[run].requestedContexts == |s.names|
          && db.runs[run].requestedCollections == RequestedCollections(|s.names|, s.licenses))
    && (forall k :: k in db.contexts && k.run == run ==> k.name in s.names)
    && (forall k :: k in db.collections && k.run == run ==> k.name in s.names && Requested(k.kind, s.licenses))
    && (forall k :: k in db.contexts && k.run == run && Successful(db.contexts[k].vmStatus) ==>
          CollectionKey(run, k.name, VMs) in db.collections)
  }

  /** What finishing has read of a run that still exists is still so. */
  ghost predicate ReadsHold(db: Db, run: int, p: Progress) {
    var c := p.counts;
    && (p.phase >= 1 ==> run in db.runs ==>
          (c.requestedContexts == db.runs[run].requestedContexts
           && c.requestedCollections == db.runs[run].requestedCollections))
    && (p.phase >= 2 ==> c.successContexts >= 0 && (c.successContexts > 0 ==> CollectionsOf(db, run) != {}))
    && (p.phase >= 4 ==> c.collected == |CollectionsOf(db, run)|)
    && (p.phase >= 5 ==> c.successful == |SuccessfulCollections(db, run)|)
    && (p.phase >= 6 ==> c.runningCollections >= 0)
    && (p.phase >= 6 && c.runningCollections > 0 ==> SuccessfulCollections(db, run) != CollectionsOf(db, run))
  }

  ghost predicate CaptureOk(w: World, run: int)
    requires run in w.captures
  {
    && RowsFit(w.db, run, w.captures[run])
    && (run in w.db.runs && run in w.finishing ==> ReadsHold(w.db, run, w.finishing[run]))
  }

  /** Rows are of runs already handed out. */
  ghost predicate RowsBelow(db: Db) {
    && (forall k :: k in db.contexts ==> k.run < db.nextRun)
    && (forall k :: k in db.collections ==> k.run < db.nextRun)
  }

  ghost predicate Inv(w: World) {
    && Known(w)
    && RowsBelow(w.db)
    && (forall r :: r in w.finishing ==> r in w.captures)
    && (forall r :: r in w.captures ==> CaptureOk(w, r))
  }

  /** Nothing of the run's that matters here differs between two states. */
  ghost predicate SameRun(a: Db, b: Db, run: int) {
    && (run in b.runs ==>
          && run in a.runs
          && b.runs[run].requestedContexts == a.runs[run].requestedContexts
          && b.runs[run].requestedCollections == a.runs[run].requestedCollections)
    && (forall k: ContextKey :: k.run == run ==>
          && (k in a.contexts <==> k in b.contexts)
          && (k in b.contexts && Successful(b.contexts[k].vmStatus) ==> Successful(a.contexts[k].vmStatus)))
    && (forall k: CollectionKey :: k.run == run ==>
          && (k in a.collections <==> k in b.collections)
          && (k in b.collections ==> (Successful(b.collections[k].status) <==> Successful(a.collections[k].status))))
  }

  lemma SameRunKeeps(a: Db, b: Db, run: int, s: Started, p: Progress)
    requires SameRun(a, b, run) && RowsFit(a, run, s)
    ensures RowsFit(b, run, s)
    ensures run in b.runs && ReadsHold(a, run, p) ==> ReadsHold(b, run, p)
  {
    assert CollectionsOf(b, run) == CollectionsOf(a, run);
    assert SuccessfulCollections(b, run) == SuccessfulCollections(a, run);
  }

  lemma {:induction false} UpsertKeys(rows: map<CollectionKey, CollectionRow>, run: int, name: string,
      cs: seq<CollectionResult>, now: int, key: CollectionKey)
    ensures key in Upsert(rows, run, name, cs, now) <==>
      key in rows || (key.run == run && key.name == name && key.kind != Blank && Covers(cs, key.kind))
    ensures key in rows && (key.run != run || key.name != name) ==> Upsert(rows, run, name, cs, now)[key] == rows[key]
  {
    if cs != [] {
      var n := |cs| - 1;
      UpsertKeys(rows, run, name, cs[..n], now, key);
      assert cs[n].kind == key.kind ==> Covers(cs, key.kind);
      if Covers(cs[..n], key.kind) {
        var i :| 0 <= i < n && cs[..n][i].kind == key.kind;
        assert cs[i].kind == key.kind;
      }
      if Covers(cs, key.kind) && cs[n].kind != key.kind {
        var i :| 0 <= i < |cs| && cs[i].kind == key.kind;
        assert cs[..n][i].kind == key.kind;
      }
    }
  }

  lemma SavedKeepsOthers(db: Db, run: int, result: ContextResult, now: int, r: int)
    requires ContextKey(run, result.name) in db.contexts && r != run
    ensures SameRun(db, Saved(db, run, result, now), r)
  {
    var b := Saved(db, run, result, now);
    forall k: CollectionKey | k.run == r
      ensures k in db.collections <==> k in b.collections
      ensures k in b.collections ==> b.collections[k] == db.collections[k]
    {
      UpsertKeys(db.collections, run, result.name, result.collections, now, k);
    }
  }

  lemma SavedFits(db: Db, run: int, result: ContextResult, now: int, s: Started)
    requires ContextKey(run, result.name) in db.contexts && RowsFit(db, run, s) && FromCollector(result, s.licenses)
    ensures RowsFit(Saved(db, run, result, now), run, s)
  {
    var b := Saved(db, run, result, now);
    forall k | k in b.collections && k.run == run ensures k.name in s.names && Requested(k.kind, s.licenses) {
      UpsertKeys(db.collections, run, result.name, result.collections, now, k);
    }
    forall k | k in b.contexts && k.run == run && Successful(b.contexts[k].vmStatus)
      ensures CollectionKey(run, k.name, VMs) in b.collections
    {
      UpsertKeys(db.collections, run, result.name, result.collections, now, CollectionKey(run, k.name, VMs));
    }
  }

  lemma CascadeKeepsOthers(db: Db, id: int, r: int)
    requires r != id
    ensures SameRun(db, Cascade(db, id), r)
  {
  }

  lemma StartKeepsOthers(db: Db, names: seq<string>, runLabel: string, licenses: bool, pinned: bool, now: int, r: int)
    requires r < db.nextRun
    ensures SameRun(db, StartRun(db, names, runLabel, licenses, pinned, now).0, r)
  {
  }

  lemma RecoverContextsKeepsRows(db: Db, now: int, r: int)
    ensures SameRun(db, RecoverContexts(db, now), r)
  {
  }

  lemma RecoverCollectionsKeepsRows(db: Db, now: int, r: int)
    ensures SameRun(db, RecoverCollections(db, now), r)
  {
  }

  lemma RecoverRunsKeepsRows(db: Db, now: int, r: int)
    ensures SameRun(db, RecoverRuns(db, now), r)
  {
  }

  lemma FinishKeepsRows(db: Db, run: int, c: Counts, now: int, token: Option<Token>, r: int)
    ensures SameRun(db, Finish(db, run, c, now, token).0, r)
  {
  }

  lemma UpdateKeepsRows(db: Db, run: int, runLabel: Option<string>, pinned: Option<bool>, r: int)
    ensures SameRun(db, Update(db, run, runLabel, pinned), r)
  {
  }

  lemma LeaseKeepsRows(w: World, step: Step, r: int)
    requires step.Tick? || step.AcquireStep? || step.SetRunStep? || step.RenewStep? || step.ReleaseStep?
      || step.FinishBegin? || step.FinishRead? || step.DeleteCheck?
    ensures SameRun(w.db, Next(w, step).db, r)
  {
    var next := Next(w, step).db;
    assert next == w.db.(lease := next.lease);
  }

  /** A step that saves nothing into run r, starts it or deletes it leaves its rows as they count. */
  predicate Touches(w: World, step: Step, r: int) {
    || (step.SaveStep? && step.run == r)
    || (step.PruneStep? && step.run == r)
    || (step.DeleteStep? && step.run == r)
  }

  lemma StepKeepsRun(w: World, step: Step, r: int)
    requires Inv(w) && Enabled(w, step) && r in w.captures && !Touches(w, step, r)
    ensures SameRun(w.db, Next(w, step).db, r)
  {
    match step
    case StartStep(_, names, runLabel, licenses, pinned, now) => StartKeepsOthers(w.db, names, runLabel, licenses, pinned, now, r);
    case ForeignStart(names, runLabel, licenses, pinned, now) => StartKeepsOthers(w.db, names, runLabel, licenses, pinned, now, r);
    case SaveStep(_, run, result, now, _) =>
      if ContextKey(run, result.name) in w.db.contexts { SavedKeepsOthers(w.db, run, result, now, r); }
    case ForeignSave(run, result, now) =>
      if ContextKey(run, result.name) in w.db.contexts { SavedKeepsOthers(w.db, run, result, now, r); }
    case PruneStep(run) => CascadeKeepsOthers(w.db, run, r);
    case DeleteStep(run) => CascadeKeepsOthers(w.db, run, r);
    case RecoverContextsStep(now) => RecoverContextsKeepsRows(w.db, now, r);
    case RecoverCollectionsStep(now) => RecoverCollectionsKeepsRows(w.db, now, r);
    case RecoverRunsStep(now) => RecoverRunsKeepsRows(w.db, now, r);
    case FinishStep(token, run) => FinishKeepsRows(w.db, run, ProgressOf(w, run).counts, ProgressOf(w, run).now, Some(token), r);
    case UpdateStep(run, runLabel, pinned) => UpdateKeepsRows(w.db, run, runLabel, pinned, r);
    case ForeignFinish(run, counts, now) => FinishKeepsRows(w.db, run, counts, now, None, r);
    case _ => LeaseKeepsRows(w, step, r);
  }

  lemma ReadKeeps(w: World, run: int)
    requires Inv(w) && run in w.captures
    ensures CaptureOk(Next(w, FinishRead(run)), run)
  {
    var p := ProgressOf(w, run);
    var q := ReadNext(w.db, run, p);
    if run in w.db.runs {
      assert p.phase >= 1 ==> ReadsHold(w.db, run, p);
      if p.phase == 1 {
        if SuccessfulContexts(w.db, run) != {} {
          var k :| k in SuccessfulContexts(w.db, run);
          assert CollectionKey(run, k.name, VMs) in CollectionsOf(w.db, run);
        }
      }
      if p.phase == 5 && RunningCollections(w.db, run) != {} {
        var k :| k in RunningCollections(w.db, run);
        assert k in CollectionsOf(w.db, run) && k !in SuccessfulCollections(w.db, run);
      }
    }
  }

  lemma NewCaptureOk(w: World, token: Token, names: seq<string>, runLabel: string, licenses: bool, pinned: bool, now: int)
    requires Inv(w) && StartRun(w.db, names, runLabel, licenses, pinned, now).1.Some?
    ensures RowsFit(StartRun(w.db, names, runLabel, licenses, pinned, now).0, w.db.nextRun,
                    Started(token, (set n | n in names), licenses))
  {
    DistinctNamesCount(names);
  }

  lemma TouchedStaysOk(w: World, step: Step, r: int)
    requires Inv(w) && Enabled(w, step) && r in w.captures && Touches(w, step, r)
    ensures r in Next(w, step).captures && CaptureOk(Next(w, step), r)
  {
    var next := Next(w, step);
    if step.SaveStep? {
      if ContextKey(r, step.result.name) in w.db.contexts {
        SavedFits(w.db, r, step.result, step.now, w.captures[r]);
      }
    } else if next.db != w.db {
      assert r !in next.db.runs;
    }
  }

  lemma CaptureStaysOk(w: World, step: Step, r: int)
    requires Inv(w) && Enabled(w, step) && r in w.captures
    ensures r in Next(w, step).captures && CaptureOk(Next(w, step), r)
  {
    if Touches(w, step, r) {
      TouchedStaysOk(w, step, r);
    } else {
      StepKeepsRun(w, step, r);
      SameRunKeeps(w.db, Next(w, step).db, r, w.captures[r], ProgressOf(w, r));
      if step.FinishRead? && step.run == r {
        ReadKeeps(w, r);
      }
    }
  }

  lemma SavedStaysBelow(db: Db, run: int, result: ContextResult, now: int)
    requires ContextKey(run, result.name) in db.contexts && RowsBelow(db)
    ensures RowsBelow(Saved(db, run, result, now))
  {
    forall k | k in Saved(db, run, result, now).collections ensures k.run < db.nextRun {
      UpsertKeys(db.collections, run, result.name, result.collections, now, k);
    }
  }

  lemma StartStaysBelow(db: Db, names: seq<string>, runLabel: string, licenses: bool, pinned: bool, now: int)
    requires RowsBelow(db)
    ensures RowsBelow(StartRun(db, names, runLabel, licenses, pinned, now).0)
  {
  }

  lemma CascadeStaysBelow(db: Db, run: int)
    requires RowsBelow(db)
    ensures RowsBelow(Cascade(db, run))
  {
  }

  lemma RecoveryStaysBelow(db: Db, now: int)
    requires RowsBelow(db)
    ensures RowsBelow(RecoverContexts(db, now)) && RowsBelow(RecoverCollections(db, now)) && RowsBelow(RecoverRuns(db, now))
  {
  }

  /** The steps that touch neither contexts nor collections. */
  lemma OthersStayBelow(w: World, step: Step)
    requires RowsBelow(w.db)
    requires step.Tick? || step.AcquireStep? || step.SetRunStep? || step.RenewStep? || step.ReleaseStep? || step.FinishRead?
      || step.FinishBegin? || step.FinishStep? || step.ForeignFinish? || step.DeleteCheck? || step.UpdateStep?
    ensures RowsBelow(Next(w, step).db)
  {
  }

  lemma SaveStaysBelow(w: World, run: int, result: ContextResult, now: int, token: Option<Token>, clock: int)
    requires RowsBelow(w.db)
    ensures RowsBelow(SaveContext(w.db, run, result, now, token, clock).0)
  {
    if ContextKey(run, result.name) in w.db.contexts {
      SavedStaysBelow(w.db, run, result, now);
    }
  }

  lemma RowsStayBelow(w: World, step: Step)
    requires RowsBelow(w.db)
    ensures RowsBelow(Next(w, step).db)
  {
    if step.StartStep? || step.ForeignStart? {
      StartStaysBelow(w.db, step.names, step.runLabel, step.licenses, step.pinned, step.now);
    } else if step.SaveStep? {
      SaveStaysBelow(w, step.run, step.result, step.now, Some(step.token), step.at);
    } else if step.ForeignSave? {
      SaveStaysBelow(w, step.run, step.result, step.now, None, w.clock);
    } else if step.PruneStep? || step.DeleteStep? {
      CascadeStaysBelow(w.db, step.run);
    } else if step.RecoverContextsStep? || step.RecoverCollectionsStep? || step.RecoverRunsStep? {
      RecoveryStaysBelow(w.db, step.now);
    } else {
      OthersStayBelow(w, step);
    }
  }

  lemma InvStays(w: World, step: Step)
    requires Inv(w) && Enabled(w, step)
    ensures Inv(Next(w, step))
  {
    KnownStays(w, step);
    RowsStayBelow(w, step);
    var next := Next(w, step);
    forall r | r in next.captures ensures CaptureOk(next, r) {
      if r in w.captures {
        CaptureStaysOk(w, step, r);
      } else {
        NewCaptureOk(w, step.token, step.names, step.runLabel, step.licenses, step.pinned, step.now);
      }
    }
  }

  lemma {:induction false} InvAlways(w: World, steps: seq<Step>)
    requires Inv(w) && AllEnabled(w, steps)
    ensures Inv(After(w, steps))
  {
    if steps != [] {
      var n := |steps| - 1;
      forall i | 0 <= i < n ensures Enabled(After(w, steps[..n][..i]), steps[..n][i]) {
        assert steps[..n][..i] == steps[..i];
      }
      InvAlways(w, steps[..n]);
      InvStays(After(w, steps[..n]), steps[n]);
    }
  }

  // ----- The final decision

  /** Every requested context has every requested kind, recorded as successful or empty. */
  ghost predicate FullyRecorded(db: Db, run: int, s: Started) {
    forall n, k :: n in s.names && Requested(k, s.licenses) ==>
      var key := CollectionKey(run, n, k);
      key in db.collections && Successful(db.collections[key].status)
  }

  ghost function GridOf(run: int, s: Started): set<CollectionKey> { Grid(run, s.names, Kinds(s.licenses)) }

  lemma GridOfCount(run: int, s: Started)
    ensures |GridOf(run, s)| == RequestedCollections(|s.names|, s.licenses)
  {
    GridCount(run, s.names, Kinds(s.licenses));
    assert |PERSISTED_KINDS| == 9;
  }

  lemma RowsInGrid(db: Db, run: int, s: Started)
    requires RowsFit(db, run, s)
    ensures SuccessfulCollections(db, run) <= CollectionsOf(db, run) <= GridOf(run, s)
  {
    forall k | k in CollectionsOf(db, run) ensures k in GridOf(run, s) {
      assert k == CollectionKey(run, k.name, k.kind);
    }
  }

  /** Recorded in full is: the successful rows are the whole grid. */
  lemma FullIsTheGrid(db: Db, run: int, s: Started)
    requires SuccessfulCollections(db, run) <= GridOf(run, s)
    ensures FullyRecorded(db, run, s) <==> SuccessfulCollections(db, run) == GridOf(run, s)
  {
    if SuccessfulCollections(db, run) == GridOf(run, s) {
      forall n, k | n in s.names && Requested(k, s.licenses)
        ensures CollectionKey(run, n, k) in db.collections
        ensures Successful(db.collections[CollectionKey(run, n, k)].status)
      {
        assert CollectionKey(run, n, k) in GridOf(run, s);
      }
    }
    if FullyRecorded(db, run, s) {
      assert GridOf(run, s) <= SuccessfulCollections(db, run);
    }
  }

  /** The rows a run holds are as many as it asked for, and all successful, exactly when nothing
      is missing: rows only ever fall inside the grid of names and kinds. */
  lemma CountsDecide(db: Db, run: int, s: Started)
    requires RowsFit(db, run, s)
    ensures |CollectionsOf(db, run)| <= RequestedCollections(|s.names|, s.licenses)
    ensures |SuccessfulCollections(db, run)| == RequestedCollections(|s.names|, s.licenses) <==> FullyRecorded(db, run, s)
    ensures FullyRecorded(db, run, s) ==> SuccessfulCollections(db, run) == CollectionsOf(db, run)
  {
    GridOfCount(run, s);
    RowsInGrid(db, run, s);
    FullIsTheGrid(db, run, s);
    SubsetCount(CollectionsOf(db, run), GridOf(run, s));
    SubsetCount(SuccessfulCollections(db, run), GridOf(run, s));
  }

  lemma DecideIff(db: Db, run: int, s: Started, p: Progress)
    requires RowsFit(db, run, s) && run in db.runs && ReadsHold(db, run, p) && p.phase == READS
    ensures Decide(p.counts) == RunComplete <==> s.names != {} && FullyRecorded(db, run, s)
  {
    CountsDecide(db, run, s);
    var c := p.counts;
    if s.names == {} {
      assert CollectionsOf(db, run) == {};
    } else {
      var n :| n in s.names;
      assert |s.names| > 0;
      if FullyRecorded(db, run, s) {
        assert CollectionKey(run, n, VMs) in CollectionsOf(db, run);
      }
    }
  }

  /** In any interleaving, the final update of a leased run marks it complete if and only if the
      capture asked for some context and every requested context has every requested kind,
      recorded as successful or empty. */
  lemma CompleteMeansFullyRecorded(w: World, steps: seq<Step>, token: Token, run: int)
    requires Inv(w) && AllEnabled(w, steps)
    requires Enabled(After(w, steps), FinishStep(token, run))
    requires run in After(w, steps).db.runs && HoldsAt(After(w, steps).db, token, ProgressOf(After(w, steps), run).now)
    ensures var last := After(w, steps);
      Next(last, FinishStep(token, run)).db.runs[run].status == RunComplete
      <==> last.captures[run].names != {} && FullyRecorded(last.db, run, last.captures[run])
  {
    InvAlways(w, steps);
    var last := After(w, steps);
    assert CaptureOk(last, run);
    DecideIff(last.db, run, last.captures[run], ProgressOf(last, run));
  }

  /** An empty ledger satisfies the invariant. */
  lemma InvInitially(clock: int)
    ensures Inv(World(Db(None, map[], map[], map[], {}, 1), clock, {}, map[], map[], {}))
  {
  }
}
