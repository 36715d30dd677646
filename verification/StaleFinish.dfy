/** A run in which recovery gives a capture up and the capture's own final update, called with a
    time from before its lease ran out, marks the failed run complete after all. */
module StaleFinish {
  import opened Common
  import opened Ledger
  import opened Capture
  import opened LedgerRuns
  import opened Completeness

  const EMPTY := World(Db(None, map[], map[], map[], {}, 1), 0, {}, map[], map[], {})

  /** Everything the capture was asked for. */
  const RESULT := ContextResult("prod", "vc", Success, "", [], [
    Recorded(VMs), Recorded(Hosts), Recorded(Clusters), Recorded(Datastores), Recorded(ResourcePools), Recorded(VApps),
    Recorded(DVSwitches), Recorded(Networks), Recorded(Snapshots)])

  function Recorded(k: Kind): CollectionResult { CollectionResult(k, Success, "", 1, 0) }

  const RUN := 1
  const TOKEN: Token := "a"
  const EXPIRED := 130_000
  const STALE := 110_000

  /** The capture acquires the slot, starts its run, enters it in the lease and saves all it was asked
      for; at 110 s it reads the clock, finds its lease valid and counts its rows; the lease runs out at
      120 s and recovery acts at 130 s; then comes the final update. */
  const STEPS: seq<Step> := [
    AcquireStep(TOKEN, "capture", 0, true), StartStep(TOKEN, ["prod"], "", false, false, 0), SetRunStep(TOKEN, RUN, 0),
    SaveStep(TOKEN, RUN, RESULT, 0, 0),
    Tick(STALE), FinishBegin(RUN, STALE),
    FinishRead(RUN), FinishRead(RUN), FinishRead(RUN), FinishRead(RUN), FinishRead(RUN), FinishRead(RUN),
    Tick(EXPIRED), RecoverContextsStep(EXPIRED), RecoverCollectionsStep(EXPIRED), RecoverRunsStep(EXPIRED),
    FinishStep(TOKEN, RUN)]

  const STARTED := Started(TOKEN, {"prod"}, false)

  // ----- The worlds it goes through

  ghost function Opened(): World { Next(Next(Next(EMPTY, STEPS[0]), STEPS[1]), STEPS[2]) }

  ghost function Filled(): World { Next(Opened(), STEPS[3]) }

  ghost function Begun(): World { Next(Next(Filled(), STEPS[4]), STEPS[5]) }

  ghost function Counted(n: nat): World
    requires n <= READS
  {
    if n == 0 then Begun() else Next(Counted(n - 1), FinishRead(RUN))
  }

  ghost function Expired(): World { Next(Counted(READS), STEPS[12]) }

  ghost function GivenUp(): World { Next(Next(Next(Expired(), STEPS[13]), STEPS[14]), STEPS[15]) }

  lemma OpenedIs()
    ensures Opened().captures == map[RUN := STARTED] && Opened().finishing == map[] && Opened().issued == {TOKEN}
    ensures Opened().clock == 0 && Opened().db.vms == {} && Opened().db.collections == map[]
    ensures Opened().db.lease == Some(Lease(TOKEN, RUN, "capture", 0, LEASE_DURATION))
    ensures Opened().db.contexts == map[ContextKey(RUN, "prod") := ContextRow("", None, Running, "")]
    ensures Opened().db.runs == map[RUN := RunRow(RunRunning, false, 0, None, 1, 0, 9, 0, "")]
  {
    assert (set n | n in ["prod"]) == {"prod"};
    assert NewContexts(RUN, ["prod"]) == map[ContextKey(RUN, "prod") := ContextRow("", None, Running, "")];
    assert RequestedCollections(1, false) == 9;
  }

  lemma ResultCovers(k: Kind)
    ensures Covers(RESULT.collections, k) <==> Persisted(k)
  {
    var cs := RESULT.collections;
    assert cs[0].kind == VMs && cs[1].kind == Hosts && cs[2].kind == Clusters && cs[3].kind == Datastores;
    assert cs[4].kind == ResourcePools && cs[5].kind == VApps && cs[6].kind == DVSwitches;
    assert cs[7].kind == Networks && cs[8].kind == Snapshots;
  }

  lemma ResultIsCollected()
    ensures FromCollector(RESULT, false)
  {
    ResultCovers(VMs);
    forall i | 0 <= i < |RESULT.collections| ensures Requested(RESULT.collections[i].kind, false) {
      assert Covers(RESULT.collections, RESULT.collections[i].kind);
      ResultCovers(RESULT.collections[i].kind);
    }
  }

  lemma {:induction false} UpsertedAreSuccessful(rows: map<CollectionKey, CollectionRow>, cs: seq<CollectionResult>, k: Kind)
    requires forall i :: 0 <= i < |cs| ==> cs[i].kind != Blank && cs[i].status == Success
    requires Covers(cs, k)
    ensures var key := CollectionKey(RUN, "prod", k);
      key in Upsert(rows, RUN, "prod", cs, 0) && Upsert(rows, RUN, "prod", cs, 0)[key].status == Success
  {
    var n := |cs| - 1;
    if cs[n].kind != k {
      var i :| 0 <= i < |cs| && cs[i].kind == k;
      assert cs[..n][i].kind == k;
      UpsertedAreSuccessful(rows, cs[..n], k);
    }
  }

  lemma FilledIs()
    ensures Filled().captures == map[RUN := STARTED] && Filled().finishing == map[] && Filled().clock == 0
    ensures Filled().db.lease == Some(Lease(TOKEN, RUN, "capture", 0, LEASE_DURATION))
    ensures Filled().db.runs == map[RUN := RunRow(RunRunning, false, 0, None, 1, 0, 9, 0, "")]
    ensures Filled().db.contexts == map[ContextKey(RUN, "prod") := ContextRow("vc", Some(0), Success, "")]
  {
    OpenedIs();
  }

  lemma SaveFills(w: World, result: ContextResult)
    requires HoldsAt(w.db, TOKEN, 0) && result.morefs == [] && w.db.vms == {} && ContextKey(RUN, result.name) in w.db.contexts
    ensures Next(w, SaveStep(TOKEN, RUN, result, 0, 0)).db.collections == Upsert(w.db.collections, RUN, result.name, result.collections, 0)
  {
  }

  lemma FilledRows()
    ensures Filled().db.collections == Upsert(map[], RUN, "prod", RESULT.collections, 0)
  {
    OpenedIs();
    SaveFills(Opened(), RESULT);
  }

  lemma ResultIsRecorded(k: Kind)
    requires Requested(k, false)
    ensures var key, rows := CollectionKey(RUN, "prod", k), Upsert(map[], RUN, "prod", RESULT.collections, 0);
      key in rows && Successful(rows[key].status)
  {
    ResultCovers(k);
    AllSuccessful();
    UpsertedAreSuccessful(map[], RESULT.collections, k);
  }

  lemma AllSuccessful()
    ensures forall i :: 0 <= i < |RESULT.collections| ==> RESULT.collections[i].kind != Blank && RESULT.collections[i].status == Success
  {
  }

  lemma FilledFully()
    ensures FullyRecorded(Filled().db, RUN, STARTED)
  {
    FilledRows();
    forall n, k | n in STARTED.names && Requested(k, false)
      ensures var key := CollectionKey(RUN, n, k);
        key in Filled().db.collections && Successful(Filled().db.collections[key].status)
    {
      ResultIsRecorded(k);
    }
  }

  lemma AcquireAndStartEnabled()
    ensures Enabled(EMPTY, STEPS[0]) && Enabled(Next(EMPTY, STEPS[0]), STEPS[1])
  {
  }

  lemma SetRunEnabled(w: World)
    ensures Enabled(w, STEPS[2])
  {
  }

  lemma SaveEnabled()
    ensures Enabled(Opened(), STEPS[3])
  {
    OpenedIs();
    ResultIsCollected();
  }

  lemma FirstStepsEnabled()
    ensures Enabled(EMPTY, STEPS[0]) && Enabled(Next(EMPTY, STEPS[0]), STEPS[1])
    ensures Enabled(Next(Next(EMPTY, STEPS[0]), STEPS[1]), STEPS[2]) && Enabled(Opened(), STEPS[3])
  {
    AcquireAndStartEnabled();
    SetRunEnabled(Next(Next(EMPTY, STEPS[0]), STEPS[1]));
    SaveEnabled();
  }

  lemma FilledFits()
    ensures RowsFit(Filled().db, RUN, STARTED)
  {
    FirstStepsEnabled();
    InvInitially(0);
    InvStays(EMPTY, STEPS[0]);
    InvStays(Next(EMPTY, STEPS[0]), STEPS[1]);
    InvStays(Next(Next(EMPTY, STEPS[0]), STEPS[1]), STEPS[2]);
    InvStays(Opened(), STEPS[3]);
    FilledIs();
    assert CaptureOk(Filled(), RUN);
  }

  lemma FilledCounts()
    ensures |SuccessfulContexts(Filled().db, RUN)| == 1 && |RunningContexts(Filled().db, RUN)| == 0
    ensures |CollectionsOf(Filled().db, RUN)| == 9 && |SuccessfulCollections(Filled().db, RUN)| == 9
    ensures |RunningCollections(Filled().db, RUN)| == 0
  {
    var db := Filled().db;
    FilledIs();
    FilledFully();
    FilledFits();
    CountsDecide(db, RUN, STARTED);
    assert SuccessfulContexts(db, RUN) == {ContextKey(RUN, "prod")};
    assert RunningContexts(db, RUN) == {};
    assert RunningCollections(db, RUN) <= CollectionsOf(db, RUN) == SuccessfulCollections(db, RUN);
    assert RunningCollections(db, RUN) == {};
  }

  /** Counting reads one number after the other and changes nothing. */
  function Read(n: nat): Progress
    requires n <= READS
  {
    Progress(n, Counts(if n > 0 then 1 else 0, if n > 0 then 9 else 0, if n > 1 then 1 else 0, 0,
                       if n > 3 then 9 else 0, if n > 4 then 9 else 0, 0), STALE)
  }

  ghost predicate CountsAsExpected(db: Db) {
    && RUN in db.runs && db.runs[RUN].requestedContexts == 1 && db.runs[RUN].requestedCollections == 9
    && |SuccessfulContexts(db, RUN)| == 1 && |RunningContexts(db, RUN)| == 0
    && |CollectionsOf(db, RUN)| == 9 && |SuccessfulCollections(db, RUN)| == 9 && |RunningCollections(db, RUN)| == 0
  }

  lemma ReadsOneMore(w: World, n: nat)
    requires n < READS && CountsAsExpected(w.db) && ProgressOf(w, RUN) == Read(n)
    ensures Next(w, FinishRead(RUN)) == w.(finishing := w.finishing[RUN := Read(n + 1)])
  {
  }

  lemma BegunIs()
    ensures Begun() == Filled().(clock := STALE, finishing := map[RUN := Read(0)])
  {
    FilledIs();
  }

  lemma {:induction false} CountedIs(n: nat)
    requires n <= READS
    ensures Counted(n) == Filled().(clock := STALE, finishing := map[RUN := Read(n)])
  {
    FilledIs();
    BegunIs();
    if n > 0 {
      CountedIs(n - 1);
      FilledCounts();
      ReadsOneMore(Counted(n - 1), n - 1);
    }
  }

  // ----- The run

  lemma AfterEach(k: nat)
    requires k < |STEPS|
    ensures After(EMPTY, STEPS[..k + 1]) == Next(After(EMPTY, STEPS[..k]), STEPS[k])
  {
    AfterOne(EMPTY, STEPS, k);
  }

  lemma AfterAcquire()
    ensures After(EMPTY, STEPS[..0]) == EMPTY && After(EMPTY, STEPS[..1]) == Next(EMPTY, STEPS[0])
  {
    AfterEach(0);
  }

  lemma AfterSetRun()
    ensures After(EMPTY, STEPS[..2]) == Next(Next(EMPTY, STEPS[0]), STEPS[1]) && After(EMPTY, STEPS[..3]) == Opened()
  {
    AfterAcquire();
    AfterEach(1);
    AfterEach(2);
  }

  lemma AfterSave()
    ensures After(EMPTY, STEPS[..4]) == Filled()
  {
    AfterSetRun();
    AfterEach(3);
  }

  lemma AfterBegin()
    ensures After(EMPTY, STEPS[..5]) == Next(Filled(), STEPS[4]) && After(EMPTY, STEPS[..6]) == Begun()
  {
    AfterSave();
    AfterEach(4);
    AfterEach(5);
  }

  lemma CountingSteps(k: nat)
    requires 6 <= k < 12
    ensures STEPS[k] == FinishRead(RUN)
  {
  }

  lemma {:induction false} AfterCounting(n: nat)
    requires n <= READS
    ensures After(EMPTY, STEPS[..6 + n]) == Counted(n)
  {
    if n == 0 {
      AfterBegin();
    } else {
      AfterCounting(n - 1);
      AfterEach(5 + n);
      CountingSteps(5 + n);
    }
  }

  lemma AfterTick()
    ensures After(EMPTY, STEPS[..12]) == Counted(READS) && After(EMPTY, STEPS[..13]) == Expired()
  {
    AfterCounting(READS);
    AfterEach(12);
  }

  lemma AfterContexts()
    ensures After(EMPTY, STEPS[..14]) == Next(Expired(), STEPS[13])
  {
    AfterTick();
    AfterEach(13);
  }

  lemma AfterCollections()
    ensures After(EMPTY, STEPS[..15]) == Next(Next(Expired(), STEPS[13]), STEPS[14])
  {
    AfterContexts();
    AfterEach(14);
  }

  lemma AfterRecovery()
    ensures After(EMPTY, STEPS[..16]) == GivenUp()
  {
    AfterCollections();
    AfterEach(15);
  }

  lemma AfterFinish()
    ensures After(EMPTY, STEPS[..17]) == Next(GivenUp(), STEPS[16])
  {
    AfterRecovery();
    AfterEach(16);
  }

  /** What enables the steps that follow. */
  ghost predicate Idle(w: World) {
    && w.clock == EXPIRED && w.captures == map[RUN := STARTED] && w.finishing == map[RUN := Read(READS)]
  }

  lemma ExpiredIs()
    ensures Idle(Expired()) && Counted(READS).clock == STALE && Expired().db == Filled().db
  {
    CountedIs(READS);
    FilledIs();
  }

  lemma RecoveryStaysIdle(w: World, step: Step)
    requires Idle(w) && (step.RecoverContextsStep? || step.RecoverCollectionsStep? || step.RecoverRunsStep?)
    ensures Idle(Next(w, step))
  {
  }

  lemma Recovers(w: World)
    requires !LeasedPast(w.db, EXPIRED)
    ensures Next(Next(Next(w, RecoverContextsStep(EXPIRED)), RecoverCollectionsStep(EXPIRED)), RecoverRunsStep(EXPIRED)).db
         == RecoverRuns(RecoverCollections(RecoverContexts(w.db, EXPIRED), EXPIRED), EXPIRED)
    ensures Next(Next(w, RecoverContextsStep(EXPIRED)), RecoverCollectionsStep(EXPIRED)).db.runs == w.db.runs
  {
  }

  lemma LastSteps()
    ensures STEPS[12] == Tick(EXPIRED) && STEPS[13] == RecoverContextsStep(EXPIRED)
    ensures STEPS[14] == RecoverCollectionsStep(EXPIRED) && STEPS[15] == RecoverRunsStep(EXPIRED)
    ensures STEPS[16] == FinishStep(TOKEN, RUN)
  {
  }

  /** What recovery leaves of the capture. */
  lemma GivenUpIs()
    ensures GivenUp().db.lease == Some(Lease(TOKEN, RUN, "capture", 0, LEASE_DURATION))
    ensures RUN in GivenUp().db.runs && GivenUp().db.runs[RUN].status == RunFailed
    ensures Next(Next(Expired(), STEPS[13]), STEPS[14]).db.runs == Filled().db.runs
  {
    ExpiredIs();
    FilledIs();
    LastSteps();
    Recovers(Expired());
    RecoveryAsAWhole(Expired().db, EXPIRED);
  }

  lemma IdleEnables(w: World)
    requires Idle(w)
    ensures Enabled(w, RecoverContextsStep(EXPIRED)) && Enabled(w, RecoverCollectionsStep(EXPIRED))
    ensures Enabled(w, RecoverRunsStep(EXPIRED)) && Enabled(w, FinishStep(TOKEN, RUN))
  {
  }

  lemma ReadKeepsCaptures(w: World)
    ensures Next(w, FinishRead(RUN)).captures == w.captures
    ensures RUN in w.finishing ==> RUN in Next(w, FinishRead(RUN)).finishing
    ensures RUN in w.captures && RUN in w.finishing ==> Enabled(w, FinishRead(RUN))
  {
  }

  lemma RecoverySteps(k: nat)
    requires 13 <= k < 16
    ensures STEPS[k].RecoverContextsStep? || STEPS[k].RecoverCollectionsStep? || STEPS[k].RecoverRunsStep?
  {
  }

  lemma {:induction false} IdleFromTheTick(k: nat)
    requires 13 <= k < |STEPS|
    ensures Idle(After(EMPTY, STEPS[..k]))
  {
    if k == 13 {
      AfterTick();
      ExpiredIs();
    } else {
      IdleFromTheTick(k - 1);
      AfterEach(k - 1);
      RecoverySteps(k - 1);
      RecoveryStaysIdle(After(EMPTY, STEPS[..k - 1]), STEPS[k - 1]);
    }
  }

  lemma TickIsEnabled()
    ensures Enabled(After(EMPTY, STEPS[..12]), STEPS[12])
  {
    AfterTick();
    ExpiredIs();
    LastSteps();
  }

  lemma LaterStepsEnabled(k: nat)
    requires 13 <= k < |STEPS|
    ensures Enabled(After(EMPTY, STEPS[..k]), STEPS[k])
  {
    IdleFromTheTick(k);
    IdleEnables(After(EMPTY, STEPS[..k]));
    LastSteps();
  }

  lemma OpeningIsEnabled(k: nat)
    requires k < 4
    ensures Enabled(After(EMPTY, STEPS[..k]), STEPS[k])
  {
    FirstStepsEnabled();
    if k < 2 {
      AfterAcquire();
    } else {
      AfterSetRun();
    }
  }

  lemma BeginningIsEnabled(k: nat)
    requires 4 <= k < 6
    ensures Enabled(After(EMPTY, STEPS[..k]), STEPS[k])
  {
    FilledIs();
    AfterSave();
    AfterBegin();
  }

  lemma {:induction false} CapturedWhileReading(k: nat)
    requires 6 <= k < 12
    ensures RUN in After(EMPTY, STEPS[..k]).captures && RUN in After(EMPTY, STEPS[..k]).finishing
  {
    if k == 6 {
      AfterBegin();
      BegunIs();
      FilledIs();
    } else {
      CapturedWhileReading(k - 1);
      AfterEach(k - 1);
      CountingSteps(k - 1);
      ReadKeepsCaptures(After(EMPTY, STEPS[..k - 1]));
    }
  }

  lemma ReadsAreEnabled(k: nat)
    requires 6 <= k < 12
    ensures Enabled(After(EMPTY, STEPS[..k]), STEPS[k])
  {
    CapturedWhileReading(k);
    CountingSteps(k);
    ReadKeepsCaptures(After(EMPTY, STEPS[..k]));
  }

  ghost predicate EnabledAt(k: int) { 0 <= k < |STEPS| ==> Enabled(After(EMPTY, STEPS[..k]), STEPS[k]) }

  lemma StepsAreEnabled(k: nat)
    requires k < |STEPS|
    ensures EnabledAt(k)
  {
    if k < 4 {
      OpeningIsEnabled(k);
    } else if k < 6 {
      BeginningIsEnabled(k);
    } else if k < 12 {
      ReadsAreEnabled(k);
    } else if k == 12 {
      TickIsEnabled();
    } else {
      LaterStepsEnabled(k);
    }
  }

  ghost function StatusIn(w: World): Option<RunStatus> { if RUN in w.db.runs then Some(w.db.runs[RUN].status) else None }

  lemma FinishCompletes(w: World)
    requires Idle(w) && RUN in w.db.runs && HoldsAt(w.db, TOKEN, STALE)
    ensures StatusIn(Next(w, FinishStep(TOKEN, RUN))) == Some(RunComplete)
  {
    assert Decide(Read(READS).counts) == RunComplete;
  }

  lemma EveryStepIsEnabled()
    ensures AllEnabled(EMPTY, STEPS)
  {
    forall k | 0 <= k < |STEPS| ensures EnabledAt(k) {
      StepsAreEnabled(k);
    }
    assert forall k :: 0 <= k < |STEPS| ==> (EnabledAt(k) ==> Enabled(After(EMPTY, STEPS[..k]), STEPS[k]));
  }

  lemma RunningBefore()
    ensures StatusIn(After(EMPTY, STEPS[..15])) == Some(RunRunning)
  {
    AfterCollections();
    FilledIs();
    GivenUpIs();
  }

  lemma FailedThen()
    ensures StatusIn(After(EMPTY, STEPS[..16])) == Some(RunFailed)
  {
    AfterRecovery();
    GivenUpIs();
  }

  lemma CompleteAfterwards()
    ensures StatusIn(After(EMPTY, STEPS[..17])) == Some(RunComplete)
  {
    AfterFinish();
    AfterRecovery();
    IdleFromTheTick(16);
    LastSteps();
    GivenUpIs();
    FinishCompletes(GivenUp());
  }

  /** The run can happen: every step is one some process takes. Recovery marks the capture's run
      failed, and the capture's final update marks it complete. */
  lemma FailedRunCompletes()
    ensures Inv(EMPTY) && AllEnabled(EMPTY, STEPS) && |STEPS| == 17
    ensures StatusIn(After(EMPTY, STEPS[..15])) == Some(RunRunning)
    ensures StatusIn(After(EMPTY, STEPS[..16])) == Some(RunFailed)
    ensures StatusIn(After(EMPTY, STEPS[..17])) == Some(RunComplete)
  {
    InvInitially(0);
    EveryStepIsEnabled();
    RunningBefore();
    FailedThen();
    CompleteAfterwards();
  }
}
