/** Several processes on one database: every interleaving of their statements, what fencing
    guarantees over a whole run of them, and what orphan recovery does and does not. */
module LedgerRuns {
  import opened Common
  import opened Ledger
  import opened Strings
  import opened Capture

  /** What a live capture asked for when it started its run. */
  datatype Started = Started(token: Token, names: set<string>, licenses: bool)

  /** A capture between its last save and its final update: the time it read when it began to finish,
      how many of the queries it has made since and what they answered. */
  datatype Progress = Progress(phase: nat, counts: Counts, now: int)

  const READS := 6

  /** The database, the clock, the tokens handed out so far, where each live capture is, and the runs
      some process found unpinned and is about to delete. */
  datatype World = World(
    db: Db, clock: int, issued: set<Token>, captures: map<int, Started>, finishing: map<int, Progress>, deleting: set<int>)

  /** One atomic statement or transaction of some process. now and at are the times it was
      called with, which may be stale. Foreign steps are those of processes without a lease. A finish
      begins with the time its caller read; deleting one run is a check and then a delete. */
  datatype Step =
    | Tick(to: int)
    | AcquireStep(token: Token, operation: string, now: int, sidecarFree: bool)
    | SetRunStep(token: Token, run: int, now: int)
    | RenewStep(token: Token, now: int)
    | ReleaseStep(token: Token)
    | StartStep(token: Token, names: seq<string>, runLabel: string, licenses: bool, pinned: bool, now: int)
    | SaveStep(token: Token, run: int, result: ContextResult, now: int, at: int)
    | FinishBegin(run: int, now: int)
    | FinishRead(run: int)
    | FinishStep(token: Token, run: int)
    | RecoverContextsStep(now: int)
    | RecoverCollectionsStep(now: int)
    | RecoverRunsStep(now: int)
    | PruneStep(run: int)
    | DeleteCheck(run: int)
    | DeleteStep(run: int)
    | UpdateStep(run: int, newLabel: Option<string>, newPin: Option<bool>)
    | ForeignStart(names: seq<string>, runLabel: string, licenses: bool, pinned: bool, now: int)
    | ForeignSave(run: int, result: ContextResult, now: int)
    | ForeignFinish(run: int, counts: Counts, now: int)

  /** The next of finishing's queries. */
  function ReadNext(db: Db, run: int, p: Progress): Progress {
    var c := p.counts;
    match p.phase
    case 0 =>
      if run in db.runs then
        p.(phase := 1, counts := c.(requestedContexts := db.runs[run].requestedContexts,
                                    requestedCollections := db.runs[run].requestedCollections))
      else p
    case 1 => p.(phase := 2, counts := c.(successContexts := |SuccessfulContexts(db, run)|))
    case 2 => p.(phase := 3, counts := c.(runningContexts := |RunningContexts(db, run)|))
    case 3 => p.(phase := 4, counts := c.(collected := |CollectionsOf(db, run)|))
    case 4 => p.(phase := 5, counts := c.(successful := |SuccessfulCollections(db, run)|))
    case 5 => p.(phase := 6, counts := c.(runningCollections := |RunningCollections(db, run)|))
    case _ => p
  }

  const NOTHING_READ := Counts(0, 0, 0, 0, 0, 0, 0)

  function ProgressOf(w: World, run: int): Progress {
    if run in w.finishing then w.finishing[run] else Progress(0, NOTHING_READ, 0)
  }

  function Next(w: World, step: Step): World {
    match step
    case Tick(to) => w.(clock := to)
    case AcquireStep(token, operation, now, free) =>
      w.(db := if free then Acquire(w.db, token, operation, now).0 else w.db, issued := w.issued + {token})
    case SetRunStep(token, run, now) => w.(db := SetRun(w.db, token, run, now).0)
    case RenewStep(token, now) => w.(db := Renew(w.db, token, now).0)
    case ReleaseStep(token) => w.(db := Release(w.db, token))
    case StartStep(token, names, runLabel, licenses, pinned, now) =>
      var (db, id) := StartRun(w.db, names, runLabel, licenses, pinned, now);
      if id.Some? then
        w.(db := db, captures := w.captures[id.value := Started(token, (set n | n in names), licenses)])
      else w
    case SaveStep(token, run, result, now, at) => w.(db := SaveContext(w.db, run, result, now, Some(token), at).0)
    case FinishBegin(run, now) =>
      if run in w.captures && HoldsAt(w.db, w.captures[run].token, w.clock) then
        w.(finishing := w.finishing[run := Progress(0, NOTHING_READ, now)])
      else w
    case FinishRead(run) => w.(finishing := w.finishing[run := ReadNext(w.db, run, ProgressOf(w, run))])
    case FinishStep(token, run) =>
      w.(db := Finish(w.db, run, ProgressOf(w, run).counts, ProgressOf(w, run).now, Some(token)).0)
    case RecoverContextsStep(now) => w.(db := RecoverContexts(w.db, now))
    case RecoverCollectionsStep(now) => w.(db := RecoverCollections(w.db, now))
    case RecoverRunsStep(now) => w.(db := RecoverRuns(w.db, now))
    case PruneStep(run) => w.(db := DeleteUnpinned(w.db, run).0)
    case DeleteCheck(run) =>
      w.(deleting := if run in w.db.runs && !w.db.runs[run].pinned then w.deleting + {run} else w.deleting)
    case DeleteStep(run) => w.(db := if run in w.db.runs then Cascade(w.db, run) else w.db)
    case UpdateStep(run, runLabel, pinned) => w.(db := Update(w.db, run, runLabel, pinned))
    case ForeignStart(names, runLabel, licenses, pinned, now) => w.(db := StartRun(w.db, names, runLabel, licenses, pinned, now).0)
    case ForeignSave(run, result, now) => w.(db := SaveContext(w.db, run, result, now, None, w.clock).0)
    case ForeignFinish(run, counts, now) => w.(db := Finish(w.db, run, counts, now, None).0)
  }

  /** Tokens are random: an acquire never reuses one. Nothing else is asked of the callers. */
  predicate Fresh(w: World, step: Step) {
    step.AcquireStep? ==> step.token !in w.issued
  }

  /** What the collector and the other callers do: time only passes; a capture saves only what it
      collected, into its own run, and only before it starts to finish; a finish and recovery read the
      clock before they act; and a run is deleted only after a check. */
  ghost predicate Enabled(w: World, step: Step) {
    && Fresh(w, step)
    && match step
       case Tick(to) => to >= w.clock
       case StartStep(token, _, _, _, _, _) => token in w.issued
       case SaveStep(token, run, result, _, _) =>
         && run in w.captures && w.captures[run].token == token && run !in w.finishing
         && FromCollector(result, w.captures[run].licenses)
       case FinishBegin(run, now) => run in w.captures && run !in w.finishing && now <= w.clock
       case FinishRead(run) => run in w.captures && run in w.finishing
       case FinishStep(token, run) =>
         run in w.captures && w.captures[run].token == token && run in w.finishing && w.finishing[run].phase == READS
       case DeleteStep(run) => run in w.deleting
       case RecoverContextsStep(now) => now <= w.clock
       case RecoverCollectionsStep(now) => now <= w.clock
       case RecoverRunsStep(now) => now <= w.clock
       case ForeignSave(run, _, _) => run !in w.captures
       case ForeignFinish(run, _, _) => run !in w.captures
       case _ => true
  }

  function After(w: World, steps: seq<Step>): World {
    if steps == [] then w else Next(After(w, steps[..|steps| - 1]), steps[|steps| - 1])
  }

  ghost predicate AllFresh(w: World, steps: seq<Step>) {
    forall i :: 0 <= i < |steps| ==> Fresh(After(w, steps[..i]), steps[i])
  }

  ghost predicate AllEnabled(w: World, steps: seq<Step>) {
    forall i :: 0 <= i < |steps| ==> Enabled(After(w, steps[..i]), steps[i])
  }

  lemma AfterOne(w: World, steps: seq<Step>, i: nat)
    requires i < |steps|
    ensures After(w, steps[..i + 1]) == Next(After(w, steps[..i]), steps[i])
  {
    assert steps[..i + 1][..i] == steps[..i];
  }

  // ----- Fencing

  /** A save, renew, set-run or finish that presents the token. */
  predicate Carries(step: Step, a: Token) {
    (step.SaveStep? || step.RenewStep? || step.SetRunStep? || step.FinishStep?) && step.token == a
  }

  predicate Fenced(w: World, a: Token) { a in w.issued && !Holds(w.db, a) }

  lemma FencedStays(w: World, step: Step, a: Token)
    requires Fenced(w, a) && Fresh(w, step)
    ensures Fenced(Next(w, step), a)
  {
  }

  lemma FencedRefuses(w: World, step: Step, a: Token)
    requires Fenced(w, a) && Carries(step, a)
    ensures Next(w, step).db == w.db
  {
  }

  lemma {:induction false} FencedForever(w: World, steps: seq<Step>, i: nat, j: nat, a: Token)
    requires AllFresh(w, steps) && i <= j <= |steps| && Fenced(After(w, steps[..i]), a)
    ensures Fenced(After(w, steps[..j]), a)
    decreases j
  {
    if i < j {
      FencedForever(w, steps, i, j - 1, a);
      AfterOne(w, steps, j - 1);
      FencedStays(After(w, steps[..j - 1]), steps[j - 1], a);
    }
  }

  /** In any interleaving, once another token's acquire has committed, no save, renew, set-run or
      finish that carries an earlier token changes any row: whatever the sidecar answers, and
      whatever times the callers pass. */
  lemma Fencing(w: World, steps: seq<Step>, i: nat, j: nat, a: Token)
    requires AllFresh(w, steps) && i < j < |steps|
    requires steps[i].AcquireStep? && steps[i].sidecarFree
    requires a in After(w, steps[..i]).issued
    requires !LeasedPast(After(w, steps[..i]).db, steps[i].now)
    requires Carries(steps[j], a)
    ensures After(w, steps[..j + 1]).db == After(w, steps[..j]).db
  {
    AfterOne(w, steps, i);
    assert Fenced(After(w, steps[..i + 1]), a);
    FencedForever(w, steps, i + 1, j, a);
    AfterOne(w, steps, j);
    FencedRefuses(After(w, steps[..j]), steps[j], a);
  }

  /** Starting a run is not fenced: a capture that lost the writer slot still inserts a running run,
      with a row for each of its contexts, unless its label is taken or a name repeats. */
  lemma StartIsNotFenced(w: World, a: Token, names: seq<string>, runLabel: string, licenses: bool, pinned: bool, now: int)
    requires Fenced(w, a) && Known(w)
    ensures var w1 := Next(w, StartStep(a, names, runLabel, licenses, pinned, now));
      if LabelTaken(w.db.runs, runLabel) || exists i, j :: 0 <= i < j < |names| && names[i] == names[j] then w1 == w
      else
        && w.db.nextRun !in w.db.runs && w1.db.runs.Keys == w.db.runs.Keys + {w.db.nextRun}
        && w1.db.runs[w.db.nextRun].status == RunRunning && w1.db.runs[w.db.nextRun].requestedContexts == |names|
        && (forall n :: n in names ==> ContextKey(w.db.nextRun, n) in w1.db.contexts)
        && (forall r :: r in w.db.runs ==> w1.db.runs[r] == w.db.runs[r])
  {
  }

  /** A label names at most one run. */
  ghost predicate LabelsDistinct(runs: map<int, RunRow>) {
    forall r, s :: r in runs && s in runs && r != s && runs[r].runLabel != "" ==> Lower(runs[r].runLabel) != Lower(runs[s].runLabel)
  }

  lemma {:induction false} LabelsStayDistinct(w: World, steps: seq<Step>)
    requires LabelsDistinct(w.db.runs)
    ensures LabelsDistinct(After(w, steps).db.runs)
  {
    if steps != [] {
      var n := |steps| - 1;
      LabelsStayDistinct(w, steps[..n]);
      LabelsDistinctNext(After(w, steps[..n]), steps[n]);
    }
  }

  lemma UpdateKeepsLabels(db: Db, id: int, runLabel: Option<string>, pinned: Option<bool>)
    requires LabelsDistinct(db.runs)
    ensures LabelsDistinct(Update(db, id, runLabel, pinned).runs)
  {
    var runs := Update(db, id, runLabel, pinned).runs;
    forall r, s | r in runs && s in runs && r != s && runs[r].runLabel != "" ensures Lower(runs[r].runLabel) != Lower(runs[s].runLabel) {
      assert s == id ==> runs[r] == db.runs[r];
      assert r == id ==> runs[s] == db.runs[s];
      if runLabel.Some? && runs != db.runs {
        assert s == id ==> r in db.runs - {id} && (db.runs - {id})[r] == db.runs[r];
        assert r == id ==> s in db.runs - {id} && (db.runs - {id})[s] == db.runs[s];
        assert s == id && runLabel.value == "" ==> |Lower(runs[s].runLabel)| == 0 && |Lower(runs[r].runLabel)| > 0;
      }
    }
  }

  lemma LabelsDistinctNext(w: World, step: Step)
    requires LabelsDistinct(w.db.runs)
    ensures LabelsDistinct(Next(w, step).db.runs)
  {
    if step.UpdateStep? {
      UpdateKeepsLabels(w.db, step.run, step.newLabel, step.newPin);
    }
  }

  // ----- Orphan recovery

  predicate Live(w: World) { LeasedPast(w.db, w.clock) }

  predicate IsRecovery(step: Step) {
    step.RecoverContextsStep? || step.RecoverCollectionsStep? || step.RecoverRunsStep?
  }

  /** Whatever ran between its three statements, recovery changes nothing while a lease is live. */
  lemma RecoverySparesLiveCaptures(w: World, steps: seq<Step>, i: nat)
    requires AllEnabled(w, steps) && i < |steps| && IsRecovery(steps[i]) && Live(After(w, steps[..i]))
    ensures After(w, steps[..i + 1]) == After(w, steps[..i])
  {
    assert Enabled(After(w, steps[..i]), steps[i]);
    AfterOne(w, steps, i);
  }

  /** Recovery gave the run up. */
  predicate GaveUp(w: World, step: Step, run: int) {
    && step.RecoverRunsStep? && run in w.db.runs
    && w.db.runs[run].status == RunRunning && Next(w, step).db.runs[run].status == RunFailed
  }

  /** The run is as recovery left it at that time, or gone, and the capture's lease, if it still has
      one, still expires when it did. */
  predicate GivenUp(w: World, run: int, at: int, expiry: int) {
    && run in w.captures && run < w.db.nextRun && w.captures[run].token in w.issued
    && (Holds(w.db, w.captures[run].token) ==> w.db.lease.value.expiresAt == expiry)
    && (run in w.db.runs ==> w.db.runs[run].status == RunFailed && w.db.runs[run].finishedAt == Some(at))
  }

  /** The capture still has its lease row and uses it with a time from before the expiry: it renews it,
      to another expiry, or it finishes the run. */
  predicate Overrides(w: World, step: Step, run: int, expiry: int) {
    && run in w.captures && Holds(w.db, w.captures[run].token)
    && (|| (step.RenewStep? && step.token == w.captures[run].token
            && step.now < expiry && step.now + LEASE_DURATION != expiry)
        || (step.FinishStep? && step.run == run && run in w.db.runs && ProgressOf(w, run).now < expiry))
  }

  /** When the capture's lease ran out; the time of giving up when it had lost it already. */
  function ExpiryOf(w: World, run: int, at: int): int {
    if run in w.captures && Holds(w.db, w.captures[run].token) then w.db.lease.value.expiresAt else at
  }

  lemma GaveUpIsGivenUp(w: World, step: Step, run: int)
    requires Known(w) && Enabled(w, step) && GaveUp(w, step, run) && run in w.captures
    ensures GivenUp(Next(w, step), run, step.now, ExpiryOf(w, run, step.now)) && ExpiryOf(w, run, step.now) <= step.now
  {
  }

  lemma GivenUpNext(w: World, step: Step, run: int, at: int, expiry: int)
    requires GivenUp(w, run, at, expiry) && Enabled(w, step) && expiry <= at
    ensures GivenUp(Next(w, step), run, at, expiry) <==> !Overrides(w, step, run, expiry)
  {
  }

  /** Live captures are known by runs already handed out, under tokens already issued. */
  predicate Known(w: World) {
    && (forall r :: r in w.captures ==> r < w.db.nextRun && w.captures[r].token in w.issued)
    && (forall r :: r in w.db.runs ==> r < w.db.nextRun)
  }

  lemma KnownStays(w: World, step: Step)
    requires Known(w) && Enabled(w, step)
    ensures Known(Next(w, step))
  {
  }

  lemma {:induction false} KnownAlways(w: World, steps: seq<Step>, i: nat)
    requires Known(w) && AllEnabled(w, steps) && i <= |steps|
    ensures Known(After(w, steps[..i]))
  {
    if i > 0 {
      KnownAlways(w, steps, i - 1);
      AfterOne(w, steps, i - 1);
      KnownStays(After(w, steps[..i - 1]), steps[i - 1]);
    }
  }

  /** The worlds a run of steps goes through. */
  function Worlds(w: World, steps: seq<Step>): (worlds: seq<World>)
    ensures |worlds| == |steps| + 1 && forall k :: 0 <= k <= |steps| ==> worlds[k] == After(w, steps[..k])
  {
    seq(|steps| + 1, k requires 0 <= k <= |steps| => After(w, steps[..k]))
  }

  lemma WorldsFollow(w: World, steps: seq<Step>, k: nat)
    requires k < |steps|
    ensures Worlds(w, steps)[k + 1] == Next(Worlds(w, steps)[k], steps[k])
  {
    AfterOne(w, steps, k);
  }

  /** A step to the next world that is enabled. */
  ghost predicate Proper(w: World, step: Step, next: World) { next == Next(w, step) && Enabled(w, step) }

  lemma {:induction false} GivenUpAlways(worlds: seq<World>, steps: seq<Step>, i: nat, j: nat, run: int, at: int, expiry: int)
    requires i <= j < |worlds| <= |steps| + 1 && expiry <= at && GivenUp(worlds[i], run, at, expiry)
    requires forall k :: i <= k < j ==> Proper(worlds[k], steps[k], worlds[k + 1])
    ensures (forall k :: i <= k <= j ==> GivenUp(worlds[k], run, at, expiry))
      <==> forall k :: i <= k < j ==> !Overrides(worlds[k], steps[k], run, expiry)
    decreases j
  {
    if i < j {
      GivenUpAlways(worlds, steps, i, j - 1, run, at, expiry);
      if GivenUp(worlds[j - 1], run, at, expiry) {
        assert Proper(worlds[j - 1], steps[j - 1], worlds[j]);
        GivenUpNext(worlds[j - 1], steps[j - 1], run, at, expiry);
      }
    }
  }

  lemma WorldsAreProper(w: World, steps: seq<Step>)
    requires AllEnabled(w, steps)
    ensures forall k :: 0 <= k < |steps| ==> Proper(Worlds(w, steps)[k], steps[k], Worlds(w, steps)[k + 1])
  {
    forall k | 0 <= k < |steps| ensures Proper(Worlds(w, steps)[k], steps[k], Worlds(w, steps)[k + 1]) {
      WorldsFollow(w, steps, k);
    }
  }

  lemma GivenUpIn(worlds: seq<World>, steps: seq<Step>, i: nat, j: nat, run: int)
    requires i < j < |worlds| <= |steps| + 1 && forall k :: i <= k < j ==> Proper(worlds[k], steps[k], worlds[k + 1])
    requires Known(worlds[i]) && run in worlds[i].captures && GaveUp(worlds[i], steps[i], run)
    ensures var at, expiry := steps[i].now, ExpiryOf(worlds[i], run, steps[i].now);
      (forall k :: i + 1 <= k <= j ==> GivenUp(worlds[k], run, at, expiry))
      <==> forall k :: i + 1 <= k < j ==> !Overrides(worlds[k], steps[k], run, expiry)
  {
    assert Proper(worlds[i], steps[i], worlds[i + 1]);
    GaveUpIsGivenUp(worlds[i], steps[i], run);
    GivenUpAlways(worlds, steps, i + 1, j, run, steps[i].now, ExpiryOf(worlds[i], run, steps[i].now));
  }

  /** In any interleaving, a leased run that recovery marked failed stays as recovery left it, and its
      lease as it ran out, exactly as long as the capture does not use the lease row, while it still
      has it, with a time from before the expiry. */
  lemma StaysGivenUpExactlyWhen(w: World, steps: seq<Step>, i: nat, j: nat, run: int)
    requires Known(w) && AllEnabled(w, steps) && i < j <= |steps|
    requires run in After(w, steps[..i]).captures && GaveUp(After(w, steps[..i]), steps[i], run)
    ensures var at, expiry := steps[i].now, ExpiryOf(After(w, steps[..i]), run, steps[i].now);
      (forall k :: i < k <= j ==> GivenUp(After(w, steps[..k]), run, at, expiry))
      <==> forall k :: i < k < j ==> !Overrides(After(w, steps[..k]), steps[k], run, expiry)
  {
    KnownAlways(w, steps, i);
    WorldsAreProper(w, steps);
    var worlds := Worlds(w, steps);
    GivenUpIn(worlds, steps, i, j, run);
    var at, expiry := steps[i].now, ExpiryOf(worlds[i], run, steps[i].now);
    assert forall k :: i < k <= j ==> (GivenUp(worlds[k], run, at, expiry) <==> GivenUp(After(w, steps[..k]), run, at, expiry));
    assert forall k :: i < k < j ==> (Overrides(worlds[k], steps[k], run, expiry) <==> Overrides(After(w, steps[..k]), steps[k], run, expiry));
  }

  /** So it is never made complete or partial afterwards when the capture's renews and finishes carry
      times not before the expiry; those of others may carry any. */
  lemma RecoveredStaysFailed(w: World, steps: seq<Step>, i: nat, j: nat, run: int)
    requires Known(w) && AllEnabled(w, steps) && i < j <= |steps|
    requires run in After(w, steps[..i]).captures && GaveUp(After(w, steps[..i]), steps[i], run)
    requires forall k :: i < k < j ==>
      !Overrides(After(w, steps[..k]), steps[k], run, ExpiryOf(After(w, steps[..i]), run, steps[i].now))
    ensures run in After(w, steps[..j]).db.runs ==> After(w, steps[..j]).db.runs[run].status == RunFailed
  {
    StaysGivenUpExactlyWhen(w, steps, i, j, run);
    assert GivenUp(After(w, steps[..j]), run, steps[i].now, ExpiryOf(After(w, steps[..i]), run, steps[i].now));
  }

  /** The final update checks the lease against the time the finish began with. Right after recovery
      gave the run up, it goes through exactly when that time is before the expiry: when it was
      read before the lease ran out, the run that was marked failed gets its status after all. */
  lemma StaleFinishOverridesRecovery(w: World, run: int)
    requires run in w.captures && run in w.db.runs && w.db.runs[run].status == RunRunning
    requires Holds(w.db, w.captures[run].token) && w.db.lease.value.expiresAt <= w.clock
    ensures var w1 := Next(w, RecoverRunsStep(w.clock));
            var w2 := Next(w1, FinishStep(w.captures[run].token, run));
      && GaveUp(w, RecoverRunsStep(w.clock), run)
      && w2.db.runs[run].status
         == (if ProgressOf(w, run).now < w.db.lease.value.expiresAt then Decide(ProgressOf(w, run).counts) else RunFailed)
  {
  }

  /** A heartbeat called with a time from before the expiry brings an expired lease back, and
      with it every guard of the capture recovery gave up. */
  lemma StaleRenewRevives(w: World, a: Token, now: int)
    requires Holds(w.db, a) && w.db.lease.value.expiresAt <= w.clock
    ensures Live(Next(w, RenewStep(a, now))) <==>
      now < w.db.lease.value.expiresAt && w.clock < now + LEASE_DURATION
  {
  }

  // ----- Deleting pinned runs

  predicate PinnedIn(w: World, run: int) { run in w.db.runs && w.db.runs[run].pinned }

  /** The only step that removes a pinned run is the second half of a delete. */
  lemma PinnedIsDeletedExactlyWhen(w: World, step: Step, run: int)
    requires Enabled(w, step) && PinnedIn(w, run)
    ensures run !in Next(w, step).db.runs <==> step == DeleteStep(run)
  {
  }

  /** Step i checked the run while it was not pinned. */
  ghost predicate CheckedAt(w: World, steps: seq<Step>, i: nat, run: int) {
    && i < |steps| && steps[i] == DeleteCheck(run)
    && run in After(w, steps[..i]).db.runs && !PinnedIn(After(w, steps[..i]), run)
  }

  lemma {:induction false} DeletingWasChecked(w: World, steps: seq<Step>, j: nat, run: int) returns (i: nat)
    requires w.deleting == {} && j <= |steps| && run in After(w, steps[..j]).deleting
    ensures i < j && CheckedAt(w, steps, i, run)
  {
    AfterOne(w, steps, j - 1);
    if run in After(w, steps[..j - 1]).deleting {
      i := DeletingWasChecked(w, steps, j - 1, run);
    } else {
      i := j - 1;
    }
  }

  predicate Pins(step: Step, run: int) { step.UpdateStep? && step.run == run && step.newPin == Some(true) }

  ghost predicate Follows(w: World, step: Step, next: World) { next == Next(w, step) }

  /** A run that became pinned was pinned by an update. */
  lemma {:induction false} PinnedByUpdate(worlds: seq<World>, steps: seq<Step>, i: nat, j: nat, run: int) returns (m: nat)
    requires i <= j < |worlds| <= |steps| + 1 && forall k :: i <= k < j ==> Follows(worlds[k], steps[k], worlds[k + 1])
    requires run < worlds[i].db.nextRun && !PinnedIn(worlds[i], run) && PinnedIn(worlds[j], run)
    ensures i <= m < j && Pins(steps[m], run)
    decreases j
  {
    if PinnedIn(worlds[j - 1], run) {
      m := PinnedByUpdate(worlds, steps, i, j - 1, run);
    } else {
      m := j - 1;
      NextRunGrows(worlds, steps, i, m);
      BecomesPinned(worlds[m], steps[m], worlds[j], run);
    }
  }

  lemma {:induction false} NextRunGrows(worlds: seq<World>, steps: seq<Step>, i: nat, j: nat)
    requires i <= j < |worlds| <= |steps| + 1 && forall k :: i <= k < j ==> Follows(worlds[k], steps[k], worlds[k + 1])
    ensures worlds[i].db.nextRun <= worlds[j].db.nextRun
    decreases j
  {
    if i < j {
      NextRunGrows(worlds, steps, i, j - 1);
      NextRunGrowsOne(worlds[j - 1], steps[j - 1], worlds[j]);
    }
  }

  lemma NextRunGrowsOne(w: World, step: Step, next: World)
    requires Follows(w, step, next)
    ensures w.db.nextRun <= next.db.nextRun
  {
  }

  lemma BecomesPinned(w: World, step: Step, next: World, run: int)
    requires Follows(w, step, next) && run < w.db.nextRun && !PinnedIn(w, run) && PinnedIn(next, run)
    ensures Pins(step, run)
  {
  }

  /** In any interleaving, a run that is pinned is deleted only when it was pinned between the two
      halves of the delete. */
  lemma PinnedBetweenTheHalves(w: World, steps: seq<Step>, j: nat, run: int)
    requires Known(w) && w.deleting == {} && AllEnabled(w, steps) && j < |steps|
    requires PinnedIn(After(w, steps[..j]), run) && run !in After(w, steps[..j + 1]).db.runs
    ensures steps[j] == DeleteStep(run)
    ensures exists i: nat, m: nat :: i < m < j && CheckedAt(w, steps, i, run) && Pins(steps[m], run)
  {
    AfterOne(w, steps, j);
    PinnedIsDeletedExactlyWhen(After(w, steps[..j]), steps[j], run);
    var i := DeletingWasChecked(w, steps, j, run);
    KnownAlways(w, steps, i);
    var worlds := Worlds(w, steps);
    forall k | i <= k < j ensures Follows(worlds[k], steps[k], worlds[k + 1]) {
      WorldsFollow(w, steps, k);
    }
    var m := PinnedByUpdate(worlds, steps, i, j, run);
    assert steps[i] != steps[m];
  }

  const UNPINNED := World(Db(None, map[1 := RunRow(RunComplete, false, 0, Some(0), 0, 0, 0, 0, "")], map[], map[], {}, 2), 0, {}, map[], map[], {})

  const PIN_BETWEEN: seq<Step> := [DeleteCheck(1), UpdateStep(1, None, Some(true)), DeleteStep(1)]

  /** Such a run of steps: the run is pinned when the delete removes it. */
  lemma PinnedRunIsDeleted()
    ensures Known(UNPINNED) && AllEnabled(UNPINNED, PIN_BETWEEN)
    ensures PinnedIn(After(UNPINNED, PIN_BETWEEN[..2]), 1) && 1 !in After(UNPINNED, PIN_BETWEEN).db.runs
  {
    var checked := UNPINNED.(deleting := {1});
    var pinned := Next(checked, PIN_BETWEEN[1]);
    ThreeSteps(UNPINNED, PIN_BETWEEN, checked, pinned);
    forall i | 0 <= i < |PIN_BETWEEN| ensures Enabled(After(UNPINNED, PIN_BETWEEN[..i]), PIN_BETWEEN[i]) {
    }
  }

  lemma ThreeSteps(w: World, steps: seq<Step>, w1: World, w2: World)
    requires |steps| == 3 && Next(w, steps[0]) == w1 && Next(w1, steps[1]) == w2
    ensures After(w, steps[..0]) == w && After(w, steps[..1]) == w1 && After(w, steps[..2]) == w2
    ensures After(w, steps) == Next(w2, steps[2])
  {
    AfterOne(w, steps, 0);
    AfterOne(w, steps, 1);
    AfterOne(w, steps, 2);
    assert steps[..0] == [] && steps[..3] == steps;
  }
}
