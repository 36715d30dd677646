/** Pruning old runs: which ones are chosen from a listing, and what the delete then removes from
    a ledger that may have changed since. */
module Prune {
  import opened Common
  import opened Ledger
  import opened Store
  import LedgerRuns

  datatype Listed = Listed(id: int, row: RunRow)

  /** Newest first, as runs are listed. */
  ghost predicate NewestFirst(runs: seq<Listed>) {
    forall i, j :: 0 <= i < j < |runs| ==> runs[i].id > runs[j].id
  }

  predicate IsComplete(l: Listed) { l.row.status == RunComplete }

  function CompleteCount(runs: seq<Listed>): nat {
    if runs == [] then 0
    else CompleteCount(runs[..|runs| - 1]) + if IsComplete(runs[|runs| - 1]) then 1 else 0
  }

  /** Position i holds one of the newest keepLast complete runs. */
  ghost predicate KeptAt(runs: seq<Listed>, keepLast: int, i: int) {
    0 <= i < |runs| && IsComplete(runs[i]) && CompleteCount(runs[..i]) < keepLast
  }

  ghost function KeptIDs(runs: seq<Listed>, keepLast: int): set<int> {
    set i | 0 <= i < |runs| && KeptAt(runs, keepLast, i) :: runs[i].id
  }

  /** Finished before the cutoff and free to go. */
  predicate Prunable(row: RunRow, cutoff: int) {
    row.status != RunRunning && !row.pinned && row.finishedAt.Some? && row.finishedAt.value < cutoff
  }

  /** The run is chosen for deletion. */
  ghost predicate Chosen(runs: seq<Listed>, cutoff: int, keepLast: int, id: int) {
    exists i :: 0 <= i < |runs| && runs[i].id == id && Prunable(runs[i].row, cutoff) && !KeptAt(runs, keepLast, i)
  }

  lemma ChosenIsNotKept(runs: seq<Listed>, cutoff: int, keepLast: int, id: int)
    requires NewestFirst(runs) && Chosen(runs, cutoff, keepLast, id)
    ensures id !in KeptIDs(runs, keepLast)
  {
  }

  method Select(runs: seq<Listed>, cutoff: int, keepLast: int) returns (kept: set<int>, candidates: seq<int>)
    requires NewestFirst(runs) && keepLast >= 0
    ensures kept == KeptIDs(runs, keepLast)
    ensures forall id :: id in candidates <==> Chosen(runs, cutoff, keepLast, id)
  {
    kept := {};
    var count := 0;
    for n := 0 to |runs|
      invariant count == Min(keepLast, CompleteCount(runs[..n]))
      invariant forall id :: id in kept <==> exists i :: 0 <= i < n && KeptAt(runs, keepLast, i) && runs[i].id == id
    {
      assert runs[..n + 1][..n] == runs[..n];
      if runs[n].row.status == RunComplete && count < keepLast {
        assert KeptAt(runs, keepLast, n);
        kept := kept + {runs[n].id};
        count := count + 1;
      }
    }
    assert runs[..|runs|] == runs;
    forall id ensures id in kept <==> id in KeptIDs(runs, keepLast) {
      if id in kept {
        var i :| 0 <= i < |runs| && KeptAt(runs, keepLast, i) && runs[i].id == id;
        assert runs[i].id in KeptIDs(runs, keepLast);
      }
    }
    candidates := [];
    for n := 0 to |runs|
      invariant forall id :: id in candidates <==>
        exists i :: 0 <= i < n && runs[i].id == id && Prunable(runs[i].row, cutoff) && !KeptAt(runs, keepLast, i)
    {
      var row := runs[n].row;
      assert runs[n].id in kept <==> KeptAt(runs, keepLast, n);
      if row.status == RunRunning || row.pinned || row.finishedAt.None? || !(row.finishedAt.value < cutoff)
         || runs[n].id in kept {
        continue;
      }
      candidates := candidates + [runs[n].id];
    }
  }

  /** Of the runs before position i, those that are complete. */
  ghost function CompleteBefore(runs: seq<Listed>, i: int): set<int> {
    set j | 0 <= j < i && j < |runs| && runs[j].row.status == RunComplete
  }

  lemma {:induction false} CompleteCountIs(runs: seq<Listed>)
    ensures CompleteCount(runs) == |CompleteBefore(runs, |runs|)|
  {
    if runs != [] {
      var n := |runs| - 1;
      CompleteCountIs(runs[..n]);
      assert CompleteBefore(runs, |runs|) == CompleteBefore(runs[..n], n) + if runs[n].row.status == RunComplete then {n} else {};
    }
  }

  /** A run is chosen exactly when it ended before the cutoff, is neither pinned nor running, and is not
      among the first keepLast complete ones. */
  lemma ChosenExactlyWhen(runs: seq<Listed>, cutoff: int, keepLast: int, id: int)
    ensures Chosen(runs, cutoff, keepLast, id) <==> exists i :: ChosenAt(runs, cutoff, keepLast, id, i)
  {
    forall i | 0 <= i < |runs| ensures CompleteCount(runs[..i]) == |CompleteBefore(runs, i)| {
      CompleteCountIs(runs[..i]);
      assert CompleteBefore(runs[..i], i) == CompleteBefore(runs, i);
    }
    if Chosen(runs, cutoff, keepLast, id) {
      var i :| 0 <= i < |runs| && runs[i].id == id && Prunable(runs[i].row, cutoff) && !KeptAt(runs, keepLast, i);
      assert ChosenAt(runs, cutoff, keepLast, id, i);
    }
  }

  ghost predicate ChosenAt(runs: seq<Listed>, cutoff: int, keepLast: int, id: int, i: int) {
    && 0 <= i < |runs| && runs[i].id == id
    && runs[i].row.finishedAt.Some? && runs[i].row.finishedAt.value < cutoff
    && !runs[i].row.pinned && runs[i].row.status != RunRunning
    && (runs[i].row.status == RunComplete ==> |CompleteBefore(runs, i)| >= keepLast)
  }

  // ----- The delete

  function DeleteAll(db: Db, ids: seq<int>): Db {
    if ids == [] then db else DeleteUnpinned(DeleteAll(db, ids[..|ids| - 1]), ids[|ids| - 1]).0
  }

  predicate Spared(db: Db, ids: seq<int>, r: int)
    requires r in db.runs
  {
    r !in ids || db.runs[r].pinned || db.runs[r].status == RunRunning
  }

  /** A run survives the delete, with its row, unless it was chosen and is, at that moment,
      neither pinned nor running. */
  lemma {:induction false} Survives(db: Db, ids: seq<int>, r: int)
    ensures r in DeleteAll(db, ids).runs <==> r in db.runs && Spared(db, ids, r)
    ensures r in DeleteAll(db, ids).runs ==> DeleteAll(db, ids).runs[r] == db.runs[r]
  {
    if ids != [] {
      Survives(db, ids[..|ids| - 1], r);
      assert ids == ids[..|ids| - 1] + [ids[|ids| - 1]];
    }
  }

  lemma {:induction false} DeleteKeepsLease(db: Db, ids: seq<int>)
    ensures DeleteAll(db, ids).lease == db.lease
  {
    if ids != [] {
      DeleteKeepsLease(db, ids[..|ids| - 1]);
    }
  }

  /** What is recorded under run r is there afterwards exactly when it was before and the run, if
      there is one, was spared; and it is as it was. */
  ghost predicate SharesFate(db: Db, after: Db, ids: seq<int>, r: int) {
    var stays := r in db.runs ==> Spared(db, ids, r);
    && (forall k :: k in after.contexts && k.run == r <==> k in db.contexts && k.run == r && stays)
    && (forall k :: k in after.contexts && k.run == r ==> after.contexts[k] == db.contexts[k])
    && (forall k :: k in after.collections && k.run == r <==> k in db.collections && k.run == r && stays)
    && (forall k :: k in after.collections && k.run == r ==> after.collections[k] == db.collections[k])
    && (forall k :: k in after.vms && k.run == r <==> k in db.vms && k.run == r && stays)
  }

  /** Everything recorded under a surviving run survives with it, and everything under a deleted one
      is deleted with it. */
  lemma {:induction false} SurvivesWithItsRows(db: Db, ids: seq<int>, r: int)
    ensures SharesFate(db, DeleteAll(db, ids), ids, r)
  {
    if ids != [] {
      var front, last := ids[..|ids| - 1], ids[|ids| - 1];
      SurvivesWithItsRows(db, front, r);
      Survives(db, front, r);
      assert ids == front + [last];
      SharesFateNext(db, DeleteAll(db, front), front, last, r);
    }
  }

  lemma SharesFateNext(db: Db, middle: Db, front: seq<int>, last: int, r: int)
    requires SharesFate(db, middle, front, r)
    requires r in middle.runs <==> r in db.runs && Spared(db, front, r)
    requires r in middle.runs ==> middle.runs[r] == db.runs[r]
    ensures SharesFate(db, DeleteUnpinned(middle, last).0, front + [last], r)
  {
  }

  ghost function CompleteIDs(db: Db): set<int> {
    set r | r in db.runs && db.runs[r].status == RunComplete
  }

  ghost predicate Lists(runs: seq<Listed>, db: Db) {
    && NewestFirst(runs)
    && (forall i :: 0 <= i < |runs| ==> runs[i].id in db.runs && db.runs[runs[i].id] == runs[i].row)
    && forall r :: r in db.runs ==> exists i :: 0 <= i < |runs| && runs[i].id == r
  }

  lemma KeptIDsNext(runs: seq<Listed>, keepLast: int)
    requires runs != []
    ensures var n := |runs| - 1;
      KeptIDs(runs, keepLast) == KeptIDs(runs[..n], keepLast) + if KeptAt(runs, keepLast, n) then {runs[n].id} else {}
  {
    var n := |runs| - 1;
    var front := runs[..n];
    forall i | 0 <= i < n ensures KeptAt(runs, keepLast, i) <==> KeptAt(front, keepLast, i) {
      assert runs[..i] == front[..i];
    }
  }

  lemma {:induction false} KeptCount(runs: seq<Listed>, keepLast: int)
    requires NewestFirst(runs) && keepLast >= 0
    ensures |KeptIDs(runs, keepLast)| == Min(keepLast, CompleteCount(runs))
  {
    if runs != [] {
      var n := |runs| - 1;
      var front := runs[..n];
      KeptCount(front, keepLast);
      KeptIDsNext(runs, keepLast);
      assert runs[n].id !in KeptIDs(front, keepLast);
    }
  }

  ghost function ListedComplete(runs: seq<Listed>): set<int> {
    set i | 0 <= i < |runs| && IsComplete(runs[i]) :: runs[i].id
  }

  lemma ListedCompleteNext(runs: seq<Listed>)
    requires runs != []
    ensures var n := |runs| - 1;
      ListedComplete(runs) == ListedComplete(runs[..n]) + if IsComplete(runs[n]) then {runs[n].id} else {}
  {
    assert forall i :: 0 <= i < |runs| - 1 ==> runs[..|runs| - 1][i] == runs[i];
  }

  lemma {:induction false} CompleteCountIsASize(runs: seq<Listed>)
    requires NewestFirst(runs)
    ensures |ListedComplete(runs)| == CompleteCount(runs)
  {
    if runs != [] {
      var n := |runs| - 1;
      CompleteCountIsASize(runs[..n]);
      ListedCompleteNext(runs);
      assert runs[n].id !in ListedComplete(runs[..n]);
    }
  }

  lemma ListedCompleteIsComplete(db: Db, runs: seq<Listed>)
    requires Lists(runs, db)
    ensures ListedComplete(runs) == CompleteIDs(db)
  {
    forall id | id in CompleteIDs(db) ensures id in ListedComplete(runs) {
      var i :| 0 <= i < |runs| && runs[i].id == id;
      assert IsComplete(runs[i]);
    }
  }

  // ----- On the ledger as it is at the delete

  /** The candidates that are complete and not pinned when the delete runs. */
  ghost function Gone(later: Db, candidates: seq<int>): set<int> {
    set r | r in later.runs && r in candidates && later.runs[r].status == RunComplete && !later.runs[r].pinned
  }

  /** The complete runs the delete removes are exactly those. */
  lemma CompleteAfterwards(later: Db, candidates: seq<int>)
    ensures CompleteIDs(DeleteAll(later, candidates)) == CompleteIDs(later) - Gone(later, candidates)
    ensures Gone(later, candidates) <= CompleteIDs(later)
  {
    forall r ensures r in CompleteIDs(DeleteAll(later, candidates)) <==> r in CompleteIDs(later) - Gone(later, candidates) {
      Survives(later, candidates, r);
    }
  }

  /** Whatever happened since the listing, the delete leaves the newest complete runs it was to keep, or
      all of them when there are fewer, if and only if it removes no complete run or leaves enough. */
  lemma PruneLeavesEnoughExactlyWhen(later: Db, candidates: seq<int>, keepLast: int)
    ensures |CompleteIDs(DeleteAll(later, candidates))| >= Min(keepLast, |CompleteIDs(later)|)
      <==> Gone(later, candidates) == {} || |CompleteIDs(later) - Gone(later, candidates)| >= keepLast
  {
    var all, gone := CompleteIDs(later), Gone(later, candidates);
    CompleteAfterwards(later, candidates);
    assert all == (all - gone) + gone;
    assert |all| == |all - gone| + |gone|;
  }

  /** It never removes a run the listing kept. */
  lemma KeptStayComplete(runs: seq<Listed>, cutoff: int, keepLast: int, candidates: seq<int>, later: Db)
    requires NewestFirst(runs) && forall id :: id in candidates ==> Chosen(runs, cutoff, keepLast, id)
    ensures KeptIDs(runs, keepLast) * CompleteIDs(later) <= CompleteIDs(DeleteAll(later, candidates))
  {
    CompleteAfterwards(later, candidates);
    forall id | id in KeptIDs(runs, keepLast) && id in Gone(later, candidates) ensures false {
      ChosenIsNotKept(runs, cutoff, keepLast, id);
    }
  }

  /** So as long as the runs the listing kept are still complete, at least as many are left as it was to
      keep of those it listed. */
  lemma PruneLeavesCompleteRuns(runs: seq<Listed>, cutoff: int, keepLast: int, candidates: seq<int>, later: Db)
    requires NewestFirst(runs) && keepLast >= 0
    requires forall id :: id in candidates ==> Chosen(runs, cutoff, keepLast, id)
    requires KeptIDs(runs, keepLast) <= CompleteIDs(later)
    ensures KeptIDs(runs, keepLast) <= CompleteIDs(DeleteAll(later, candidates))
    ensures |CompleteIDs(DeleteAll(later, candidates))| >= Min(keepLast, CompleteCount(runs))
  {
    KeptStayComplete(runs, cutoff, keepLast, candidates, later);
    KeptCount(runs, keepLast);
    SubsetCount(KeptIDs(runs, keepLast), CompleteIDs(DeleteAll(later, candidates)));
  }

  /** On the very ledger it listed, pruning leaves at least keepLast complete runs, or all of them when
      there are fewer. */
  lemma PruneOfTheListedLedger(db: Db, runs: seq<Listed>, cutoff: int, keepLast: int, candidates: seq<int>)
    requires Lists(runs, db) && keepLast >= 0
    requires forall id :: id in candidates ==> Chosen(runs, cutoff, keepLast, id)
    ensures |CompleteIDs(DeleteAll(db, candidates))| >= Min(keepLast, |CompleteIDs(db)|)
  {
    CompleteCountIsASize(runs);
    ListedCompleteIsComplete(db, runs);
    forall id | id in KeptIDs(runs, keepLast) ensures id in CompleteIDs(db) {
      var i :| 0 <= i < |runs| && KeptAt(runs, keepLast, i) && runs[i].id == id;
    }
    PruneLeavesCompleteRuns(runs, cutoff, keepLast, candidates, db);
  }

  const OLD := RunRow(RunComplete, false, 0, Some(0), 0, 0, 0, 0, "")
  const LISTING := [Listed(2, OLD), Listed(1, OLD)]
  const LISTED_WORLD := LedgerRuns.World(Db(None, map[1 := OLD, 2 := OLD], map[], map[], {}, 3), 0, {}, map[], map[], {})
  const DELETE_KEPT := [LedgerRuns.DeleteCheck(2), LedgerRuns.DeleteStep(2)]

  lemma ListingChooses()
    ensures Lists(LISTING, LISTED_WORLD.db) && KeptIDs(LISTING, 1) == {2}
    ensures forall id :: id in [1] <==> Chosen(LISTING, 1, 1, id)
  {
    var runs := LISTING;
    assert runs[0].id == 2 && runs[1].id == 1;
    assert runs[..0] == [] && runs[..1] == [runs[0]];
    assert CompleteCount(runs[..1]) == 1;
    assert KeptAt(runs, 1, 0) && !KeptAt(runs, 1, 1);
  }

  lemma DeletesKept()
    ensures LedgerRuns.Known(LISTED_WORLD) && LedgerRuns.AllEnabled(LISTED_WORLD, DELETE_KEPT)
    ensures LedgerRuns.After(LISTED_WORLD, DELETE_KEPT).db.runs == map[1 := OLD]
  {
    LedgerRuns.AfterOne(LISTED_WORLD, DELETE_KEPT, 0);
    LedgerRuns.AfterOne(LISTED_WORLD, DELETE_KEPT, 1);
    assert DELETE_KEPT[..0] == [] && DELETE_KEPT[..2] == DELETE_KEPT;
  }

  /** Deleting a run takes no lease. When the run the listing kept is deleted before the prune takes its
      lease, the prune removes the last complete run there is, and nothing is kept. */
  lemma KeptRunDeletedBetween()
    ensures Lists(LISTING, LISTED_WORLD.db) && forall id :: id in [1] <==> Chosen(LISTING, 1, 1, id)
    ensures LedgerRuns.Known(LISTED_WORLD) && LedgerRuns.AllEnabled(LISTED_WORLD, DELETE_KEPT)
    ensures var later := LedgerRuns.After(LISTED_WORLD, DELETE_KEPT).db;
      CompleteIDs(later) == {1} && CompleteIDs(DeleteAll(later, [1])) == {}
  {
    ListingChooses();
    DeletesKept();
    CompleteAfterwards(LedgerRuns.After(LISTED_WORLD, DELETE_KEPT).db, [1]);
  }

  /** Whatever happened to the ledger between the listing and the delete, a run that is pinned or
      running when the delete runs is not removed, and neither is one the listing kept. */
  lemma PruneSparesKeptPinnedAndRunning(runs: seq<Listed>, cutoff: int, keepLast: int, candidates: seq<int>,
      later: Db, r: int)
    requires NewestFirst(runs)
    requires forall id :: id in candidates ==> Chosen(runs, cutoff, keepLast, id)
    requires r in later.runs
    requires later.runs[r].pinned || later.runs[r].status == RunRunning || r in KeptIDs(runs, keepLast)
    ensures r in DeleteAll(later, candidates).runs && DeleteAll(later, candidates).runs[r] == later.runs[r]
  {
    Survives(later, candidates, r);
    if r in candidates {
      ChosenIsNotKept(runs, cutoff, keepLast, r);
    }
  }

  datatype PruneResult = PruneResult(candidates: seq<int>, deleted: int)

  /** listing is what listing the runs returned; deleting takes the writer slot for its length. */
  method PruneRuns(store: Store, listing: seq<Listed>, olderThan: int, keepLast: int, execute: bool, now: int,
      token: Token, sidecarFree: bool)
    returns (r: Result<PruneResult>)
    requires NewestFirst(listing)
    modifies store
    ensures olderThan <= 0 || keepLast < 0 ==> r.Err? && store.State() == old(store.State())
    ensures r.Ok? && !execute ==> store.State() == old(store.State())
    ensures r.Err? ==> store.State() == old(store.State())
    ensures r.Ok? ==> forall id :: id in r.value.candidates <==> Chosen(listing, now - olderThan, keepLast, id)
    ensures r.Ok? ==> r.value.deleted == |old(store.runs)| - |store.runs|
    ensures r.Ok? && execute && r.value.candidates != [] ==>
      && !LeasedPast(old(store.State()), now)
      && store.State() == DeleteAll(old(store.State()).(lease := None), r.value.candidates)
  {
    if olderThan <= 0 {
      return Err("prune duration must be greater than zero");
    }
    if keepLast < 0 {
      return Err("keep-last cannot be negative");
    }
    var kept, candidates := Select(listing, now - olderThan, keepLast);
    var result := PruneResult(candidates, 0);
    if !execute || |candidates| == 0 {
      return Ok(result);
    }
    ghost var db := store.State();
    var lease := store.AcquireOperationLease(token, "prune", now, sidecarFree);
    if lease.Err? {
      return Err(lease.message);
    }
    ghost var leased := store.State();
    for n := 0 to |candidates|
      invariant store.State() == DeleteAll(leased, candidates[..n])
      invariant result.candidates == candidates && result.deleted == |leased.runs| - |store.runs|
    {
      assert candidates[..n + 1][..n] == candidates[..n];
      var deleted := store.DeleteRunIfUnpinned(candidates[n]);
      if deleted {
        result := result.(deleted := result.deleted + 1);
      }
    }
    assert candidates[..|candidates|] == candidates;
    DeleteKeepsLease(leased, candidates);
    DeleteKeepsLease(db.(lease := None), candidates);
    LeaseIsBystander(leased, db.(lease := None), candidates);
    store.ReleaseCaptureLease(token);
    r := Ok(result);
  }

  lemma {:induction false} LeaseIsBystander(a: Db, b: Db, ids: seq<int>)
    requires a == b.(lease := a.lease)
    ensures DeleteAll(a, ids) == DeleteAll(b, ids).(lease := a.lease)
  {
    if ids != [] {
      LeaseIsBystander(a, b, ids[..|ids| - 1]);
    }
  }
}
