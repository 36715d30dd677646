# A model of the assessment ledger

vsfleet keeps a ledger of captures of a vSphere fleet: every run records, per context, the VMs,
datastores and other objects it found, and later commands compare runs, tell the history of a VM,
line it up with vCenter's events, and project when datastores fill up. This project models that
ledger and the code that explains what changed, and proves what it promises. It is written for
Dafny 4.11; `dafny verify dfyconfig.toml` checks all of it.

Code that changes things step by step is modelled by methods and classes with their loops, in the
order the source has them; each is proved against functions or rules stated without loops, and the
properties are proved of those. SQL statements and transactions are single atomic steps of a state
machine in which any processes interleave.

| files | what they model |
|---|---|
| Events, EventPick, EventTally, EventPlace, EventMatch, EventSpans, EventRepair, EventTimeline, EventClock, EventValues | lining a VM's stored history up with vCenter's events (event_match.go) |
| Ledger, Store, Capture, LedgerRuns, LedgerStatements, Completeness, CaptureOutcome, StaleFinish, Prune | the writer slot, the life of a run, its collections and pruning (store.go, collector.go, maintenance.go) |
| Inventory, SnapshotDiff, VMDiff, VMReports, VMMatching, VMStealing, VCenterVMs | comparing two runs (diff.go, diff_vcenter.go) |
| LastKnown, Timeline, TimelineReports, HiddenValues, Lineage, LineageKeys | the history of one VM (timeline.go, diff.go) |
| Grouping, LinearFit, Projection, Anomalies, GrowthFiles, MergeContributors, Attribution | datastore capacity (capacity.go) |
| Common, Sorting, Strings, Multisets, RealSums | sorting, string order and counting, used throughout |

## Where the code does not do what it says

- A finish or renew whose time argument was read before the lease ran out is accepted after
  recovery has given the run up: `LedgerRuns.StaleFinishOverridesRecovery` says exactly when, and
  `StaleFinish.FailedRunCompletes` is such a run from the empty ledger. Nothing else undoes
  giving a run up (`LedgerRuns.StaysGivenUpExactlyWhen`).
- Starting a run checks no lease (`LedgerRuns.StartIsNotFenced`).
- Prune keeps the newest complete runs of the ledger it listed, and takes its lease later; deleting a
  run takes none. When a kept run is deleted in between, fewer may be left than were to be kept, and
  none at all in `Prune.KeptRunDeletedBetween`; `Prune.PruneLeavesEnoughExactlyWhen` says when.
- Deleting a run refuses a pinned one, but looks in one statement and deletes in another: a run pinned
  in between is deleted (`LedgerRuns.PinnedBetweenTheHalves`, `LedgerRuns.PinnedRunIsDeleted`).
- The comment on choosing contexts says that both sides see a VM through one account where they
  can. They do exactly when both sort the shared names alike (`VCenterVMs.SameContextExactlyWhen`);
  names that differ in letter case can break it (`VCenterVMs.LetterCasePicksApart`).
- A readable configuration with neither CPU nor memory is taken for an unreadable one once it has
  been carried forward (`HiddenValues.HiddenConfigIsInvisibleExactlyWhen`, `HiddenValues.LosingExample`).
- A VM registered anew under another managed object can take the base VM of its old one
  (`VMMatching.StealingExample`); `VMStealing.KeptInEveryOrderExactlyWhen` says for which VMs.
- The query for a VM's history is to load every observation of its lineage. The key folds letter
  case with Go's `ToLower`, which knows all letters, the query with SQLite's `NOCASE`, which knows
  those of ASCII: `LineageKeys.MissedExactlyWhen` says what the query misses, and
  `LineageKeys.UmlautIsMissed` is an input that imported rows with only a VM name give.

The comparison growth contributors are sorted with takes a half byte's difference for none, and can
go round in a circle on fractions of a byte (`MergeContributors.SortsExactlyWithoutCircle`). What
vCenter reports is whole bytes, on which it is the order it is meant to be
(`MergeContributors.WholeBytesSort`, `Attribution.AttributeGrowth`).

## Model

| member | source | states |
|---|---|---|
| EventTimeline.ExplainTimeline | internal/assessment/event_match.go:59-134 | Over any history and any events: the events of all changes plus all unexplained events are exactly the input events, counted; the spans are the gaps between the sorted runs with the changes the later run recorded; what explains a change matches it, and no unexplained event of the span, or within reach across its edges, matches a change without events of its kind; events logged while a span's closing run collected are offered to that span first, so none left unexplained in the next one matches a change the span left without events; every event is in the span the clock gives, carried one span on from the run it was logged in, or moved across one run edge it is within five seconds of, when that run measured no clock offset for its context; and behind the result stand the spans settled in turn from the sorted events, each change taking exactly what the rule picks, the last writer of a field included, and repaired in turn, each change without an event of its kind taking exactly what the same rule picks from the pool of untaken events near its edges |
| EventClock.MeasuredEventsStay | internal/assessment/event_match.go:87-124 | Over the finished timeline, an event of a vCenter whose clock every run measured is unexplained only in the span in which it happened on the local clock, and explains only changes of that span or, when it happened while a run collected, of the span that run closes; said of event times and stored offsets |
| EventClock.PlacedWhereItHappened | internal/assessment/event_match.go:93-96 | When the event's time less each run's stored offset is one local time, it is placed in span i if and only if that time is after the start of run i-1 and not after that of run i |
| EventClock.DuringWhereItHappened | internal/assessment/event_match.go:97-104 | And counts as logged while run i collected if and only if it lies after its start, not after its end and not after the next start |
| EventClock.NearExactlyWhen | internal/assessment/event_match.go:173-206 | It is near a run's edge if and only if the run stores no offset for its vCenter and its time is at most five seconds before the start or after the end |
| EventClock.ClocksDoNotMatter | internal/assessment/event_match.go:150-155 | Setting one vCenter's clock forward, in its events and in every stored offset, moves no event of any vCenter to another span or in or out of a run |
| EventTimeline.SpanHoldsItsChanges | internal/assessment/event_match.go:68-84 | A span holds what the run that closes it recorded, exactly as often as the history does, and no mere observation |
| EventTimeline.NonEmptyKeepsEvents | internal/assessment/event_match.go:126-133 | Leaving out the empty spans loses no event |
| EventTimeline.NonEmptyKeepsChanges | internal/assessment/event_match.go:126-133 | Leaving out the empty spans loses no change |
| EventTally.HeldOnceExplainsOnce | internal/assessment/event_match.go:264-275 | An event the result holds once is in the events of at most one change, and then not also among the unexplained |
| EventPlace.PlacedBetweenStarts | internal/assessment/event_match.go:93-96 | Whatever the runs' clock offsets, so also when the search condition is not monotone, the event is after the start of the run before its span and not after the start of the run that closes it, each on that run's clock |
| EventPlace.PlaceIsUnique | internal/assessment/event_match.go:93-96 | When all runs agree on the event's local time the binary search finds the one span whose starts that time lies between |
| EventPlace.NearOnlyWhereUnmeasured | internal/assessment/event_match.go:159-164 | An event counts as near a run's edge only when the run measured no offset for its context, and then only within five seconds |
| EventPlace.TimelineRuns | internal/assessment/event_match.go:248-260 | The runs of a history are its distinct runs with an ID, by start |
| EventPlace.RunsOfHistory | internal/assessment/event_match.go:248-260 | They are sorted, have distinct IDs and cover every run of the history |
| EventPick.PickReconfigurations | internal/assessment/event_match.go:339-386 | Picks exactly what the rule without loops says: events that name no field, that touch a changed field without a stated value, or that are the cause of some field |
| EventValues.PickedByValue | internal/assessment/event_match.go:339-398 | A reconfiguration that names the CPU or the memory alone is picked for a change that records its new value if and only if it does not say what it set, or set that value and was the last to, in the gap if any in the gap did |
| EventValues.PickedSetsTheCPU | internal/assessment/event_match.go:390-398 | By the event's own field: a picked event that states a CPU count states the recorded one, and no later event of the gap does |
| EventValues.PickedSetsTheMemory | internal/assessment/event_match.go:390-398 | The same of the memory |
| EventValues.Reconfigurable | internal/assessment/event_match.go:455-467 | A change is reconfigured in its CPU, memory, annotation, guest system and name by those names, in anything else as devices, and in its metadata not at all |
| Common.FormatIntRead | internal/assessment/diff.go:416-424 | A number written into a change can be read back, so two numbers are never written alike |
| EventPick.FindCauses | internal/assessment/event_match.go:346-362 | Per field the recorded cause is the last event before the gap's end to set the recorded value, else the last one after it |
| EventPick.CauseIsUnique | internal/assessment/event_match.go:346-362 | That rule leaves at most one cause per field |
| EventPick.CauseExists | internal/assessment/event_match.go:346-362 | Whenever some candidate sets the recorded value, the field has a cause |
| EventPick.PickMigration | internal/assessment/event_match.go:432-450 | At most one migration is picked: the last from the earlier recorded host to the later one, else the last that ended on the recorded host or names none, else nothing |
| EventValues.PickedMigration | internal/assessment/event_match.go:432-450 | On the recorded hosts: the last migration from the one to the other, or when there is none the last that ended there or does not say where |
| EventValues.PickedMigrationByHost | internal/assessment/event_match.go:432-450 | Without a recorded host, the last that ended on the observation's host or does not say where |
| EventPick.PickRename | internal/assessment/event_match.go:299-317 | The rename events that lead to the recorded name, or the reconfiguration that set it, exactly as the rule says |
| EventValues.PickedRename | internal/assessment/event_match.go:299-317 | On the recorded name: every reconfiguration of the name that set it, and the last rename to it |
| EventPick.Explainers | internal/assessment/event_match.go:278-324 | For every kind of change the picked positions are distinct and exactly those of the rule |
| EventValues.PickedFirst | internal/assessment/event_match.go:407-430 | A VM or snapshot that came or went takes the first event that created or removed one and did not fail |
| EventPick.PickedMatches | internal/assessment/event_match.go:278-324 | Nothing is picked that could not account for the change on its own |
| EventPick.SomethingIsPicked | internal/assessment/event_match.go:278-324 | When an unused event could account for the change, something is picked, of the change's own kind when that event is |
| EventMatch.ExplainSpan | internal/assessment/event_match.go:264-275 | Each change in turn takes the events picked for it among those still unused, and the returned flags are exactly those taken |
| EventMatch.TakesNothingMatchesNothing | internal/assessment/event_match.go:264-275 | A change that took nothing matches none of the events left unused at the end |
| EventSpans.PlaceEvents | internal/assessment/event_match.go:90-104 | The sorted events are split without loss into those between runs and those logged while a run collected |
| EventSpans.SettleSpan | internal/assessment/event_match.go:108-124 | A span's events and what it carries on are exactly what it was offered; only events logged during its closing run are carried |
| EventSpans.SettleSpans | internal/assessment/event_match.go:106-124 | Over all spans every event is attached or unexplained, none twice, and the last span carries nothing on |
| EventRepair.TakeFromAcross | internal/assessment/event_match.go:183-221 | What a change takes is exactly what the picking rule chooses from the pool gathered for it, the untaken unexplained events within tolerance of its span's two edges, earlier edge first; without an event of its kind nothing of the kind is left there |
| EventRepair.RepairBoundaries | internal/assessment/event_match.go:173-226 | The second pass loses and doubles no event and takes none away from a change; span after span and change after change it takes what the rule picks from what is then untaken, and exactly that leaves the unexplained events; no change without an event of its kind is left beside an event that would be one |
| EventRepair.GainsAtMostOne | internal/assessment/event_match.go:212-216 | A change that is neither a rename nor a modification gains at most one event from across the edges, however many would fit it |
| Events.SortEventsSorts | internal/assessment/event_match.go:85-86 | The events are worked through oldest first, ties by key |
| Store.Store.AcquireOperationLease | internal/assessment/store.go:706-743 | Takes the writer slot when no lease is unexpired and the sidecar is free, else changes nothing; the tables after it are those of the transaction function |
| Store.Store.SetCaptureLeaseRun | internal/assessment/store.go:745-755 | Records the run in the lease only for the token that holds it |
| Store.Store.RenewCaptureLease | internal/assessment/store.go:757-772 | Moves the expiry only for the holding token and only before the lease ran out by the caller's time |
| Store.Store.ReleaseCaptureLease | internal/assessment/store.go:774-778 | Removes the lease of this token and no other |
| LedgerStatements.AcquireGives | internal/assessment/store.go:706-743 | Acquiring succeeds if and only if no row outlives the time, and the row is then this token's and nobody else's for two minutes |
| LedgerStatements.RenewGives | internal/assessment/store.go:757-772 | Renewing succeeds if and only if the row is the token's and has not run out at that time, and gives two minutes from it |
| LedgerStatements.SetRunGives | internal/assessment/store.go:745-755 | Entering the run needs the same and changes nothing else |
| LedgerStatements.ReleaseGives | internal/assessment/store.go:774-778 | Releasing ends the token's row, run out or not, and nobody else's |
| Store.Store.StartRunWithMetadata | internal/assessment/store.go:901-932 | Refuses a malformed or reserved label and a label some run has, whatever its letter case; otherwise inserts the run and a row per context, or nothing when a name repeats |
| Store.RefusedLabels | internal/assessment/store.go:873-885 | A label is refused when it is over 64 characters, starts with a dot, dash or underscore, or holds a character that is no letter, digit, dot, dash or underscore |
| Store.PositionsAreNoLabels | internal/assessment/store.go:880-882 | And when it is one of the two names that select by position, in any case of its letters |
| Store.AllowedLabels | internal/assessment/store.go:873-885 | Any other is allowed |
| LedgerStatements.StartGives | internal/assessment/store.go:889-932 | A started run is running, asks for nine collections a context, ten with licenses, and has a running row for each; no other row changes |
| Store.Store.InsertContexts | internal/assessment/store.go:922-927 | The rows of distinct names are inserted; a repeated name is refused |
| Store.Store.SaveContext | internal/assessment/store.go:942-1083 | With a lease that does not hold, no row changes; otherwise the context, its VMs and its collections are replaced as one transaction |
| LedgerStatements.SaveGives | internal/assessment/store.go:942-1083 | A committed save has the lease at the clock, replaces that context's row by what was collected, an unset status as success, and adds one row per VM; runs and lease stay |
| CaptureOutcome.StoredAsCollected | internal/assessment/store.go:1000-1050 | The row of a kind has the status, error and count of its collection, an unset status as success; it is a success or empty if and only if the collection is, or left unset |
| Store.Store.FinishRun | internal/assessment/store.go:1115-1175 | The status is decided from the counts read and written only where the lease still holds by the caller's time |
| LedgerStatements.FinishGives | internal/assessment/store.go:1158-1173 | The final update writes the end, the status and the two counts into that run's row and changes no other |
| LedgerStatements.ReadsCount | internal/assessment/store.go:1121-1150 | The counts it decides from are those of the run's own rows in each status |
| LedgerStatements.UpdateGives | internal/assessment/store.go:1255-1292 | Relabelling and pinning change the label and the pin of that run alone |
| Store.Store.RecoverOrphanedRuns | internal/assessment/store.go:675-687 | With a live lease nothing changes; without one nothing is left running, every row that had finished is as it was, and every running one is failed at that time |
| Ledger.RecoveryAsAWhole | internal/assessment/store.go:675-687 | The same of the three statements as the tables see them |
| Store.Store.DeleteRunIfUnpinned | internal/assessment/maintenance.go:78-87 | Deletes a run and all its rows unless it is pinned or running at that moment |
| Capture.CaptureContext | internal/assessment/collector.go:220-352 | A context that was reached records every requested kind exactly once; an unreachable one records none; where the index was not read all failed; otherwise each collection says what its fetch came to: failed with its error, else empty or a success with its count, and what the metadata contradicts is only partial |
| Capture.CollectGroups | internal/assessment/collector.go:264-338 | The collections of a read context cover the requested kinds, each once, VMs first, and each says what its fetch came to, the snapshots what the VMs' did |
| Capture.PersistedKindsListed | internal/assessment/collector.go:264-338 | The kinds stored are the nine inventory kinds, snapshots among them |
| LedgerRuns.Fencing | internal/assessment/store.go:706-772 | In any interleaving of any processes, with any time arguments and whatever the sidecar answers: once another token's acquire committed, no save, renew, set-run or finish with an earlier token changes a row |
| LedgerRuns.FencedForever | internal/assessment/store.go:706-772 | A token that lost the slot never gets it back |
| LedgerRuns.StartIsNotFenced | internal/assessment/store.go:901-932 | Starting a run is not among the guarded steps: a capture that lost the slot still inserts one with a row per context, for any names and flags, unless the label is taken or a name repeats |
| LedgerRuns.LabelsStayDistinct | internal/assessment/store.go:1255-1292 | Along every run of the ledger, relabelling included, a label names at most one run |
| LedgerRuns.RecoverySparesLiveCaptures | internal/assessment/store.go:675-687 | With the clock read before each statement, no recovery statement changes anything while a lease is live, whatever ran in between |
| LedgerRuns.StaysGivenUpExactlyWhen | internal/assessment/store.go:675-687 | In any interleaving a leased run recovery gave up stays as recovery left it, and its lease as it ran out, if and only if the capture, while it has the lease row, neither renews it nor finishes with a time from before the expiry |
| LedgerRuns.RecoveredStaysFailed | internal/assessment/store.go:757-766 | A leased run that recovery failed is never complete or partial afterwards when the renews and finishes its capture makes while it still has the lease row carry times not before the expiry |
| LedgerRuns.StaleFinishOverridesRecovery | internal/assessment/store.go:1158-1173 | The final update after recovery overrides it exactly when the time the finish began with lies before the expiry |
| StaleFinish.FailedRunCompletes | internal/assessment/collector.go:147-203 | A run of seventeen enabled steps from the empty ledger: the capture begins to finish at 110 s, counts its rows, its lease runs out at 120 s, recovery at 130 s marks its run failed, and its final update marks it complete |
| LedgerRuns.StaleRenewRevives | internal/assessment/store.go:757-772 | A renew called with a time before the expiry brings an expired lease back, exactly then |
| LedgerRuns.PinnedIsDeletedExactlyWhen | internal/assessment/store.go:1426-1447 | Of all steps only the second half of a delete removes a pinned run |
| LedgerRuns.PinnedBetweenTheHalves | internal/assessment/store.go:1426-1447 | In any interleaving a run that is pinned when it is deleted was checked while it was not, and pinned by an update between that check and the delete |
| LedgerRuns.PinnedRunIsDeleted | internal/assessment/store.go:1426-1447 | Which happens: a check, an update that pins the run, and the delete that removes it |
| Completeness.Kinds | internal/assessment/store.go:889-895 | The kinds requested of a context are the stored kinds, and licenses when asked for, and number nine or ten |
| Completeness.GridCount | internal/assessment/store.go:889-895 | As many name and kind pairs as the requested count says, for any number of contexts |
| Completeness.InvStays | internal/assessment/collector.go:147-203 | Every step of every process keeps the invariant: rows fall inside the requested names and kinds, and the counts read so far bound the counts to come |
| Completeness.InvAlways | internal/assessment/collector.go:147-203 | The invariant holds along every run of the ledger |
| Completeness.InvInitially | internal/assessment/store.go:889-932 | A ledger without runs satisfies the invariant |
| Completeness.CountsDecide | internal/assessment/store.go:1132-1157 | The successful rows number what was requested exactly when every requested context has every requested kind as success or empty |
| Completeness.CompleteMeansFullyRecorded | internal/assessment/store.go:1115-1175 | In any interleaving the final update of a leased run marks it complete if and only if some context was requested and every requested context has every requested kind recorded as success or empty |
| CaptureOutcome.UnreadIsNotComplete | internal/assessment/collector.go:147-203 | In any interleaving a run one of whose saved contexts has a collection that is neither a success nor empty, and is not saved again, is not marked complete |
| CaptureOutcome.FailedFetchIsNotComplete | internal/assessment/collector.go:264-359 | So one failed fetch of one connected context keeps the run from being complete |
| CaptureOutcome.FailedAndPartial | internal/assessment/store.go:1132-1157 | The final update marks the run failed if and only if no collection is stored as success or empty, and partial if and only if some is and some requested one is not |
| Prune.Select | internal/assessment/maintenance.go:43-61 | The chosen runs are exactly those finished before the cutoff, not pinned, not running and not among the newest complete ones to keep |
| Prune.ChosenExactlyWhen | internal/assessment/maintenance.go:43-61 | A run is chosen if and only if it ended before the cutoff, is neither pinned nor running, and is not complete with fewer than keepLast complete ones before it |
| Prune.Survives | internal/assessment/maintenance.go:78-87 | A run survives the delete with its row unless it was chosen and is neither pinned nor running then |
| Prune.SurvivesWithItsRows | internal/assessment/maintenance.go:78-87 | Context, collection and VM rows recorded under a run are there afterwards, unchanged, exactly when the run was spared; nothing is left of a deleted one |
| Prune.PruneLeavesEnoughExactlyWhen | internal/assessment/maintenance.go:69-87 | For every ledger at the delete and every list of candidates: as many complete runs are left as were to be kept, or all when there are fewer, if and only if no candidate is complete and unpinned by then or enough others are complete |
| Prune.KeptStayComplete | internal/assessment/maintenance.go:43-87 | No run the listing kept, and that is still complete, is ever removed |
| Prune.PruneLeavesCompleteRuns | internal/assessment/maintenance.go:43-87 | Whatever happened to the ledger since the listing, as long as the runs it kept are still complete, they stay, and at least as many are left as were to be kept of those listed |
| Prune.PruneOfTheListedLedger | internal/assessment/maintenance.go:43-87 | On the very ledger it listed, at least the newest keepLast complete runs are left, or all of them when there are fewer |
| Prune.KeptRunDeletedBetween | internal/assessment/maintenance.go:43-87 | With one run to keep of two, deleting the kept one between the listing and the lease makes the prune remove the other: no complete run is left |
| Prune.PruneSparesKeptPinnedAndRunning | internal/assessment/maintenance.go:78-87 | Whatever happened since the listing, no run that is pinned or running at the delete, or that the listing kept, is removed |
| Prune.PruneRuns | internal/assessment/maintenance.go:32-102 | A refused or trial prune changes nothing; an executed one leaves exactly the surviving runs and frees the slot |
| VMDiff.CompareVMs | internal/assessment/diff.go:232-279 | For every order of both lists the matches follow the rule of the identities, and the changes are those of the matched pairs, the unmatched targets and the unmatched base VMs |
| VMReports.ReportsAreTrue | internal/assessment/diff.go:232-279 | Every report is of a VM only one run has, or of a base and a target VM that agree on the identity it names, and then names exactly the fields in which the two differ, the base's value before and the target's after, those an account may not read only where both were read, and says the VM moved if and only if its vCenter, host, cluster, folder or datastores differ where both were seen |
| VMReports.ReportsAreComplete | internal/assessment/diff.go:232-279 | Every unmatched VM is reported, and every matched pair that moved or differs in a field |
| VMReports.DiffersTheOtherWay | internal/assessment/diff.go:409-447 | Comparing the other way round swaps what was and what is |
| VMReports.CreatedAre | internal/assessment/diff.go:247-252 | A VM that appeared has each of its snapshots reported as created, in order |
| VMDiff.FindMatch | internal/assessment/diff.go:281-324 | Finds what the rule names: the same managed object, else the only free base VM with an instance UUID no other target has, else the same for the BIOS UUID, else nothing |
| VMDiff.FindsIsAFunction | internal/assessment/diff.go:281-324 | The rule leaves no choice |
| VMDiff.CountIdentities | internal/assessment/diff.go:235-244 | The count kept per identity is the number of target VMs that carry it |
| VMDiff.IdentityKeyInjective | internal/assessment/diff.go:326-326 | The keys of two kinds or two values never collide |
| VMMatching.MatchedOnce | internal/assessment/diff.go:245-268 | No base VM is matched twice |
| VMMatching.VMsAreConserved | internal/assessment/diff.go:245-278 | Matched plus appeared is the number of targets, matched plus vanished the number of base VMs |
| VMMatching.UUIDMatchIsUnambiguous | internal/assessment/diff.go:290-323 | A match by UUID has a non-empty value held by one target VM and by one base VM that was still free |
| VMStealing.KeptInEveryOrderExactlyWhen | internal/assessment/diff.go:232-324 | When no two base VMs share a UUID: in every order of both lists every VM is matched to its own managed object if and only if no base VM with a partner can be taken, which is said of the VMs alone: some VM without a partner is the only one with its instance UUID, or gets to it by its BIOS UUID once others without a partner have what it would rather take |
| VMStealing.NoClaimsAlwaysKeep | internal/assessment/diff.go:232-324 | Whoever shares a UUID, no order loses a partner when no VM without one is the only one with a UUID of a base VM that has one |
| VMMatching.StealingNeedsDisagreement | internal/assessment/diff.go:290-323 | A base VM is only ever taken from a partner that disagrees with it on that very UUID |
| VMMatching.NoStealing | internal/assessment/diff.go:232-324 | For every order of both lists, partners that agree on both UUIDs are matched to each other |
| VMMatching.StealingExample | internal/assessment/diff.go:281-324 | Without agreement it fails: a VM registered anew takes the old managed object by instance UUID |
| VMMatching.ReorderingReportsNothing | internal/assessment/diff.go:232-279 | A run compared with any reordering of itself reports no VM change and no snapshot change |
| SnapshotDiff.CompareSnapshots | internal/assessment/diff.go:715-750 | Pairs by ID first, then by import counterpart, reports each later snapshot by its pair and each earlier one left over as removed |
| SnapshotDiff.ReportsExactly | internal/assessment/diff.go:715-750 | Exactly this is reported: a later snapshot whose name or description differs from its pair's, or that became or ceased to be the current one where no import made up an ID; a later one without a pair as created; an earlier one without as removed |
| SnapshotDiff.PairsAcrossAnImport | internal/assessment/diff.go:757-767 | A pair under two IDs has an imported one, one name, and creation times less than a second apart |
| SnapshotDiff.ImportedCounterpart | internal/assessment/diff.go:757-767 | Finds a remaining snapshot of equal name, created less than a second apart, when one side was imported, or says there is none |
| SnapshotDiff.SnapshotsAreConserved | internal/assessment/diff.go:715-750 | Kept plus reported created is the number of later snapshots, kept plus reported removed the number of earlier ones |
| SnapshotDiff.PairsAreSound | internal/assessment/diff.go:757-767 | A pair under two IDs needs an imported side, equal names and creation times less than a second apart |
| SnapshotDiff.SameSnapshotsReportNothing | internal/assessment/diff.go:715-750 | Snapshots compared with themselves report nothing |
| Strings.EqualStringsIsMultisetEquality | internal/assessment/diff.go:396-407 | Two lists of datastores are equal exactly when they hold the same names as often |
| Strings.StringLeIsByteOrder | internal/assessment/diff.go:206-211 | The order of names is that of their first differing character, a prefix first |
| Strings.FoldAlikeExactlyWhen | internal/assessment/diff_vcenter.go:105-105 | Names fold alike if and only if they differ in the case of ASCII letters only |
| VCenterVMs.Reduce | internal/assessment/diff_vcenter.go:27-56 | Both sides keep the VMs their chosen contexts recorded, and every context only one side recorded adds a warning and a coverage issue, baseline first |
| VCenterVMs.SharedContexts | internal/assessment/diff_vcenter.go:60-72 | Keeps the shared contexts in order and reports each of the others once |
| VCenterVMs.SameNameExactlyWhen | internal/assessment/diff_vcenter.go:105-105 | Two context names are one if and only if they fold alike once the spaces around them are gone |
| VCenterVMs.VMContexts | internal/assessment/diff_vcenter.go:76-87 | Lists for each managed object the sorted names of the contexts that recorded it |
| VCenterVMs.ChosenContext | internal/assessment/diff_vcenter.go:91-103 | The first name with a counterpart on the other side, else the first |
| VCenterVMs.ChosenIsFirst | internal/assessment/diff_vcenter.go:91-103 | There is exactly one such choice |
| VCenterVMs.ReductionKeepsEachVMOnce | internal/assessment/diff_vcenter.go:27-56 | Each side keeps every managed object that a compared context of it recorded exactly once, and no other |
| VCenterVMs.SameContextExactlyWhen | internal/assessment/diff_vcenter.go:38-40 | For every VM some shared context saw on both sides the two sides choose the same context if and only if they sort the names of the contexts they share alike |
| VCenterVMs.VMTakenFromSameContext | internal/assessment/diff_vcenter.go:38-40 | Under that condition a VM recorded by a shared context on both sides is taken from one context |
| VCenterVMs.SameSpellingSortsAlike | internal/assessment/diff_vcenter.go:91-105 | Sides that spell the shared names alike meet it |
| VCenterVMs.LetterCasePicksApart | internal/assessment/diff_vcenter.go:91-105 | Letter case alone breaks it: {B, a} against {A, b} takes a VM both saw from B on one side and from A on the other |
| LastKnown.LastKnown.LearnFrom | internal/assessment/diff.go:363-376 | Keeps every field the observation saw |
| LastKnown.LastKnown.Filled | internal/assessment/diff.go:380-394 | Replaces what was not seen by what is known, and changes neither the observation nor what is known |
| LastKnown.KnowsThePlacement | internal/assessment/diff.go:363-376 | After any history the known host, cluster and datastores are the last seen ones |
| LastKnown.KnowsTheConfig | internal/assessment/diff.go:363-376 | And the known configuration is the last readable one |
| TimelineReports.WasAsLastSeen | internal/assessment/timeline.go:130-137 | What an observation is compared with is the one before it, each of host, cluster, datastores and configuration as the last observation that saw it left it |
| LastKnown.StepsIgnoreTheHidden | internal/assessment/diff.go:351-362 | Comparing each value with the last seen one is comparing neighbours once the hidden values are gone |
| Timeline.TimelineOf | internal/assessment/timeline.go:103-194 | The events are those of the observations in order and of the disappearances, stably sorted by run start |
| TimelineReports.EventsAreTrue | internal/assessment/timeline.go:103-193 | Every event of a timeline is the first sighting, or is of an observation that differs from what was last seen in exactly the fields it names, or of a disappearance: a VM in one run and not in the next, which is complete or partial and read its vCenter in a selected context |
| TimelineReports.EventsAreComplete | internal/assessment/timeline.go:127-167 | Of every kind of thing that happened between two observations there is an event: a new name, another place, other fields, a snapshot report, nothing at all when that is asked for |
| TimelineReports.EndsAreComplete | internal/assessment/timeline.go:127-191 | The first sighting and every disappearance are reported |
| TimelineReports.ReappearsExactlyWhen | internal/assessment/timeline.go:139-146 | An event says the VM appeared again if and only if some run of the timeline lies strictly between the run of an entry and that of the entry before it |
| TimelineReports.SeenThroughoutNeverReappears | internal/assessment/timeline.go:139-146 | A VM recorded in every run never appears again |
| Timeline.ReportEntry | internal/assessment/timeline.go:139-167 | One observation reports against the filled-in one before it, and is then learned |
| Timeline.ReportVanished | internal/assessment/timeline.go:169-191 | A disappearance is reported exactly where a run has the VM and the next run, which read its vCenter, does not |
| HiddenValues.HiddenPlacementIsInvisible | internal/assessment/timeline.go:127-193 | Over the whole timeline, the reported changes of host, cluster and datastores are those of the history with the observations that could not see them removed |
| HiddenValues.HiddenConfigIsInvisibleExactlyWhen | internal/assessment/timeline.go:127-193 | The same for CPU, memory, guest system and annotation if and only if no readable configuration with neither CPU nor memory was carried past an unreadable one and then differed from the next |
| HiddenValues.RealVMsLoseNothing | internal/assessment/diff.go:343-349 | A VM that always has a CPU or memory size meets that condition |
| HiddenValues.LosingExample | internal/assessment/diff.go:380-394 | A readable configuration of zero CPU and memory, an unreadable one, then two CPUs: the change is lost |
| HiddenValues.SortPairs | internal/assessment/timeline.go:192-192 | The final sort neither reorders nor loses a reported change |
| Lineage.VanishedTwiceReappeared | internal/assessment/timeline.go:127-192 | With runs and their starts ordered alike, two "vanished" events of one timeline have an "appeared" one between them |
| Lineage.VanishedOncePerRun | internal/assessment/timeline.go:176-191 | No run is reported twice as the one the VM vanished in |
| LineageKeys.MissedExactlyWhen | internal/assessment/store.go:1514-1549 | The query misses an observation of the lineage if and only if neither has any identity and their names agree only as the key folds letter case |
| LineageKeys.MissesNothingExactlyWhen | internal/assessment/store.go:1514-1549 | It misses nothing, over all observations, if and only if the database's fold equates every two names the key's fold does |
| LineageKeys.UmlautIsMissed | internal/assessment/timeline.go:251-264 | It does not: of two observations with only a name, one with a capital and one with a small u umlaut, the query for either misses the other |
| LineageKeys.AsciiMissesNothing | internal/assessment/store.go:1533-1536 | With a key that folds ASCII alone it would miss nothing |
| LineageKeys.LineageIsSymmetric | internal/assessment/timeline.go:266-277 | Being of one lineage goes both ways |
| LineageKeys.SameHistoryExactlyWhen | internal/assessment/timeline.go:266-277 | Two observations start the same history if and only if they carry the same managed object, the same two UUIDs and the same key |
| Grouping.GroupDatastores | internal/assessment/capacity.go:277-328 | The groups are exactly the connected components of sharing a key or an identity, each once, by key, their items by start and key |
| Grouping.Find | internal/assessment/capacity.go:282-288 | Returns the root, compresses the path, changes no root, and ends |
| Grouping.Union | internal/assessment/capacity.go:289-294 | Puts everything under one root under the other, and moves nothing else |
| Grouping.RootsAreComponents | internal/assessment/capacity.go:295-301 | After all pairs two observations have one root if and only if a chain of links joins them |
| Grouping.IdentityOverlap | internal/assessment/capacity.go:337-348 | True exactly when the two share a value |
| Grouping.SameGroupMeansConnected | internal/assessment/capacity.go:302-327 | Two observations share a group if and only if they are connected |
| Grouping.SharingGroups | internal/assessment/capacity.go:296-300 | Observations of one key, or that share an identity, are in one group |
| Grouping.SeparateNeverGroup | internal/assessment/capacity.go:296-300 | Two sets of observations without a key or identity in common never share one |
| Grouping.GroupHolds | internal/assessment/capacity.go:302-327 | A group lists its observations by start and key, with all their identities and contexts |
| Grouping.EachInOneGroup | internal/assessment/capacity.go:302-327 | Every observation's group is listed at exactly one position and holds everything connected to it, in order |
| Grouping.GroupsAreUnique | internal/assessment/capacity.go:302-327 | The result does not depend on the order the map of roots is read in |
| LinearFit.Fit | internal/assessment/capacity.go:904-926 | The line passes the means, its slope balances the spread, and R squared is the squared correlation, or zero without spread |
| LinearFit.FlatAtOneTime | internal/assessment/capacity.go:904-921 | Points of one time give a flat line through their mean |
| LinearFit.FitIsBest | internal/assessment/capacity.go:904-926 | No line has a smaller sum of squared residuals, also when all runs started at one time |
| LinearFit.R2IsExplained | internal/assessment/capacity.go:922-924 | R squared lies between 0 and 1 and is one minus the share of the spread the line leaves |
| Projection.Project | internal/assessment/capacity.go:824-902 | The floor is the larger of the two thresholds and says which; a day is projected exactly when free space is at the floor already, or there are three points over a day with a growing fit; on that day the fit reaches the larger of the used space and what may be used; below the floor no days remain; the confidence is high exactly without a weakness, a gap between runs included, and the reasons are exactly those that apply |
| Projection.ProjectsExactlyWhen | internal/assessment/capacity.go:838-863 | There is a day if and only if there are three points over a day of nanoseconds and a growing line |
| Projection.ConfidentExactlyWhen | internal/assessment/capacity.go:873-902 | The confidence is high if and only if there are five points over a week, at least half the spread is explained, the capacity did not change, no partial run counts and no gap is over 30 days and over twice the average |
| Projection.ReachesTheFloor | internal/assessment/capacity.go:864-872 | On the projected day the line has grown from what is in use to the capacity less the floor, or was past it already |
| Projection.FittedThrough | internal/assessment/capacity.go:845-858 | The line is fitted through the days since the first point and what each reading says is in use |
| Projection.ConfidentWithoutReasons | internal/assessment/capacity.go:863-902 | The confidence is high exactly when no reason but the floor is given |
| Projection.SlopeIsBest | internal/assessment/capacity.go:848-856 | The slope projected along is that of a line no other line fits better |
| Projection.GapsTelescope | internal/assessment/capacity.go:928-936 | The gaps between runs add up to the time from first to last |
| Projection.HasLargeGap | internal/assessment/capacity.go:928-943 | True exactly when some gap is over 30 days and over twice the average |
| Anomalies.FindAnomalies | internal/assessment/capacity.go:787-822 | Flags, of at least four usable intervals of at least five points, those growing faster than the median plus three deviations |
| Anomalies.FlaggedExactly | internal/assessment/capacity.go:787-822 | Exactly those intervals are flagged that grew, and by more a day than the median rate and three times the median distance from it, each median the middle value or halfway between the two middle ones |
| Anomalies.IntervalsAre | internal/assessment/capacity.go:790-806 | An interval lies between two neighbouring points of rising times, and its rate times the time is its growth in use |
| Anomalies.IntervalsAreAll | internal/assessment/capacity.go:790-806 | Every two such points give one |
| Anomalies.MedianHalves | internal/assessment/capacity.go:958-965 | At most half the values lie above the median and at most half below, for odd and even numbers |
| Anomalies.FewerThanHalfAreAnomalies | internal/assessment/capacity.go:787-822 | Always fewer than half the usable intervals are flagged |
| GrowthFiles.FileOwner | internal/assessment/capacity.go:554-566 | Some VM of the first run that has the file, else some VM of the last, else nobody, whatever order the maps are read in |
| GrowthFiles.ExactFileDeltas | internal/assessment/capacity.go:504-536 | Tallies each path once under the owner found for it, when both browses are whole, and nothing otherwise |
| GrowthFiles.FilesAre | internal/assessment/capacity.go:538-552 | A run has the files of its browsed records, each of the size its last record gives |
| GrowthFiles.GrowthIs | internal/assessment/capacity.go:516-524 | A path grew by what it takes in the last run less what it took in the first |
| GrowthFiles.OwnersHaveTheDisk | internal/assessment/capacity.go:554-581 | An owner has a disk of that path on a datastore of the group |
| GrowthFiles.SameVMExactlyWhen | internal/assessment/capacity.go:968-974 | Two VMs with IDs are one if and only if they have one ID in one vCenter |
| GrowthFiles.ExactFileContributors | internal/assessment/capacity.go:583-608 | Lists each path nobody owns once |
| GrowthFiles.FilesBalance | internal/assessment/capacity.go:504-608 | For any orders of reading the maps in the two loops, the growth of all paths is the exact growth of the VMs plus that of the listed files plus that of files whose owner is not in both runs |
| GrowthFiles.NoPathTwice | internal/assessment/capacity.go:504-608 | No path counts for a VM and is listed as a file |
| GrowthFiles.NoPathForTwoVMs | internal/assessment/capacity.go:504-536 | No path counts for two VMs |
| MergeContributors.Merge | internal/assessment/capacity.go:685-708 | One contributor per key with the summed growth and every path once, the total unchanged; listed in the order of the comparison unless three of them make a circle, and growth in whole bytes by growth and then name |
| MergeContributors.SameContributorExactlyWhen | internal/assessment/capacity.go:685-690 | Contributors are merged if and only if kind, context, vCenter, name and basis are the same |
| MergeContributors.UniqueStrings | internal/assessment/capacity.go:989-999 | Every non-empty value once |
| MergeContributors.SortsExactlyWithoutCircle | internal/assessment/capacity.go:701-706 | The contributors come out sorted in whatever order they went in if and only if no three of them make a circle: one outgrows another by more than half a byte, a third is within half a byte of both, and the names run the other way |
| MergeContributors.WholeBytesSort | internal/assessment/capacity.go:701-706 | Growth in whole bytes makes no circle and is listed by growth, then name |
| Attribution.AttributeGrowth | internal/assessment/capacity.go:425-488 | The contributors' total is the exact growth of the VMs, the estimated growth of the others, and the growth of the listed files; when every VM's storage is whole bytes, as vCenter reports it, they are listed by growth and then name |
| Attribution.EstimatedIs | internal/assessment/capacity.go:610-675 | The estimate of a VM on one datastore of the group is the difference of its storage in bytes, of one on several that of its disks there; a VM that came counts by its storage, or by its disks where none was recorded, and one that went by the same, lost |
| Attribution.ContributesOnce | internal/assessment/capacity.go:456-480 | A VM contributes at most once, under its name and place in the last run it is in: by its files, with their sum and paths, where they were read in both runs, else by an estimate that says whether it lay on one datastore or several |
| Attribution.AttributionBalances | internal/assessment/capacity.go:425-488 | With both browses whole the exact part is the growth of all files less that of files owned by VMs one run does not have |
| Attribution.AddRest | internal/assessment/capacity.go:394-402 | The contributors shown add up to the growth, or fall short by at most half a byte |
| Sorting.StableSortKeepsTies | internal/assessment/capacity.go:315-320 | The stable sort keeps the order of equal elements |

## Left out

- The sidecar lock file's own mechanics: its answer is an arbitrary value that can only cause a refusal, and no exclusion is claimed from it.
- `Collector.Capture` as one procedure: its order of acquire, start, save, heartbeat and finish is the `Enabled` condition of LedgerRuns, and goroutine scheduling is any interleaving.
- SQL, migrations, pragmas, backup, restore, the database file and error texts joined from several sources.
- Integer widths: times, sizes and durations are unbounded whole numbers, so nanosecond and millisecond overflow is not modelled; times stored in milliseconds are not rounded.
- Floating point: growth, slopes and medians are exact real numbers; the conversion of a projected day to whole nanoseconds is exact too.
- Division by zero points: a fit needs at least one point, and its only caller passes three or more.
- JSON payloads and the long field lists: `config` and `runtime` stand for the fields compared one by one elsewhere, metadata and migration fields among them.
- The texts of snapshot times, datastore sizes and messages other than the coverage warnings; events that are only shown (`text`).
- Letter case and spaces outside ASCII: but in LineageKeys, `ToLower` and `TrimSpace` are modelled on ASCII; datastore names are taken as already trimmed and lower-cased.
- Normalising the collection kind names of a result: kinds are an enumeration with a blank one.
- Resource observation rows, performance windows, the per-context sources and clock offsets a run stores: only tables the modelled steps read are kept.
- Where Go's unstable sort is used, the model sorts stably: entries of one start keep the order they were found in.
- Filtering VMs and entries by the selected contexts before the modelled code sees them, ambiguity of a VM selector, and the normalisation of selectors.
- Datastore path splitting: a backing path is given split and normalised, or as not splittable.
- `groupContextsByRun`, `capacityBlindness`, confidence labels of a datastore, coverage reports, churn and snapshot trends, policies and run pairs: single filters and counts.
- vCenter collection, sessions, the command line, configuration and the terminal interface.
- EventMatch.ExplainSpan: takes and returns the span as a value, where the source updates it in place; the caller stores it back in the array of spans.
- EventPick.Explainers: says which positions are picked, not the order they are returned in.
- VMDiff.CompareVMs: does not state how the reports of different VMs sort afterwards; they come in the order of the lists.
- LineageKeys.MissedExactlyWhen: needs context names and vCenter IDs without a NUL character, which separates the parts of the key, and a fold that makes none; so do LineageKeys.MissesNothingExactlyWhen and LineageKeys.SameHistoryExactlyWhen.
- LineageKeys.UmlautIsMissed: models Go's fold of the letters of Latin-1 only; the other results hold for every fold.
- VMStealing.KeptInEveryOrderExactlyWhen: needs distinct managed objects on each side, as a comparison's input has after reduction, and no UUID two base VMs share; VMStealing.NoClaimsAlwaysKeep does without the second.
- Store.Store.StartRunWithMetadata: does not store the note, the source and the versions.
- Store.Store.SaveContext: does not model the rows of resource observations and their sources, which no modelled step reads.
- Store.Store.FinishRun: counts and updates in one step; LedgerRuns takes every query as a step of its own, and Completeness.CompleteMeansFullyRecorded is about those.
- Capture.CaptureContext: takes as an input which kinds the metadata contradicts, and does not model how metadata is collected.
- Prune.PruneRuns: does not model performance windows, their count and their deletion.
- TimelineReports.EventsAreTrue: needs runs listed newest first whose starts are ordered like their IDs, and entries of listed runs only, as do the results beside it; TimelineReports.EndsAreComplete needs the VM once per run for the disappearances.
- GrowthFiles.SameVMExactlyWhen: needs vCenter IDs without a NUL character, and MergeContributors.SameContributorExactlyWhen names, contexts and IDs without one.
- VCenterVMs.SameNameExactlyWhen: models the spaces and the letter case of ASCII only.
- Lineage.VanishedTwiceReappeared: needs runs listed newest first whose starts are ordered like their IDs, and entries of listed runs only, as the two queries return them.
