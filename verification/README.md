# Verified model of the sync service's protocols and planners

This Dafny project models the parts of the service where correctness depends on
more than one function at a time:

- **Shared-state protocols**, each as a state machine whose runs interleave any
  number of workers with crashes, lost replies and clock ticks: bug-report
  screenshot retention and migration (`bug_report_store.dfy`,
  `bug_report_protocol.dfy`, `bug_report_lifecycle.dfy`,
  `bug_report_outcomes.dfy`), immutable publications in Redis
  (`publications.dfy`, `publication_expiry.dfy`), the leased publication outbox
  (`outbox.dfy`, `outbox_delivery.dfy`), the send-once launch notification
  (`launch.dfy`), the cascade completion barrier (`cascade.dfy`), the host
  runner (`host_runner.dfy`) and the ordered write fence (`write_fence.dfy`).
- **Tournament combinatorics** of any size: bracket seeding (`bracket.dfy`),
  knockout rows (`knockout.dfy`), the structure plan (`planner.dfy`) and snake
  groups (`groups.dfy`), over integer powers of two (`powers.dfy`).
- **Data validation and scoring**: fixture coverage (`fixtures.dfy`) and live
  bonus tiers (`live_bonus.dfy`).
- **Bounds over time**: the fixed-window limiter (`rate_limit.dfy`) and poll
  windows (`poll_policy.dfy`).

Each protocol module gives the atomic steps as functions on an immutable state
(`...Tx`, `Next`, `Run`), proves its theorems about every `Run` from the start
state, and holds a class with the source's mutable fields whose methods are
proved to make exactly those steps. Times are integers in the source's own unit
(milliseconds, or seconds for the cascade keys) and only grow; poll windows use
reals. SHA-256 is a constructor, so it is injective. Database transactions and
Lua scripts are single steps; everything between two awaits of a handler is one
step.

Check everything with `dafny verify dfyconfig.toml`.

## Results worth knowing

- **Migration targets must be fresh.** The migration transaction itself does not
  check the target. `MigrationIsSafeIffTargetIsFresh` shows that a first
  migration leaves no report naming a retired locator exactly when its target
  carries no delete record, and `RetiredTargetIsAccepted` reaches a state where
  it does; the runs of the protocol assume fresh targets.
- **A redelivered publication stops being idempotent after a heartbeat.** The
  activation script compares `lastSuccessfulFetchAt`, which the heartbeat
  changes (`RedeliveryIsIdempotentIffNoHeartbeat`, `HeartbeatBreaksRedelivery`).
  A dispatcher that publishes a row and dies before acknowledging it can leave
  the row undeliverable while its publication is live
  (`CrashThenHeartbeatBlocksDelivery`).
- **A repair leaves items in Redis for good.** A compare-and-swap gives the items
  it replaces no expiry (`SwapLeavesNoneIffItDropsNone`, `LeftOverStays`);
  nothing else leaves any behind (`OnlyRepairsLeaveItemsOver`).
- **A crash before the send does not always recover**, although
  `src/jobs/launch.jobs.ts:119` says it must: between the persist script and the
  request the lock has no expiry, and nothing frees it
  (`CrashRecoversIffPersistDoesNotStand`, `CrashBetweenPersistAndRequestStrands`,
  `LostPersistReplyStrands`).
- **A cascade can refresh twice.** An add is in doubt when a worker about to add
  no longer owns the lease, or a job was added without its mark and the lease is
  free. If no claim is won then, nothing is added twice in one done-key lifetime
  (`RefreshIsAddedOnce`), and a second add is claims and adds away exactly when
  an add is in doubt with pending set (`AddedTwiceIffInDoubt`). A holder that
  outlives its lease, crashes before its mark or fails to mark gets there
  (`OverstayedLeaseAddsTwice`, `CrashBeforeMarkAddsTwice`,
  `FailedMarkAddsTwice`); holders that finish do not
  (`FinishingHoldersAddOnce`). Later, a role's other slot reopens the refresh
  (`RefreshReopensIffNewSlotArrives`, `LateSlotReopensTheRefresh`).
- **A read survives concurrent steps up to the retired TTL and no longer**:
  `ReadSurvivesInterveningSteps` and `ReadFailsAfterTheRetiredTtl`.
- **Poll windows cover time without a hole exactly when no gap between their
  ends exceeds the catch-up limit** (`WindowsCoverTimeIffGapsFit`).
- **A seeded bracket has a match with two byes exactly when the entry list is
  shorter than half the bracket** (`EmptyMatchIffFieldIsShort`); a full field
  never does.

## Model

| member | source | states |
|---|---|---|
| BugReportStore.BugReportRepository.Insert | src/repositories/bug-reports.ts:107-380 | the unique indexes stay valid, and the stored, repeated and refused outcomes with their tables are those of the insert transaction |
| BugReportStore.BugReportRepository.UpdateStatus | src/repositories/bug-reports.ts:407-549 | a status change recomputes the deadline, restores or withholds the claimed URL and drops the claim as the transaction prescribes |
| BugReportStore.BugReportRepository.ClaimForDeletion | src/repositories/bug-reports.ts:948-1106 | an expired report's object moves into its backup and the row is scrubbed or removed, or the claim is refused with nothing changed |
| BugReportStore.BugReportRepository.PrepareClaimedDeletion | src/repositories/bug-reports.ts:1123-1218 | the delete is fenced in the backup only while no report names the locator; otherwise the report is retired without a delete |
| BugReportStore.BugReportRepository.CompleteClaimedDeletion | src/repositories/bug-reports.ts:1220-1284 | after the remote delete the report goes and its backup keeps only a digest |
| BugReportStore.BugReportRepository.ScrubRetentionBackup | src/repositories/bug-reports.ts:1108-1121 | removes the report and reduces its backup to a digest or nothing |
| BugReportStore.BugReportRepository.PrepareMigration | src/repositories/bug-reports.ts:683-823 | every report naming the source names the target afterwards and the source's delete is recorded as started, in one step |
| BugReportStore.BugReportRepository.FinishMigration | src/repositories/bug-reports.ts:826-852 | records the source as deleted, or says that nothing is left to finish or that the marker was lost |
| BugReportStore.BugReportRepository.MarkScreenshotDeleted | src/repositories/bug-reports.ts:1410-1459 | a private object's deletion is recorded on the live row and in the inventory |
| BugReportProtocol.NoBackupCollides | src/repositories/bug-reports.ts:1059-1072 | in every good state a claim's backup insert is never silently dropped by the unique indexes |
| BugReportProtocol.InsertKeeps | src/repositories/bug-reports.ts:220-271 | an insert keeps the table invariant and every hold on accepted objects |
| BugReportProtocol.UpdateStatusKeeps | src/repositories/bug-reports.ts:492-540 | in every invariant state a status change keeps the invariant and leaves every URL, backup and migration as it was |
| BugReportProtocol.ClaimKeeps | src/repositories/bug-reports.ts:948-1106 | so does a claim: a locator leaves its row only into a claim that holds it |
| BugReportProtocol.PrepareKeeps | src/repositories/bug-reports.ts:1123-1218 | so does preparing a delete, also when two expired reports share the locator |
| BugReportProtocol.CompleteKeeps | src/repositories/bug-reports.ts:1220-1284 | completion releases only the locator its own claim held |
| BugReportProtocol.MigratePrepareKeeps | src/repositories/bug-reports.ts:683-823 | with a fresh target a migration retires the source and holds the target |
| BugReportProtocol.NextKeepsInv | src/repositories/bug-reports.ts:107-1459 | every step of every actor keeps the whole-system invariant |
| BugReportProtocol.NoReportNamesABegunDelete | src/repositories/bug-reports.ts:1079-1095 | in every run no live report shows a locator whose remote delete was authorised or done |
| BugReportProtocol.NoScreenshotIsOrphaned | src/repositories/bug-reports.ts:1193-1216 | in every run an accepted object not yet deleted is named by a report, held by a claim on a scrubbed report, or the source of an unfinished migration |
| BugReportProtocol.NoPrivateScreenshotIsOrphaned | src/repositories/bug-reports.ts:975-1046 | the same for private object keys and the retention inventory |
| BugReportProtocol.ClaimedScreenshotCanBeRetried | src/repositories/bug-reports.ts:1150-1216 | for every claim that holds a locator: preparing it authorises the delete, or retires the report because another one still shows the locator |
| BugReportProtocol.ClaimedScreenshotCanBeDeleted | src/repositories/bug-reports.ts:948-1284 | from every reachable state one attempt of claim, prepare, remote delete and finish retires a claimed report, and its object is erased or still shown by another report |
| BugReportProtocol.UnfinishedMigrationCanBeFinished | src/repositories/bug-reports.ts:683-852 | from every reachable state with an unfinished migration one retry of migrate, remote delete and finish erases the source, which no report names by then |
| BugReportProtocol.BegunLocatorIsNeverAccepted | src/repositories/bug-reports.ts:220-271 | a locator whose delete was authorised is never stored again |
| BugReportProtocol.IdsAreNeverReissued | src/repositories/bug-reports.ts:110-220 | public and submission ids belong to one report for ever, also after its retirement |
| BugReportProtocol.RetriedSubmissionIsIdempotent | src/repositories/bug-reports.ts:110-220 | whatever happened since a submission was stored, a retry changes no table and returns that report, reports a reused id, or is refused once the report is retired |
| BugReportProtocol.ClaimedReportIsScrubbed | src/repositories/bug-reports.ts:1079-1101 | a report whose locator is claimed holds none of its content any more |
| BugReportProtocol.MigrationIsSafeIffTargetIsFresh | src/repositories/bug-reports.ts:683-823 | a first migration leaves no report naming a retired locator if and only if its target has no delete record |
| BugReportProtocol.RetiredTargetIsAccepted | src/repositories/bug-reports.ts:757-766 | a reachable state in which a first migration to a retired target is accepted and a report names it afterwards |
| BugReportLifecycle.NewSubmissionIsStoredIff | src/repositories/bug-reports.ts:107-380 | in every reachable state a submission is stored if and only if neither id was ever given out, no delete of its screenshot was ever authorised, nothing keeps its private key and its columns agree |
| BugReportLifecycle.RefusalNamesTheFirstReservation | src/repositories/bug-reports.ts:107-380 | in every reachable state: a submission id in use is answered for its report, otherwise the outcome is the first of retired id, retired submission, retired key, begun locator and clash that applies |
| BugReportLifecycle.CleanupWaitsForTheDeadline | src/repositories/bug-reports.ts:948-1284 | a claim, prepare or completion before a report's deadline, or for another report, leaves the report as it was |
| BugReportLifecycle.SubmissionIsKeptUntilItsDeadline | src/repositories/bug-reports.ts:107-1459 | in every run an accepted submission keeps its ids, content and screenshot (moved or privately deleted at most) as long as its own cleanup runs only before the deadline it has by then |
| BugReportLifecycle.NewReportIsOpen | src/repositories/bug-reports.ts:220-271 | a new report is open with the deadline it came with until its status is changed |
| BugReportLifecycle.ClosedReportExpires | src/repositories/bug-reports.ts:530-540 | closing gives a report thirty days or the rest of its half year, whatever happens until it is reopened; closing again moves nothing |
| BugReportLifecycle.ReopenedReportExpires | src/domain/bug-report.ts:153-162 | reopening gives the half year back until the report is closed |
| BugReportLifecycle.ReportIsClaimableIffExpired | src/repositories/bug-reports.ts:948-1106 | in every reachable state a claim is refused exactly before the deadline; from it on it takes the private key and its creation time into the inventory, or the screenshot into the claim and the content from the row |
| BugReportLifecycle.ExpiredReportCanBeRetired | src/repositories/bug-reports.ts:948-1284 | from every reachable state one attempt retires any expired report: the row goes, its public id stays reserved, its screenshot is erased, inventoried or still shown by another report |
| BugReportOutcomes.StatusAnswerSaysWhatItFound | src/repositories/bug-reports.ts:407-549 | in any state of the tables, each answer to a status change if and only if the report was missing, finalised, unchanged or open to change |
| BugReportOutcomes.StatusChangeMovesTheHold | src/repositories/bug-reports.ts:492-540 | on a claimed but unscrubbed report the hold moves back to the row, to the migrated copy if there is one, if and only if the delete is neither under way nor done |
| BugReportOutcomes.NothingToClaimIff | src/repositories/bug-reports.ts:948-981 | in any state of the tables a claim finds nothing to do if and only if the report is gone or not expired |
| BugReportOutcomes.PrivateClaimCompletesTheInventory | src/repositories/bug-reports.ts:975-1046 | in any state of the tables what a claim of a private object makes of an inventory row that is missing, incomplete or complete |
| BugReportOutcomes.UrlClaimTakesTheLocator | src/repositories/bug-reports.ts:1048-1106 | the same for a claim of a report with a public screenshot or none |
| BugReportOutcomes.PreparationAnswers | src/repositories/bug-reports.ts:1123-1218 | each answer of the preparation if and only if, with what departs |
| BugReportOutcomes.CompletionAnswers | src/repositories/bug-reports.ts:1220-1284 | when a deletion completes, and what departs |
| BugReportOutcomes.MigrationAnswers | src/repositories/bug-reports.ts:683-823 | each refusal of a migration if and only if its reason is the first one |
| BugReportOutcomes.PreparedMigrationMovesTheReports | src/repositories/bug-reports.ts:757-823 | a prepared migration moves exactly the reports that named the source, all to one target |
| BugReportOutcomes.MigrationFinishAnswers | src/repositories/bug-reports.ts:826-852 | each end of a migration if and only if, and a second finish finds nothing to do |
| BugReportOutcomes.MarkingClearsTheKey | src/repositories/bug-reports.ts:1410-1459 | marking clears the key wherever the report kept it, nothing else, and is idempotent |
| Publications.Redis.Stage | src/cache/data-publication.ts:459-497 | sets an item with the staging TTL only when the key is absent |
| Publications.Redis.ActivateRevision | src/cache/data-publication.ts:187-263 | outcome and resulting store of the activation script, including persistence of the new items and the retired TTL on the rest |
| Publications.Redis.CompareAndSwapActive | src/cache/data-publication.ts:279-297 | replaces or removes the pointer only if it names the expected publication, persisting items until one is missing |
| Publications.Redis.Retire | src/cache/data-publication.ts:265-277 | removes the pointer and gives its items the retired TTL |
| Publications.Redis.Read | src/cache/data-publication.ts:704-735 | payloads come back only as the manifest's whole verified publication |
| Publications.ActiveItemsNeverExpire | src/cache/data-publication.ts:231-262 | in every run every item key an active manifest names exists and has no expiry, also when publications share keys |
| Publications.DeliveryMovesUp | src/cache/data-publication.ts:245-248 | an activation leaves the pointer alone or moves it strictly up in (sourceCheckedAt, revision) |
| Publications.PointerNeverGoesBack | src/cache/data-publication.ts:187-263 | over any run of stagings, ticks, activations and heartbeats the pointer's order never decreases |
| Publications.AcceptedDeliveryIsNeverLost | src/cache/data-publication.ts:510-556 | after any continuation the pointer is no older than every delivery that was answered without error |
| Publications.AnyDeliveryOrderEndsAtTheMaximum | src/cache/data-publication.ts:510-556 | staged publications delivered in any order with repeats end at their lexicographic maximum |
| Publications.ReadSurvivesInterveningSteps | src/cache/data-publication.ts:704-735 | whatever activations, swaps and retirements run between GET and MGET, a read of an intact publication that finishes within the retired TTL returns exactly the payloads of the publication the GET saw |
| Publications.ReadFailsAfterTheRetiredTtl | src/cache/data-publication.ts:265-277 | a retirement followed by the whole retired TTL fails the read of any publication with items |
| Publications.VerifiedStageActivatesIntact | src/cache/data-publication.ts:677-702 | verified staged payloads are still those of the manifest when activated before their TTL |
| Publications.ActivePublicationsStayIntact | src/cache/data-publication.ts:459-484 | if every installed manifest was intact when installed, every active one is intact in every reachable state |
| Publications.HeartbeatKeepsPublication | src/cache/live-snapshot-cache.ts:78-106 | a heartbeat from however old a read never replaces another publication and keeps revision and items |
| Publications.RedeliveryIsIdempotentIffNoHeartbeat | src/cache/data-publication.ts:187-229 | after a publication went active, in every forward run: its redelivery is stale once a newer one is active, else idempotent if and only if the active fetch time is still its own, which no run without a heartbeat changes |
| Publications.HeartbeatBreaksRedelivery | src/cache/data-publication.ts:193-218 | a run of stage, delivery and heartbeat after which the same delivery gets an id conflict while readers are still served |
| Publications.PublicationStaysUntilNewer | src/cache/data-publication.ts:187-248 | in every forward run the delivered publication stays active until a newer one replaces it for good |
| PublicationExpiry.ReplacedItemsExpire | src/cache/data-publication.ts:250-262 | of the items an activation finds active and the ones it brings, exactly the new ones outlive the retired TTL, and none goes before it |
| PublicationExpiry.RetiredItemsExpire | src/cache/data-publication.ts:265-277 | a retired publication's items last the retired TTL exactly |
| PublicationExpiry.StagedItemExpires | src/cache/data-publication.ts:459-497 | a staged item nobody activates lasts the staging TTL exactly |
| PublicationExpiry.SwapAnswersWhatItFound | src/cache/data-publication.ts:279-297 | each of the five answers if and only if what it stands for was found; two of them move the pointer, and a replacement pins all its items |
| PublicationExpiry.RejectedSwapPersistsItsPrefix | src/cache/data-publication.ts:291-294 | a swap that meets a missing item has persisted exactly the items before it |
| PublicationExpiry.ReadSucceedsIffWhole | src/cache/data-publication.ts:704-735 | a read answers if and only if the manifest names something and every item is there as proved |
| PublicationExpiry.SwapLeavesNoneIffItDropsNone | src/cache/data-publication.ts:279-297 | a compare-and-swap leaves an item without expiry that no manifest names if and only if it drops an active item or persists one of a manifest it rejects |
| PublicationExpiry.NothingIsLeftOver | src/cache/data-publication.ts:187-297 | in every run without such a swap each cell without expiry is named by an active manifest |
| PublicationExpiry.OnlyRepairsLeaveItemsOver | src/cache/data-publication.ts:187-297 | so in every run of stagings, deliveries, heartbeats, retirements and ticks from the empty store |
| PublicationExpiry.LeftOverStays | src/services/data-publication-reconciler.ts:140-151 | an item a repair left over stays until a manifest names it again |
| Outbox.OutboxTable.Claim | src/repositories/data-publication-outbox.ts:98-174 | leases exactly the selected rows that are still eligible and returns them |
| Outbox.OutboxTable.MarkStage | src/repositories/data-publication-outbox.ts:297-328 | advances a row only for its current owner while undelivered |
| Outbox.OutboxTable.MarkDelivered | src/repositories/data-publication-outbox.ts:176-230 | delivers the row and publishes its source run in one transaction, only for the owner |
| Outbox.OutboxTable.Release | src/repositories/data-publication-outbox.ts:330-359 | gives an owned row back with its retry delay |
| Outbox.OutboxTable.Fail | src/repositories/data-publication-outbox.ts:361-387 | parks an owned row as failed |
| Outbox.NextKeepsInv | src/repositories/data-publication-outbox.ts:389-448 | every await of every dispatcher, and every Redis step of others, keeps the invariant |
| Outbox.DeliveredRowWasActive | src/repositories/data-publication-outbox.ts:389-448 | in every run a delivered row's publication was named by a Redis pointer at an earlier step |
| Outbox.PublishedRunWasDelivered | src/repositories/data-publication-outbox.ts:176-230 | a published source run points at a publication that a delivered row of that run carried into Redis |
| Outbox.DeliveredIsAbsorbing | src/repositories/data-publication-outbox.ts:176-230 | no continuation changes a delivered row |
| Outbox.LostLeaseNeverReturns | src/repositories/data-publication-outbox.ts:98-174 | an owner that lost a row never owns it again |
| Outbox.ReclaimedRowIgnoresItsOldOwner | src/repositories/data-publication-outbox.ts:297-387 | and none of its later steps changes the tables |
| Outbox.RedeliveryPassesIffFetchTimeStands | src/repositories/data-publication-outbox.ts:415-427 | a dispatcher that activates a row whose publication is already active gets past it if and only if the active fetch time is still the row's own |
| Outbox.MovedFetchTimeBlocksDelivery | src/repositories/data-publication-outbox.ts:389-448 | as long as a heartbeat's fetch time stays active, no interleaving of dispatchers delivers the unacknowledged row |
| Outbox.CrashThenHeartbeatBlocksDelivery | src/repositories/data-publication-outbox.ts:415-438 | every dispatcher that publishes its row and dies before acknowledging it, followed by a heartbeat, leaves such a row |
| Outbox.HeartbeatMovesFetchTime | src/cache/live-snapshot-cache.ts:91-102 | in that run the heartbeat does replace the pointer and move its fetch time |
| OutboxDelivery.DeliveryPublishesItsRun | src/repositories/data-publication-outbox.ts:208-228 | the step that delivers a row publishes its source run under its publication id if the run is known and publishable, and touches no other run |
| OutboxDelivery.DeliveredRunStaysPublished | src/repositories/data-publication-outbox.ts:176-230 | and no continuation takes that run back |
| OutboxDelivery.EligibleRowIsDelivered | src/repositories/data-publication-outbox.ts:389-448 | an eligible row with intact items and an accepted activation is delivered, its run published and its publication active after one claim and five awaits |
| OutboxDelivery.ErrorReleasesTheRow | src/repositories/data-publication-outbox.ts:428-446 | an error at any await gives an owned row back: eligible exactly from the retry delay on, tables otherwise unchanged |
| OutboxDelivery.RefusedRowIsReleased | src/repositories/data-publication-outbox.ts:389-446 | so do items that are not intact and an activation refused for anything but age |
| OutboxDelivery.LostLeaseStopsTheDispatcher | src/repositories/data-publication-outbox.ts:404-427 | a dispatcher that finds its lease lost leaves the tables and Redis alone |
| OutboxDelivery.StaleRowIsParked | src/repositories/data-publication-outbox.ts:415-446 | an overtaken publication's row is parked |
| OutboxDelivery.ParkedForGood | src/repositories/data-publication-outbox.ts:98-174 | and no continuation touches it |
| OutboxDelivery.TakeoverWaitsForTheLease | src/repositories/data-publication-outbox.ts:98-174 | another dispatcher takes a leased row over if and only if the lease has run out |
| LaunchNotification.LaunchMonitor.Advance | src/jobs/launch.jobs.ts:109-188 | one await of one worker, with reply, lost reply or failure, changes lock, marker and flags as the protocol step does |
| LaunchNotification.NextKeepsInv | src/jobs/launch.jobs.ts:59-188 | every step, crash and tick keeps the fencing invariant |
| LaunchNotification.AtMostOneDelivery | src/jobs/launch.jobs.ts:109-188 | in every run at most one message is delivered, counting messages that may still arrive |
| LaunchNotification.MarkerMeansDelivered | src/jobs/launch.jobs.ts:89-107 | the done marker is set only after a delivery |
| LaunchNotification.DeliveryIsFenced | src/jobs/launch.jobs.ts:66-107 | a delivered message has its marker, or its sender's lock without expiry |
| LaunchNotification.DeliveredStaysDelivered | src/jobs/launch.jobs.ts:109-188 | nothing is delivered after a delivery, in any continuation |
| LaunchNotification.CrashRecoversIffPersistDoesNotStand | src/jobs/launch.jobs.ts:59-87 | in every run and for whoever holds the lock: a crash and one lease's wait free the lock if and only if no persist of the holder stands |
| LaunchNotification.CrashAfterPersistStrands | src/jobs/launch.jobs.ts:66-87 | otherwise, if the holder sent nothing, no continuation ever frees the lock, delivers the message or sets the marker |
| LaunchNotification.StrandedForever | src/jobs/launch.jobs.ts:109-188 | the lock without expiry of a gone, unsent worker is permanent |
| LaunchNotification.CrashBetweenPersistAndRequestStrands | src/jobs/launch.jobs.ts:119-136 | a crash between the persist script and the request is such a run |
| LaunchNotification.LostPersistReplyStrands | src/jobs/launch.jobs.ts:135-184 | a lost persist reply followed by a failed release is another, without any crash |
| LaunchNotification.UnsentMessageFreesTheLock | src/jobs/launch.jobs.ts:131-188 | after a send that certainly did not deliver, for every fate of the two cleanup calls: the lock is free at once, free after one lease, or stranded, each exactly when |
| LaunchNotification.FreshWorkerDelivers | src/jobs/launch.jobs.ts:109-188 | in every reachable state with the lock free and no marker a fresh undisturbed worker delivers the one message, marks it and frees the lock |
| LaunchNotification.RejectedSendIsRetried | src/jobs/launch.jobs.ts:131-188 | so a rejected or skipped send is made good by the next worker |
| LaunchNotification.MarkerIsTriedThreeTimes | src/jobs/launch.jobs.ts:89-107 | the marker is set if any of three tries took effect, the lock is released only after a reply |
| LaunchNotification.AmbiguousSendIsLeftAlone | src/jobs/launch.jobs.ts:131-188 | after an ambiguous send the lock stands without expiry and the message counts once, now or on late arrival |
| LaunchNotification.MarkedNotificationIsSkipped | src/jobs/launch.jobs.ts:109-120 | once the marker is set a new worker leaves without touching Redis |
| LaunchNotification.LostReplyEndsTheAttempt | src/jobs/launch.jobs.ts:109-188 | a reply lost before the send ends the attempt: nothing is sent and the worker is gone after at most its release |
| CascadeBarrier.CascadeKeys.NoteComplete | src/jobs/tournament-sync.jobs.ts:132-157 | slot claim, refresh of every live slot and setting of pending, with the script's answer |
| CascadeBarrier.CascadeKeys.TryClaimRefresh | src/jobs/tournament-sync.jobs.ts:164-181 | takes the lease only with pending set, done absent and no lease |
| CascadeBarrier.CascadeKeys.MarkEnqueued | src/jobs/tournament-sync.jobs.ts:271-277 | afterwards every claim answers already-enqueued; the keys are those after the done, pending and lease commands |
| CascadeBarrier.EnqueueIsMarkedInThreeSteps | src/jobs/tournament-sync.jobs.ts:271-277 | the machine's steps of a worker that ends well lead to those keys, with the worker gone |
| CascadeBarrier.CascadeKeys.ReleaseClaim | src/jobs/tournament-sync.jobs.ts:279-282 | afterwards a claim can be won at once if and only if pending is set and done is not |
| CascadeBarrier.FailedEnqueueIsReleased | src/jobs/tournament-sync.jobs.ts:279-282 | the machine's steps of a worker whose enqueue failed lead to those keys |
| CascadeBarrier.ErrorAfterTheMarkIsReleased | src/jobs/tournament-sync.jobs.ts:271-282 | an error after the done mark ends in the same release, with pending left and every claim answered already-enqueued |
| CascadeBarrier.ClaimNeedsEveryRole | src/jobs/tournament-sync.jobs.ts:164-269 | with no timing assumption: pending implies every role reported; a claim wins only then and never while done lives |
| CascadeBarrier.NewReportSetsPendingIffAllIn | src/jobs/tournament-sync.jobs.ts:132-240 | with consecutive slot claims less than the TTL apart, a report sets pending if and only if its slot is new and no role is missing after it: the report that completes the last role, and every new slot later |
| CascadeBarrier.NewReportCountsMissingRoles | src/jobs/tournament-sync.jobs.ts:132-157 | and is answered with the number of roles still missing |
| CascadeBarrier.WaitingWinsIff | src/jobs/tournament-sync.jobs.ts:164-240 | what each lost answer is worth: waiting never wins after "not pending", wins exactly between the lease's and pending's expiry after "busy", and never before the done key's after "already enqueued" |
| CascadeBarrier.NotPendingNeedsAReport | src/jobs/tournament-sync.jobs.ts:164-240 | after "not pending" no run without a report makes a claim winnable |
| CascadeBarrier.EnqueuedBlocksClaims | src/jobs/tournament-sync.jobs.ts:164-277 | after "already enqueued" no run wins a claim before the done key expires |
| CascadeBarrier.RefreshReopensIffNewSlotArrives | src/jobs/tournament-sync.jobs.ts:132-181 | once every role is in and pending was dropped, a refresh can be claimed again if and only if a slot that had not reported yet arrives |
| CascadeBarrier.LateSlotReopensTheRefresh | src/jobs/tournament-sync.jobs.ts:132-269 | a run, with every holder prompt, in which a role's other slot reports after the refresh and a second refresh is added |
| CascadeBarrier.PendingStaysUntilDropped | src/jobs/tournament-sync.jobs.ts:132-157 | pending survives every step but its removal until its own expiry |
| CascadeBarrier.RefreshIsAddedOnce | src/jobs/tournament-sync.jobs.ts:164-282 | in every run, whatever delays, crashes, failed marks and releases it holds: if no claim is won while an add is in doubt, no refresh is added twice in one done-key lifetime |
| CascadeBarrier.AddedTwiceIffInDoubt | src/jobs/tournament-sync.jobs.ts:164-282 | after every such run, claims and adds alone can add twice if and only if pending is set and an add is in doubt |
| CascadeBarrier.DoubtAddsTwice | src/jobs/tournament-sync.jobs.ts:164-282 | then a claim by any worker that holds none leads there |
| CascadeBarrier.FinishingHoldersAddOnce | src/jobs/tournament-sync.jobs.ts:190-282 | holders that finish inside their lease and mark what they added win no claim in doubt, act one at a time and add once |
| CascadeBarrier.OverstayedLeaseAddsTwice | src/jobs/tournament-sync.jobs.ts:279-282 | a concrete run in which a holder outlives its lease and the refresh is added twice |
| CascadeBarrier.CrashBeforeMarkAddsTwice | src/jobs/tournament-sync.jobs.ts:242-277 | the same when a holder crashes between adding the job and marking it |
| CascadeBarrier.FailedMarkAddsTwice | src/jobs/tournament-sync.jobs.ts:271-282 | the same when the done mark fails and the lease is released |
| HostRunner.Runner.HandleExecution | src/content/host-grok-runner.ts:416-469 | the decision and state change up to the handler's first await |
| HostRunner.Runner.CompleteExecution | src/content/host-grok-runner.ts:470-492 | stores the response, sweeps expired ones and frees the slot |
| HostRunner.Runner.Sweep | src/content/host-grok-runner.ts:470-492 | deletes exactly the expired responses |
| HostRunner.Runner.HandleProbe | src/content/host-grok-runner.ts:297-343 | reuses, refuses or starts a probe by age, interval and capacity |
| HostRunner.Runner.FinishProbe | src/content/host-grok-runner.ts:344-359 | records the probe result and frees the slot |
| HostRunner.ActiveCountsWorkInFlight | src/content/host-grok-runner.ts:258-264 | in every run the counter equals executions plus probe in flight and is at most two |
| HostRunner.RunIsNotRepeatedWhileRemembered | src/content/host-grok-runner.ts:416-492 | two executions of one run id never overlap and lie a whole stored TTL apart |
| HostRunner.AnswersMatchTheirRequest | src/content/host-grok-runner.ts:416-492 | every result a request receives was computed for its own run id and request hash |
| HostRunner.RememberedRunIsReplayedJoinedOrRefused | src/content/host-grok-runner.ts:416-450 | while in flight or stored, a run id is joined or replayed for the same hash and refused for any other |
| HostRunner.ForgottenRunStartsIffThereIsCapacity | src/content/host-grok-runner.ts:416-469 | in every run a run id nobody remembers starts an execution if and only if fewer than two pieces of work are in flight, and is otherwise refused with nothing changed |
| HostRunner.StartedExecutionIsAnsweredAndReplayed | src/content/host-grok-runner.ts:451-492 | a started execution that settles is answered when its owner continues and replayed to the same request for exactly ten minutes |
| HostRunner.JoinedRequestIsAnswered | src/content/host-grok-runner.ts:425-438 | a joined request waits for its execution and is answered by it once |
| HostRunner.SettledOnce | src/content/host-grok-runner.ts:451-470 | no continuation changes what an execution settled to |
| HostRunner.FinishingKeepsExactlyTheFresh | src/content/host-grok-runner.ts:470-492 | after an execution was finished exactly the unexpired responses are stored |
| HostRunner.ProbeStartsIff | src/content/host-grok-runner.ts:297-343 | in every run the probe's answer follows from a probe in flight, the age of the last finished probe or successful execution, and the work in flight |
| HostRunner.ReadyIffLastProofIsFresh | src/content/host-grok-runner.ts:281-296 | health is ready if and only if that last proof is a success of at most thirty minutes |
| HostRunner.Runner.Health | src/content/host-grok-runner.ts:281-296 | the health answer is that readiness |
| WriteFence.AscendingIsUnique | src/repositories/entry-event-transfers.ts:42 | the lock order is a function of the set of ids, whatever list the caller gave |
| WriteFence.LockTable.AcquireEntrySeasonWriteFence | src/repositories/entry-event-transfers.ts:37-51 | takes locks in ascending order up to the first one held by another transaction, which stays unchanged |
| WriteFence.LocksAreExclusive | src/repositories/entry-event-transfers.ts:37-51 | in every run two transactions never hold one entry lock |
| WriteFence.CommitHoldsEveryLock | src/repositories/entry-event-transfers.ts:37-51 | whatever ran since it began, a transaction can commit if and only if it holds the lock of every entry it asked for, and nobody else holds one of them then |
| WriteFence.LocksAreKeptToTheEnd | src/repositories/entry-event-transfers.ts:37-51 | no run without its commit or abort takes a lock from a transaction |
| WriteFence.WaitsForIsAcyclic | src/repositories/entry-event-transfers.ts:37-51 | in every run the waits-for graph has no cycle of any length |
| WriteFence.SystemIsNeverStuck | src/repositories/entry-event-transfers.ts:37-51 | while a transaction is open some step is possible |
| WriteFence.EveryoneCanFinish | src/repositories/entry-event-transfers.ts:37-51 | from every good state some continuation brings every open transaction to commit |
| RateLimit.FixedWindowRateLimiter.CheckKey | src/api/rate-limit.ts:43-70 | decision and bucket map after one check, sweep included |
| RateLimit.FixedWindowRateLimiter.SweepExpired | src/api/rate-limit.ts:34-40 | deletes exactly the expired buckets |
| RateLimit.TrackedKeysStayUnderTheCap | src/api/rate-limit.ts:45-57 | the map never exceeds its cap, for any keys and times |
| RateLimit.BucketCountsItsWindow | src/api/rate-limit.ts:50-63 | a live bucket counts exactly the grants since its window began, at most the quota |
| RateLimit.AtMostTwoQuotasPerInterval | src/api/rate-limit.ts:22-76 | with a monotone clock any interval of window length holds at most two quotas of grants per key |
| RateLimit.BucketMatchesReference | src/api/rate-limit.ts:34-63 | sweeping forgets only what a single-key limiter without cap or sweep treats as expired |
| RateLimit.DecisionsMatchReference | src/api/rate-limit.ts:43-70 | while the cap never refused a key, its decisions are those of that reference limiter |
| RateLimit.RequestIsAllowedIff | src/api/rate-limit.ts:43-70 | in every run a key with a live window is allowed while its quota lasts, any other if and only if fewer keys than the cap are live |
| RateLimit.RefusalSaysWhenToRetry | src/api/rate-limit.ts:62-69 | the seconds a quota refusal names suffice for the next request and a second less does not |
| RateLimit.CappedKeyWaitsASecond | src/api/rate-limit.ts:50-57 | a key refused by the cap is told one second |
| RateLimit.OtherBucketsStayIff | src/api/rate-limit.ts:34-48 | a check forgets another key's bucket if and only if the map is full and the bucket dead |
| PollPolicy.WindowsAdvance | src/content/poll-policy.ts:45-103 | each window is non-empty, ends at least one period after the last and reaches back to it exactly when the gap fits |
| PollPolicy.WindowsCoverTimeIffGapsFit | src/content/poll-policy.ts:84-103 | the windows of a run form one interval without hole if and only if no gap between ends exceeds the catch-up limit |
| PollPolicy.WideGapIsAHole | src/content/poll-policy.ts:84-103 | a wider gap leaves an instant that no window, earlier or later, covers |
| PollPolicy.JoinedWindowsHaveNoHole | src/content/poll-policy.ts:84-103 | windows that each start inside the reach of the last cover every instant between |
| PollPolicy.SteadyCadence | src/content/poll-policy.ts:45-83 | woken every minute a phase polls at exactly every period-th wake-up |
| PollPolicy.PhaseCadence | src/content/poll-policy.ts:22-103 | with the policy's minutes or the defaults 30, 10, 5, lag 2, overlap 5 and catch-up 360, when the k-th window of a phase starts and ends |
| PollPolicy.WindowStarts | src/content/poll-policy.ts:84-103 | in any run a window starts an overlap before the last end, the first a period before its own, none beyond the catch-up limit |
| Powers.CeilLog2 | src/domain/tournament.ts:365-370 | the least exponent whose power of two is at least n |
| Powers.CeilLog2IsUnique | src/domain/tournament.ts:365-370 | no other exponent brackets n |
| BracketSeeding.BuildBracketSeedOrder | src/domain/tournament.ts:372-379 | the doubling loop yields the seed order whose properties follow |
| BracketSeeding.SeedOrderIsPermutation | src/domain/tournament.ts:372-379 | every seed from 1 to the bracket size occurs exactly once |
| BracketSeeding.PairsAreBalanced | src/domain/tournament.ts:372-379 | adjacent seeds sum to the size plus one, the better one first and in the top half |
| BracketSeeding.FavouritesGiveTheHalfOrder | src/domain/tournament.ts:372-379 | keeping the better seed of each pair leaves the order of the half-size bracket |
| BracketSeeding.RemainingIsSeedOrder | src/domain/tournament.ts:372-379 | after any number of rounds won by favourites the order of the remaining size is left |
| BracketSeeding.TopSeedsDoNotMeetEarly | src/domain/tournament.ts:372-379 | so two of the top 2^t seeds never meet while more than 2^t remain |
| BracketSeeding.TopSeedsSitInDifferentSections | src/domain/tournament.ts:372-379 | whoever wins, two of the top 2^t seeds sit in different sections of the draw |
| BracketSeeding.SeedBracketEntries | src/domain/tournament.ts:538-558 | each pair holds the entries of its two seeds, missing ones as byes, and there are half as many pairs as places |
| BracketSeeding.ByesGoToTopSeeds | src/domain/tournament.ts:538-558 | with a full field no home place is empty and a match has a bye exactly when its home seed is among the top (size - teams) |
| BracketSeeding.EmptyMatchIffFieldIsShort | src/domain/tournament.ts:538-558 | some match has two byes if and only if the entry list is shorter than half the bracket |
| BracketSeeding.EveryTeamIsPlacedOnce | src/domain/tournament.ts:538-558 | each team has exactly one place in the draw |
| KnockoutTree.BuildKnockoutRows | src/domain/tournament.ts:604-666 | the nested loops produce the match and result rows the lemmas below describe, or none without a real knockout |
| KnockoutTree.MatchIdsAreConsecutive | src/domain/tournament.ts:618-637 | match ids are 1..n in order, n = 2^K - 2^(K - rounds) |
| KnockoutTree.ExactlyTwoFeeders | src/domain/tournament.ts:637-646 | each match after round one is the successor of exactly two rows, adjacent and one round earlier |
| KnockoutTree.FirstRoundHasNoFeeder | src/domain/tournament.ts:637-646 | a first-round match is nobody's successor |
| KnockoutTree.SingleFinalIffAllRounds | src/domain/tournament.ts:629-646 | the rows end in one final if and only if every round of the bracket was generated |
| KnockoutTree.EveryMatchLeadsToTheFinal | src/domain/tournament.ts:629-646 | following next_match_id reaches the one final in exactly the rounds that are left |
| KnockoutTree.EveryTeamStartsInOneMatch | src/domain/tournament.ts:636-649 | fed by the seeded draw, each team of a full field appears in exactly one match, in round one |
| KnockoutTree.BetterSeedHosts | src/domain/tournament.ts:538-558 | there seed s hosts seed size + 1 - s for every s of the top half, or has a bye if the field ends before |
| KnockoutTree.UndrawnMatchesAreOpen | src/domain/tournament.ts:636-649 | every other match is open on both sides |
| KnockoutTree.MatchWindow | src/domain/tournament.ts:633-634 | a match of round r starts (r - 1) rounds of legs after the start and lasts one event per leg |
| KnockoutTree.UnnamedLegsAreOne | src/domain/tournament.ts:608-614 | a configuration that names no number of legs plays one |
| KnockoutTree.WindowOfEvent | src/domain/tournament.ts:633-634 | every event from the first to the last lies in exactly one round window |
| KnockoutTree.FeedersPlayEarlier | src/domain/tournament.ts:633-646 | a feeder's window ends on the event before its successor's begins |
| KnockoutTree.LegsFillTheWindow | src/domain/tournament.ts:651-661 | the result rows of a match are one per event of its window, in order, with sides alternating |
| StructurePlan.AcceptedKnockoutFitsTheSeason | src/domain/tournament.ts:728-832 | an accepted knockout has a full tree after its group phase whose last window closes at the planned end, GW38 at the latest, if and only if it is not an official one of more than 38 rounds |
| StructurePlan.LeagueInSeasonFits | src/domain/tournament.ts:728-832 | so every accepted knockout fits when the league's first event is absent or a gameweek, as the league schema in src/clients/fpl.ts demands, official ones included |
| StructurePlan.PlanBeforeTheSeasonIsAccepted | src/domain/tournament.ts:729-765 | the planner itself does not check that: given a first event before GW1, which the schema rules out for its caller, it accepts a knockout without rows |
| StructurePlan.PlannedMatchesStayInSeason | src/domain/tournament.ts:728-832 | every match of an accepted plan with rows lies in the season and only the final ends at the planned end |
| StructurePlan.AcceptedIffFieldFits | src/domain/tournament.ts:701-832 | exactly the accepted forms: participants, admin and gameweeks, and an official league with group events left, no knockout, or a field of 2 to all participants and at most 2^(gameweeks left / legs) teams |
| StructurePlan.AcceptedPhasesFollowTheForm | src/domain/tournament.ts:701-832 | the phases of an accepted plan: groups over the requested or free events, the knockout at once after them (or in their place) with the requested field and legs, ending with its last leg |
| StructurePlan.AcceptedGroupsFollowTheForm | src/domain/tournament.ts:768-832 | as many groups as requested, of the least size that holds everyone, with qualifiers only where there are groups |
| StructurePlan.RejectionNamesTheFirstFault | src/domain/tournament.ts:701-832 | for every input, which rejection it gets, if and only if what is wrong first |
| StructurePlan.QualifiersFitTheField | src/domain/tournament.ts:768-821 | an accepted group plan has room for its qualifiers in every group's share |
| SnakeGroups.SortedSeedsAreOrdered | src/domain/tournament.ts:513-520 | the sorted entries are ordered by rank, then id, with a missing rank last |
| SnakeGroups.SortedByRankThenId | src/domain/tournament.ts:513-520 | of two sorted entries the first has the better rank, or the same and no larger id, a missing rank counting as the largest integer |
| SnakeGroups.BuildGroupRows | src/domain/tournament.ts:560-602 | the rows are the snake deal of the sorted entries, group by group and slot by slot |
| SnakeGroups.DealtSlots | src/domain/tournament.ts:568-573 | slot by slot, which sort position each group holds, and how many |
| SnakeGroups.SnakeTurnsEachRow | src/domain/tournament.ts:568-573 | even rows of the snake run from the first group to the last, odd rows back |
| SnakeGroups.EveryEntryHasASlot | src/domain/tournament.ts:568-573 | each sort position is dealt to a slot |
| SnakeGroups.EverySlotHoldsOneEntry | src/domain/tournament.ts:568-573 | each slot holds one sort position and no position fills two slots |
| SnakeGroups.RowsNameTheirSlots | src/domain/tournament.ts:575-599 | a row's group and slot numbers count from one, name the group and identify the sort position of its entry |
| SnakeGroups.GroupNames | src/domain/tournament.ts:506-511 | the first 26 groups are A to Z, each later one is called by the number that reads as its position |
| SnakeGroups.GroupNamesAreDistinct | src/domain/tournament.ts:506-511 | so no two groups share a name |
| SnakeGroups.RowsPartitionTheEntries | src/domain/tournament.ts:560-602 | the rows hold exactly the given entries, each as often as given |
| SnakeGroups.SizesAreBalanced | src/domain/tournament.ts:560-602 | group sizes are floor or ceiling of n / groups |
| SnakeGroups.EveryGroupCanQualify | src/domain/tournament.ts:768-821 | under an accepted plan every group holds at least its qualifiers and at most the planned group size |
| SnakeGroups.SeedTotalsAreEqual | src/domain/tournament.ts:568-573 | when n is a multiple of twice the groups, all groups have the same total of seed positions |
| FixtureCoverage.RequireFixtureCoverage | src/domain/core-snapshot.ts:268-319 | the loops and maps reject for the first failing check in source order, or accept |
| FixtureCoverage.TallyFixtures | src/domain/core-snapshot.ts:275-296 | the first faulty fixture, or exact appearance and home/away counts of every team and pair |
| FixtureCoverage.RequireUniqueIds | src/domain/core-snapshot.ts:197-205 | comparing the id set's size with the list's length finds every repetition |
| FixtureCoverage.AcceptedIffDoubleRoundRobin | src/domain/core-snapshot.ts:268-319 | for n teams, n(n-1) fixtures and 2(n-1) gameweeks: accepted if and only if ids are unique, events in range, and each ordered pair of distinct teams plays once |
| FixtureCoverage.RejectionNamesTheFirstFault | src/domain/core-snapshot.ts:268-319 | for every list, which rejection it gets: count, ids, the first unsound fixture, a team's matches, two teams that never meet, or a wrong home game |
| FixtureCoverage.AppearancesInRoundRobin | src/domain/core-snapshot.ts:298-304 | in a double round-robin every team appears 2(n-1) times |
| FixtureCoverage.PairCounts | src/domain/core-snapshot.ts:307-313 | n teams have n(n-1) ordered and half as many unordered pairs |
| LiveBonus.CalculateFixtureBonus | src/domain/live-bonus.ts:69-95 | every element gets three less the number of strictly better candidates, the lowest of its rows, and no element beyond three better ones is listed |
| LiveBonus.UniqueElementBonus | src/domain/live-bonus.ts:69-95 | for an element listed once that is its own award |
| LiveBonus.LowestAwardIsLowest | src/domain/live-bonus.ts:75-83 | the bonus of a repeated element is attained by one of its rows and not above any scoring one |
| LiveBonus.TierServed | src/domain/live-bonus.ts:75-94 | serving a tie tier that starts at rank r with 3 - r points keeps the ranking correctly served |
| LiveBonus.ComputeFixtureSummedBonusByTeam | src/domain/live-bonus.ts:104-154 | each team's element holds the sum over fixtures of official rows, or of provisional tiers while running, and is listed only with points |
| LiveBonus.StatRowsKeepTheirTeam | src/domain/live-bonus.ts:47-64 | home rows are candidates of the home team, away rows after them of the away team, each with its element and value |
| LiveBonus.OfficialPointsGoToTheirSide | src/domain/live-bonus.ts:112-136 | official points of a begun fixture are the sums of each side's rows under that side's team |
| LiveBonus.OfficialRowIsCredited | src/domain/live-bonus.ts:112-136 | an element listed once has exactly its row's value under its own side's team and nothing elsewhere |
| LiveBonus.RunningFixtureRanksBothSides | src/domain/live-bonus.ts:138-150 | without official points a running fixture gives an element listed once three less the better rows of both sides, under its own side's team |
| LiveBonus.ProvisionalPointsGoToOneTeam | src/domain/live-bonus.ts:140-150 | however often listed, an element's provisional points go to the team of its last row |
| LiveBonus.NoPointsOutsidePlay | src/domain/live-bonus.ts:125-138 | nothing before kick-off, nothing from a finished fixture without official points |
| LiveBonus.TotalsAdd | src/domain/live-bonus.ts:104-154 | the totals of an event are the sums over its fixtures |

## Left out

- Repository helpers `updateScreenshotUrl`, `updateScreenshotUrls`, `recordStorageMigration`, `markStorageDeleted` and the list queries: they are not part of the fenced protocol.
- Snapshot JSON of shapes the code never writes, `Date` precision, and SQL isolation: each transaction is one step. The advisory locks make it one for the rows and source locators they cover.
- A migration's target locator is not locked by the code: a migration to a target that a claim already holds could interleave with the claim's delete. Targets are taken to be new objects; the storage endpoint that makes and names them is not part of this model.
- BugReportStore.BugReportRepository.Insert: rows without a stored request hash, which only older versions wrote, and the backfill of their hash are not modelled; every new submission carries its hash.
- BugReportProtocol.MigratePrepareKeeps: a first migration to a retired target is excluded here because the code does not keep the invariant then, as `MigrationIsSafeIffTargetIsFresh` and `RetiredTargetIsAccepted` show.
- BugReportProtocol.NextKeepsInv: random report ids are assumed never to repeat and a first migration's target to be fresh; the source relies on both without checking.
- BugReportStore.BugReportRepository.ClaimForDeletion: the inventory conflict test of the source compares a key with itself and so never fires; the model has no such branch.
- Publications.Redis.ActivateRevision: replies for an active manifest that does not parse and for keys of the wrong type are not modelled; manifests are well formed and items are strings.
- Publications.Redis.CompareAndSwapActive: the reply for an active manifest that does not parse is not modelled.
- Publications.Redis.Retire: likewise.
- Publications.PointerNeverGoesBack: retirements and compare-and-swap repairs are excluded, since both may lawfully move the pointer back.
- `markDataPublicationOutboxReconciled`, whose correctness rests on a caller that is not part of this model, and the counters of the dispatch loop.
- CascadeBarrier.CascadeKeys.MarkEnqueued: the class runs its three commands without interruption; the state machine has them as three separate steps between which a worker may crash or fail.
- WriteFence.LocksAreExclusive: lock keys are pairs of season and entry; collisions of the 32-bit key hash are not modelled.
- KnockoutTree.BuildKnockoutRows: takes at most log2 of the bracket size as rounds, which every accepted plan satisfies; beyond that the source would produce fractional match ids.
- StructurePlan.AcceptedIffFieldFits: form texts are given as the numbers they hold, and an official league's number of rounds as an integer.
- Which poll phase applies and the poll budget: they are the caller's; a phase is given for a whole run.
- What a host-runner probe looks up, aborted requests and the release check: a probe or execution settles as the environment says.
- Floating-point `Math.log2`: replaced by the exact integer logarithm.
- FixtureCoverage.RequireFixtureCoverage: the season's fixed 20, 38 and 380 are parameters; the error details (counts in the message) are not modelled.
- SnakeGroups.BuildGroupRows: the constant columns of a row (points, played, won and the like, and the tournament's own fields) are omitted.
- Roster rules, tournament names, league URLs, filters, ratings and field-by-field mappers: they would only add easy members.
- HTTP routes, queues, cron registration, Redis and Postgres clients, logging and health probes.
