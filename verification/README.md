# Windforce core: a verified model

Windforce admits requests as runs, hands their jobs to workers under leases,
publishes releases, notifies webhooks and stores execution bundles. This Dafny
project models the logic of those parts as the repository's local store
implements it and proves what they are relied on for. `dafny verify
dfyconfig.toml` checks all of it.

## Runs, jobs and human tasks

`JobModel` holds the records and the small pure helpers, `JobSteps` one function
for each operation: the snapshot that `update` commits, or the error with which
it discards its working copy. `JobInvariant`, `JobPreservation` and `JobCap`
prove that every operation keeps the invariants; `JobTraces` and `JobOutcomes`
draw the conclusions for whole histories: any number of callers and workers, any
interleaving of their calls, any clock. `JobStore` is the store as a class whose
methods change maps, log and counter in place, each tied to its step function.
The lease check on completion never looks at the run's state, so that a late
worker cannot revive a settled run is a property of all the operations together
and not of the one that completes.

Facts the proofs pin down: expiry writes no event, which is why a replay of an
expired run gives an active state; a claim that finds nothing discards the
requeues it made; a heartbeat renews a lapsed lease that nothing has requeued;
and at the instant of expiry a lease can still be completed.

`JobEffects`, and beside the other models `ListingEffects`, `WebhookEffects` and
`CatalogEffects`, state what a caller observes of each operation in the fields of
the records before and after it, without the vocabulary the operations are
written in: which job a claim takes, which answer a resumed job carries, how long
a lease is exclusive, what a publication notes.

`Paging` and `JobSummary` cover the listing and the counters over those records.
`Admission` is the protocol by which callers that share an idempotency key agree
on one run, as a state machine in which every load and every write is its own
step and anyone else may act in between.

## Webhook outbox

`Webhook` models subscriptions, deliveries and events and proves their
invariant; `WebhookRuns` proves that retention in batches of any size ends where
one unbounded clean-up would, and the theorems about whole histories;
`WebhookStore` is the outbox as a class, with the retention cycle as its loop.

Subscription keys join workspace and identifier with "/", and a deletion cancels
by workspace and identifier what it finds by key. When a workspace name contains
"/" the two can differ, and a delivery stays waiting for a subscription that is
deleted: nothing claims, cancels or removes it any more. The model keeps the code
as it is and says exactly when this happens: a deletion leaves nothing waiting if
and only if every delivery waiting under its key carries its workspace name
(`WebhookInvariant.DeletionIsComplete`), over whole histories the stranded
deliveries are those some deletion missed (`WebhookTraces.StrandedExactly`), and
`WebhookTraces.DeletionCanMiss` gives two short histories in which one is. All
other results hold for every workspace name.

## Release catalog

`Catalog` models publishing, rolling back, tag overrides and the normalisation
around them; `CatalogRuns` imports and whole histories; `CatalogStore` the
catalog as a class that stores a release together with its outbox entries. An
import keeps the pointers right when every deployment of the target has one.
Without that it may not, in two ways: it takes over a pointer that belongs to
another release (`CatalogImport.ImportCanMisassign`), or the normalisation that
commits it finds a record for a deployment that has no pointer, and the record
is of another release (`CatalogImport.BackfillCanMisassign`).
`CatalogImport.ImportAgreesExactly` says exactly when the committed catalog
agrees, for any two catalogs whose own pointers do.

## Execution bundles

`Bundle` encodes a directory walk as the hashed byte stream, decodes it again,
and proves that the walk determines the directory. The store trusts neither the
copies it makes nor what it holds, so a fetched tree is the published one for
any hash function that does not collide on the streams involved; the theorems
name the colliding streams instead of assuming there are none.

## Input settings and the rate limiter

`InputLayers` covers the layering of settings under a request, the store of
settings, and the remote claim. The repository's README.md:445 says that input
is resolved once, at admission. The code of the remote claim
(`internal/server/worker_plane.go:205-208`) resolves the pinned input a second
time, and the model follows the code: with locked keys the second resolve is
refused and the job fails, and settings stored after admission reach queued jobs.
`RateLimiter` is the token bucket over the reals.

## Conventions

Times are nanoseconds since Go's zero time, which is 0. Generated identifiers,
the clock, the order in which Go walks a map and what other processes do are
arguments; freshness of identifiers is asked of the caller where Go draws them at
random (`FreshRecords`, `FreshJobId`, `FreshId`, `IdsFresh`). Text is its
sequence of characters, and strings are compared as Go compares their bytes.

## Model

| member | source | states |
|---|---|---|
| JobPreservation.NextKeeps | internal/state/local_store.go:129-881 | every store operation keeps the joint invariant of runs, jobs, tasks, events and logs |
| JobTraces.InvAlways | internal/state/local_store.go:925-940 | the invariant and the concurrency invariant hold in every state any interleaving of calls reaches from the empty store |
| JobTraces.RunsAndJobsAgree | internal/state/local_store.go:499-574 | a run has exactly one queued or running job while it is queued, running or resuming and none otherwise; a running job has a running run; a run waits for a human exactly when it owns one pending task, the one it names |
| JobTraces.EventsAgree | internal/state/local_store.go:1140-1149 | replaying the surviving events of a run that is not expired gives its state, of an expired one an active state; a job has as many numbered claim events as its attempt; event identifiers increase |
| JobTraces.EventIdsAreNeverReused | internal/state/local_store.go:1222-1228 | an event identifier names one event for ever, across pruning as well |
| JobTraces.SettledRunRefusesCompletions | internal/state/local_store.go:1122-1138 | a completion under any lease of a job whose run is not active is refused and changes nothing |
| JobOutcomes.IdleRunIsFrozen | internal/state/local_store.go:598-700 | a run that has settled or waits for a human is changed, with its jobs, by nothing but the call that reopens it; retention may remove it once it is terminal |
| JobTraces.CapAlways | internal/state/job_views.go:280-300 | the running jobs of a capped job's workspace and app that were claimed no later than it number at most its pinned cap, whatever caps the others pin |
| JobTraces.UniformCapAlways | internal/state/job_views.go:272-300 | when the running jobs of an app pin the same cap, no more than that many run at once |
| JobEffects.PinnedCapAlways | internal/state/job_views.go:272-300 | in terms of the pinned fields: a running job that pins the cap n, by its own field or by the deployment copy it carries, has at most n running jobs of its workspace and app that were claimed no later, in every reachable state |
| JobEffects.PinnedUniformly | internal/state/job_views.go:272-300 | if all running jobs of a workspace and app pin n, at most n run |
| JobEffects.ClaimExactly | internal/state/local_store.go:499-574 | a claim takes, by priority, age and identifier, the first of the jobs that wait or whose lease lapsed, whose tag and labels the worker serves, and whose cap leaves room, and leases it for 30 seconds unless told otherwise; it takes none exactly when there is none |
| JobEffects.HeartbeatExactly | internal/state/local_store.go:576-596 | a lease held by owner and attempt is renewed from now on, lapsed or not, and any other call changes nothing |
| JobEffects.AcceptedExactly | internal/state/local_store.go:1122-1138 | a completion is accepted exactly from the holder of a lease that has not run out, unless its task is there already |
| JobEffects.CompletionExactly | internal/state/local_store.go:598-700 | what an accepted completion reports goes to its job, run and task and nowhere else; a canceled job ends canceled |
| JobEffects.ResumeExactly | internal/state/local_store.go:702-757 | a resume needs a pending task and valid input; the task keeps the answer handed in, and the next job carries the run's input with that answer |
| JobEffects.RetryExactly | internal/state/local_store.go:841-881 | a retry reopens exactly a failed, canceled or expired run, blank, with a next job pinned to the run's deployment |
| JobEffects.CreateExactly | internal/state/local_store.go:129-169 | run and job are stored as handed in, dated, unless either identifier is taken |
| JobEffects.CancelJobExactly | internal/state/local_store.go:770-801 | what cancelling does to a queued, a running and any other job, in whose name, and what it reports |
| JobEffects.CancelRunExactly | internal/state/local_store.go:803-839 | a run that has not ended is stopped with its queued and running jobs and its pending tasks; all else stays |
| JobEffects.ExpireExactly | internal/state/local_store.go:1245-1282 | which runs and jobs expire, by state and by the time of their last update |
| JobEffects.PruneExactly | internal/state/local_store.go:1198-1243 | which runs go, by outcome and cutoff, and that what stays is unaltered |
| JobEffects.RetagExactly | internal/state/local_store.go:279-306 | which queued jobs take which tag |
| JobEffects.LogsExactly | internal/state/local_store.go:320-343 | chunks add up behind what the job has logged |
| JobEffects.TagsAreTrimmed | internal/state/job_views.go:302-318 | a claim serves the tags named, trimmed, without the blank ones |
| JobTraces.AttemptsIncrease | internal/state/local_store.go:548-567 | the attempts issued for a job are distinct and increase with time |
| JobTraces.OneCompletion | internal/state/local_store.go:598-700 | a job has at most one accepted completion in its life, whatever leases are presented |
| JobTraces.CompletionIsFromLatestAttempt | internal/state/local_store.go:1122-1138 | the accepted completion comes after every claim of the job and from the highest attempt issued |
| JobTraces.StaleLeaseStaysStale | internal/state/local_store.go:576-596 | once a lease is superseded or requeued all its later heartbeats report not owned and all its completions are refused |
| JobTraces.JobsEvolveAlways | internal/state/local_store.go:1097-1172 | a settled job record never changes again, attempts never repeat and a cancellation is never forgotten |
| JobOutcomes.HeartbeatRevivesLapsedLease | internal/state/local_store.go:576-596 | a heartbeat renews a lapsed lease that nothing has requeued, and the completion that was refused is then accepted |
| JobOutcomes.ExpiryInstant | internal/state/local_store.go:1097-1138 | at the very instant of expiry a lease can be completed and also be requeued |
| JobOutcomes.CancellationWins | internal/state/local_store.go:770-801 | after any step a running job that carries a cancellation is still there, running, or has failed with its run canceled or expired |
| JobOutcomes.CanceledStaysCanceled | internal/state/local_store.go:1151-1172 | over whole histories a job that carries a cancellation is never queued again and never succeeds |
| JobOutcomes.PickIsUnique | internal/state/local_store.go:536-547 | at most one answer is right for a claim: the least job by priority, creation and identifier among those admitted and below their cap |
| JobOutcomes.PruneIsExact | internal/state/local_store.go:1198-1243 | pruning removes exactly the terminal runs past their outcome's cutoff with exactly their jobs, logs, tasks and events, and leaves no dangling reference |
| JobOutcomes.PruneTwice | internal/state/local_store.go:1198-1243 | pruning again with the same cutoffs removes nothing |
| JobOutcomes.ExpireIsExact | internal/state/local_store.go:1245-1282 | expiry takes exactly the active runs none of whose records was updated since the cutoff, writes no event, and taken again with the same cutoff expires none |
| JobCap.CapKeeps | internal/state/job_views.go:280-300 | every operation keeps the concurrency invariant |
| JobEvolution.JobsEvolve | internal/state/local_store.go:499-881 | one step revives no settled job, repeats no attempt and forgets no cancellation; new jobs start queued at attempt 0 |
| JobStore.LocalStore.CreateRunAndEnqueue | internal/state/local_store.go:129-169 | stores run and job with two events, or reports a conflict and changes nothing |
| JobStore.LocalStore.RequeueExpiredJobs | internal/state/local_store.go:1097-1120 | requeues the jobs whose lease has lapsed, or cancels them, in whatever order the map is walked |
| JobStore.LocalStore.ClaimJobForWorker | internal/state/local_store.go:499-574 | hands out the one right pick under a lease that it then holds; it hands out none exactly when no queued job is admitted and below its cap, and then restores the state it started from, requeues included |
| JobStore.LocalStore.HeartbeatJob | internal/state/local_store.go:576-596 | extends exactly a lease that is still held and reports the cancellation of the job |
| JobStore.LocalStore.CompleteJobSucceeded | internal/state/local_store.go:598-626 | settles job and run, or cancels both if the job carries a cancellation, or refuses |
| JobStore.LocalStore.CompleteJobFailed | internal/state/local_store.go:628-657 | settles job and run as failed under the same rules |
| JobStore.LocalStore.CompleteJobWaitingHuman | internal/state/local_store.go:659-700 | parks the run on a new pending task under the same rules |
| JobStore.LocalStore.ResumeHumanTask | internal/state/local_store.go:702-757 | completes the pending task and queues the next job of the run |
| JobStore.LocalStore.CancelOneJob | internal/state/local_store.go:770-801 | cancels a queued job at once, marks a running one, and reports which of the two it did |
| JobStore.LocalStore.CancelWholeRun | internal/state/local_store.go:803-839 | settles the run, its active jobs and its pending tasks together |
| JobStore.LocalStore.Retry | internal/state/local_store.go:841-881 | reopens a failed, canceled or expired run with a new job |
| JobStore.LocalStore.PruneSettledJobs | internal/state/local_store.go:1198-1243 | the removal loops and the in-place compaction of the log do what pruning means and return the drop in jobs |
| JobStore.LocalStore.ExpireStuckJobs | internal/state/local_store.go:1245-1282 | the nested loops expire exactly the stuck runs and count them |
| JobStore.LocalStore.RequeueQueuedJobsForApp | internal/state/local_store.go:279-306 | retags exactly the queued jobs of the app whose tag changes and counts them |
| JobStore.LocalStore.AppendJobLogs | internal/state/local_store.go:320-343 | appends to the log of a job that exists |
| JobStore.LocalStore.Pick | internal/state/local_store.go:536-547 | the sorted scan picks the least claimable job, skipping capped ones |
| JobStore.LocalStore.MaxConcurrentReached | internal/state/job_views.go:280-300 | the counting loop answers whether the cap is reached |
| JobStore.CompactEvents | internal/state/local_store.go:1222-1228 | the in-place filter leaves exactly the surviving events, in order, at the front of the same buffer |
| JobStore.NormalizeTags | internal/state/job_views.go:302-318 | the loop keeps the trimmed tags and never the empty one |
| Paging.ListJobsFromRecords | internal/state/job_views.go:18-66 | the filter, sort and cut loops compute the list |
| Paging.HandleJobList | internal/server/jobs.go:19-48 | asking for one more than the page holds decides has_more and the next cursor |
| Paging.CursorRoundTrip | internal/server/jobs.go:636-657 | a cursor decodes to what was encoded exactly when its job identifier is a canonical UUID, and is refused otherwise |
| Paging.CursorSplits | internal/state/job_views.go:49-53 | the list asked for past one of its records is the rest of the list after that record |
| Paging.PagesAreTheList | internal/server/jobs.go:19-48 | for every filter and page size, following the cursors ends and the pages joined are the unpaged list, newest first and each job once, unless a page ends on an identifier no cursor can carry |
| ListingEffects.ListExactly | internal/state/job_views.go:18-66 | which records are listed, in terms of their fields and of the run and job states each filter word means, and in which order |
| ListingEffects.PageExactly | internal/server/jobs.go:19-48 | a page is the front of that list, says whether there is more, and points at its last record; sizes run from 1 to 500 and are 50 by default |
| Paging.OddIdentifierStopsPaging | internal/server/jobs.go:653-655 | with an identifier of the fallback generator at the end of a page the walk stops there, and the job behind it is never listed |
| Paging.OrderIsUnique | internal/state/job_views.go:56-61 | there is one list with given records in that order, so the order in which the map is walked does not show |
| JobSummary.Summarize | internal/state/job_views.go:68-130 | one pass yields the totals, a row for each tag and each app that has something to show, in order, and since when the oldest queued job waits |
| JobSummary.BreakdownAddsUp | internal/state/job_views.go:110-134 | the rows of each breakdown sum to the totals in all five counters, so an omitted row counted nothing |
| ListingEffects.CountsExactly | internal/state/job_views.go:136-158 | each of the five counters is the number of records in the states it is for, ended since the cutoff where that matters |
| WebhookInvariant.NextKeeps | internal/state/local_webhook.go:63-468 | every outbox operation, retention included, keeps the outbox invariant |
| WebhookTraces.OutboxAlways | internal/state/local_webhook.go:242-356 | in every reachable outbox a lease is held exactly while delivering, a completion time is set exactly in the three final states, and no delivery lacks its event or subscription |
| WebhookTraces.DeletedMeansSettledExactly | internal/state/local_webhook.go:130-156 | in a reachable outbox a deleted subscription has nothing pending or retrying exactly when no deletion so far missed a delivery, and always when the requests name workspaces free of "/" |
| WebhookTraces.StrandedExactly | internal/state/local_webhook.go:139-147 | over whole histories the deliveries that wait for a deleted subscription are exactly those a deletion missed, for ever after |
| WebhookInvariant.NextStrands | internal/state/local_webhook.go:63-468 | one step strands exactly what a deletion misses; no operation strands anything else or frees what is stranded |
| WebhookInvariant.DeletionIsComplete | internal/state/local_webhook.go:130-156 | after a deletion nothing waits under its key exactly when every delivery that waited there carried its workspace name |
| WebhookTraces.OtherSpellingStrands | internal/state/local_webhook.go:130-240 | from the empty outbox, testing and deleting one subscription under two spellings of its key strands the test delivery |
| WebhookTraces.DeletionCanMiss | internal/state/local_webhook.go:130-240 | two concrete histories of that kind, the right name used for the test in one and for the deletion in the other |
| WebhookTraces.AttemptNeverDecreases | internal/state/local_webhook.go:274-281 | a delivery's attempt never goes down and it stays with its event and subscription |
| WebhookTraces.OneResultPerAttempt | internal/state/local_webhook.go:291-329 | each attempt of a delivery has at most one accepted result |
| WebhookEffects.ClaimExactly | internal/state/local_webhook.go:242-289 | a claim takes the earliest due of the pending and retrying deliveries whose time has come and of those whose lease has run out, for a live subscription; it takes none exactly when there is none |
| WebhookEffects.LeaseIsExclusive | internal/state/local_webhook.go:250-258 | over whole histories: until it runs out, a lease ends by nothing but its own result |
| WebhookEffects.CompleteExactly | internal/state/local_webhook.go:291-329 | which results are accepted and what each leaves |
| WebhookEffects.RetryExactly | internal/state/local_webhook.go:331-356 | only a failed delivery of the workspace for a live subscription is queued again |
| WebhookEffects.TestExactly | internal/state/local_webhook.go:214-240 | a test delivery is queued exactly for a live subscription |
| WebhookEffects.EmitExactly | internal/state/webhook.go:194-221 | who receives a release event, by the subscriptions' fields, and what each new delivery says |
| WebhookEffects.CreateExactly | internal/state/local_webhook.go:63-88 | when a subscription is stored and what of the draft it says |
| WebhookEffects.UpdateExactly | internal/state/local_webhook.go:90-128 | when a subscription is changed and what of the draft it says |
| WebhookInvariant.CompleteKeeps | internal/state/local_webhook.go:303-322 | a retry reported after the subscription was deleted becomes a cancellation; any other result is recorded as it is |
| WebhookInvariant.DeletedDelivery | internal/state/local_webhook.go:130-156 | deleting a subscription cancels exactly the pending and retrying deliveries under its key that carry its workspace name |
| WebhookInvariant.KeyNamesOne | internal/state/webhook.go:85-87 | among workspace names free of "/" a subscription key names one workspace and one identifier |
| WebhookInvariant.FanOutIsExact | internal/state/webhook.go:194-221 | a release event adds exactly one pending delivery for each matching subscription and alters nothing else |
| WebhookInvariant.DeliveriesPersist | internal/state/local_webhook.go:242-356 | no operation but retention removes a delivery, and only a claim raises its attempt |
| WebhookInvariant.BatchKeeps | internal/state/local_webhook.go:391-468 | a retention batch leaves no delivery without its event or subscription |
| WebhookRetention.OneShotIsExact | internal/state/local_webhook.go:391-494 | the clean-up goal: no expired delivery, only referenced events, and only deleted, old, unreferenced subscriptions gone |
| WebhookRetention.BatchKeepsGoal | internal/state/local_webhook.go:391-468 | a batch of any size leaves the goal of the clean-up where it was |
| WebhookRetention.BatchIsBounded | internal/state/local_webhook.go:396-463 | a batch takes at most its size, takes no active delivery, and its counts are the drop in records |
| WebhookRetention.EmptyBatchMeansDone | cmd/windforce-core/webhook_retention.go:80-95 | a batch comes back empty exactly when the goal is reached |
| WebhookRetention.BatchIsDetermined | internal/state/local_webhook.go:402-461 | which records a batch takes depends on the outbox and the policy alone |
| WebhookEffects.BatchExactly | internal/state/local_webhook.go:391-468 | what a batch takes and in which order, by outcome, cutoff and age |
| WebhookRetention.CycleReachesOneShot | cmd/windforce-core/webhook_retention.go:79-96 | batches of any positive sizes, repeated until one is empty, end in the one-shot clean-up, within as many batches as there are records |
| WebhookStore.LocalOutbox.Create | internal/state/local_webhook.go:63-88 | prepares and stores a subscription unless it is invalid or its key or live name is taken |
| WebhookStore.LocalOutbox.Update | internal/state/local_webhook.go:90-128 | updates a live subscription unless the draft is invalid or another live one has the name |
| WebhookStore.LocalOutbox.Delete | internal/state/local_webhook.go:130-156 | the loop cancels what was waiting under the workspace and identifier of the request |
| WebhookStore.LocalOutbox.CreateTestDelivery | internal/state/local_webhook.go:214-240 | queues a test event for a live, enabled subscription |
| WebhookStore.LocalOutbox.ClaimDelivery | internal/state/local_webhook.go:242-289 | leases the earliest due delivery of a live subscription, or reports that there is none |
| WebhookStore.LocalOutbox.CompleteDelivery | internal/state/local_webhook.go:291-329 | records a result under exactly the lease that is held |
| WebhookStore.LocalOutbox.RetryDelivery | internal/state/local_webhook.go:331-356 | requeues a failed delivery of a live, enabled subscription |
| WebhookStore.LocalOutbox.PruneWebhookData | internal/state/local_webhook.go:391-468 | the three bounded loops take exactly one batch and report its counts |
| WebhookStore.LocalOutbox.FanOut | internal/state/local_catalog.go:41-45 | the loop over matching subscriptions is the exact fan-out |
| WebhookStore.RunRetentionCycle | cmd/windforce-core/webhook_retention.go:62-100 | the loop ends, and unless its budget ran out exactly the deliveries that ended longer ago than the duration for their outcome are gone, with what only they referred to; its totals are the records that went |
| CatalogInvariant.PublishKeeps | internal/state/local_catalog.go:13-49 | publishing files the release under its key, points at it, appends it to history and audit, and keeps agreement |
| CatalogEffects.PublishExactly | internal/state/local_catalog.go:13-49 | when a publication is accepted, and every field of the deployment, record, audit entry and marker it leaves |
| CatalogInvariant.RollbackIsExact | internal/catalog/release_rollback.go:92-127 | a rollback moves the pointer and deployment of one key to a record of that key, rewrites one marker and adds one audit record; history and candidates stay |
| CatalogEffects.RollbackExactly | internal/catalog/release_rollback.go:92-127 | every field of what a rollback leaves |
| CatalogEffects.RollbackRefusedExactly | internal/catalog/release_rollback.go:92-112 | with a record named, a rollback goes ahead exactly when it is not active already and its event is complete |
| CatalogEffects.RollbackNeedsRecord | internal/catalog/release_rollback.go:49-69 | and is refused when something is not said or no record of that workspace, app and identifier exists |
| CatalogEffects.AppTagExactly | internal/state/local_catalog.go:122-137 | where an override can be set and that only it and its time change |
| CatalogEffects.ActionTagExactly | internal/state/local_catalog.go:139-159 | the same for an action |
| CatalogEffects.NormalizeExactly | internal/catalog/release_rollback.go:129-158 | which defaults are filled in, and which record a missing pointer is set to: the last of its key with the deployment's identifier, or else its commit and bundle |
| CatalogEffects.CandidateExactly | internal/state/local_release_candidate.go:11-34 | the first candidate saved for a commit of a source stays |
| CatalogEffects.AuditExactly | internal/catalog/file_catalog.go:414-422 | a note is appended with a time and an identifier |
| CatalogInvariant.AppTagIsCosmetic | internal/state/local_catalog.go:122-137 | an app tag override changes nothing of a deployment that belongs to its release |
| CatalogInvariant.ActionTagIsCosmetic | internal/state/local_catalog.go:139-159 | an action tag override changes one action and nothing that belongs to the release |
| CatalogInvariant.NormalizeIsIdentity | internal/catalog/file_catalog.go:424-445 | on a catalog in agreement the normalisation around every operation does nothing |
| CatalogInvariant.NormalizeTwiceIsOnce | internal/catalog/release_rollback.go:129-145 | normalising, with its backfill of active pointers, is idempotent on every catalog whose deployments are filed under their own keys |
| CatalogTraces.ActiveReleaseAlways | internal/catalog/file_catalog.go:357-380 | in every reachable catalog each active pointer names exactly one history record, of the deployment's own workspace and app, and the deployment is that record's apart from tag overrides and timestamps |
| CatalogTraces.HistoryOnlyGrows | internal/catalog/file_catalog.go:95-120 | history and audit of an earlier state are prefixes of those of a later one |
| CatalogTraces.RollbackUndone | internal/catalog/release_rollback.go:92-127 | rolling back and then back again restores the pointer and the release |
| CatalogImport.ImportTwiceIsOnce | internal/catalog/file_catalog.go:447-490 | importing the same catalog twice is importing it once, for any two catalogs filed under their own keys |
| CatalogImport.ImportNeverReplaces | internal/catalog/file_catalog.go:447-490 | for catalogs filed under their own keys, an import replaces no deployment, non-blank pointer, candidate, marker or record of the target and brings no duplicates |
| CatalogEffects.MergeExactly | internal/catalog/file_catalog.go:447-490 | what a merge brings in is exactly what the target lacks, map by map and record by record |
| CatalogImport.ImportKeeps | internal/catalog/file_catalog.go:447-490 | importing an agreeing catalog into one whose deployments all have pointers keeps agreement |
| CatalogImport.ImportAgreesExactly | internal/catalog/file_catalog.go:424-490 | what an import commits agrees exactly when every pointer taken over fits the deployment already there, and for every deployment that neither catalog points at the latest record in the merged history that could have been published as it is its release |
| CatalogImport.AddedPointer | internal/catalog/release_rollback.go:129-145 | a pointer that normalisation adds is right exactly when the record the backwards search stops at is the release of the deployment |
| CatalogImport.MergeAgreesExactly | internal/catalog/file_catalog.go:455-464 | before the commit, the merge alone agrees exactly when each pointer taken over fits the deployment already there |
| CatalogImport.ImportCanMisassign | internal/catalog/file_catalog.go:455-464 | a concrete import that hands an old deployment the pointer of a newer release |
| CatalogImport.BackfillCanMisassign | internal/catalog/release_rollback.go:129-145 | a concrete import in which every pointer taken over fits and the one added at commit does not |
| CatalogStore.NormalizeDeploymentMap | internal/catalog/file_catalog.go:322-333 | in any map order every deployment is filed, with defaults, under its own key |
| CatalogStore.LocalCatalog.BackfillActiveHistoryIds | internal/catalog/release_rollback.go:129-145 | the backwards search gives each blank pointer the latest matching record of its key |
| CatalogStore.LocalCatalog.PublishRelease | internal/state/local_catalog.go:13-49 | release, event and deliveries are stored together or not at all |
| CatalogStore.LocalCatalog.RollbackRelease | internal/state/local_catalog.go:51-74 | rollback, event and deliveries are stored together or not at all |
| CatalogStore.LocalCatalog.SetAppTagOverride | internal/state/local_catalog.go:122-137 | sets the override or reports the missing deployment |
| CatalogStore.LocalCatalog.SetActionTagOverride | internal/state/local_catalog.go:139-159 | sets the override or reports what is missing |
| CatalogStore.LocalCatalog.ImportCatalog | internal/state/local_catalog.go:173-178 | merge and commit compute the import of the catalog with every deployment filed under its own key, in any map order |
| CatalogStore.LocalCatalog.MergeHistory | internal/catalog/file_catalog.go:470-480 | the loop with its set of identifiers appends each unknown record once |
| BundleEncoding.DecodeEncode | internal/executionbundle/store.go:274-342 | the hashed stream is uniquely decodable: a decoder recovers path, mode, kind, link target and contents of every entry |
| BundleEncoding.WalkIsInjective | internal/executionbundle/store.go:278-332 | two directories whose walks agree are the same directory |
| BundleEncoding.EqualStreamsMeanEqualTrees | internal/executionbundle/store.go:274-335 | for all trees, streams are equal exactly when the trees are, descriptor file apart |
| BundleEncoding.HashedExactly | internal/executionbundle/store.go:278-291 | leaving out the descriptor's entry loses nothing else: the entries hashed are equal exactly when the directories are, descriptor apart and with what a directory of its name hides |
| BundleEncoding.PlainnessIsHashed | internal/executionbundle/store.go:289-291 | a directory hidden under the descriptor's name shows in the stream |
| BundleStore.EncodesAs | internal/executionbundle/store.go:274-342 | the very bytes hashed of a file, a link and a directory |
| BundleStore.FilesAreCounted | internal/executionbundle/store.go:297-327 | the file count is the number of entries that are no directories |
| BundleStore.SizesAdd | internal/executionbundle/store.go:318-327 | the size is the sum over the entries |
| BundleStore.SizeOfOne | internal/executionbundle/store.go:318-327 | and of one entry the length of its contents if it is a file, and nothing otherwise |
| BundleStore.WalksAs | internal/executionbundle/store.go:278-290 | a directory comes before what is in it, under paths that name the way |
| BundleStore.HashTree | internal/executionbundle/store.go:274-335 | the walk feeds the hash exactly the stream and counts files and bytes |
| BundleStore.EqualDigestsMeanEqualTrees | internal/executionbundle/store.go:263-266 | for any hash function, digests are equal exactly when the trees are or the hash collides on their streams |
| BundleStore.PublishesExactly | internal/executionbundle/store.go:47-109 | publishing succeeds exactly when the source hashes and its bundle verifies in the store, or is absent and a faithful copy finds its place free or a descriptor already there; what is returned always carries the digest of the source |
| BundleStore.FetchesExactly | internal/executionbundle/store.go:147-185 | a fetch succeeds exactly when the bundle verifies, the destination is allowed and the copy has the digest, and only then replaces the destination |
| BundleStore.FetchedIsPublished | internal/executionbundle/store.go:47-185 | end to end: after a publication, new or replayed, whatever the store becomes, a fetch of its digest that succeeds leaves the published tree, or a collision is exhibited |
| BundleStore.PublishedCanBeFetched | internal/executionbundle/store.go:47-185 | a bundle just stored and left alone is fetched with its descriptor by any faithful copy, or a collision is exhibited |
| BundleStore.PublishedVerifies | internal/executionbundle/store.go:125-145 | what was just published verifies with the same descriptor, or a collision is exhibited |
| BundleStore.LocalStore.Publish | internal/executionbundle/store.go:47-109 | the whole outcome of a publication: answer, error in the order of the checks, and store |
| BundleStore.LocalStore.Verify | internal/executionbundle/store.go:125-145 | verification reports the stored descriptor exactly when digest and counts match the stored tree |
| BundleStore.VerifiesExactly | internal/executionbundle/store.go:125-145 | a bundle verifies exactly when a tree is stored with a descriptor for the digest, hashes to it and has the count and size it says |
| BundleStore.DigestExactly | internal/executionbundle/store.go:249-258 | what is a digest: "sha256:" and 64 hexadecimal digits |
| BundleStore.LocalStore.FetchTo | internal/executionbundle/store.go:147-185 | the whole outcome of a fetch: answer, error in the order of the checks, and destination |
| AdmissionModel.PreimageIsInjective | internal/execution/service.go:305-308 | the bytes hashed into a run identifier name one workspace, app, action, key and client when the first four are free of NUL |
| AdmissionModel.KeyCanImpersonateClient | internal/execution/service.go:137-141 | a key that contains NUL can spell out another request's client |
| AdmissionModel.KeyImpersonatesExactly | internal/execution/service.go:137-141 | a key that contains NUL is taken for a request whose key does not exactly when what follows its first NUL spells out a client |
| AdmissionModel.SharedPreimage | internal/execution/service.go:137-141 | some other request has the same bytes exactly when this one names a client or its key spells one out |
| AdmissionProtocol.AgreedAlways | internal/execution/service.go:137-229 | every step of any interleaving keeps the callers of one key agreed on one run and one first job |
| AdmissionProtocol.OneRunPerKey | internal/execution/service.go:137-229 | callers sharing a key that are admitted all get the one run and its one earliest job, and at most one is told it is not a replay |
| AdmissionProtocol.AnswersStayRight | internal/execution/service.go:142-149 | an answer stays right: retries and resumes never change which job is the earliest while the run is not pruned |
| AdmissionProtocol.EveryMoveAnswers | internal/execution/service.go:142-229 | what each move of a caller yields: while the run is there a lookup answers with its first job and a creation turns into another lookup, and otherwise the caller creates the run and is told so |
| AdmissionProtocol.NewJobs | internal/state/local_store.go:702-757 | only creations, resumes and retries add a job, and the last two date it now |
| AdmissionService.SelectEarliest | internal/state/local_store.go:220-239 | the selection loop finds the run's earliest job of the workspace |
| AdmissionModel.EarliestExactly | internal/state/local_store.go:191-239 | the earliest is the first created, and of those created together the one with the least identifier |
| AdmissionService.GetJobByRunId | internal/state/local_store.go:191-239 | the two loads return that job with its run |
| AdmissionService.CreateRun | internal/execution/service.go:137-229 | a run that is there is replayed and the store left alone; one that is not is created |
| InputLayers.ApplyInputOverlay | internal/state/input_config.go:27-48 | the loops lay the layers under the request and list the locked keys it sets, sorted |
| InputLayers.ResolveInputConfigs | internal/state/input_config.go:50-74 | the sorted layers resolve to the effective object, the request itself when no settings apply, or an error |
| InputLayers.EffectiveValue | internal/state/input_config.go:27-85 | each key has the request's value if it sets it and otherwise that of the setting that goes before the others: a client's before everybody's, and among those an action's before the app's; no other key appears |
| InputLayers.RefusedExactly | internal/state/input_config.go:50-74 | resolution fails exactly when settings apply and the request is no object or sets locked keys, and names those |
| InputLayers.SecondResolve | internal/server/worker_plane.go:205-208 | resolving a result again is the identity when nothing is locked and is otherwise refused on exactly the union of the locked keys |
| InputLayers.ResolvingAgain | internal/server/worker_plane.go:205-208 | against settings changed since, it is the identity exactly when they lock none of its keys and set no key it lacks |
| InputLayers.LaterSettingsReachQueuedJobs | internal/server/worker_plane.go:205-208 | a concrete setting stored after admission that alters a queued job when it is claimed remotely |
| InputLayers.NormalizedLockedKeys | internal/state/input_config.go:175-194 | locked keys come back trimmed, sorted and once each, and are refused when empty or absent from the config |
| InputLayers.SettingsStore.Set | internal/state/local_input_config.go:55-107 | a setting is stored only with locks on keys it sets |
| InputLayers.SettingsStore.Delete | internal/state/local_input_config.go:109-126 | exactly the named setting goes |
| InputLayers.SettingsStore.Applicable | internal/state/local_input_config.go:157-168 | the settings selected are exactly those that apply, at most one of each rank |
| InputLayers.FourApply | internal/state/local_input_config.go:157-168 | of what is stored exactly the four settings for app, action, client app and client action apply |
| WorkerPlane.ResolveInput | internal/state/local_input_config.go:148-170 | the settings that apply are layered under the request, and an unknown client is refused |
| WorkerPlane.Claim | internal/server/worker_plane.go:180-239 | a remote claim hands out the job it leased with an input that resolved, or settles that job as failed, or changes nothing |
| RateLimiter.TokensStayInRange | internal/server/public_api.go:42-59 | for every sequence of calls the tokens stay between 0 and the burst |
| RateLimiter.RemembersLatest | internal/server/public_api.go:48-53 | the time the limiter remembers is the latest it has seen |
| RateLimiter.AdmissionBound | internal/server/public_api.go:42-59 | in every contiguous stretch the calls admitted number at most the burst plus the rate times the advance of the latest time seen |
| RateLimiter.BurstAtOnce | internal/server/public_api.go:54-58 | calls at one instant are admitted up to the whole tokens there are, and not one more |
| RateLimiter.CallExactly | internal/server/public_api.go:42-59 | a call is admitted exactly when a whole token is there, counting what the time since has brought up to the burst, and takes it |
| RateLimiter.AdmittedTogether | internal/server/public_api.go:48-58 | after any idle stretch, calls made together are admitted up to the whole tokens available then |
| RateLimiter.SpacedCallsAreAdmitted | internal/server/public_api.go:48-58 | calls at least a second divided by the rate apart are all admitted |
| RateLimiter.NewExactly | internal/server/public_api.go:32-40 | rate, burst and tokens of a new limiter |
| RateLimiter.RequestRateLimiter.constructor | internal/server/public_api.go:32-40 | a new limiter starts full, with the defaults for a rate or burst that is not positive |
| RateLimiter.RequestRateLimiter.Allow | internal/server/public_api.go:42-59 | each call spends a token or is refused, and keeps the bucket valid |
| Text.NormalizeTwice | internal/contract/contract.go:300-306 | normalising a workspace name is idempotent and never yields the empty name |
| Text.TrimExactly | internal/contract/contract.go:300-306 | trimming takes the spaces at both ends and nothing else |

## Left out

- PostgreSQL stores, HTTP routing and handlers, command line, Web UI, git and subprocess execution: plumbing around the logic modelled here.
- The lock file, stale-lock removal and JSON persistence of the local store: `update` is one atomic step that commits or changes nothing; sharing of maps between records inside one step is cut by persistence and not modelled.
- Cryptography and JSON text: inputs, results and settings are opaque values, encryption is the identity, and whether a text is valid JSON or an object is part of the argument.
- Audit records other than those of the release catalog, correlation identifiers, environment, schemas of runs and jobs: data that is stored and never decides anything modelled here.
- The deployment pinned into a run is reduced to what claiming and cancelling read: workspace, effective route tag, cap and required labels.
- Release events carry only identifier, type and app; their payloads and the previous release they mention are not modelled, nor are signatures and sending.
- The expiry reason names the cutoff as a number where the code formats a time.
- copyTree, validateSymlink and the path checks of FetchTo: the trees they produce and the destination verdict are arguments, because no theorem depends on them. A file that changes while it is hashed is not modelled.
- Base64 and the textual form of times are a codec that decodes what it encoded.
- A limiter that does not exist refuses every call; only an existing one is modelled. Durations do not saturate and arithmetic does not round.
- Admission's lookups between its two store calls (deployment, settings, schemas) are one step that may give up.
- FileCatalog's own file, its lost-update window between loading and writing, and the candidate called latest.
- Source operation leases, tree digests of sources, workspaces, clients, variables, resources and workers: outside the cores above.
- WebhookStore.LocalOutbox.Create: whether the endpoint and the signing secret of a subscription pass their checks is an argument, here and in WebhookStore.LocalOutbox.Update; event types and application filters are sets.
- WorkerPlane.Claim: the claim and the failing completion are separate store calls in the code and follow each other here; what others may do in between is covered by `JobTraces`.
- AdmissionModel.SharedPreimage: for workspace names free of NUL; with one that contains NUL, part of the name can pass for an application.
- CatalogImport.ImportTwiceIsOnce: `Normalize` is NormalizeSnapshot of a catalog whose deployments are filed under their own keys, as every stored one is; of an imported one that is not, `CatalogStore.LocalCatalog.ImportCatalog` says what is imported instead, and where two deployments map to one key that may differ from one import to the next.
- CatalogImport.ImportAgreesExactly: asks that records with the same identifier in both catalogs are the same record.
- CatalogTraces.ActiveReleaseAlways: an import in the history is one of a catalog that is itself in agreement and shares records under shared identifiers; CatalogImport.ImportNeverReplaces and CatalogImport.ImportTwiceIsOnce ask for neither.
- AdmissionProtocol.OneRunPerKey: the histories are those in which the run is not pruned, each step has a later time than the one before and a new job is dated no later than the step that stores it.
