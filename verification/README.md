# Verified model of the backend's stateful core

The backend collects policies, stores their versions and files, has them evaluated, lets owners
confirm or override the conclusion, turns a policy into an application project, and notifies people
of what happened. This project models that core in Dafny and proves what holds on **every run**:
any number of workers and owners, any interleaving of their transactions, workers that stall or die
between claiming and reporting, any answer of the provider or the model.

Each of the five components follows one pattern.

* A specification module holds the tables as values and each row-locked transaction as a total
  function `State -> (State, Reply)`, error branches included. An exception leaves the tables as
  they were. `now`, `today`, locked rows, provider answers, file and database failures are
  parameters; a primary key is a row's position, but a policy's in
  ingestion is a counter that no rollback takes back; `uuid4` is a counter.
* Invariant modules prove what every transaction keeps; `*Runs` modules prove the theorems over
  every run of transactions, starting from empty tables.
* `*Outcomes` modules prove what each transaction decides and writes in every reachable state, from
  the tables and the request: decisions, constants and statuses are written out there instead of
  being taken from the specification.
* A service module holds the class as the source writes it: fields assigned step by step, loops,
  early returns, rollback. Each method is proved to be its transaction function.

| component | specification | proofs | class |
|---|---|---|---|
| Notification outbox | `Outbox` | `OutboxLedger`, `OutboxRuns`, `OutboxEvents`, `OutboxOutcomes` | `OutboxService` |
| Evaluation decision loop | `Evaluations` | `EvaluationResults`, `EvaluationProjection`, `EvaluationPrimaries`, `EvaluationRuns`, `EvaluationOutcomes`, `EvaluationWitness` | `EvaluationService` |
| Project ledger | `Workflow`, `ProjectLedger` | `ProjectHistory`, `ProjectEvents`, `ProjectRuns`, `ProjectOutcomes`, `ProjectWitness` | `ProjectService` |
| Policy ingestion | `Normalize`, `PercentEncoding`, `AttachmentNames`, `Ingestion` | `IngestionIdentity`, `IngestionKeys`, `IngestionFiles`, `IngestionExact`, `IngestionRuns`, `IngestionFaults`, `IngestionOutcomes`, `IngestionWitness` | `IngestionService` |
| Source health | `Collection` | `CollectionHealth`, `CollectionOutcomes` | `CollectionService` |

The components meet: the project ledger and source health write into the outbox and the theorems
about their notifications are about the outbox as its workers change it; the evaluation invariants
make an error branch of conversion unreachable.

`dafny verify dfyconfig.toml` checks the whole project.

## What the proofs found

The first seven come with their exact condition, in terms that can be looked up before the call, and
the first six with a short run from the empty tables that ends in them (the `*Witness` modules).

* The pre-termination search orders by `occurred_at`, so a clock that runs backwards between two
  terminations of one project can bring a submitted project back to pending
  (`BackwardsClockMisleads`). The search answers correctly exactly under the condition of
  `TerminationSearchExact`; a submitted project stays submitted exactly under that of
  `NeverUnsubmittedExact`. No other theorem about projects supposes anything of a clock.
* A terminated project's submission date can be cleared, and restoring `submitted` then violates a
  CHECK constraint (`RestorationIsRefused`). Apart from an update to a blank name that is the only
  step that does (`CheckAbortsExactly`), and the update endpoint trims names and refuses blank ones
  (backend/app/modules/projects/schemas.py:54-67).
* A confirmation sets the current-batch pointer unconditionally (`PointerGoesBack`);
  `PointerMovesBack` says exactly when it moves to an older batch.
* `ingest_and_mark_task_item` releases its lock inside the `try`, after the commit. If the release
  fails after a new version was committed, the cleanup deletes files that committed rows refer to
  (`MarkKeepsFilesExact`, `ReleaseFailureLosesFiles`, `ReleaseFailureRemovesSnapshot`). `ingest` does
  not do this.
* The same method cleans up after it has given up the lock, so an ingestion in between may meet an
  existing path, but only that of a known policy's next snapshot (`CollisionsAreCleanups`,
  `CleanupBlocksIngestion`).
* A write that fails after its rename (the directory is synchronised after it) leaves a file that
  nobody removes (`IngestKeepsFilesExact`); if it was the snapshot of a known policy, that policy
  never gets another version (`LateWriteFailureBlocks`, `LateFailureBlocks`).
* `_canonical_component` is idempotent exactly when no stray `%` captures two digits that follow it,
  bare or escaped (`IdempotentExact`); `%%341` becomes `%41` and then `A`.
* Content that goes A, B, A leaves B current while the policy row takes A's title
  (`RevertKeepsCurrent`).

## Model

| member | source | states |
|---|---|---|
| OutboxRuns.EveryRunKeepsLedger | backend/app/modules/notifications/service.py:173-358 | On every run a delivery's attempts are numbered exactly 1..attempt_count; only the last may be open, and it is open iff the delivery is sending, iff it holds a claim token; version = 1 + attempts + finished attempts + retried rounds |
| OutboxLedger.StepKeeps | backend/app/modules/notifications/service.py:148-358 | Every transaction keeps the ledger invariant of all rows and never answers "attempt state is inconsistent" or meets a duplicate attempt |
| OutboxLedger.RecoverRow | backend/app/modules/notifications/service.py:277-304 | Recovery of all stale claims at once keeps each row's ledger |
| OutboxRuns.ErrorsUnreachable | backend/app/modules/notifications/service.py:320-332 | The inconsistent-attempt error and a duplicate attempt are unreachable in every interleaving |
| OutboxRuns.AtMostOneSuccess | backend/app/modules/notifications/service.py:225-255 | At most one attempt of a delivery ever succeeds, it is the last one, sent_at is its end, and sent_at is set iff the delivery succeeded |
| OutboxRuns.RoundsOnEveryRun | backend/app/modules/notifications/service.py:28-28 | At most 4 attempts per round and 4 per send round in all; attempt 1 is the only initial one; automatic retries waited 60, 300 or 1800 seconds by their place in the round; manual retries number the reopened rounds |
| OutboxRuns.RowHistory | backend/app/modules/notifications/service.py:164-171 | A step leaves a row and its attempts alone or adds exactly one to its version; its event never changes |
| OutboxRuns.AttemptsChangeWithRow | backend/app/modules/notifications/service.py:320-358 | A row that keeps its contents keeps its attempts |
| OutboxRuns.EventsAreFrozen | backend/app/modules/notifications/service.py:42-79 | Event and snapshot of a delivery are those of its first enqueueing for ever; versions never go back |
| OutboxRuns.SentIsFinal | backend/app/modules/notifications/service.py:148-163 | A sent delivery and its attempts never change again |
| OutboxRuns.LateReportsChangeNothing | backend/app/modules/notifications/service.py:306-318 | A report with a superseded token is refused and changes nothing, after any run |
| OutboxRuns.EndedClaimsAreSuperseded | backend/app/modules/notifications/service.py:225-304 | A held claim stays or is superseded by every step; its own report is accepted and ends it |
| OutboxRuns.OneRetryPerVersion | backend/app/modules/notifications/service.py:148-171 | A version can be spent on one manual retry only |
| OutboxRuns.EnqueueOnce | backend/app/modules/notifications/service.py:42-79 | Enqueueing a key again, any run later, returns the same row and keeps the first event |
| OutboxRuns.WorkerStepDrops | backend/app/modules/notifications/service.py:173-358 | Every worker step that changes a row strictly lowers the total measure |
| OutboxRuns.ChangeShowsInRow | backend/app/modules/notifications/service.py:277-304 | A worker step that changes no delivery row changes nothing at all |
| OutboxRuns.WorkersSettle | backend/app/modules/notifications/service.py:173-358 | A run of workers without enqueueing or manual retry has at most 8 effective steps per delivery |
| OutboxRuns.PollProgresses | backend/workers/notifier.py:87-96 | While a delivery is unfinished, a poll after the longest delay always makes progress |
| OutboxRuns.PollingDrains | backend/workers/notifier.py:78-124 | Whatever the provider answers and whichever workers die between polls, enough polls finish every delivery |
| OutboxRuns.QuietMeansDone | backend/workers/notifier.py:87-96 | A state in which no poll at any time can do anything has every delivery succeeded or failed |
| OutboxOutcomes.GivenUpExactly | backend/app/modules/notifications/service.py:334-358 | On every run a delivery whose last attempt failed is given up iff that failure was permanent or was the fourth attempt of its round; otherwise it waits 60, 300 or 1800 seconds from the end of its first, second or third |
| OutboxOutcomes.RetriesPause | backend/app/modules/notifications/service.py:28-28 | An automatic retry follows a failure that was not permanent, at place 1, 2 or 3 of the round, and starts no sooner than its pause after it |
| OutboxOutcomes.FailureExact | backend/app/modules/notifications/service.py:257-275 | A failure report is accepted iff its token is the one the delivery holds; then attempt and delivery take the reported outcome, codes and summary, the delivery waits iff the failure is not permanent and is not the fourth of its round, and no other row changes |
| OutboxOutcomes.SuccessExact | backend/app/modules/notifications/service.py:225-255 | A success report is accepted iff its token is the one the delivery holds; then the attempt takes its end and codes, sent_at is that end, and no other row changes |
| OutboxOutcomes.RecoveryExact | backend/app/modules/notifications/service.py:277-304 | Recovery fails exactly the unlocked claims that are at least 300 seconds old, as uncertain, and leaves every other delivery alone |
| OutboxOutcomes.RecoveryCounts | backend/app/modules/notifications/service.py:277-304 | On every run recovery answers with the number of those claims |
| OutboxOutcomes.ClaimExact | backend/app/modules/notifications/service.py:173-223 | A claim is idle iff no unlocked delivery is pending or due; otherwise it takes the soonest, pending ones first, under a token no claim holds, and opens an attempt that is initial, manual or automatic by what the delivery was |
| OutboxOutcomes.RetryExact | backend/app/modules/notifications/service.py:148-171 | A manual retry is accepted iff the delivery has failed and the version is the current one, and changes status, round and version of that row only |
| OutboxOutcomes.EnqueueExact | backend/app/modules/notifications/service.py:42-79 | A known key adds nothing; a new one adds one delivery that is due at any time and has no attempt |
| OutboxOutcomes.PassExact | backend/workers/notifier.py:78-124 | One pass recovers, then claims, and reports iff it claimed: the delivery and token it claimed, as sent iff the provider said success, with the provider's result, or as uncertain if the adapter raised |
| OutboxService.RecoverOne | backend/app/modules/notifications/service.py:277-304 | Recovering row by row is recovering all stale rows at once |
| OutboxService.NotificationService.EnqueueEvent | backend/app/modules/notifications/service.py:42-79 | A known key returns its row and changes nothing; a new one adds one pending row that freezes the event |
| OutboxService.NotificationService.Retry | backend/app/modules/notifications/service.py:148-171 | Reopens exactly a failed, unsent delivery at the expected version: next round, no round attempts, version + 1; otherwise changes nothing and says why |
| OutboxService.NotificationService.Claim | backend/app/modules/notifications/service.py:173-223 | Leases the first due unlocked delivery (nulls first, then next attempt, creation, id) under a fresh token and opens its next attempt with the trigger of its round |
| OutboxService.NotificationService.Complete | backend/app/modules/notifications/service.py:225-255 | A success report closes attempt and delivery for the holder of the live token only |
| OutboxService.NotificationService.ApplyFailure | backend/app/modules/notifications/service.py:334-358 | Closes the open attempt and schedules the next one by the delay table, or fails the delivery when the outcome is permanent or the round is spent (GivenUpExactly: and only then) |
| OutboxService.NotificationService.Fail | backend/app/modules/notifications/service.py:257-275 | A failure report is applied for the holder of the live token only; a success outcome is refused |
| OutboxService.NotificationService.RecoverStale | backend/app/modules/notifications/service.py:277-304 | The loop fails every stale claim as uncertain and counts them; one inconsistent ledger aborts it whole |
| OutboxService.RunOnce | backend/workers/notifier.py:78-124 | One pass of the worker is a run of recover, claim and at most one report of the provider's outcome, so every theorem about runs covers it |
| EvaluationRuns.ExactlyOnceResults | backend/app/modules/evaluations/service.py:230-339 | On every run a batch has one row for each of the three entities and a raw response iff it awaits confirmation or is confirmed, none otherwise; a confirmation iff it is confirmed |
| EvaluationRuns.HeldAnswersComplete | backend/app/modules/evaluations/service.py:230-339 | A valid answer for a held claim is always stored |
| EvaluationRuns.SettledIsFinal | backend/app/modules/evaluations/service.py:162-220 | Failed, cancelled and confirmed batches never change; a stored response is never replaced |
| EvaluationRuns.LateWorkersChangeNothing | backend/app/modules/evaluations/service.py:230-372 | A worker whose claim was lost changes nothing, however late it answers or fails |
| EvaluationRuns.EndedClaimsAreLost | backend/app/modules/evaluations/service.py:162-220 | Reclaim, cancellation, failure and completion each lose the token |
| EvaluationResults.StepKeepsResults | backend/app/modules/evaluations/service.py:43-372 | Every transaction keeps batches, entity rows, confirmations and claim tokens consistent |
| EvaluationRuns.ProjectionIsFold | backend/app/modules/evaluations/service.py:303-321 | The policy row is a fold of the logs: the last manual override, else the last confirmation, else the highest finished batch, else pending; confirmed flag and time follow the same source |
| EvaluationProjection.StepKeepsProjection | backend/app/modules/evaluations/service.py:577-664 | Every transaction keeps the projection equal to the fold and each override's recorded previous conclusion true |
| EvaluationRuns.SourceNeverMovesBack | backend/app/modules/evaluations/service.py:493-503 | On any run the source of a conclusion only gets stronger, and a confirmed policy stays confirmed |
| EvaluationRuns.PointerMovesBack | backend/app/modules/evaluations/service.py:530-530 | A step moves the pointer to an older batch iff it confirms an older batch of the policy that has no confirmation yet and passes every check of a confirmation |
| EvaluationWitness.PointerGoesBack | backend/app/modules/evaluations/service.py:530-530 | A run from the empty tables that confirms the younger of two finished batches first; confirming the older one moves the pointer back |
| EvaluationRuns.PrimaryChains | backend/app/modules/evaluations/service.py:743-775 | Each policy's primary-entity decisions form a list: all but the last superseded, neighbours name different entities, every later one carries a reason that is not blank once stripped |
| EvaluationRuns.OfIsTheTable | backend/app/modules/evaluations/service.py:787-810 | A policy's list holds exactly its rows of the decision table |
| EvaluationPrimaries.AppointExtends | backend/app/modules/evaluations/service.py:743-775 | An appointment ends the last link of its own chain, adds one, and leaves all other chains |
| EvaluationPrimaries.CurrentIsLast | backend/app/modules/evaluations/service.py:743-747 | The current row of a policy is the last of its chain |
| EvaluationRuns.ConfirmedRecommendationHasPrimary | backend/app/modules/evaluations/service.py:432-460 | A policy confirmed as recommend_apply has exactly one current row in the decision table, and it is the last of its chain |
| EvaluationPrimaries.OneCurrentRow | backend/app/modules/evaluations/service.py:743-775 | Two current rows of one policy are the same row |
| EvaluationRuns.OrderIsNoChange | backend/app/modules/evaluations/service.py:555-575 | Confirmed values that differ only in the order of entities normalise alike |
| EvaluationOutcomes.ReconfirmationExact | backend/app/modules/evaluations/service.py:407-427 | Once a batch is confirmed, any run later, a confirmation of it changes nothing; it is answered quietly iff conclusion, summary, key conditions and the multiset of entities are those first confirmed and, for a recommendation, the primary entity is too; other values conflict; another primary entity is required, not eligible or a conflict |
| EvaluationOutcomes.ConfirmationExact | backend/app/modules/evaluations/service.py:374-464 | On every run a batch that is not confirmed answers a confirmation by five conditions on its row, the policy's current primary rows and the input, in the source's order, and is confirmed iff none of them holds; every refusal changes nothing |
| EvaluationOutcomes.ConfirmationWrites | backend/app/modules/evaluations/service.py:466-553 | A first confirmation writes exactly: the confirmed values with stripped reason, a decision whose previous conclusion is the model's, the projected columns unless a manual override stands, the pointer, the batch, and a primary row iff it names another entity, with the legal name of the batch's profile |
| EvaluationOutcomes.AdjustmentExact | backend/app/modules/evaluations/service.py:609-678 | On every run an override is accepted iff the policy exists, the reason says something, the pointed-at batch is confirmed and a recommendation has a current primary row; it then writes exactly the override and its decision |
| EvaluationOutcomes.SelectionExact | backend/app/modules/evaluations/service.py:708-785 | On every run a selection is accepted iff the pointed-at batch is confirmed, the entity is one of the three, no current row names it, and a change from another one states a reason; the new row takes the legal name from that batch's profiles and every former current row of the policy is superseded |
| EvaluationOutcomes.ProcessExact | backend/app/modules/evaluations/service.py:230-339 | On every run the holder of the live token completes its batch iff the answer has three entities covering all three codes, else fails it; a completed answer is stored whole, and the policy follows it by pointer and source; anybody else changes nothing |
| EvaluationOutcomes.ClaimExact | backend/app/modules/evaluations/service.py:191-220 | A claim takes the first unlocked batch that is pending or whose claim is at least 900 seconds old, under a token no batch holds; idle iff there is none |
| EvaluationOutcomes.CancelExact | backend/app/modules/evaluations/service.py:162-189 | Pending and running batches are cancelled with the stripped reason and lose their token; a cancelled one stays; others conflict |
| EvaluationOutcomes.EnqueueExact | backend/app/modules/evaluations/service.py:43-102 | A batch is created iff the three entities come in their order, a rule is published and the version exists |
| EvaluationService.Service.EnqueueBatch | backend/app/modules/evaluations/service.py:43-102 | Adds one pending batch exactly when the three configured entities are present in order and a rule is published |
| EvaluationService.Service.CancelBatch | backend/app/modules/evaluations/service.py:162-189 | Cancels a pending or running batch and drops its token; cancelling again changes nothing; any other status is refused |
| EvaluationService.Service.Claim | backend/app/modules/evaluations/service.py:191-220 | Leases the first unlocked batch that is pending or stale under a fresh token, so that the token of a stalled worker dies |
| EvaluationService.Service.Fail | backend/app/modules/evaluations/service.py:341-372 | Fails the batch for the holder of its token; anyone else changes nothing |
| EvaluationService.Service.Process | backend/app/modules/evaluations/service.py:230-339 | For the holder of the token stores response, rows and suggestion together or fails the batch; the pointer moves forward only and a confirmed conclusion is not touched |
| EvaluationService.Service.AppendDecision | backend/app/modules/evaluations/service.py:577-607 | Logs a decision and, when it counts, moves conclusion, source, flag and time together |
| EvaluationService.Service.RecordConfirmation | backend/app/modules/evaluations/service.py:466-553 | Writes confirmation, decision, primary entity, status and pointer of one confirmation; a manual override keeps its projection |
| EvaluationService.Service.ConfirmBatch | backend/app/modules/evaluations/service.py:374-553 | Confirms an awaiting batch once; the same values again change nothing, others conflict (ReconfirmationExact); every refusal leaves the tables alone and comes in the source's order (ConfirmationExact) |
| EvaluationService.Service.Adjust | backend/app/modules/evaluations/service.py:609-678 | Overrides a confirmed policy's conclusion with a reason and a logged previous conclusion; a recommendation needs a primary entity |
| EvaluationService.Service.SelectPrimaryEntity | backend/app/modules/evaluations/service.py:708-785 | Replaces the primary entity by an eligible other one with a reason; the same one again changes nothing |
| Sorting.SortForgetsOrder | backend/app/modules/evaluations/service.py:567-575 | Sorting by a distinct key forgets the order of its input and nothing else |
| Workflow.TransitionKeepsOwnership | backend/app/modules/projects/workflow.py:64-113 | A transition keeps which columns each status owns and submitted_on <= result_on <= today |
| Workflow.CorrectionOwnershipExact | backend/app/modules/projects/workflow.py:116-157 | A correction keeps ownership iff it does not restore a submission whose date was cleared |
| Workflow.TransitionsAreLegal | backend/app/modules/projects/workflow.py:14-20 | A move is in the transition table iff some payload makes the rules take it |
| Workflow.CorrectionsAreLegal | backend/app/modules/projects/workflow.py:116-157 | A correction is offered iff some payload and history make the rules take it |
| Workflow.TransitionAcceptsExactly | backend/app/modules/projects/workflow.py:64-113 | A transition is accepted iff it is legal and leaves a well-formed row, and then leaves exactly the asked-for columns, dated by its own event |
| Workflow.CorrectionAcceptsExactly | backend/app/modules/projects/workflow.py:116-157 | So is a correction, except that a restoration is checked against the history only |
| ProjectHistory.UpdateAcceptsExactly | backend/app/modules/projects/service.py:499-529 | An update is accepted iff it leaves a named, well-formed project and touches result and termination columns only where the status owns them |
| ProjectRuns.HistoryIsChain | backend/app/modules/projects/service.py:433-467 | Whatever the clocks say, each history starts with created 0->1, links by status and version through legal moves and ends in the project's status; the termination search answers an open status or nothing |
| ProjectRuns.SearchIsRight | backend/app/modules/projects/service.py:410-423 | On every run whose clock does not go back on this one project: the search answers the status that was left, and a submitted project is never pending again |
| ProjectRuns.NeverUnsubmittedExact | backend/app/modules/projects/service.py:385-423 | On every run, whatever its clocks say: once submitted a project is never pending again and terminated from submitted only, iff no step is a correction to pending, at the current version and by a user who may, of a terminated project that was submitted and for which the search answers pending |
| ProjectHistory.SubmissionLostExactly | backend/app/modules/projects/service.py:385-423 | A single step breaks that promise iff it is such a correction |
| ProjectHistory.SearchFindsOpenStatus | backend/app/modules/projects/service.py:410-423 | On any chain and under any clock the search answers pending, submitted or nothing, never a result |
| ProjectHistory.TerminationSearchExact | backend/app/modules/projects/service.py:410-423 | For any history and clock: the search finds the status left iff no earlier termination carries a later time or the newest such one left the same status |
| ProjectWitness.BackwardsClockMisleads | backend/app/modules/projects/service.py:410-423 | A run from the empty tables whose clock falls back between two terminations of a project: the correction refuses to restore the submission and brings the submitted project back to pending |
| ProjectHistory.StepKeepsLedger | backend/app/modules/projects/service.py:361-481 | Every step, whatever its clock reading, keeps every project's history a legal chain that ends in its status at or below its version |
| ProjectRuns.FieldsAreOwned | backend/app/modules/projects/workflow.py:31-62 | In every reachable state each status owns exactly its columns, the dates are ordered and none is later than the latest day a step of this project has read, and the CHECK constraints hold |
| ProjectRuns.CheckAbortsExactly | backend/app/modules/projects/models.py:79-83 | On every run a step of any kind violates a CHECK iff it restores submitted on a project terminated from submitted whose submission date was cleared since, or is an otherwise valid update to a blank name |
| ProjectWitness.RestorationIsRefused | backend/app/modules/projects/service.py:385-408 | A run from the empty tables that submits, terminates and clears a project, and then ends in a CHECK violation when it is restored |
| ProjectRuns.ClearingIsAccepted | backend/app/modules/projects/service.py:499-529 | An update that clears the submission date of a terminated project is accepted |
| ProjectRuns.OneWritePerVersion | backend/app/modules/projects/service.py:361-408 | Once a write has changed a project, every write that expected the old version conflicts and changes nothing, any run later |
| ProjectRuns.VersionsGrow | backend/app/modules/projects/service.py:433-440 | Versions never go back and the columns fixed by conversion never change |
| ProjectRuns.FirstEventsMatchHistory | backend/app/modules/notifications/events.py:61-91 | Whatever the clocks say, a first_submitted (first_succeeded) delivery exists iff the history ever entered that status; there is one, and it shows what the first entry recorded |
| ProjectRuns.CreatedShowsConversion | backend/app/modules/projects/service.py:179-237 | The created notification of a project shows, on every run that follows, the name, entity and deadline that its conversion gave it, whatever is updated later |
| ProjectEvents.StepNotifies | backend/app/modules/projects/service.py:469-479 | Every step keeps deliveries and histories in that agreement |
| OutboxEvents.DeliveryKeepsEvents | backend/app/modules/notifications/service.py:148-358 | Workers and manual retries never touch an event |
| ProjectRuns.ConvertedOnce | backend/app/modules/projects/service.py:89-237 | Under racing conversions, in any order of their clock readings, there is one project per policy and per key, one created entry, one pair of creation audits and one created notification per project |
| ProjectRuns.ReturnedProjectIsTheOne | backend/app/modules/projects/service.py:247-262 | Whatever the clocks say, a call that returns a project, winner or loser of the race, returns the only one with its key, with its fingerprint, for ever |
| ProjectRuns.PrimaryMissingUnreachable | backend/app/modules/projects/service.py:127-136 | Against any reachable evaluation state conversion never finds the primary entity missing |
| ProjectRuns.FingerprintForgetsMemberOrder | backend/app/modules/projects/service.py:60-82 | Fingerprints agree iff the requests do up to the order of members |
| ProjectOutcomes.ConvertedAsAsked | backend/app/modules/projects/service.py:107-237 | A request that passed its check and is inserted, whatever runs between, adds a project iff its policy and key are still unused and its name is not blank; that project has the request's name and deadline or else the policy's, the request's liaison, members and key, and code and legal name of the policy's current primary row |
| ProjectOutcomes.RepeatExact | backend/app/modules/projects/service.py:117-125 | After a project was created, any run later, a request with its key changes nothing and gets that project back iff policy, effective name and deadline, liaison and the multiset of members are those it was created with; otherwise the key is refused |
| ProjectOutcomes.RaceExact | backend/app/modules/projects/service.py:247-262 | A draft that is inserted after a project of its key or its policy, any run later, adds nothing: it gets the project of its key back iff it asks for what that project was created with, else the key is refused; by policy only it is told of the project; if the project is hidden from it, it is told without one |
| ProjectOutcomes.CheckExact | backend/app/modules/projects/service.py:89-160 | A request under a new key is answered by conditions on the policy, its primary rows, the projects and the users, in the source's order, and leaves a draft iff none refuses it |
| ProjectOutcomes.UpdateExact | backend/app/modules/projects/service.py:264-303 | An update takes each field that was sent and keeps each that was not, adds one to the version and touches no other row; it conflicts iff the version is not the current one, and is forbidden iff the user may not |
| ProjectOutcomes.UpdateAccepted | backend/app/modules/projects/service.py:499-529 | On every run an update is accepted iff it comes at the current version from a user who may, touches result and termination columns only in the statuses that own them, and leaves a named row whose status owns its columns, with no date after today |
| ProjectOutcomes.CorrectPrimaryExact | backend/app/modules/projects/service.py:305-359 | Against any reachable evaluation state a correction is accepted iff version and actor are right and the target is a current row of the policy; the project takes that row's code and legal name, and stays as it is if it had that row |
| ProjectOutcomes.TransitionExact | backend/app/modules/projects/service.py:361-383 | An accepted transition leaves the target status, the next version and one history entry with both sides of the move and its date, and touches no other project; otherwise nothing changes |
| ProjectOutcomes.CorrectionExact | backend/app/modules/projects/service.py:385-408 | On every run so does an accepted correction, with its reason |
| ProjectOutcomes.MoveAnnounced | backend/app/modules/notifications/events.py:61-91 | A move raises the first-submission event with its day iff it leads to submitted and none exists, the first-success event with its day and the first 500 characters of its note iff it leads to succeeded and none exists, and no other event |
| ProjectService.Service.PersistStatusChange | backend/app/modules/projects/service.py:433-481 | Writes row, version, history entry and first-status event of a move together, or nothing when a CHECK fails |
| ProjectService.Service.TransitionProject | backend/app/modules/projects/service.py:361-383 | Moves a project at the expected version for an actor who may, by the transition rules; otherwise changes nothing |
| ProjectService.Service.CorrectProject | backend/app/modules/projects/service.py:385-408 | Corrects a project at the expected version by the correction rules and the history search; otherwise changes nothing |
| ProjectService.Service.ValidateUpdate | backend/app/modules/projects/service.py:499-529 | Decides exactly the valid updates, see UpdateAcceptsExactly |
| ProjectService.Service.UpdateProject | backend/app/modules/projects/service.py:264-303 | Applies a valid update at the expected version, keeping absent fields; otherwise changes nothing |
| ProjectService.Service.CorrectPrimaryEntity | backend/app/modules/projects/service.py:305-359 | Takes over the policy's current primary entity at the expected version; a second time changes nothing |
| ProjectService.Service.CheckConvert | backend/app/modules/projects/service.py:89-178 | The check half: a known key answers or is refused by its fingerprint, every other refusal in order, else a draft of what the request asked for is left for the insert (ConvertedAsAsked, RepeatExact, CheckExact) |
| ProjectService.Service.InsertConvert | backend/app/modules/projects/service.py:179-237 | The insert half: row, created entry, audits and notification together under two unique keys, or the race resolution |
| IngestionIdentity.MatchIsStrongest | backend/app/modules/policies/service.py:407-442 | The match is the oldest among the policies that answer most strongly: by URL, document number, title and date, title and content |
| IngestionOutcomes.IngestionCarriesPayload | backend/app/modules/policies/service.py:324-361 | On every run, by either entry point and under any faults: after a committed call the answered policy's row has the normalised title, the normalised number or none, and exactly the published and deadline days of the payload; every other policy is as it was; the discovery of channel and URL is added with this policy or its last visit moved; the marked item succeeded with this policy |
| IngestionOutcomes.SameTitleSamePolicy | backend/app/modules/policies/service.py:407-442 | Two committed calls whose titles agree word for word and whose published days agree, neither known by URL or number, end in one policy, if no policy gained or lost that title and day between them |
| IngestionOutcomes.NewVersionCarriesPayload | backend/app/modules/policies/service.py:363-398 | A committed call that creates a version adds one, numbered by the policy's count, with the payload's title, texts and content, a snapshot file with the payload's bytes, and a batch for it iff a rule is published; otherwise it answers with a version of the same words and leaves versions, attachments, batches and files alone |
| IngestionOutcomes.NewRowsTold | backend/app/modules/policies/service.py:444-497 | Each attachment row that a new version adds belongs to an attachment of the payload, under its cleaned name and URL, and its stored file holds the bytes downloaded for it |
| IngestionOutcomes.RowsInOrder | backend/app/modules/policies/service.py:444-497 | Where no row is refused, there is one row for each attachment in their order, and it has a file iff its download, write and inserts went well |
| IngestionOutcomes.MetadataExact | backend/app/modules/policies/service.py:513-518 | An attachment's row has the first 512 characters of its normalised name, or "attachment" if that has no word, and the first 65535 of its stripped URL |
| IngestionOutcomes.AddressedExactly | backend/app/modules/policies/service.py:513-518 | An attachment ends its ingestion iff its URL is blank, or does not parse where its display name says nothing |
| IngestionOutcomes.StepKeepsBytes | backend/app/modules/policies/files.py:130-145 | No step overwrites a file |
| IngestionOutcomes.CommittedBytesStay | backend/app/modules/policies/files.py:130-145 | On runs of all-or-nothing writes the files of committed rows stay for ever with the bytes they were written with |
| IngestionOutcomes.RefusalExact | backend/app/modules/policies/service.py:309-323 | A payload is refused for its channel, its URL, a title without words or a date that is not ISO, in this order |
| IngestionOutcomes.CallAnswers | backend/app/modules/policies/service.py:256-307 | A call answers as its transaction does, unless it lacks its lock or its one item, and then it changes nothing, or the lock is not released after the commit, and then the tables stay as committed; what failed leaves no table changed but for the next policy key |
| IngestionOutcomes.RunKeepsItems | backend/app/modules/policies/service.py:295-307 | On every run a task has at most one item for a channel and a URL, so the item of a call is the one or there is none |
| IngestionIdentity.NumbersOnEveryRun | backend/app/modules/policies/service.py:363-392 | Each policy's versions are numbered exactly 1..n, n at least 1, and the current one has number n |
| IngestionIdentity.VersionsDiffer | backend/app/modules/policies/service.py:363-392 | Two versions of a policy differ in a word of title or body, and the later one has the higher number |
| IngestionIdentity.UrlsOnEveryRun | backend/app/modules/policies/service.py:340-361 | Each normalized URL belongs to one policy across all channels, and each channel records it once |
| IngestionIdentity.StepKeepsIdentity | backend/app/modules/policies/service.py:309-405 | Every step, under any fault, keeps numbering, distinct contents, current version and URL ownership |
| IngestionIdentity.ReingestionIsQuiet | backend/app/modules/policies/service.py:309-405 | Ingesting a payload again, any run later and by either entry point, creates no policy, discovery, version, attachment, batch or file and answers with the same policy and version |
| IngestionIdentity.RevertKeepsCurrent | backend/app/modules/policies/service.py:334-372 | Content a policy had before makes no version: the highest version stays current while the row takes the payload's title |
| IngestionRuns.FilesOnEveryRun | backend/app/modules/policies/service.py:260-284 | On every run of all-or-nothing writes the stored paths are exactly those of committed versions, downloaded attachments and pending cleanups; no path is both referenced and pending; each stored attachment has its own path |
| IngestionFiles.AttemptFiles | backend/app/modules/policies/service.py:372-394 | A transaction writes exactly the paths it notes, all new, and a committed version's rows refer to exactly these |
| IngestionFiles.SaveFirstKeeps | backend/app/modules/policies/service.py:444-497 | After any number of attachments, files and stored rows agree, and all names are distinct |
| IngestionFiles.CleanKeepsFiles | backend/app/modules/policies/files.py:116-128 | One removal of a cleanup keeps conservation |
| IngestionFiles.BlockedByCleanup | backend/app/modules/policies/files.py:130-145 | A snapshot path taken before its version is numbered waits for cleanup |
| IngestionFiles.SafeNamesAreFresh | backend/app/modules/policies/service.py:452-458 | The attachment names of one version never repeat |
| IngestionRuns.FailedIngestChangesNothing | backend/app/modules/policies/service.py:275-284 | A failed ingest leaves tables and files exactly as they were, but for the key that a new policy was given |
| IngestionRuns.MarkKeepsFilesExact | backend/app/modules/policies/service.py:260-273 | Under any faults: ingest_and_mark_task_item keeps conservation unless it has its lock and its item and either reaches a write that fails after its rename, or commits a new version and then fails to release the lock; and then it never does. All of it as guards on the tables and the call |
| IngestionRuns.CollisionsAreCleanups | backend/app/modules/policies/files.py:130-136 | On careful runs a call meets an existing path iff it gets past lock and item, its content is new to a known policy, and a failed call has yet to remove that policy's next snapshot; never for a new policy, never an attachment |
| IngestionExact.CollisionExact | backend/app/modules/policies/files.py:130-136 | On every run, under any faults, a step meets an existing path iff it gets past lock and item, its content is new to a known policy, and that policy's next snapshot path is stored; a new policy never does |
| IngestionKeys.KeysAreNotReused | backend/app/modules/policies/service.py:329-336 | A policy key that was given out names the same policy, or none, on every run that follows; a rollback does not give it back |
| IngestionKeys.RunKeepsKeyed | backend/app/modules/policies/files.py:130-136 | Under any faults every stored path lies in the directory of a key that was given out |
| IngestionWitness.FirstTextIsRetried | backend/app/modules/policies/service.py:260-273 | After a failed first text, its cleanup pending, the same text is ingested at once, under another key |
| IngestionWitness.CleanupBlocksIngestion | backend/app/modules/policies/service.py:260-273 | A run from the empty tables, all of its writes whole, after which an ingestion meets an existing path until a pending cleanup has run |
| IngestionExact.AttemptExact | backend/app/modules/policies/service.py:309-405 | A transaction commits a new version iff the payload is accepted, its content is new, the snapshot path is free, and no write, flush, commit or attachment stops it; an attachment does by a blank source URL, or by one that does not parse when its display name names nothing |
| IngestionExact.CommittedReply | backend/app/modules/policies/service.py:396-405 | It then answers with the matched or new policy and the next version row |
| IngestionRuns.IngestKeepsFilesExact | backend/app/modules/policies/service.py:275-284 | Under any faults: ingest keeps conservation iff no write it reaches fails after its rename |
| IngestionExact.OrphanAttempt | backend/app/modules/policies/files.py:138-145 | A write that fails after its rename leaves a file that no row refers to and no cleanup knows, whatever else the transaction does |
| IngestionRuns.FateDecides | backend/app/modules/policies/service.py:460-497 | Whether an attachment is stored depends on its own download, write and inserts only |
| IngestionFaults.CleaningRemovesAll | backend/app/modules/policies/service.py:270-273 | The reversed removal loop, one step at a time, removes exactly the noted paths |
| IngestionFaults.FailedMarkRestores | backend/app/modules/policies/service.py:260-273 | A failed ingest_and_mark_task_item and its cleanup leave tables and files as they were, but for the key that a new policy was given |
| IngestionFaults.ReleaseFailureLosesFiles | backend/app/modules/policies/locks.py:39-44 | After a release failure the committed version stays and its snapshot and stored attachments are gone |
| IngestionWitness.ReleaseFailureRemovesSnapshot | backend/app/modules/policies/service.py:260-273 | A run from the empty tables that ends with a committed version, a succeeded item, and the snapshot removed |
| IngestionFaults.BlockedForever | backend/app/modules/policies/files.py:134-135 | A policy whose next snapshot path is taken and not pending never gets another version on any run |
| IngestionFaults.LateWriteFailureBlocks | backend/app/modules/policies/files.py:138-145 | A snapshot write that fails after its rename blocks its policy for ever |
| IngestionWitness.LateFailureBlocks | backend/app/modules/policies/files.py:138-145 | A run from the empty tables whose second text leaves a file that no row and no cleanup knows, so that the same text then meets an existing path |
| IngestionService.PolicyIngestionService.RecordVisit | backend/app/modules/policies/service.py:324-361 | The matched policy takes the payload's fields (IngestionCarriesPayload), or a new one is added; the channel's discovery of the URL is added or its last visit moved |
| IngestionService.PolicyIngestionService.SaveAttachments | backend/app/modules/policies/service.py:444-497 | The loop leaves one row and at most one file per attachment, in order, up to the first URL that raises, with names that grow the used list even on failure |
| IngestionService.PolicyIngestionService.IngestInTransaction | backend/app/modules/policies/service.py:309-405 | Files, noted paths and the next policy key are those of one attempt, and so are the tables when it reaches its commit |
| IngestionService.PolicyIngestionService.IngestPolicy | backend/app/modules/policies/service.py:256-284 | A committed attempt is kept; a failed one is rolled back and its files removed under the lock |
| IngestionService.PolicyIngestionService.RemoveFiles | backend/app/modules/policies/service.py:281-283 | The reversed loop removes exactly the given paths |
| IngestionService.PolicyIngestionService.IngestAndMarkTaskItem | backend/app/modules/policies/service.py:260-273 | A committed attempt marks its one item; any exception, a failed lock release included, leaves the noted files for cleanup |
| AttachmentNames.CandidatesDiffer | backend/app/modules/policies/files.py:179-181 | No two candidates of the loop fold alike |
| AttachmentNames.PickIsFree | backend/app/modules/policies/files.py:179-182 | The first free candidate is among the first used + 1 |
| AttachmentNames.UnusedName | backend/app/modules/policies/files.py:174-182 | The loop ends, at the first candidate whose folding is not in use |
| AttachmentNames.SafeAttachmentFilename | backend/app/modules/policies/files.py:169-182 | Computes the cleaned, numbered name, unlike every used name whatever the case; raises iff the display name names nothing and the URL does not parse |
| AttachmentNames.ChosenName | backend/app/modules/policies/files.py:169-182 | The result is one clean path component with the cleaned name's extension, folds to no used name, and is the cleaned name itself iff that was free |
| AttachmentNames.CleanNamesStay | backend/app/modules/policies/files.py:170-174 | Cleaning is idempotent |
| AttachmentNames.DecimalInjective | backend/app/modules/policies/files.py:180-180 | Different sequence numbers print differently |
| AttachmentNames.DecimalValue | backend/app/modules/policies/files.py:180-180 | A printed number stands for itself in base ten |
| AttachmentNames.ChosenNumber | backend/app/modules/policies/files.py:174-182 | The chosen name is the cleaned one if that is free, else stem, number and extension with the first number from 2 on that is free |
| AttachmentNames.SanitisedRun | backend/app/modules/policies/files.py:173-173 | Each run of characters that are not allowed becomes one underscore, allowed ones stay |
| AttachmentNames.TrimExact | backend/app/modules/policies/files.py:173-173 | Trimming takes blanks, dots and underscores from both ends and nothing else |
| AttachmentNames.LastComponent | backend/app/modules/policies/files.py:170-172 | The last component of a path is what follows its last slash, trailing slashes and dots apart |
| AttachmentNames.BasenameExact | backend/app/modules/policies/files.py:170-173 | The file name is made of the display name's last component, whichever slashes it is written with, stripped; where that is empty or made of dots only, of the last component of the URL's path; without either it is "attachment" |
| AttachmentNames.SuffixExact | backend/app/modules/policies/files.py:174-175 | The extension begins at the last dot, unless that is the first or the last character |
| Normalize.NormalKeepsWords | backend/app/modules/policies/normalize.py:14-15 | Normalising keeps the words, returns tidy text and is idempotent |
| Normalize.NormalExactlyTidy | backend/app/modules/policies/normalize.py:14-15 | A text is its own normal form iff it has single spaces between words and no other whitespace |
| Normalize.SameNormalExact | backend/app/modules/policies/normalize.py:14-15 | Two texts normalise alike iff they have the same words |
| Normalize.NormalFromWords | backend/app/modules/policies/normalize.py:14-15 | Blank text has no words; otherwise the first word ends at whitespace or the end, and the normal form of the rest follows it after one space |
| Normalize.ContentTextExact | backend/app/modules/policies/normalize.py:48-50 | Two fingerprint texts agree iff titles and bodies agree word for word |
| PercentEncoding.CanonicalSettles | backend/app/modules/policies/normalize.py:58-63 | Substitution and quoting together settle the component token by token, malformed or not |
| PercentEncoding.CanonicalIdempotent | backend/app/modules/policies/normalize.py:58-63 | On well-formed components the canonical form is a fixed point |
| PercentEncoding.CanonicalShape | backend/app/modules/policies/normalize.py:58-63 | Every % of the result begins an upper-case escape of an octet that is not unreserved; every other character is unreserved or safe |
| PercentEncoding.SameCanonicalExact | backend/app/modules/policies/normalize.py:58-63 | Two well-formed components canonicalise alike iff they stand for the same octets with the same ones bare; the octets are kept |
| PercentEncoding.IdempotentExact | backend/app/modules/policies/normalize.py:58-63 | On any component: idempotent iff no stray % captures two digits that follow it |
| PercentEncoding.CanonicalTwiceDiffers | backend/app/modules/policies/normalize.py:58-63 | The input %%341 gives %41 and then A |
| PercentEncoding.WellFormedParses | backend/app/modules/policies/normalize.py:10-10 | A component is well-formed iff its parse has no literal % |
| PercentEncoding.PathCharacter | backend/app/modules/policies/normalize.py:38-38 | An ASCII character of a path stays as it is iff it is unreserved, one of the fourteen others that a path may hold, or a percent sign; any other becomes its upper-case escape |
| PercentEncoding.Utf8Exact | backend/app/modules/policies/normalize.py:63-63 | A character outside ASCII is quoted octet by octet of its shortest encoding, which gives the character back |
| CollectionHealth.HealthFollowsHistory | backend/app/modules/collection/service.py:121-160 | Counter, episode start and last task always are those of the trailing run of failures; there is one alert per maximal failure run of at least three, raised by its third task with count 3, and no other |
| CollectionHealth.LogIsFaithful | backend/app/modules/collection/service.py:86-119 | Outcomes are one per finalised task and agree with the table of collection tasks; a source has at most one active task |
| CollectionHealth.ObservedIsExpected | backend/app/modules/collection/service.py:142-156 | The incremental update computes the trailing failure run of the extended history |
| CollectionHealth.ThirdFailure | backend/app/modules/notifications/events.py:94-116 | The third failure of a run raises the alert of its first task and keeps alerts and episodes in agreement |
| CollectionHealth.FinishKeeps | backend/app/modules/collection/service.py:86-160 | Finalisation keeps all of this and never meets the missing-source or missing-episode error |
| CollectionHealth.FinalisingAgainChangesNothing | backend/app/modules/collection/service.py:95-96 | Finalising a task again changes nothing |
| CollectionHealth.RecordingAgainExact | backend/app/modules/collection/service.py:142-143 | Recording a finalised task again changes nothing iff it was the last one processed |
| CollectionOutcomes.FinishExact | backend/app/modules/collection/service.py:86-119 | On every run an unfinished task ends succeeded iff one of its items succeeded, none failed and the return code is 0, partially failed iff some succeeded and some failed, failed otherwise; the stored counts are the numbers of its item rows; the source's health sees exactly that success or failure; a finished task is left alone |
| CollectionOutcomes.CreateExact | backend/app/modules/collection/service.py:25-49 | A task is created iff the source is collectable and has no pending or running task |
| CollectionOutcomes.ClaimExact | backend/app/modules/collection/service.py:51-65 | A claim starts the oldest unlocked pending task, the lower key first; idle iff there is none |
| CollectionOutcomes.FinishAnnounces | backend/app/modules/notifications/events.py:94-116 | The only event a finalisation may raise is an alert about the task's own source, under its name, with three failures and this task as the latest |
| CollectionService.CollectionTaskService.CreateTask | backend/app/modules/collection/service.py:25-49 | Adds a pending task exactly for a collectable source without an active one |
| CollectionService.CollectionTaskService.Claim | backend/app/modules/collection/service.py:51-65 | Starts the oldest unlocked pending task by creation and id |
| CollectionService.CollectionTaskService.FinishItems | backend/app/modules/collection/service.py:86-119 | Finalises an active task from its items and the return code (FinishExact) and records the outcome; a finished one is returned unchanged; an exception changes nothing |
| CollectionService.CollectionTaskService.RecordSourceTaskOutcome | backend/app/modules/collection/service.py:121-160 | Moves counter, episode and last task of the source and raises the alert at the third failure; raises and changes nothing without an episode |

## Left out

- SearchIsRight: supposes that the clock does not go back on the one project it speaks of; TerminationSearchExact and NeverUnsubmittedExact are its exact conditions, without any clock.
- FilesOnEveryRun: supposes all-or-nothing writes and, for ingest_and_mark_task_item, that the lock is released; IngestKeepsFilesExact and MarkKeepsFilesExact say exactly which calls break it otherwise.
- CommittedBytesStay: supposes the same; StepKeepsBytes, that nothing is overwritten, supposes nothing.
- RowsInOrder: supposes all-or-nothing writes and that no attachment is refused its row; SaveFirstKeeps and NewRowsTold do not.
- Process: the evaluation-available notification is not modelled.
- PersistStatusChange: the audit record of a status change is not modelled.
- ValidateUpdate: the refusal of a missing liaison is not modelled, as liaisons are not updated.
- UpdateProject: liaison and member replacement and the audit records are not modelled.
- HealthFollowsHistory: supposes that other parts of the system enqueue no event under a failure-episode key; likewise FirstEventsMatchHistory for project keys.
- SafeAttachmentFilename: case folding and the word class of Python are parameters of which only a few facts are used; the URL's unquoted path, or that it does not parse, is an argument.
- SaveAttachments: takes its names from a function value; SafeNamesAreFresh and SafeAttachmentFilename connect it to the naming code.
- IngestAndMarkTaskItem: its cleanup is a sequence of later steps, since it runs after the lock is released; a removal that itself fails is not modelled.
- CanonicalSettles: lone surrogates, on which quoting raises, are not characters of the model.
- SQL, sessions and isolation levels: each row-locked section is one atomic step; unique keys and CHECK constraints are guards at commit; only conversion is split into check and insert.
- Processes that die: a dead worker or cleanup is one whose next step never comes. A crash inside a database transaction is its rollback; that no process dies between writing a file and the end of its ingestion, cleanup included, is an assumption, as a crash there leaves files that no row refers to and no cleanup knows.
- Row identity: a policy's key, which its files' paths contain, is never given out twice, as in MySQL; other primary keys are positions, and their gaps are not modelled.
- MatchIsStrongest: compares titles and document numbers exactly, while MySQL's default collation ignores case and accents; URLs are stored under a binary collation.
- SHA-256 and the JSON text of the creation fingerprint: taken to be injective.
- Event keys: tuples instead of the strings that print them; only the snapshot fields that the properties speak of are kept.
- The evaluation-available notification and its comparison with an earlier evaluation (backend/app/modules/notifications/events.py:123-258).
- The score, reasons and other texts of an entity's result: one opaque text, stored and compared whole.
- normalize_url beyond its path component: URL splitting, IDNA, query filtering; ingestion takes its result as given.
- Rule versions, profile snapshots and the prompt: whether a rule is published and which profiles exist are arguments.
- Downloads, DNS checks, the HTML parser, the spider, the model and chat adapters: arbitrary outcomes.
- HTTP routers, authentication, listings, pagination, rule editing, migrations, the scheduler and the frontend: they would add easy members only.
