# Estate management backend: verification models

Dafny models of the parts of the estate-management backend where state, concurrency and algebra meet,
with proofs over every input and every run. `dafny verify dfyconfig.toml` checks the whole project.

## What is modelled

**The transactional outbox** (`Outbox`, `Protocol`, `CellInvariant`, `Discipline`, `OutboxRuns`,
`OutboxTheorems`, `OutboxLimits`, `Pacing`, `Redelivery`, `Stranding`, `Termination`, `Dispatcher`, `Registration`, `Publishing`, `AuditTrail`).
An event is a *cell*: its outbox row, its queue job, the audit and dead-letter documents with its id, and a
ledger that counts what happened and that no step reads. `Protocol.Next` is one step of a cell: a job is
enqueued, a worker loads the row, marks it processing, calls a handler, saves the status map, completes the
row, settles it for retry or failure, buries it, acknowledges the job, crashes, is redelivered, or has its
finished job evicted. Every database write has three outcomes (acknowledged, lost, committed but reported as an
error), and a handler that throws may already have had its effect. `Protocol.Step` interleaves any number of
cells with publishers, polls and the clock, at most ten workers active. The worker keeps the row it loaded as a
separate snapshot, as the code does. `Dispatcher` is the dispatcher as code, and each of its executions is
proved to be a run of the protocol, so the results about runs are results about that code.

The queue enters as one assumption: an event id has at most one live job, and a worker that dies has its job
redelivered or, at the queue's discretion, failed for good. A job kept after completion blocks a new one with the same id until it is evicted.

**Permissions** (`Permissions`, `PermissionMerge`, `PermissionUpdate`): the canonical key, merging, the deny
filter, the update command, and the guard that reads its result.

**The user hierarchy** (`Hierarchy`, `HierarchyRuns`): registration, email verification, estate creation and the
four create commands, each create command in its three steps (read, save, link) with any interleaving.

**Payments, compliance and reminders** (`Payments`, `Compliance`, `Reminders`): the payment status machine, the
outstanding list derived from it, the estate report, and the daily reminder job.

**Soft delete** (`SoftDelete`): the plugin against a collection that really removes documents.

**Sessions** (`Sessions`, `SessionHistory`): one-time codes, issued tokens and the token version.

## What the proofs found

- The worker callback dispatches whatever row its job names and never looks at the row's status. A crash or an
  unacknowledged write after the row's fate is written, or a poll that acts on an old query, can lead to a
  dispatch before its time or of a row that is already decided; `Redelivery` says for each of them exactly when.
  `OutboxLimits.LateCrashBreaksBackoff` is a run that fails for good after seven minutes where the backoff
  schedule alone needs fifteen, and `Redelivery.RedispatchBreaksLimitAndLetter` one with a sixth failure beside a
  dead letter that counts four. Three checks the callback could make, each exact for one dispatch: it can fail
  before its time exactly when the row's `nextRetryAt` is still to come (`Pacing.HurriedExactlyBeforeSchedule`),
  push the retry count past its limit exactly when the count is there already
  (`OutboxLimits.OverrunsExactlyWhenDecided`), and make row and dead letter disagree exactly when there is a letter
  (`Redelivery.DisagreementExactlyWhenBuried`). Over whole runs, with any other early dispatches,
  `OutboxTheorems.BackoffBound`, `OutboxTheorems.RowStates` and `Redelivery.LettersAgree` each need only that no
  dispatch of the event starts in that one situation. `OutboxTheorems.DispatchesAreExpected` gives the actions
  whose absence rules out all of them.
- A dispatch finishes without using up an attempt exactly when its row has none left
  (`Termination.FreeExactlyWhenNoneRemains`). Crashes and redelivery do not add finished dispatches beyond five per
  event, but polls that act on an old query after the event is decided do, without bound
  (`Termination.UnboundedWithStalePolls`).
- A completing write that commits without acknowledgement is settled as a failure by the same dispatch: the row
  is open or failed again although every handler has completed (`Redelivery.UndoneExactly`, and the run in
  `Redelivery.CompletionUndone`).
- Failed jobs are never removed, so an event whose job has failed never gets another. It is lost without a
  dead letter, and ten such events that are due keep every younger event without a job from getting one.
  `Stranding.StrandedExactly` shows that these two are the only ways for an open event to become undecidable.
- The comment on the backoff lists five delays ending in 16 minutes. With five attempts only four delays are
  used; the fifth failure is final.
- The dead letter is built from the worker's snapshot, so its retry count is one behind the row's and its
  reason is the message of the failure before the last.
- Ten due rows whose old jobs are still retained stop every younger event (`OutboxRuns.HeadOfLineBlocking`).
- An event type without handlers completes with no effect and without an audit record: a completed event has one
  if and only if its type has the audit handler (`OutboxTheorems.AuditedExactlyOnce`).
- The Paystack webhook marks a pending payment completed and then asks to verify it, which only a pending
  payment allows: the call always fails and the payment can never be verified or rejected afterwards, although
  the QA guide's flow chart takes a webhook to make the payer compliant.
- `restore` with a filter silent about `isDeleted` changes nothing.
- A permission update never takes granted access away, and denied lists do not reach the guard.
- A create command that stops between saving the user and updating `manages` breaks the converse pointers of
  that user for good.

## Model

| member | source | states |
|---|---|---|
| CellInvariant.ShapeKept | src/common/events/services/event-dispatcher.service.ts:51-123 | Every step keeps the worker's snapshot in agreement with the row it loaded on identity, limit, retry count and error until the row's fate is written, and the saved status map one handler behind at most; the retry count equals the number of committed failures |
| CellInvariant.AccountedKept | src/common/events/services/event-dispatcher.service.ts:78-102 | Exact bookkeeping kept by every step: each success of a handler is recorded in the row, still in the worker's memory, or counted as lost |
| CellInvariant.CompleteKept | src/common/events/services/event-dispatcher.service.ts:74-112 | Every step keeps: a completed row has every registered handler recorded as completed |
| CellInvariant.AuditedKept | src/audit-logs/cqrs/commands/handlers/create-audit-log.handler.ts:16-31 | Every step keeps: at most one audit document, about this event, one as soon as the audit handler has succeeded, none without that handler |
| CellInvariant.CountedKept | src/common/events/services/event-dispatcher.service.ts:191-238 | Every step keeps: pending means below the retry limit, failed means at or above it, at most one dead letter and about this event |
| CellInvariant.AlwaysKept | src/common/events/services/event-dispatcher.service.ts:51-238 | The conjunction of the above is kept by every step, crashes, lost writes and redelivery included |
| Discipline.PunctualKept | src/common/events/workers/outbox-processor.worker.ts:55-70 | Without a late fault every waiting job and running dispatch finds its row expecting it |
| Discipline.BoundedKept | src/common/events/services/event-dispatcher.service.ts:191-205 | With expected dispatches only, the retry count never passes its limit and a failed row sits exactly on it |
| Discipline.BackoffKept | src/common/events/services/event-dispatcher.service.ts:191-248 | Kept by every step: the k-th retry is scheduled, starts and fails no earlier than 60000 (2^k - 1) ms after the first failure |
| Discipline.MessagesKept | src/common/events/services/event-dispatcher.service.ts:197-232 | The row carries the last failure's message, a snapshot about to be buried the one before |
| Discipline.BuriedKept | src/common/events/services/dead-letter-queue.service.ts:25-41 | A dead letter belongs to a failed row and holds the count and reason of the snapshot of its last attempt |
| Discipline.PaidKept | src/common/events/services/event-dispatcher.service.ts:111-122 | Every completed job is paid for by one retry or by the completion |
| Discipline.BlamedKept | src/common/events/services/event-dispatcher.service.ts:86-109 | When every write is acknowledged a row fails only with some handler recorded as failed |
| Discipline.OrderlyKept | src/common/events/services/event-dispatcher.service.ts:51-248 | The conjunction of the disciplined invariants is kept by every step |
| Discipline.TickKept | src/common/events/workers/outbox-processor.worker.ts:116-120 | Passing time keeps every disciplined invariant: a due row stays due |
| OutboxRuns.PollExact | src/common/events/workers/outbox-processor.worker.ts:112-140 | The poll gives a job to exactly the due rows that have none and are preceded by fewer than ten older due rows |
| OutboxRuns.HeadOfLineBlocking | src/common/events/workers/outbox-processor.worker.ts:41-50 | A poll changes nothing if and only if each of the ten oldest due rows still has a job, retained ones included |
| OutboxRuns.StartsExactly | src/common/events/workers/outbox-processor.worker.ts:67-70 | A waiting job starts if and only if fewer than ten workers are busy |
| OutboxRuns.StepKept | src/common/events/workers/outbox-processor.worker.ts:55-140 | Every action of the whole system keeps the invariant of all cells, unique ids, creation order and at most ten active workers |
| OutboxRuns.Reachable | src/common/events/workers/outbox-processor.worker.ts:55-140 | Every system state reachable from the empty outbox, under any registry and schedule, satisfies that invariant |
| OutboxRuns.RunKept | src/common/events/services/event-dispatcher.service.ts:51-123 | Every run of one cell, such as an execution of dispatch, keeps the invariant and the event |
| OutboxTheorems.LostAtMostLosses | src/common/events/services/event-dispatcher.service.ts:86-102 | A handler's lost successes never outnumber the event's crashes and lost status saves in the run |
| OutboxTheorems.SuccessesBounded | src/common/events/services/event-dispatcher.service.ts:74-103 | In every interleaving a handler succeeds for an event at most once more than its own successes lost between call and status save, hence than the event's crashes and lost saves |
| OutboxTheorems.CompletedMeansAllSucceeded | src/common/events/services/event-dispatcher.service.ts:74-112 | Completed means every registered handler succeeded: once plus once per lost record, hence exactly once in a run without losses |
| OutboxTheorems.AuditedExactlyOnce | src/audit-logs/entities/audit-log.entity.ts:21-22 | Never two audit documents for an event, each with the event's id, type, aggregate and payload in its fields, and a completed event has one if and only if its type has the audit handler |
| OutboxTheorems.RowStates | src/common/events/services/event-dispatcher.service.ts:178-238 | In every run: retry count equals committed failures; pending means below the limit, failed at or above it; never above it, and failed exactly at it, if all dispatches were expected or just none started at the limit; and a failed row has a broken handler to blame if every write was acknowledged |
| OutboxTheorems.LateNeedsFault | src/common/events/workers/outbox-processor.worker.ts:55-70 | Without crashes, unacknowledged deciding writes and stale polls of an event there is no late fault |
| OutboxTheorems.DispatchesAreExpected | src/common/events/workers/outbox-processor.worker.ts:55-70 | Then no dispatch of it ever starts early, whatever handlers, other events and evictions do |
| OutboxTheorems.DecidedIsFinal | src/common/events/services/event-dispatcher.service.ts:78-84 | Between any two moments of a run a completed handler status never regresses, and without late faults a completed or failed row is never touched again |
| OutboxTheorems.DecidedRests | src/common/events/services/event-dispatcher.service.ts:178-238 | Whatever faults there were, a decided row that no dispatch is working on stays as it is until a dispatch of it starts |
| OutboxTheorems.BackoffBound | src/common/events/services/event-dispatcher.service.ts:191-248 | An event whose dispatches were expected, or just none of which started before its row's time, fails for good no earlier than 900000 ms after its first failure |
| OutboxTheorems.DeadLetterAgreement | src/common/events/services/dead-letter-queue.service.ts:25-41 | At most one dead letter per event, about it; with expected dispatches its row is failed, its count is one behind the row's and its reason is the failure before the last; two dead letters never name the same event |
| OutboxLimits.WithinBudget | src/common/events/services/event-dispatcher.service.ts:191-205 | One dispatch started below the retry limit never passes it, whatever happens in it |
| OutboxLimits.OverrunsExactlyWhenDecided | src/common/events/workers/outbox-processor.worker.ts:57-66 | A dispatch can push the retry count past its limit if and only if it had reached the limit when the worker loaded the row |
| OutboxLimits.WithinOverRuns | src/common/events/services/event-dispatcher.service.ts:191-205 | Over every run, early dispatches included, the retry count stays within its limit as long as no dispatch of the event starts at the limit |
| Pacing.ScheduledKept | src/common/events/services/event-dispatcher.service.ts:220-232 | Kept by every step: between the first failure and the final one the row names the last failure's time plus its delay |
| Pacing.HurriedExactlyBeforeSchedule | src/common/events/workers/outbox-processor.worker.ts:57-66 | A dispatch can record a failure before the backoff is over if and only if the event has handlers and the time its row names has not come when it starts |
| Pacing.PacedOverRuns | src/common/events/services/event-dispatcher.service.ts:191-248 | Over every run, other early dispatches included, failures keep the distances of the backoff as long as no dispatch starts before its row's time |
| OutboxLimits.BackoffBoundIsTight | src/common/events/services/event-dispatcher.service.ts:222-248 | A concrete run of five failures reaches the 900000 ms bound exactly |
| OutboxLimits.LateCrashBreaksBackoff | src/common/events/workers/outbox-processor.worker.ts:57-66 | A concrete run with one crash after the fourth failure's write fails for good after 420000 ms |
| Redelivery.WaitingIsExpected | src/common/events/workers/outbox-processor.worker.ts:55-70 | Without a late fault a waiting job never starts early, however long it waits |
| Redelivery.CrashIsEarlyExactlyAfterDecision | src/common/events/workers/outbox-processor.worker.ts:57-66 | A crash leads to a premature dispatch, at whatever later moment, if and only if it follows the deciding write and the row is not due by then |
| Redelivery.RejectedSettleIsEarlyExactly | src/common/events/services/event-dispatcher.service.ts:191-238 | After a settling write that is not acknowledged the repetition is premature if and only if the write had committed and either was final or its delay is not over |
| Redelivery.RejectedSuccessIsEarlyExactly | src/common/events/services/event-dispatcher.service.ts:55-61 | After an unacknowledged completion of an event without handlers it is premature if and only if the write had committed |
| Redelivery.RejectedRecoveryIsEarlyExactly | src/common/events/services/event-dispatcher.service.ts:111-122 | After a failed completion whose settling fails too: exactly which pairs of write outcomes and moments make the repetition premature |
| Redelivery.UndoneExactly | src/common/events/services/event-dispatcher.service.ts:111-122 | A dispatch takes its own committed completion back if and only if that write was not acknowledged and the settling write commits; every handler is then recorded as completed |
| Redelivery.CompletionUndone | src/common/events/services/event-dispatcher.service.ts:111-122 | A concrete run: the only handler succeeds, the completion commits, and the event is pending again with a failed attempt |
| Redelivery.DecidedChangesExactly | src/common/events/workers/outbox-processor.worker.ts:57-66 | A dispatch of a decided row can change it if and only if the event has handlers or has failed |
| Redelivery.StalePollIsEarlyExactly | src/common/events/workers/outbox-processor.worker.ts:115-140 | A job added from an old query starts early if and only if the row no longer expects a dispatch |
| Redelivery.UnburiedKept | src/common/events/services/dead-letter-queue.service.ts:25-41 | Row and dead letter stay in agreement under every step except a start after the burial |
| Redelivery.DispatchKeepsAgreement | src/common/events/services/dead-letter-queue.service.ts:25-41 | One dispatch of an event without a letter, whatever happens in it, leaves row and letter in agreement |
| Redelivery.DisagreementExactlyWhenBuried | src/common/events/workers/outbox-processor.worker.ts:57-66 | A dispatch can make row and dead letter disagree if and only if the event has a letter when it starts |
| Redelivery.LettersAgree | src/common/events/services/event-dispatcher.service.ts:207-219 | Over every run, early dispatches included, row and letter agree as long as no dispatch of the event starts after its burial |
| Redelivery.RedispatchBreaksLimitAndLetter | src/common/events/workers/outbox-processor.worker.ts:57-66 | A concrete run: burial, crash, redelivery, and a retry count of six of five beside a letter counting four |
| Stranding.NoneLeftProcessing | src/common/events/services/event-dispatcher.service.ts:64-122 | In every run a row is in processing only while a job that has not completed stands for it |
| Stranding.DispatchCompletes | src/common/events/services/event-dispatcher.service.ts:51-112 | From every loaded row some behaviour of handlers and writes completes the event |
| Stranding.PollReaches | src/common/events/workers/outbox-processor.worker.ts:115-140 | An idle due event behind fewer than ten failed due ones, and no other due one, gets a job from the next poll, whatever the workers are doing |
| Stranding.StrandedForever | src/common/events/workers/outbox-processor.worker.ts:50 | An event with a failed job, or idle behind ten failed due ones, keeps its row and letters through every later run without a stale poll of it |
| Stranding.Decide | src/common/events/workers/outbox-processor.worker.ts:37-70 | Every other open event has a continuation, without stale polls, that decides it |
| Stranding.StrandedExactly | src/common/events/workers/outbox-processor.worker.ts:37-70 | In every reachable state an open event can still be decided if and only if it is not stranded; a stranded one never gets a dead letter if no dispatch started early |
| Stranding.LostWithoutLetter | src/common/events/workers/outbox-processor.worker.ts:41-50 | A concrete run: five tries of a job that cannot write strand an event with no failure counted and no dead letter |
| Termination.DecisionSpends | src/common/events/services/event-dispatcher.service.ts:178-238 | Each committed deciding write strictly lowers the attempts of a row that has any left |
| Termination.DispatchSpends | src/common/events/services/event-dispatcher.service.ts:51-123 | A dispatch of a row with attempts left has used one up by the time its fate is written |
| Termination.FreeExactlyWhenNoneRemains | src/common/events/workers/outbox-processor.worker.ts:57-66 | A dispatch can finish without using up an attempt if and only if its row has none left when it starts |
| Termination.UnboundedWithStalePolls | src/common/events/workers/outbox-processor.worker.ts:112-140 | Runs in which one published event finishes any given number of dispatches, through polls that act on old queries |
| Termination.BudgetKept | src/common/events/workers/outbox-processor.worker.ts:55-140 | Finished dispatches plus remaining attempts stay within the limit under every step but a stale poll of a decided event, crashes, unacknowledged writes and early dispatches included |
| Termination.FinishedBounded | src/common/events/services/event-dispatcher.service.ts:111-122 | An event finishes at most five dispatches in every run without such a poll of it |
| Termination.FinishedDispatchesBounded | src/common/events/services/event-publisher.service.ts:27-41 | N published events need at most 5 N finished dispatches in all such runs; an event that no dispatch found at its limit has no attempt left exactly when it is decided |
| Dispatcher.RegisterAllNames | src/common/events/services/event-dispatcher.service.ts:26-45 | Bulk registration appends to each type its own handlers in order and leaves the others alone |
| Dispatcher.EventDispatcher.RegisterHandler | src/common/events/services/event-dispatcher.service.ts:26-31 | The table afterwards: one handler appended to its type |
| Dispatcher.EventDispatcher.RegisterHandlers | src/common/events/services/event-dispatcher.service.ts:41-45 | The table afterwards: the whole list registered in order |
| Dispatcher.EventDispatcher.HandleSuccess | src/common/events/services/event-dispatcher.service.ts:178-186 | The row becomes completed unless the write is lost |
| Dispatcher.EventDispatcher.MoveToDeadLetterQueue | src/common/events/services/dead-letter-queue.service.ts:25-56 | The protocol's burial step: one letter from the snapshot, refused if there is one |
| Dispatcher.EventDispatcher.HandleFailure | src/common/events/services/event-dispatcher.service.ts:191-238 | Its execution is a settle step, then a burial when retries are used up; the settled row is stated in full; a failed burial is swallowed, a failed row write is not |
| Dispatcher.EventDispatcher.MarkProcessing | src/common/events/services/event-dispatcher.service.ts:64-68 | The protocol's mark step: processing if the write commits, recovery if it is not acknowledged |
| Dispatcher.EventDispatcher.RunHandler | src/common/events/services/event-dispatcher.service.ts:86-102 | One handler call and its status save are the protocol's two steps, with the new snapshot, error list and row |
| Dispatcher.SummaryLists | src/common/events/services/event-dispatcher.service.ts:105-108 | The error of a failed dispatch is its prefix followed by every handler's message, separated by comma and space |
| Dispatcher.ThrownExactly | src/common/events/services/event-dispatcher.service.ts:74-96 | The errors collected are those of exactly the handlers that had to be called and threw, in table order |
| Dispatcher.NotedExactly | src/common/events/services/event-dispatcher.service.ts:74-102 | With distinct names the status map ends completed for exactly the handlers completed before or successful now, failed for the others, unchanged elsewhere |
| Dispatcher.EventDispatcher.TakeTurn | src/common/events/services/event-dispatcher.service.ts:78-102 | One turn of the loop: a completed handler is skipped, any other is called and its status saved |
| Dispatcher.EventDispatcher.RunHandlers | src/common/events/services/event-dispatcher.service.ts:70-103 | The loop is a run of the protocol that calls every handler that is not completed, whatever earlier ones did, and stops early only on an unacknowledged write, with its error |
| Dispatcher.EventDispatcher.Conclude | src/common/events/services/event-dispatcher.service.ts:105-112 | After the loop: completion exactly when no handler failed and the write is acknowledged, otherwise the catch branch with the listed errors or the write's error |
| Dispatcher.EventDispatcher.Attempt | src/common/events/services/event-dispatcher.service.ts:63-112 | The try block is a run of the protocol; with acknowledged writes its row, snapshot and error are stated in full; any error has one of its two causes |
| Dispatcher.EventDispatcher.Dispatch | src/common/events/services/event-dispatcher.service.ts:51-123 | Every execution is a run of the protocol; with acknowledged writes and distinct names the whole row is stated: completed if and only if all handlers not already done succeed, else one more retry, the errors of exactly the handlers that threw in table order, and failed at the limit or due after 60000 times 2 to the retry count; otherwise a failed attempt records the error of an unacknowledged write |
| Registration.SpecificThenAudit | src/common/events/events-infrastructure.module.ts:112-148 | For any list of one handler per type, each type ends with that handler and then the audit handler |
| Registration.UnlistedHasNone | src/common/events/events-infrastructure.module.ts:135-147 | A type outside the list has no handler at all |
| Registration.TableIsSpecificThenAudit | src/common/events/events-infrastructure.module.ts:112-148 | The application's table: every listed type has its own handler, then the audit handler, with distinct names; other types have none |
| Registration.Routes | src/common/events/events-infrastructure.module.ts:112-148 | The two handlers of each of the sixteen event types, by name |
| Registration.RegisterHandlers | src/common/events/events-infrastructure.module.ts:112-148 | The start-up code leaves exactly that table in the dispatcher |
| Publishing.BatchIsPublications | src/common/events/services/event-publisher.service.ts:60-96 | A batch is the single publications of its accepted prefix, in order, in any reachable state |
| Publishing.WholeBatch | src/common/events/entities/outbox.entity.ts:14-15 | A batch is accepted whole if and only if its ids are new and pairwise distinct |
| Publishing.EventPublisher.Publish | src/common/events/services/event-publisher.service.ts:22-53 | The system's publish step: every field of the fresh pending row, or nothing and an error when the id is taken |
| Publishing.EventPublisher.PublishBatch | src/common/events/services/event-publisher.service.ts:60-96 | The rows afterwards are the accepted prefix appended; it succeeds when that is the whole batch |
| Publishing.EventPublisher.PublishWithTransaction | src/common/events/services/event-publisher.service.ts:103-127 | Business change and event are both there or neither is; it succeeds exactly when the operation does and the id is new |
| Publishing.OutboxProcessorWorker.FindPending | src/common/events/workers/outbox-processor.worker.ts:115-123 | Returns exactly the due rows with fewer than ten older due rows, at most ten |
| Publishing.OutboxProcessorWorker.PollOutbox | src/common/events/workers/outbox-processor.worker.ts:112-143 | The queue afterwards is that of the system's poll step |
| AuditTrail.AuditOncePerEvent | src/audit-logs/cqrs/commands/handlers/create-audit-log.handler.ts:16-31 | For interleaved calls with failing writes: at most one document per event id, every call that returned left one, documents are only appended |
| AuditTrail.CreateAuditLogHandler.Execute | src/audit-logs/cqrs/commands/handlers/create-audit-log.handler.ts:16-39 | With a document for the event id nothing is inserted and that document returned; otherwise the insertion, its result and exactly when the call throws |
| AuditTrail.DeliveryIsAuditAfter | src/audit-logs/cqrs/commands/handlers/create-audit-log.handler.ts:18-31 | What the outbox protocol assumes of the audit handler holds of it: success exactly when it returned, no other event's documents touched |
| Permissions.SortCanonical | src/users/cqrs/commands/handlers/update-user-permissions.handler.ts:38 | Two action lists sort alike if and only if one is a permutation of the other; sorting is idempotent |
| Permissions.LeqIsLexicographic | src/users/cqrs/commands/handlers/update-user-permissions.handler.ts:38 | The order that sorting uses is the dictionary order by character |
| Permissions.SchemaNamesArePlain | src/users/entities/user.entity.ts:27-49 | Every permission over the schema's resources and actions has plain names |
| Permissions.KeyCanonical | src/users/cqrs/commands/handlers/update-user-permissions.handler.ts:37-40 | For plain names two permissions share a key if and only if resource and action multiset agree |
| Permissions.KeyCollision | src/users/cqrs/commands/handlers/update-user-permissions.handler.ts:38 | With a comma in an action name the key is not canonical: a concrete collision |
| PermissionMerge.FirstPositionLastValue | src/users/cqrs/commands/handlers/update-user-permissions.handler.ts:35-42 | Merging keeps each key's first position and last value with sorted actions, and nothing else |
| PermissionMerge.LastIsStored | src/users/cqrs/commands/handlers/update-user-permissions.handler.ts:35-42 | Of the permissions with one key the last is stored, with its conditions and its actions in order |
| PermissionMerge.BatchesMergeOnce | src/users/cqrs/commands/handlers/update-user-permissions.handler.ts:26-29 | Merging in batches is merging once, and merging is idempotent |
| PermissionMerge.DedupGrants | src/auth/guards/permissions.guard.ts:37-41 | Merging a list does not change any access decision |
| PermissionMerge.MergePreservesAccess | src/auth/guards/permissions.guard.ts:37-41 | The merged list grants a resource and action exactly where the old or the added list did |
| PermissionMerge.FilterKeeps | src/users/cqrs/commands/handlers/update-user-permissions.handler.ts:44-46 | The deny filter keeps exactly the permissions whose resource no denied entry has |
| PermissionMerge.FilterCommutes | src/users/cqrs/commands/handlers/update-user-permissions.handler.ts:21-24 | Filtering after merging is filtering before it |
| PermissionUpdate.RemoveDuplicatePermissions | src/users/cqrs/commands/handlers/update-user-permissions.handler.ts:35-42 | The insertion-ordered map loop computes the merge |
| PermissionUpdate.User.UpdatePermissions | src/users/cqrs/commands/handlers/update-user-permissions.handler.ts:14-33 | The user's three lists afterwards; the requested denied list filters this update and is not stored |
| PermissionUpdate.BaseAfterUpdate | src/users/cqrs/commands/handlers/update-user-permissions.handler.ts:19-24 | After a base update no base permission has a denied resource, and every other merged key survives |
| PermissionUpdate.BaseOverHistory | src/users/cqrs/commands/handlers/update-user-permissions.handler.ts:19-24 | After any history with a base update no base permission has a resource in the stored denied list |
| PermissionUpdate.RequestWins | src/users/cqrs/commands/handlers/update-user-permissions.handler.ts:19-29 | A request without a list leaves that list as it is, and the request's own permissions win a merge unless their resource is denied |
| PermissionUpdate.GuardExactly | src/auth/guards/permissions.guard.ts:15-50 | The guard's answer in every branch: without a requirement, without a caller, for the two admin roles, and for anybody else by a granted permission for the resource with the action or `manage` |
| PermissionUpdate.AccessIsCumulative | src/users/cqrs/commands/handlers/update-user-permissions.handler.ts:26-29 | After any history of updates access is exactly what the initial list or some request granted |
| PermissionUpdate.GuardAfterUpdates | src/auth/guards/permissions.guard.ts:15-50 | Who passes the guard after any history: admins, and exactly those ever granted the resource with the action or `manage` |
| PermissionUpdate.SplitRequests | src/users/cqrs/commands/handlers/update-user-permissions.handler.ts:26-29 | Two grant requests in a row give the same grants as one combined request |
| HierarchyRuns.StepKept | src/users/cqrs/commands/handlers/create-admin.handler.ts:86-128 | Every step of every command keeps the hierarchy invariant, in any interleaving and with commands that stop half-way |
| HierarchyRuns.LinkKept | src/users/cqrs/commands/handlers/create-landlord.handler.ts:62-65 | Linking a saved user to its requester keeps the invariant |
| HierarchyRuns.SaveKept | src/users/cqrs/commands/handlers/create-security.handler.ts:32-50 | Saving a user under the estate its requester had when it was read keeps the invariant |
| HierarchyRuns.UserChange | src/estates/cqrs/commands/handlers/create-estate.handler.ts:44-56 | Giving a first estate to a user, who then has no descendants, keeps the invariant |
| HierarchyRuns.Reachable | src/users/cqrs/commands/handlers/create-tenant.handler.ts:28-67 | The invariant holds in every reachable directory |
| HierarchyRuns.Acyclic | src/users/cqrs/commands/handlers/create-admin.handler.ts:103-108 | In every run no chain of superiors returns to its start |
| HierarchyRuns.RootedWithOneEstate | src/users/entities/user.entity.ts:204-214 | In every run each user's chain ends at a super admin of the same estate, who owns it; only a super admin has no estate |
| HierarchyRuns.ManagesIsConverse | src/users/cqrs/commands/handlers/create-landlord.handler.ts:41-65 | In every run y is in x's `manages` if and only if y reports to x and is not left unlinked; hence the converse pointers once every command has run to its end |
| HierarchyRuns.LostLinkStays | src/users/cqrs/commands/handlers/create-tenant.handler.ts:52-67 | A user saved by a command that then stopped is never managed by anybody, in any later state |
| HierarchyRuns.StepEffects | src/users/entities/user.entity.ts:390-442 | An existing user changes in three ways only, each stated exactly: its email is verified, it founds an estate, it is given a child |
| HierarchyRuns.NewUserEffects | src/users/cqrs/commands/handlers/create-security.handler.ts:36-50 | Every field of a new user, for registrations and for create commands in the requested role |
| HierarchyRuns.BegunExactly | src/users/cqrs/commands/handlers/create-landlord.handler.ts:23-32 | A create command passes its check if and only if the requester exists and has an estate, is a super admin, or is asked for a tenant |
| HierarchyRuns.VerifiedExactly | src/auth/cqrs/commands/handlers/verify-email.handler.ts:16-34 | Over any run a user is verified if and only if it was before or its email was verified in it |
| HierarchyRuns.AlwaysFounded | src/estates/cqrs/commands/handlers/create-estate.handler.ts:26-56 | In every run estates have different names, and each is the estate of its verified owner |
| HierarchyRuns.UserDirectory.CreateMember | src/users/cqrs/commands/handlers/create-landlord.handler.ts:20-68 | The create command is a run of those steps; exactly when it succeeds, every field of the new user, the requester's one added child, and every other user as before |
| HierarchyRuns.UserDirectory.CreateEstateFor | src/estates/cqrs/commands/handlers/create-estate.handler.ts:20-69 | The transaction is one step: it commits exactly for a verified user without an estate and a free name, with the new estate and owner stated, and changes nothing otherwise |
| Payments.StatusOverRuns | src/payments/payments.service.ts:82-121 | Over any run a payment keeps user, levy and amount, a decided status is absorbing, and a pending one takes the status of its first deciding command |
| Payments.WebhookStrandsPayment | src/payments/payments.controller.ts:177-192 | The webhook on a pending payment always fails after marking it completed, and it stays completed through every later run |
| Payments.PaidForever | src/payments/payments.service.ts:123-136 | A levy once paid by a user stays paid over every run |
| Payments.PaidAfter | src/payments/payments.service.ts:82-100 | A command makes a pair newly paid if and only if it verifies a pending payment of that pair |
| Payments.PaymentsService.Create | src/payments/payments.service.ts:16-28 | Appends a pending payment of this user, levy and amount |
| Payments.PaymentsService.VerifyPayment | src/payments/payments.service.ts:82-100 | New payments and outcome for unknown, decided and pending ids |
| Payments.PaymentsService.RejectPayment | src/payments/payments.service.ts:102-121 | New payments and outcome for unknown, decided and pending ids |
| Payments.PaymentsService.HandlePaystackWebhook | src/payments/payments.controller.ts:160-195 | New payments and outcome of a successful charge, the failing verification included |
| Payments.PaymentsService.HasUserPaidLevy | src/payments/payments.service.ts:133-136 | True exactly when some payment of the pair is verified |
| Compliance.OutstandingIsOwed | src/compliance/compliance.service.ts:46-62 | The outstanding list holds exactly the owed levies, each once |
| Compliance.ReportCountsTwice | src/compliance/compliance.service.ts:93-127 | Compliant plus non-compliant users are the users, one detail each; the total is both the sum of details and the sum over levies of amount times number of users owing it |
| Compliance.PaymentConservation | src/compliance/compliance.service.ts:49-62 | Verifying a pending payment takes exactly its levy off its user's list and, if owed, its amount off the total; no other user and no other command changes anything |
| Compliance.EstateConservation | src/compliance/compliance.service.ts:105-124 | The estate's total falls by exactly that amount if the user lives there |
| Compliance.EstateConservationOverRuns | src/compliance/compliance.service.ts:105-124 | Over any run of payment commands the estate's total falls by exactly the amounts of the owed levies settled in it |
| Compliance.OutstandingOverRuns | src/compliance/compliance.service.ts:49-62 | After any run of payment commands exactly those levies are owed that were owed before and are not paid by then |
| Compliance.PaidNeverOutstanding | src/payments/payments.service.ts:123-136 | Once paid, a levy is never outstanding for that user again, whatever later commands, levies, members and times |
| Compliance.OwesExactly | src/compliance/compliance.service.ts:39-60 | What makes a levy owed, written out: live, enforced, of the user's estate and role, without a verified payment, and past its grace period |
| Compliance.CheckUserCompliance | src/compliance/compliance.service.ts:24-75 | The returned list holds exactly the levies that meet those conditions, with its total, and compliance means it is empty |
| Compliance.GetEstateComplianceReport | src/compliance/compliance.service.ts:93-127 | The loop computes the report, whose counts and totals add up |
| Reminders.WindowIsDay | src/levies/levies.service.ts:119-135 | The due-date window is the calendar day of its target: windows are disjoint and leave no gap |
| Reminders.DailyReminderExactly | src/levies/payment-reminder.service.ts:40-95 | One run reminds a user of a levy once if it is live, applicable, unpaid and due in 7 days, in 3 days, today or yesterday, and not at all otherwise |
| Reminders.RemindersExactly | src/levies/payment-reminder.service.ts:40-95 | Exactly which reminders go out and in which frame: to a present member of the levy's estate and roles, unpaid, on the frame's day |
| Reminders.AtMostFourReminders | src/levies/payment-reminder.service.ts:24-95 | Over any number of daily runs a user is reminded of a levy at most four times |
| Reminders.FourRemindersIfUnpaid | src/levies/payment-reminder.service.ts:24-95 | And exactly four times if the runs cover the window and the levy stays unpaid |
| Reminders.NoReminderOncePaid | src/levies/payment-reminder.service.ts:84-92 | No reminder after a verified payment, whatever payment commands follow |
| Reminders.SendRemindersForDate | src/levies/payment-reminder.service.ts:68-95 | The nested loops send exactly the reminders of one frame |
| Reminders.SendDailyReminders | src/levies/payment-reminder.service.ts:24-38 | The job sends the four frames' reminders and nobody gets two for one levy |
| SoftDelete.StepRefines | src/common/database/soft-delete.plugin.ts:30-46 | With a filter silent about isDeleted, whatever else it asks, and any update of the fields, each operation answers and changes the live view as a collection without the deleted documents would; there a restore only counts |
| SoftDelete.SoftDeleteRefinesRemoval | src/common/database/soft-delete.plugin.ts:30-74 | Any sequence of such operations, restores and aggregations included, is indistinguishable, answer by answer, from one on a collection that removes documents |
| SoftDelete.SelectExactly | src/common/database/soft-delete.plugin.ts:30-37 | A query gives exactly the documents its filter concerns after the hook, each once and in order |
| SoftDelete.FindOneExactly | src/common/database/soft-delete.plugin.ts:38-40 | findOne, findOneAndUpdate and updateOne are about the first such document, or answer nothing and change nothing |
| SoftDelete.ManyExactly | src/common/database/soft-delete.plugin.ts:41-74 | updateMany, softDelete and restore change exactly such documents, with the date written or erased |
| SoftDelete.AlwaysDated | src/common/database/soft-delete.plugin.ts:62-74 | In every run from the empty collection exactly the deleted documents carry a date |
| SoftDelete.SilentRestoreDoesNothing | src/common/database/soft-delete.plugin.ts:72-74 | Restoring with such a filter never changes the live view, and in every run from the empty collection changes nothing at all |
| SoftDelete.ExplicitRestore | src/common/database/soft-delete.plugin.ts:72-74 | Restoring with isDeleted true brings back exactly the matching deleted documents |
| SoftDelete.DeleteThenRestore | src/common/database/soft-delete.plugin.ts:62-74 | Deleting and then restoring by the same condition on the fields gives back the live view if and only if no document deleted earlier meets it |
| SoftDelete.SoftDeleteModel.SoftDelete | src/common/database/soft-delete.plugin.ts:62-64 | The collection and matched count afterwards; dates stay on deleted documents only |
| SoftDelete.SoftDeleteModel.Restore | src/common/database/soft-delete.plugin.ts:72-74 | The collection and matched count afterwards |
| SoftDelete.SoftDeleteModel.FindDeleted | src/common/database/soft-delete.plugin.ts:67-69 | Exactly the deleted documents: with the live ones they make up the collection |
| SessionHistory.VersionCountsBumps | src/auth/cqrs/commands/handlers/logout.handler.ts:23-25 | Over any run the token version grows by exactly the number of bumps |
| SessionHistory.ValidIffNoBump | src/auth/strategies/jwt.strategy.ts:28-36 | A token of the current version is accepted at a later moment if and only if nothing bumped its account's version in between |
| SessionHistory.FreshTokensAreCurrent | src/auth/cqrs/commands/handlers/verify-login.handler.ts:38-61 | Every token is of the current version and accepted at the moment it is issued |
| SessionHistory.OutdatedForever | src/auth/strategies/jwt.strategy.ts:34-36 | A refused token is never accepted again |
| SessionHistory.LogoutEndsAllSessions | src/auth/cqrs/commands/handlers/logout.handler.ts:16-30 | No token of the account issued before a logout is ever accepted after it |
| SessionHistory.SubjectExactly | src/auth/cqrs/commands/handlers/login.handler.ts:29-46 | What each command demands of its account: email, password and device, the very code it holds, a current token |
| SessionHistory.StepExactly | src/auth/cqrs/commands/handlers/verify-preauth.handler.ts:43-71 | Each command changes the flags, version and code of that account only, in the stated way, and issues the stated token |
| SessionHistory.NewAccountExactly | src/auth/cqrs/commands/handlers/register.handler.ts:27-73 | A registration makes an account with its code and a token, a member command one without, and a taken email makes neither |
| SessionHistory.AcceptedCodeIsHeld | src/auth/cqrs/commands/handlers/verify-login.handler.ts:32-36 | A code is accepted only if it is the very code that the account with this email holds |
| SessionHistory.AcceptedCodeIsLastGiven | src/auth/cqrs/commands/handlers/verify-preauth.handler.ts:39-41 | In every run an accepted code is the last one given to its account and was not accepted before |
| SessionHistory.EachCodeOnce | src/auth/cqrs/commands/handlers/verify-preauth.handler.ts:39-61 | Over any run an account's accepted codes never outnumber the codes given to it |
| SessionHistory.AcceptedCodeIsConsumed | src/auth/cqrs/commands/handlers/verify-login.handler.ts:32-42 | Once a code is accepted nothing is accepted for that account until a new code is issued |
| SessionHistory.AuthTokensAreOpened | src/auth/cqrs/commands/handlers/verify-login.handler.ts:44-61 | Over any run an account's full tokens are exactly one per registration and accepted login code; logging in alone issues none |
| SessionHistory.SessionsNeedCodes | src/auth/cqrs/commands/handlers/register.handler.ts:64-73 | Over any run an account gets no more full tokens than codes, besides the one a registration hands out |
| SessionHistory.AuthHandlers.Login | src/auth/cqrs/commands/handlers/login.handler.ts:25-153 | New accounts and returned token in every branch: wrong password, device, unverified super admin, active elsewhere, ordinary login |
| SessionHistory.AuthHandlers.VerifyLogin | src/auth/cqrs/commands/handlers/verify-login.handler.ts:23-62 | Succeeds if and only if the first account with this email holds exactly this code; it is then active, its code gone, and a full token of its version issued |
| SessionHistory.AuthHandlers.VerifyPreAuth | src/auth/cqrs/commands/handlers/verify-preauth.handler.ts:26-81 | Succeeds if and only if the token is current, names the account with this email, and the code is the one it holds; the account and token then, for all three reasons |
| SessionHistory.AuthHandlers.Logout | src/auth/cqrs/commands/handlers/logout.handler.ts:16-30 | Accepted only with a current token; the account is then inactive and its version one higher |

## Left out

Outbox:

- The queue and the database themselves: one live job per event id, redelivery after a crash, single-document updates, transactions and unique indexes are assumptions. The queue's own attempt limit and backoff are not modelled; a rejected job may be retried at any time or kept as failed, and a crashed one redelivered or failed any number of times, which covers the limits on attempts and on stalls.
- Eventual delivery: that polls, workers and evictions keep happening is outside the model, so the termination result bounds finished dispatches, and `Stranding` says which events can still be decided, not that they will be. The continuation it gives frees workers by letting them crash.
- One dispatch as code runs at one clock reading and without crashes inside it; the protocol lets time pass and a crash fall between any two of its steps.
- Outbox rows are never deleted, so the branch for a missing row is absent. Rows with equal creation times are ordered by insertion.
- The effects of handlers other than the audit handler, and the fields version, correlationId, metadata, processedAt and occurredAt.
- Statistics of queue and handlers, and the dead-letter queue's listing, resolving, cleaning up and its retry, whose new row lacks the required correlationId.
- Handler instances appear as their names; two handlers with one name share a status, as they do in the code.

Permissions:

- Update in place and aliasing of permission documents and their action arrays, which sorting mutates; lists are values here.
- String order is by character, not by UTF-16 unit; concurrent updates of one user and a missing user are absent.

Hierarchy:

- Generic user updates and deletions, promotion of an existing landlord and the plain create-user command, all of which can break the pointers, and site administrators, whom the seeder makes.
- Unique emails, passwords and the tenant, admin and property details of a user; one role-parametrised command stands for the four create commands.
- A failing update of `manages` is the same as a command that stops before it. Estate creation is one atomic step, as its transaction makes it.

Payments, compliance, reminders:

- Commands on payments are atomic: two concurrent verifications of one payment are not interleaved. Amounts are integers, days are fixed blocks of 24 hours without daylight saving.
- The webhook's signature check and other charge events. It looks a payment up by the charge's reference as if that were the payment's id; the model takes the id it finds.
- The branch of the compliance check for lookups that fail with an error is present only for unknown users.
- The laws of the estate report rest on an assumption: `findByEstate` converts its users to response objects, whose `_id` declares neither a type nor a transformation (src/users/users.service.ts:52-56), and the model takes the ids to survive that. If the conversion library rebuilds the id, the compliance check finds no such user, fails open, and the report calls everyone compliant.
- Errors in sending a reminder, the channels it is sent on, and the list of active levies of a user.

Soft delete:

- The document methods, unique indexes, filters that mention isDeleted below the top level or read deletedAt, and ordinary updates that write these two fields. Ordering, paging and projection of results.

Sessions:

- Signing and expiry of tokens, password hashing, generation of codes (a code is a parameter), password reset, changes of email, deletion of accounts, and the events and mails of these commands.
- The token strategy drops the reason of a pre-authentication token, so through the controller only the third branch of its verification is reached; the model takes the reason as a parameter and covers all three.
- Each command is atomic: the transaction and the save of one command are not interleaved with others.

Controllers, request validation, websockets, push notifications, image upload, gate-pass tokens, properties and notifications are not part of this model.
