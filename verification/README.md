# Protocol models of a multi-tenant agent platform

The platform keeps small protocols running across crashes, retries, restarts and many processes:
orchestration runs as chains of queue jobs, a rate limiter over one-second buckets, a two-level cache
of what a session may see, LRU caches, a circuit breaker shared by tool calls in flight, idempotent
remote calls, a mail outbox, the memory of tasks a conversation has shown, a migration ledger, and a
walk over navigation trees. This project models each of them in Dafny and proves what it keeps over
every run, what it promises exactly, and where the promise ends.

Three kinds of member carry the claims.

- State machines over atomic statements. A `Do` function gives the effect of one statement, `Enabled`
  says when it can be taken, and a run is any list of enabled statements. Theorems are about all runs,
  so a crash, a retry or another process may come between any two statements.
- Classes and methods in the form of the source, with the same loops and branches. Each is proved
  against the functions the machines use, so the theorems are about what these methods compute.
- Lemmas about the pure parts, most of them in both directions.

Where the source's own description is false of its code, the model follows the code, and a lemma says
exactly when the description holds. That is so for early exit after a crash, queued runs as inline runs,
`onComplete` "called once", scopes no older than 15 minutes, "one probe allowed" after an open breaker,
idempotent calls, mails between insert and enqueue, keys of the two caches, one lock for a conversation,
the order and the reading back of a shown batch, and the lag of a migration check. The comment that a tool's
promise is raced against its timeout is not followed: the code waits for the tool and looks at the timer
afterwards, and so does the model.

| file | models |
|---|---|
| Orchestration.dfy | queued and inline runs of a list of steps, crashes, retries, termination |
| OrchestrationRunners.dfy | `executeStep`, the task `run_step`, `runOrchestrationInline` |
| StepEvents.dfy | the event queue and wake-up of one inline step |
| RateLimit.dfy | `reserveTurn`, `retryAfterSeconds`, `commitActualTokens` |
| SessionScope.dfy, SessionProtocol.dfy | scope roll-up, its two caches, several processes |
| LruCache.dfy, RetrievalCaches.dfy | the embedding and rerank caches and their keys |
| CircuitBreaker.dfy, WrappedCalls.dfy | the breaker and the calls that share it |
| RpcIdempotency.dfy, RpcTransport.dfy | `withIdempotency` and `callRemote` |
| MailOutbox.dfy | `send`, the outbox rows and the worker |
| CanonicalJson.dfy | the canonical printer behind the props hash |
| RecentTasks.dfy, EntityRecorder.dfy | the merge, the stored form, references, concurrent exposures |
| Migrations.dfy | `runMigrations` |
| NavTree.dfy | `activeNavId` |
| JsText.dfy, Options.dfy | UTF-16 strings with the default sort, and options |

## Model

| member | source | states |
|---|---|---|
| Orchestration.StoredIsAnsweredPrefix | packages/shared-orchestration/src/execute-step.ts:42-77 | under every crash and retry schedule the store holds exactly the outputs of a prefix of the steps, each its agent's reply to input built from the earlier ones |
| Orchestration.StoredNeverChanges | packages/shared-orchestration/src/repository.ts:26-33 | however a run goes on, no stored output is dropped or replaced |
| Orchestration.QueuedRefinesInline | packages/shared-orchestration/src/queued-runner.ts:57-76 | if jobs are not retried, or no step after a terminal reply can be answered, a completed queued run left the outputs and result of one inline run |
| Orchestration.QueuedEqualsInline | packages/shared-orchestration/src/inline-runner.ts:43-85 | with agents that are functions of their input, under the same condition, the queued and the inline run have the same outputs and result |
| Orchestration.InlineIsQueued | packages/shared-orchestration/src/inline-runner.ts:43-85 | every inline run of a non-empty list of steps is also the outcome of some queued run |
| Orchestration.EarlyExitHeldExactly | packages/shared-orchestration/src/execute-step.ts:42-50 | a terminal step always ends the run if and only if no step but the last can be terminal or a job has one attempt |
| Orchestration.CrashedRunOutrunsInline | packages/shared-orchestration/src/execute-step.ts:42-50 | one crash after saving a terminal step lets the queued run complete with the outputs of all steps, which no inline run does |
| Orchestration.RefinesInlineExactly | packages/shared-orchestration/src/execute-step.ts:42-50 | every completed queued run stored an inline run if and only if jobs are not retried or no step after a terminal reply can be answered |
| Orchestration.NotifiedOnceWithoutRetries | packages/shared-orchestration/src/types.ts:46-47 | with one attempt per job `onComplete` is called at most once |
| Orchestration.NotifiedTwice | packages/shared-orchestration/src/types.ts:46-47 | with retries, replies that reach the last step, or of which two are terminal, have a run that calls `onComplete` twice |
| Orchestration.NotifiedOnceExactly | packages/shared-orchestration/src/types.ts:46-47 | for every orchestration, `onComplete` is called at most once in every run if and only if a job has one attempt, or no replies are possible that reach the last step or hold two terminal ones |
| Orchestration.EmptySpecNeverCompletes | packages/shared-orchestration/src/execute-step.ts:39-40 | an orchestration without steps completes inline and never completes through the queue |
| Orchestration.RunsTerminate | packages/shared-orchestration/src/queued-runner.ts:64-83 | n steps with M attempts each take at most M + M^2 + ... + M^n executions, and the schedule is finite |
| Orchestration.BoundIsReached | packages/shared-orchestration/src/queued-runner.ts:73-82 | some schedule takes exactly that many executions |
| Orchestration.StrandedExactly | packages/shared-orchestration/src/queued-runner.ts:34-45 | nothing about a run between attempts can change any more exactly when it has no job in the queue, as after a crash between `createRun` and `addJob` |
| Orchestration.StuckRunningExactly | packages/shared-orchestration/src/queued-runner.ts:57-83 | a run without a job is left running exactly when its last action was the crash of a job's last attempt while it was running |
| Orchestration.CrashesStrand | packages/shared-orchestration/src/queued-runner.ts:57-83 | every orchestration has such a run |
| Orchestration.CompletedFailsExactly | packages/shared-orchestration/src/queued-runner.ts:64-83 | some run ends failed after `completeRun` was called if and only if the orchestration can be completed at all |
| OrchestrationRunners.EnqueueRun | packages/shared-orchestration/src/queued-runner.ts:24-47 | `createRun`, then `addJob`: the stored run is the initial state of the machine, or a run without a job if something rejects or the process dies between the two; nothing if the first fails |
| OrchestrationRunners.StoredRun.CreateRun | packages/shared-orchestration/src/inline-runner.ts:28-41 | a new run stores nothing and has no job |
| OrchestrationRunners.StoredRun.AddFirstJob | packages/shared-orchestration/src/queued-runner.ts:41-45 | adds the job of step 0 |
| OrchestrationRunners.StoredRun.SaveStep | packages/shared-orchestration/src/repository.ts:26-33 | merges one output into the stored run |
| OrchestrationRunners.StoredRun.CompleteRun | packages/shared-orchestration/src/repository.ts:34 | marks the run completed with its result |
| OrchestrationRunners.StoredRun.ExecuteStep | packages/shared-orchestration/src/execute-step.ts:32-86 | skips a stored step as not terminal; otherwise stores the reply and merges it into the record; says what each rejection leaves |
| OrchestrationRunners.StoredRun.TryStep | packages/shared-orchestration/src/queued-runner.ts:57-77 | the body of the task follows a schedule of the machine and leaves a fixed whole state whichever call rejects, before or after its effect; it ends normally exactly when none does |
| OrchestrationRunners.StoredRun.LeaveStep | packages/shared-orchestration/src/queued-runner.ts:64-77 | completes and notifies after a terminal or last step, enqueues the next step otherwise; every field afterwards, for each call that rejects: `onComplete` is not called once `completeRun` has rejected |
| OrchestrationRunners.StoredRun.PickJob | packages/shared-orchestration/src/queued-runner.ts:51-58 | picking up a job is the machine's Start |
| OrchestrationRunners.StoredRun.FinishJob | packages/shared-orchestration/src/queued-runner.ts:78-83 | a rejection fails the run on the last attempt, unless `failRun` rejects too, and requeues the job before that |
| OrchestrationRunners.StoredRun.RunStep | packages/shared-orchestration/src/queued-runner.ts:51-84 | one attempt is a schedule of the machine; outputs, replies, status, result, notifications, jobs and executions afterwards, field by field, for a rejecting agent and for each other call that rejects |
| OrchestrationRunners.RunInline | packages/shared-orchestration/src/inline-runner.ts:19-86 | yields the events of each step in order, those of its agent included, and at the end the last reply's result, which is also the stored result; what is stored refines an inline run of its agents' replies; says what is left when an agent, `saveStep`, `completeRun` or `onComplete` rejects |
| OrchestrationRunners.RunnersAgree | packages/shared-orchestration/src/inline-runner.ts:79-85 | with agents that are functions of their input, a queued run that completes has the outputs and the result of a run in process |
| OrchestrationRunners.YieldsStepByStep | packages/shared-orchestration/src/inline-runner.ts:43-85 | the whole yield is one block for each step and nothing else: the start with id and agent, all that the agent had emitted when the step resolved, in order and once each, what it emitted right after, the end |
| OrchestrationRunners.PlayStep | packages/shared-orchestration/src/inline-runner.ts:48-75 | the queue, the callbacks and the loop under any interleaving yield what the machine of one step yields |
| OrchestrationRunners.StoredRun.RunSteps | packages/shared-orchestration/src/inline-runner.ts:43-80 | the loop over the steps goes on to the end or a terminal reply, or stops at the first step that rejects |
| OrchestrationRunners.StoredRun.NextStep | packages/shared-orchestration/src/inline-runner.ts:58-67 | the next step of a record that is up to date is never skipped: it is asked and saved, or rejects |
| OrchestrationRunners.StoredRun.CloseInline | packages/shared-orchestration/src/inline-runner.ts:83-85 | completes the run, then calls `onComplete`; says what is left when either rejects before or after its effect |
| OrchestrationRunners.ExecutePath | packages/shared-orchestration/src/execute-step.ts:42-77 | what `executeStep` returns is reached by load then skip, or load, ask and save |
| StepEvents.EveryDueEventYieldedOnce | packages/shared-orchestration/src/inline-runner.ts:48-78 | when the runner goes on to `step-done`, all events emitted before the step resolved were yielded once, in emission order |
| StepEvents.NoLostWakeUp | packages/shared-orchestration/src/inline-runner.ts:69-75 | no interleaving parks the generator with an event queued or the step finished |
| StepEvents.ResolvedStepIsLeft | packages/shared-orchestration/src/inline-runner.ts:58-77 | in every continuation, with any further events, the runner makes at most three moves more than there are queued events, and two for each event still pushed; when it has none left the step is left |
| StepEvents.LeavingBoundIsReached | packages/shared-orchestration/src/inline-runner.ts:69-77 | events pushed one at a time to the parked generator cost two moves each, for any number of them |
| StepEvents.RejectedStepIsNeverLeft | packages/shared-orchestration/src/inline-runner.ts:58-67 | a rejected step is never left, whatever happens next |
| StepEvents.RejectedStepHangs | packages/shared-orchestration/src/inline-runner.ts:69-77 | the generator of a rejected step ends up parked with only a further event able to wake it |
| StepEvents.StepChannel.OnEvent | packages/shared-orchestration/src/inline-runner.ts:52-56 | pushing an event is the machine's Emit |
| StepEvents.StepChannel.OnResolved | packages/shared-orchestration/src/inline-runner.ts:62-67 | the `then` callback is the machine's Finish |
| StepEvents.StepChannel.Next | packages/shared-orchestration/src/inline-runner.ts:69-75 | one stretch of the generator's loop is the machine's Resume; what it yields extends the yielded events |
| RateLimit.RetryAfterSeconds | packages/agent/src/backend/rate-limit.ts:38-60 | the loop over running totals waits for the first suffix of rows that admits the request, or returns the fallback |
| RateLimit.Limiter.ReserveTurn | packages/agent/src/backend/rate-limit.ts:62-124 | grants and charges the bucket of the floored second, or refuses with a wait and changes nothing |
| RateLimit.Limiter.CommitActualTokens | packages/agent/src/backend/rate-limit.ts:126-155 | moves the bucket from estimate to actual tokens, nothing if the row is gone |
| RateLimit.GrantedWhenRoom | packages/agent/src/backend/rate-limit.ts:80-104 | a request is granted exactly when the turns and tokens of past grants in the window leave room |
| RateLimit.BucketsSumTheirReservations | packages/agent/src/backend/rate-limit.ts:106-146 | in every run each bucket is the sum over its reservations of actual or estimated input, committed output, and their number |
| RateLimit.TurnLimitHolds | packages/agent/src/backend/rate-limit.ts:70-115 | any closed interval of at most 59 000 ms has at most `turnLimit` granted turns of one tenant and user |
| RateLimit.TokenLimitHolds | packages/agent/src/backend/rate-limit.ts:80-155 | any such interval has at most `tpmLimit` tokens and what commits reported beyond their estimates, so at most `tpmLimit` if none does |
| RateLimit.OvershootIsReached | packages/agent/src/backend/rate-limit.ts:126-146 | for every limit a commit beyond its estimate takes the interval over the limit by all of it |
| RateLimit.LongerIntervalOverruns | packages/agent/src/backend/rate-limit.ts:23-25 | for every limit some interval of 59 001 ms has one more, because buckets are floored to the second |
| RateLimit.RetryAfterIsExact | packages/agent/src/backend/rate-limit.ts:48-57 | the value is in 1..60; a request that can be granted is granted after that many seconds and refused after any smaller whole number |
| RateLimit.FallbackIffNeverGranted | packages/agent/src/backend/rate-limit.ts:59 | the fallback is reached exactly by requests that stay refused for ever |
| RateLimit.UnsatisfiableNeverGranted | packages/agent/src/backend/rate-limit.ts:93-104 | a request beyond its own limits is refused at any later time |
| SessionScope.ComputeAccessibleGroups | packages/core/src/session/scope.ts:51-57 | the set filled in the loop is the sorted groups of the roll-up |
| SessionScope.BuildMeaning | packages/core/src/session/scope.ts:34-57 | roles are exactly the granted slugs, groups exactly the non-empty ids of group grants, both sorted without repeats; cross-tenant reading is the org.viewer role |
| SessionScope.BuildIgnoresOrder | packages/core/src/session/scope.ts:34-57 | equal sets of grants give equal scopes |
| SessionScope.Process.GetSessionScope | packages/core/src/session/scope.ts:59-137 | serves the hot entry for 900 000 ms, else the unmarked row, else builds and stores both; says the whole new state of each case |
| SessionScope.Process.EvictHotByUser | packages/core/src/session/scope.ts:139-148 | removes exactly the user's entries that are not past their time and returns their number |
| SessionScope.Process.InvalidateUserSessions | packages/core/src/session/invalidate.ts:6-12 | marks all rows of the user and evicts the hot ones |
| SessionProtocol.ScopesAreRecent | packages/core/src/session/scope.ts:59-137 | in runs without an invalidation during a call of its user that holds an outdated scope (`CalmRun`), over any processes, a returned scope is of a version not invalidated out more than 15 minutes ago and not older than what its process evicted for |
| SessionProtocol.OwnInvalidationIsSeen | packages/core/src/session/invalidate.ts:6-12 | in runs without an invalidation during a call of its user that holds an outdated scope (`CalmRun`), in the process that invalidated, a returned scope is that of the current grants |
| SessionProtocol.ScopesWithinFifteenMinutes | packages/core/src/session/scope.ts:32 | in runs without an invalidation during a call of its user that holds an outdated scope (`CalmRun`), with each change followed at once by its invalidation, a returned scope is the roll-up of the grants as they stood at some moment of the last 15 minutes |
| SessionProtocol.MarkKeepsRecentExactly | packages/core/src/session/scope.ts:92-133 | a mark keeps all later scopes recent if and only if no call of the user in flight holds an outdated scope or outdated grants |
| SessionProtocol.MarkInGapIsLost | packages/core/src/session/scope.ts:92-133 | a mark between listing the grants and the upsert leaves an unmarked row with the old scope |
| SessionProtocol.StaleForever | packages/core/src/session/scope.ts:92-133 | then, for every delay, another process is given the old scope that long after |
| LruCache.SizeBounded | packages/shared-retrieval/src/embed-query-cache.ts:50-54 | never more than `maxEntries` entries on return |
| LruCache.MapOrderIsAccessOrder | packages/shared-retrieval/src/embed-query-cache.ts:38-48 | in every run the map's order is the order of last access |
| LruCache.Survives | packages/shared-retrieval/src/embed-query-cache.ts:39-54 | an entry outlives any gets of fewer than `maxEntries` distinct other keys |
| LruCache.ComputedOncePerTtl | packages/shared-retrieval/src/embed-query-cache.ts:38-49 | a key asked for again with fewer than `maxEntries` other keys since is computed again exactly when `ttlMs` have passed since it was last computed |
| LruCache.ValueHasOrigin | packages/shared-retrieval/src/embed-query-cache.ts:38-56 | a get returns the answer of the latest get of its key that computed, which is its own or less than `ttlMs` old |
| RetrievalCaches.EmbedKeyExact | packages/shared-retrieval/src/embed-query-cache.ts:35 | without spaces in model ids, keys are equal exactly when model and query are |
| RetrievalCaches.EmbedKeyShared | packages/shared-retrieval/src/embed-query-cache.ts:35 | for any two requests, exactly when they share a key |
| RetrievalCaches.EmbedKeyCollides | packages/shared-retrieval/src/embed-query-cache.ts:35 | two models can share a key if and only if one id is the other followed by a space and more |
| RetrievalCaches.RerankKeyExact | packages/shared-retrieval/src/cache.ts:50-53 | for ids that are not empty and have no comma or bar, keys are equal exactly when the queries are and the ids are a reordering |
| RetrievalCaches.RerankKeyShared | packages/shared-retrieval/src/cache.ts:50-53 | for any two requests, exactly when they share a key: same query and same pieces between commas, or a query that goes on after a bar with what begins the ids of the other |
| RetrievalCaches.RerankKeyCollides | packages/shared-retrieval/src/cache.ts:50-53 | a request shares its key with another one unless its query has no bar and it has one id, not empty, without bar and not cut by a comma into ids in order; then with none |
| RetrievalCaches.EmbedReturnsItsVector | packages/shared-retrieval/src/embed-query-cache.ts:34-57 | whatever a get returns is the vector of its own model and query |
| RetrievalCaches.RerankReturnsSameRequest | packages/shared-retrieval/src/cache.ts:28-48 | whatever a get returns was computed for a request with the same key; for clean ids that is the same query and the same ids in some order, and for a request alone with its key the same request |
| RetrievalCaches.EntryMap.Evict | packages/shared-retrieval/src/embed-query-cache.ts:50-54 | the loop drops the oldest entries down to the limit |
| RetrievalCaches.EntryMap.Get | packages/shared-retrieval/src/embed-query-cache.ts:36-56 | answer and new entries are those of the run's step: promoted on a hit, deleted and recomputed otherwise |
| RetrievalCaches.EmbedQueryCache.Get | packages/shared-retrieval/src/embed-query-cache.ts:34-57 | the same under the key of model and query |
| RetrievalCaches.RerankCache.Get | packages/shared-retrieval/src/cache.ts:28-48 | the same under the key of query and sorted ids |
| CircuitBreaker.CounterCountsSinceSuccess | sdks/agent/src/circuit-breaker.ts:66-72 | after any history the counter is the number of failures since the last success |
| CircuitBreaker.WindowMeansThreshold | sdks/agent/src/circuit-breaker.ts:78-79 | a window that is set implies a counter at the threshold |
| CircuitBreaker.FailuresKeepWindow | sdks/agent/src/circuit-breaker.ts:71-76 | any number of failures that find the breaker open leave its window alone |
| CircuitBreaker.FailureReopens | sdks/agent/src/circuit-breaker.ts:70-79 | after the window one failure opens the breaker again |
| CircuitBreaker.OpeningsApart | sdks/agent/src/circuit-breaker.ts:70-79 | two openings without a success between them are at least `openMs` apart |
| CircuitBreaker.OpensExactly | sdks/agent/src/circuit-breaker.ts:70-79 | a record opens the breaker exactly when it is a failure, at least the threshold-th since the last success, outside every earlier window since then |
| CircuitBreaker.OpenIffCovered | sdks/agent/src/circuit-breaker.ts:61-65 | the breaker is open exactly inside the window of an opening since the last success |
| CircuitBreaker.BreakerHandle.RecordSuccess | sdks/agent/src/circuit-breaker.ts:66-69 | the handle records a success as the fold does |
| CircuitBreaker.BreakerHandle.RecordFailure | sdks/agent/src/circuit-breaker.ts:70-88 | the handle records a failure as the fold does, with its two readings of the clock |
| WrappedCalls.BreakerIsFold | sdks/agent/src/wrap-execute.ts:123-160 | with any calls in flight, and two readings of the clock for each failure, the shared breaker is the fold of all that they record, in order |
| WrappedCalls.NoAdmissionWhileOpen | sdks/agent/src/wrap-execute.ts:126-128 | from a state open until u, a call is let in before u only if a call in flight in that state has recorded a success since |
| WrappedCalls.ProbesUnlimited | sdks/agent/src/circuit-breaker.ts:61-65 | after the window any number of calls is let in at once, not one probe |
| WrappedCalls.OneProbeExactly | sdks/agent/src/circuit-breaker.ts:61-65 | no more than one call is let in at a time if and only if the breaker is open, and then none is |
| WrappedCalls.RecordsExactly | sdks/agent/src/wrap-execute.ts:139-157 | what a call records over a whole run, outcome by outcome, for every order of timer, abort and result |
| WrappedCalls.SettlingMeans | sdks/agent/src/wrap-execute.ts:139-160 | what a settling call does to counter and window: a result in time closes the breaker, one that cannot be serialised leaves one failure, a throw before or after the timer adds one, a cancelled throw none, a late result two |
| WrappedCalls.SettleStepMeans | sdks/agent/src/wrap-execute.ts:139-160 | the same of a step of the machine with any calls in flight |
| WrappedCalls.OneOutcomeExactly | sdks/agent/src/wrap-execute.ts:139-157 | exactly when a call records one outcome: neither a late result, nor one that cannot be serialised, nor a cancelled throw |
| WrappedCalls.CancelledRecordsNothing | sdks/agent/src/wrap-execute.ts:153-155 | a call cancelled before any timeout whose execute throws records nothing |
| WrappedCalls.LateResultCountsTwice | sdks/agent/src/wrap-execute.ts:142-151 | a result after the timer adds two to the counter |
| WrappedCalls.Admitted | sdks/agent/src/wrap-execute.ts:126-131 | a call is refused exactly when the breaker is open |
| WrappedCalls.WrappedCall.OnTimer | sdks/agent/src/wrap-execute.ts:135-137 | the timer aborts the call's own controller and records nothing |
| WrappedCalls.WrappedCall.OnSettled | sdks/agent/src/wrap-execute.ts:139-160 | the branches after `execute` record exactly the verdict of the call, each failure with its own two readings of the clock |
| RpcIdempotency.AnswersAreFirstInserted | packages/core/src/rpc/idempotency.ts:20-35 | in every interleaving, whoever returns gives the first inserted result if that is not null, and its own otherwise |
| RpcIdempotency.AllAgree | packages/core/src/rpc/idempotency.ts:12-35 | without nulls all callers that finish return one value |
| RpcIdempotency.StoredIsSomeBody | packages/core/src/rpc/idempotency.ts:21-29 | what is stored is the result of the body of a caller that ran it |
| RpcIdempotency.RowWrittenOnce | packages/core/src/rpc/idempotency.ts:21-29 | the row never changes once it is there |
| RpcIdempotency.LateCallerNeverRuns | packages/core/src/rpc/idempotency.ts:12-19 | a caller that starts after a non-null result is stored never runs its body and returns that result |
| RpcIdempotency.RunsAgainExactly | packages/core/src/rpc/idempotency.ts:12-19 | from any state no later caller ever runs the body if and only if a result other than null is stored |
| RpcIdempotency.SequentialRunsOnce | packages/core/src/rpc/idempotency.ts:12-35 | of two callers that do not overlap and both ran the body, the earlier one failed |
| RpcIdempotency.NullIsNotRemembered | packages/core/src/rpc/idempotency.ts:17-19 | after a null result the next caller runs the body and keeps its own answer |
| RpcIdempotency.OverlapRunsTwice | packages/core/src/rpc/idempotency.ts:12-35 | two overlapping callers both run the body and share the first one's answer |
| RpcIdempotency.DeathRunsAgain | packages/core/src/rpc/idempotency.ts:20-29 | a caller that dies between body and insert leaves the next one to run the body again |
| RpcIdempotency.Table.InsertIfAbsent | packages/core/src/rpc/idempotency.ts:21-29 | an insert on a known key does nothing |
| RpcIdempotency.WithIdempotency | packages/core/src/rpc/idempotency.ts:5-36 | one undisturbed call: whether the body runs, what is returned, and the whole table after it |
| RpcTransport.CallRemote | packages/core/src/rpc/transport.ts:34-110 | one request, or two under the same key when the first outcome may pass; an empty key is no header; the answer for each status of the response that decides: 200 to 299 its output, 403 the permission, 400 an invalid argument, any other status an internal error with its detail; a timeout is never seen by the caller |
| RpcTransport.TransientMeansRetryable | packages/core/src/rpc/transport.ts:50-98 | the errors tried again are exactly those of network failures and of 401, 502, 503 and 504 |
| MailOutbox.OneRowOneJob | packages/core/src/outbox/store.ts:58-85 | in every run with crashes each tenant and dedupe key has one row, and a row got one job or none |
| MailOutbox.AttemptsAreMarks | packages/core/src/outbox/store.ts:94-128 | `attempts` is the number of mark statements done, and the transport is called at most eight times |
| MailOutbox.AcceptedOnceUnlessLost | packages/shared-mailer/src/queue/worker.ts:42-67 | acceptances by the transport are one for a sent row plus one for each acceptance that was never recorded; the sent event is tried at most once, rejecting tries included |
| MailOutbox.TerminalForGood | packages/shared-mailer/src/queue/worker.ts:33 | a sent or permanently failed row stays so and the transport is not called for it again |
| MailOutbox.StatusMeansAnswer | packages/shared-mailer/src/queue/worker.ts:42-95 | in every run a row is sent only after an acceptance and permanently failed only after a refusal for good |
| MailOutbox.AbandonedForEver | packages/shared-mailer/src/mailer.ts:84-111 | a mail whose sender died between insert and enqueue is never sent in any continuation |
| MailOutbox.LostExactly | packages/shared-mailer/src/mailer.ts:84-111 | in every reachable state a mail never gets a job in any continuation if and only if it is pending without one and its sender is gone |
| MailOutbox.NeverSentExactly | packages/shared-mailer/src/queue/worker.ts:24-113 | in every reachable state a mail is sent in no continuation if and only if it is abandoned, failed for good, or pending with all executions used up and the transport call of the last one behind it |
| MailOutbox.AbandonedWhenOwnerDied | packages/shared-mailer/src/mailer.ts:84-111 | a mail is in that state exactly when its sender ended before the job was enqueued, by a crash, a failing event or a rejected `addJob` |
| MailOutbox.CrashAbandons | packages/shared-mailer/src/mailer.ts:84-111 | from any state a crash right after the insert of a new key leads there |
| MailOutbox.OutboxStore.UpsertPending | packages/core/src/outbox/store.ts:58-85 | adds a pending row exactly when the key is new and returns the row of the key |
| MailOutbox.OutboxStore.MarkSent | packages/core/src/outbox/store.ts:94-105 | sets the status and counts the attempt |
| MailOutbox.OutboxStore.MarkFailedTransient | packages/core/src/outbox/store.ts:106-116 | counts the attempt and keeps the status |
| MailOutbox.OutboxStore.MarkPermanentlyFailed | packages/core/src/outbox/store.ts:117-128 | sets the status and counts the attempt |
| MailOutbox.SendMail | packages/shared-mailer/src/mailer.ts:77-117 | rows, jobs and result after one undisturbed send, for invalid input, a new and a known key, and an upsert, event or `addJob` that rejects before or after its effect |
| MailOutbox.SendTask | packages/shared-mailer/src/queue/worker.ts:24-113 | status and attempts of the row after one undisturbed execution for each answer of the transport, and whether the job is to be tried again, also when a mark takes effect and rejects |
| MailOutbox.TaskIsPath | packages/shared-mailer/src/queue/worker.ts:24-113 | that execution is a path of the machine: same row, and the job waits again exactly when the task rejects |
| CanonicalJson.CanonicalExact | packages/shared-mailer/src/props-hash.ts:3-9 | two values print the same exactly when they are equal at any depth up to object key order, null for numbers that are not finite, and an empty array for one that holds only `undefined` |
| CanonicalJson.ParsedExact | packages/shared-mailer/src/props-hash.ts:3-9 | two values read from JSON print the same exactly when they are equal up to object key order, at any depth |
| CanonicalJson.Unambiguous | packages/shared-mailer/src/props-hash.ts:3-9 | a printed value inside a document can be read in one way only |
| CanonicalJson.EquivPrintsAlike | packages/shared-mailer/src/props-hash.ts:6-8 | values equal in that sense print the same |
| CanonicalJson.ReadEscaped | packages/shared-mailer/src/props-hash.ts:4 | reading an escaped string gives it back and stops at its closing quote, for all UTF-16 strings |
| JsText.SortCanonical | packages/shared-mailer/src/props-hash.ts:7 | two lists sort alike exactly when they are reorderings of one another |
| JsText.LeMeans | packages/shared-db/src/migrate.ts:107-109 | one text sorts before another exactly when it begins it or has the smaller unit where they first differ |
| RecentTasks.MergeRecentTasks | sdks/agent/src/entity-recorder.ts:89-118 | the loops over the stored tasks and the batch give the sorted and cut map |
| RecentTasks.MergeShape | sdks/agent/src/entity-recorder.ts:108-117 | every merge gives at most ten tasks with distinct ids, newest first |
| RecentTasks.MergeMeans | sdks/agent/src/entity-recorder.ts:72-87 | a merge changes exactly the fields the patch has |
| RecentTasks.BatchComesFirst | sdks/agent/src/entity-recorder.ts:94-117 | a batch of distinct tasks shown at a time not before any stored one comes first in its own order |
| RecentTasks.BatchComesFirstExactly | sdks/agent/src/entity-recorder.ts:94-117 | a batch of distinct tasks comes first if and only if no stored task it does not show is later than now |
| RecentTasks.ClockBack | sdks/agent/src/entity-recorder.ts:109-111 | with the clock set back a stored task stays in front |
| RecentTasks.ReadBackExactly | sdks/agent/src/working-memory-schema.ts:86-98 | what can be read back is the merged memory if every part of the patch that is kept fits the schema, and nothing at all otherwise |
| RecentTasks.KeptExactly | sdks/agent/src/entity-recorder.ts:108-117 | of a batch of distinct tasks, place k is kept exactly when k and the number of stored tasks later than now that it does not show are less than ten together |
| RecentTasks.KeepsFirstTen | sdks/agent/src/entity-recorder.ts:108-117 | of such a batch not before the stored tasks exactly the first ten are kept |
| RecentTasks.FirstTenDecide | sdks/agent/src/working-memory-schema.ts:59-98 | for a batch of distinct tasks the patch fits exactly when its other fields and those tasks are valid that have a place among the ten behind the later stored ones |
| RecentTasks.EmptyTitleWipes | sdks/agent/src/working-memory-schema.ts:86-98 | one task with an empty title leaves nothing to be read of any stored memory, unless ten later tasks keep it out |
| RecentTasks.OrdinalFindsBatch | sdks/agent/src/task-ref-resolver.ts:62-75 | through storing and parsing, place n refers to the n-th task of the batch, up to ten and the size of the batch |
| RecentTasks.KeywordFindsFirst | sdks/agent/src/task-ref-resolver.ts:51-60 | "last" and its synonyms refer to the first task of the batch just shown |
| RecentTasks.HashMeans | sdks/agent/src/task-ref-resolver.ts:47-62 | a hash and a decimal number refer to that place, for every number |
| RecentTasks.WordMeans | sdks/agent/src/task-ref-resolver.ts:6-17 | "first" to "tenth", in any mixture of cases, refer to places 1 to 10 |
| RecentTasks.LastWordsMean | sdks/agent/src/task-ref-resolver.ts:18 | "last", "latest", "most recent" and "previous" refer to the newest task |
| RecentTasks.UuidMeans | sdks/agent/src/task-ref-resolver.ts:44-46 | a UUID, spaces around it aside, refers to itself whatever was shown, and nothing else is found as one |
| RecentTasks.TrimMeans | sdks/agent/src/task-ref-resolver.ts:44-47 | trimming takes the spaces off both ends and nothing else |
| RecentTasks.ResolvesExactly | sdks/agent/src/task-ref-resolver.ts:51-83 | a place or a last-word without a task, and anything else, is refused with the tasks there are |
| EntityRecorder.NoLostUpdate | sdks/agent/src/entity-recorder.ts:52-70 | exposures of one process, interleaved and failing in any way, leave what recording them one after another leaves |
| EntityRecorder.OneProcessExactly | sdks/agent/src/entity-recorder.ts:23-35 | no run over a set of processes loses an exposure if and only if the set has at most one process |
| EntityRecorder.OtherProcessOverwrites | sdks/agent/src/entity-recorder.ts:23-35 | two processes can both record and leave only the second exposure |
| EntityRecorder.AlwaysTidy | sdks/agent/src/entity-recorder.ts:46-71 | over any processes the list read back has at most ten distinct tasks, newest first, none later than the clock has been |
| EntityRecorder.ThreadMemory.RecordEntityExposure | sdks/agent/src/entity-recorder.ts:46-87 | one exposure under the lock reads, merges field by field and writes, or changes nothing |
| Migrations.RunMigrations | packages/shared-db/src/migrate.ts:44-90 | the nested loops give the lag or an exception as the plan does, and the database is committed or rolled back |
| Migrations.RunModule | packages/shared-db/src/migrate.ts:55-79 | one module's files in name order continue what the call has gone through |
| Migrations.ListsSqlFilesInOrder | packages/shared-db/src/migrate.ts:105-114 | a directory is gone through in ascending order of code units, its SQL files and no others |
| Migrations.GoesThroughExactly | packages/shared-db/src/migrate.ts:54-60 | a call goes through exactly the SQL files of its modules, each under its module's name and with its own text |
| Migrations.AssertOnlyExactly | packages/shared-db/src/migrate.ts:60-73 | a check succeeds exactly when every file can be read and no recorded one changed; it returns the unknown files in order and changes nothing |
| Migrations.ApplySucceedsExactly | packages/shared-db/src/migrate.ts:54-80 | an apply succeeds exactly when, besides, files of one name agree and the database rejects no unknown one |
| Migrations.ApplyDoes | packages/shared-db/src/migrate.ts:60-78 | a successful apply records every file, keeps older records and runs the unknown files once each in order |
| Migrations.AppliesInOrder | packages/shared-db/src/migrate.ts:54-78 | an apply executes the modules as they are listed, and the files of each ascending by the first unit in which their names differ |
| Migrations.ApplyCatchesUp | packages/shared-db/src/migrate.ts:64-73 | after a successful apply a check of the same files finds no lag |
| Migrations.LagIsWhatApplyExecutes | packages/shared-db/src/migrate.ts:70-78 | an apply executes the first mention of each file of the lag, which is the lag itself exactly when no file without a record is listed twice |
| Migrations.ListedTwice | packages/shared-db/src/migrate.ts:55-78 | a module listed twice with one new file: the check reports two files, the apply executes one |
| Migrations.EachBodyOnce | packages/shared-db/src/migrate.ts:47-90 | over any sequence of calls each body takes effect at most once, exactly the recorded ones have, and records do not change |
| NavTree.ActiveNavId | apps/web/src/shell/manifest-registry.ts:48-69 | returns the first visited item with the longest matching `to`, and nothing exactly when no item matches |
| NavTree.MatchesSegments | apps/web/src/shell/manifest-registry.ts:59-60 | a `to` matches exactly when its path segments begin those of the path |
| NavTree.VisitedInOrder | apps/web/src/shell/manifest-registry.ts:54-56 | manifests are visited in their order, and of each the items of its sections in theirs |
| NavTree.Scan | apps/web/src/shell/manifest-registry.ts:55-67 | the loop over the growing list ends and accounts for every visited item |
| NavTree.NextIsSmaller | apps/web/src/shell/manifest-registry.ts:57-58 | taking an item and adding its children leaves one node fewer to visit |
| NavTree.VisitsEveryNode | apps/web/src/shell/manifest-registry.ts:55-58 | every node of the trees is visited exactly as often as it is there |
| NavTree.VisitsLevelByLevel | apps/web/src/shell/manifest-registry.ts:55-58 | the visit goes level by level |
| NavTree.LongestAnywhere | apps/web/src/shell/manifest-registry.ts:60-65 | no matching item at any depth of any manifest has a longer `to` than the one chosen |

## Left out

Assumptions about what lies outside the sources modelled:

- Single database statements are atomic, unique keys hold, and a transaction that fails leaves nothing.
- Jobs of one orchestration run execute one at a time (they share a `serializationKey`), a queue executes a job at most its attempts, and one execution at a time.
- Clocks do not go back: in lock order for the rate limiter, in history order for the breaker, over all processes for session scopes.
- SHA-256 never collides: a hash or a checksum is the text that is hashed. `JSON.parse` gives back what `JSON.stringify` wrote.
- Step ids of an orchestration are distinct, as the source's map of outputs needs them to be.

Parts of the repository that are not modelled:

- Routes, user interface, command line, configuration, permissions, tracing, metrics, logging, jitter and sleeping.
- Trust envelopes, human approval, run and tenant contexts of the orchestration, which only pass through it.
- Which error text a failed run or a wrapped call reports, and the mapping of domain errors to tool errors.
- The bound of 50 000 entries on the hot map: an entry may vanish at any moment (`Drop`).
- Gets of the retrieval caches that overlap, for which the source promises nothing.
- `setBreakerConfig` while calls are in flight: one configuration holds for a history.
- The transport's mapping of error bodies beyond permission and detail, and reading a missing key header on the server side.
- Letter case beyond ASCII in a task reference, which no word of the table can need.
- `filterNavSections` and `visibleManifests`, which only filter lists.
- `queryAudit`, the bucket cleanup job, the dispatcher and the store behind the run repository.

Weaker than the source, or stated under a condition:

- Orchestration.RunsTerminate: counts executions and effects, not time; a step that never settles holds its attempt for ever.
- OrchestrationRunners.RunInline: a rejecting agent or `saveStep` ends its steps here; that the generator then hangs is StepEvents.RejectedStepHangs.
- SessionProtocol.ScopesAreRecent: needs that no invalidation of a user falls into a call of the same user that holds an outdated scope; that this is exactly what is needed is SessionProtocol.MarkKeepsRecentExactly.
- SessionProtocol.OwnInvalidationIsSeen: under the same condition.
- SessionProtocol.ScopesWithinFifteenMinutes: under the same condition, and with each change invalidated at the moment it is made.
- SessionScope.Process.GetSessionScope: e-mail, display name, tenant and summary hash of a scope are left out.
- RetrievalCaches.RerankKeyShared: is about the text that is hashed, as are the other lemmas about rerank keys; UTF-8 reads half a surrogate pair as U+FFFD, so texts that differ only there have one hash.
- RpcTransport.CallRemote: the wait between the requests is left out.
- MailOutbox.SendTask: an error of the database or the event sink is never taken for a permanent error of the transport.
- CanonicalJson.CanonicalExact: a number is the text written for it; big integers, values with a cycle and `undefined` as a whole, for which the source throws, are left out.
- RecentTasks.MergeRecentTasks: a time is a number of milliseconds, as the fixed-width text the source compares sorts alike.
- Migrations.RunMigrations: a body that commits or rolls back the transaction itself is left out, and which bodies the database rejects is given for each call.
