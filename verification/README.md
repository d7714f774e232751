# A verified model of the browser orchestrator

The repository runs browser tasks for many clients: an API stores tasks, runners take them from a queue,
lease a warm node, let the node's agent drive the browser, and write the result back. This project models the
parts of it whose correctness depends on interleaving, state or arithmetic, and proves what they promise.

A Go type whose methods change its fields is a class here; each method states its complete new state as a
function of the old one. Concurrency is a step system over those functions: a run is any sequence of enabled
steps, one step per lock-protected call, SQL statement, Redis command or script. Theorems speak of every run.

| file | what it models |
|---|---|
| `TaskService.dfy` | the in-memory task store and the outputs derived from a trace |
| `TaskPostgres.dfy` | the Postgres store: a conditional UPDATE, then a status lookup, as a refinement of the former |
| `TaskRunner.dfy` | workers with their own copy of a task, retries, cancels and late failures on one store |
| `RunQueue.dfy` | the bounded queue and its dedup set |
| `Lease.dfy` | in-memory leases with clock readings older than the commit, and the keepalive |
| `NodeLeasing.dfy` | taking, keeping and giving back a node, and marks set on it meanwhile |
| `LeasedRuns.dfy` | workers and their node leases together |
| `RedisLease.dfy` | leases on Redis: INCR and SET as separate commands, key expiry, compare scripts |
| `WarmPool.dfy` | the node registry and the reconcile pass |
| `Planner.dfy`, `PlannerLoop.dfy` | the plan sanitiser, the static step planner, and the observe/act loop |
| `Scroll.dfy` | splitting a scroll into wheel events |
| `Idempotency.dfy` | the idempotency store and the request handler |
| `ReplayChain.dfy` | replay lineage |
| `RateLimiter.dfy`, `Cooldown.dfy` | the fixed-window limiter and the domain cooldown as summaries of their histories |
| `Text.dfy`, `Math.dfy`, `Sequences.dfy`, `Wrappers.dfy` | Go strings as bytes, decimal numbers, an option type |

`dafny verify dfyconfig.toml` checks everything.

## What the code does differently from what one might expect

Each is stated with its exact condition; where the condition is an order of events, a lemma shows a run that meets it.

- The repository's own README (line 153) says that stale results after the expiry of a lease are not accepted. A
  successful result is reported without a look at the lease (`LeasedRuns.StaleResultIsAccepted`) and accepted exactly
  unless its task was canceled (`LeasedRuns.ResultAcceptedIff`). While its renewals are timely a worker is never
  overtaken (`LeasedRuns.TimelyWorkerKeepsItsNode`).
- Completed and Failed are not final in the store; only Canceled is (`TaskService.RestartAcceptedIff`,
  `TaskService.CanceledIsAbsorbing`). The runner never retries a completed task, but a failed one can be
  started again, exactly while its holder is still executing with an attempt left (`TaskRunner.FinishedRestartsIff`).
- On Postgres, Cancel can answer not-found for a task that exists (`TaskPostgres.CancelAnswersLikeAtomicIff`), and
  Start clears the completion time, which the in-memory store keeps
  (`TaskPostgres.CompletionTimesAgreeAfterStartIff`).
- Two requests with one idempotency key can both execute when they overlap (`Idempotency.DoubleExecutionOrder`);
  requests that do not overlap execute up to the first response below 500 only, while it is retained.
- Redis grants do not come in the order of their tokens (`RedisLease.LargerGrantIffOvertaken`); a Renew with less
  than a millisecond deletes the key and reports success (`RedisLease.RenewKeepsKeyIff`).
- An accepted Enqueue can be lost: when its id was accepted as a duplicate of one that is then given up
  (`RunQueue.AcceptedDuplicateCanBeLostIff`).
- The deltas of a scroll burst do not always add up to its total (`Scroll.PlanScrollBurstDeltas` has the condition).
- Signatures do not determine actions: the sanitiser drops an action that differs from another one only in where a
  bar divides selector and text (`Planner.SignaturesEqualIff`, `Planner.PairSurvivesIff`).
- A Draining or Dead mark on a leased node is lost with the next Leased heartbeat, which every tick of the keepalive
  sends (`NodeLeasing.MarkSurvivesReleaseIff`).
- The limiter reads the clock before its lock. A call that commits late, with a reading of the window before, makes
  it forget the current window (`RateLimiter.LimitKeptIff`, `RateLimiter.LateCommitsDefeatTheLimit`).
- A cooldown query deletes what an earlier reading, used later, would still honour (`Cooldown.BlockedIffSurvivor`).

## Model

| member | source | states |
|---|---|---|
| `TaskService.InMemoryService.CreateTask` | internal/task/service.go:162-194 | Create rejects an empty session or URL, issues the next id, and the new record is queued with attempt 0; the whole new store is that of one atomic Create |
| `TaskService.InMemoryService.StartTask` | internal/task/service.go:196-220 | Start accepts only a queued record, makes it running, adds one to its attempt; otherwise the store is unchanged and the error is the atomic one |
| `TaskService.InMemoryService.RetryTask` | internal/task/service.go:222-244 | Retry queues the record again with its next retry time, unless it is canceled or missing |
| `TaskService.InMemoryService.CompleteTask` | internal/task/service.go:246-273 | Complete stores result, trace and the outputs derived from it, unless the record is canceled or missing |
| `TaskService.InMemoryService.FailTask` | internal/task/service.go:275-302 | Fail stores error, evidence, trace and derived outputs, unless the record is canceled or missing |
| `TaskService.InMemoryService.CancelTask` | internal/task/service.go:304-330 | Cancel accepts any record that is not completed, failed or canceled |
| `TaskService.DeriveExtractedOutputs` | internal/task/service.go:449-474 | the one-pass loop with a seen-set that stops at twenty equals the first twenty distinct non-blank trimmed outputs |
| `TaskService.DistinctHasNoRepeats` | internal/task/service.go:455-466 | the outputs have no repeats and are exactly the values that occur |
| `TaskService.OutputsPrefix` | internal/task/service.go:466-469 | stopping at the twentieth output loses nothing: more trace never changes the first twenty |
| `TaskService.OutputsMeaning` | internal/task/service.go:449-474 | the outputs are non-blank trimmed outputs of the trace, without repeats, in the order of their first occurrences, at most twenty; one that is missing comes after twenty others |
| `TaskService.RecordInvariants` | internal/task/service.go:162-330 | over every run: the next retry time is set only while queued, and the cached outputs are those recomputed from the trace |
| `TaskService.CanceledIsAbsorbing` | internal/task/service.go:230-322 | from every reachable store, no run changes or restarts a canceled record |
| `TaskService.AttemptCountsStarts` | internal/task/service.go:196-220 | over every run, the attempt of a record grows by exactly the number of its successful Starts |
| `TaskService.RestartAcceptedIff` | internal/task/service.go:196-244 | the store itself lets a client Retry and Start a record if and only if it is not canceled (what the runner can do is TaskRunner.FinishedRestartsIff) |
| `TaskService.StepOnRecord` | internal/task/service.go:196-330 | what any call may do to a record: it is kept or replaced by the accepted update, and only its own Start adds an attempt |
| `TaskService.CreateMeaning` | internal/task/service.go:162-194 | the argument errors in order; otherwise a queued record that carries exactly its input, with no times, node, trace or result |
| `TaskService.AcceptedIff` | internal/task/service.go:196-330 | which calls are accepted, by the status of the record; not-found exactly for a missing one; a rejected call changes nothing |
| `TaskService.TimeOfCall` | internal/task/service.go:196-330 | the time recorded is the one given, or the clock for the zero time |
| `TaskService.CancelRecords` | internal/task/service.go:304-330 | a canceled record names the trimmed reason, or task canceled when it is blank |
| `TaskRunner.OneOpenAttempt` | internal/taskrunner/runner.go:179-298 | over every interleaving of workers, runner instances, cancels and late Fail calls: at most one worker is between Start and its closing call for a task, a queued task has none, and its copy of attempt and limit is the stored one |
| `TaskRunner.RetryBound` | internal/taskrunner/runner.go:368-413 | over every interleaving a task is started at most max retries + 1 times |
| `TaskRunner.RemainingAttemptsShrink` | internal/taskrunner/runner.go:405-413 | no event gives an attempt back and every successful Start uses one |
| `TaskRunner.RunIsStoreRun` | internal/taskrunner/runner.go:179-298 | the store of an interleaving is the store of the sequence of its calls |
| `TaskRunner.RetryComesFromHolder` | internal/taskrunner/runner.go:388-400 | every Retry is made by the executing worker of that record, within the stored bound |
| `TaskRunner.RetriedIff` | internal/taskrunner/runner.go:368-413 | in every reachable world a failed execution is retried if and only if the error is retriable, no blocker was found, and the stored record allows retries and has an attempt left; otherwise it is failed with that error and evidence |
| `TaskRunner.AfterFailedExecution` | internal/taskrunner/runner.go:368-403 | the record then waits in the queue with its retry time and error, or is failed with error and evidence, unless canceled; the worker is idle, or owes a Fail when its Retry was rejected |
| `TaskRunner.AfterSuccess` | internal/taskrunner/runner.go:281-297 | a success completes the record with its page and trace unless it was canceled; the worker is idle |
| `TaskRunner.AfterBlocked` | internal/taskrunner/runner.go:264-279 | a blocker fails the record with the evidence unless it was canceled; the worker is idle |
| `TaskRunner.WorkersFailTheirOwn` | internal/taskrunner/runner.go:179-298 | every Fail of a run is a late one or comes from the worker whose attempt at that task is open |
| `TaskRunner.LoadMeaning` | internal/taskrunner/runner.go:179-188 | a worker takes on a task exactly when it is idle and the task is queued |
| `TaskRunner.CancelMeaning` | internal/task/service.go:304-330 | a cancel of the API cancels exactly a queued or running task; no worker is touched |
| `TaskRunner.LateFailMeaning` | internal/taskrunner/runner.go:480-512 | a late Fail fails any task that is not canceled; no worker is touched |
| `TaskRunner.CreateAddsOne` | internal/task/service.go:162-194 | a create adds one queued task and touches no other |
| `TaskRunner.OpenOnlyByStart` | internal/taskrunner/runner.go:179-210 | an attempt opens only by a successful Start of a queued record |
| `TaskRunner.NextKeepsInv` | internal/taskrunner/runner.go:179-413 | every event keeps the invariant that links in-flight workers to the store |
| `TaskRunner.StaleCopyWouldOverrun` | internal/taskrunner/runner.go:405-413 | with a copy of an earlier attempt the same decision would queue a record that has no attempt left |
| `TaskRunner.RetryNeverMeetsCompleted` | internal/taskrunner/runner.go:368-403 | in every run a Retry meets a running, failed or canceled record, never a completed one |
| `TaskRunner.FinishedRestartsIff` | internal/taskrunner/runner.go:179-403 | in every run a completed, failed or canceled record is started again by some further events if and only if it is failed and its holder is still executing with an attempt left; in particular none without an open worker is |
| `TaskRunner.LateFailLeavesRetriable` | internal/taskrunner/runner.go:505-512 | such a record is reachable: a re-enqueue that gives up fails the task while it is executing |
| `LeasedRuns.ResultAcceptedIff` | internal/taskrunner/runner.go:235-297 | in every reachable state of workers and leases together, a successful result is accepted if and only if its task is not canceled, whatever has become of the lease |
| `LeasedRuns.StaleResultIsAccepted` | internal/taskrunner/runner.go:220-297 | a run in which the node of an executing worker has been leased to another worker and its result is accepted all the same |
| `LeasedRuns.LiveWorkersExclude` | internal/taskrunner/runner.go:212-228 | at any moment of any run a worker whose last returned expiry is in the future is not overtaken, and no other such worker is on its node |
| `LeasedRuns.TimelyWorkerKeepsItsNode` | internal/taskrunner/runner.go:212-297 | while the renewals of a worker are timely its lease is the one in the table and no other worker comes onto its node |
| `LeasedRuns.TakeHoldsNode` | internal/taskrunner/runner.go:541-574 | a granted Take starts such a period while the clock is within the lease time of its reading |
| `LeasedRuns.NextKeepsInv` | internal/taskrunner/runner.go:179-298 | every event of workers and leases keeps the invariant that links workers, tokens and leases |
| `TaskPostgres.PostgresService.Update` | internal/task/postgres_service.go:80-308 | one conditional UPDATE: the selected row gets the SET clause, every other row stays |
| `TaskPostgres.PostgresService.Perform` | internal/task/postgres_service.go:80-308 | UPDATE, then (when no row matched) the lookup after any statements of other clients, with the error derived from it |
| `TaskPostgres.UpdateRefinesStep` | internal/task/postgres_service.go:118-264 | the UPDATE selects a row exactly when the atomic in-memory call is accepted; both stores and both answers agree afterwards (status, attempt, next retry, error message, trace, derived outputs) |
| `TaskPostgres.TwoStatementsRefineAtomic` | internal/task/postgres_service.go:118-264 | Retry, Complete and Fail answer like the atomic call under every interleaving between the two statements |
| `TaskPostgres.StartAnswersLikeAtomicIff` | internal/task/postgres_service.go:80-116 | Start answers like the atomic call if and only if the task did not appear, queued, between the statements |
| `TaskPostgres.CancelAnswersLikeAtomicIff` | internal/task/postgres_service.go:266-308 | Cancel answers like the atomic call if and only if no finished task was made active again between the statements |
| `TaskPostgres.CancelCanReportExistingTaskMissing` | internal/task/postgres_service.go:266-308 | Cancel answers not-found for a failed task whose holder retries it between the two statements |
| `TaskPostgres.CompletionTimesAgreeAfterStartIff` | internal/task/postgres_service.go:80-116 | after Start the two stores agree on the completion time if and only if the record had none |
| `TaskPostgres.AtomicErrorIsInMemoryError` | internal/task/postgres_service.go:80-308 | the atomic error read off the rows is the error of the in-memory call |
| `TaskPostgres.StatementsRefineSteps` | internal/task/postgres_service.go:80-308 | any sequence of statements keeps the table in agreement with the in-memory store that makes the same calls |
| `TaskPostgres.RowsStay` | internal/task/postgres_service.go:118-308 | rows are never removed and a canceled row stays canceled |
| `TaskPostgres.AssignedAgrees` | internal/task/postgres_service.go:485-585 | field by field, SET clause and scanned row agree with the in-memory update, outputs being recomputed from the trace |
| `TaskPostgres.InsertAgrees` | internal/task/postgres_service.go:43-78 | a created row reads back as the record the in-memory store creates from the same input, apart from the id |
| `RunQueue.Runner.ReserveId` | internal/taskrunner/runner.go:130-136 | the id enters the dedup set unless it is there |
| `RunQueue.Runner.TrySend` | internal/taskrunner/runner.go:138-147 | the select: sent when there is room, given up when the context is done or the queue full |
| `RunQueue.Runner.ClearAborted` | internal/taskrunner/runner.go:338-342 | giving up removes the id from the dedup set |
| `RunQueue.Runner.ClearReceived` | internal/taskrunner/runner.go:165-177 | a worker removes the id it received |
| `RunQueue.Runner.ReceiveId` | internal/taskrunner/runner.go:165-177 | a worker takes the first id of the channel |
| `RunQueue.Runner.Enqueue` | internal/taskrunner/runner.go:124-148 | alone, Enqueue accepts exactly when the id is on its way already or there is room, and otherwise changes nothing |
| `RunQueue.QueueAgreesWithSet` | internal/taskrunner/runner.go:124-177 | in every reachable state the dedup set is the disjoint union of the ids in the channel, being sent, being given up and received; none twice; within capacity; first in, first out |
| `RunQueue.ReserveIsIdempotentInTransit` | internal/taskrunner/runner.go:130-136 | an id in transit is not taken a second time; a cleared one can be |
| `RunQueue.GivingUpChangesNothing` | internal/taskrunner/runner.go:138-147 | an enqueuer that gives up leaves the queue as it found it |
| `RunQueue.SentIsNotLost` | internal/taskrunner/runner.go:138-177 | an id that has been sent leaves the queue only through a worker |
| `RunQueue.AbortLeavesNothing` | internal/taskrunner/runner.go:138-147 | after giving up, the id is nowhere in the queue nor in the dedup set |
| `RunQueue.AcceptedDuplicateCanBeLostIff` | internal/taskrunner/runner.go:130-147 | an id accepted as a duplicate can still be given up if and only if it had not been sent at that moment, its first enqueuer still sending it or giving it up |
| `RunQueue.NextInTransit` | internal/taskrunner/runner.go:124-177 | each step moves one id from one place to the next |
| `Lease.InMemoryManager.Acquire` | internal/lease/inmemory.go:29-61 | granted exactly when no entry is unexpired at the reading; then the entry carries a fresh token; the complete new table |
| `Lease.InMemoryManager.Release` | internal/lease/inmemory.go:63-87 | the entry goes exactly when owner and token match; which argument error is answered |
| `Lease.InMemoryManager.Renew` | internal/lease/inmemory.go:89-128 | extended when owner and token match and it is not past expiry; an expired entry is deleted |
| `Lease.LeaseExclusion` | internal/lease/inmemory.go:29-128 | over every run with clock readings no later than the commit: two unreleased holders whose expiry is in the future hold the same token, and the entry is exactly theirs |
| `Lease.FencingTokensIncrease` | internal/lease/inmemory.go:50-60 | tokens strictly increase over all grants, and a present entry carries the largest token granted for its resource |
| `Lease.StaleTokenIsHarmless` | internal/lease/inmemory.go:76-127 | Renew or Release with another token never changes an unexpired entry |
| `Lease.AcquireRefusedIff` | internal/lease/inmemory.go:46-60 | Acquire is refused if and only if the entry is unexpired at the reading; otherwise it lasts from the reading for the requested time, 90 s by default; no other resource is touched |
| `Lease.RenewGrantedIff` | internal/lease/inmemory.go:89-128 | granted exactly for owner and token of an entry not past its expiry, which moves to reading plus lease time; a past entry is deleted; nothing else changes |
| `Lease.ReleaseRemovesOwn` | internal/lease/inmemory.go:63-87 | exactly the entry of that resource, owner and token is removed |
| `Lease.NextKeepsInv` | internal/lease/inmemory.go:29-128 | every operation with a reading of the past keeps the invariant between holders and table |
| `Lease.KeepaliveIntervalBelowTtl` | internal/taskrunner/runner.go:595-601 | the renewal interval lies below the lease time if and only if that exceeds 500 ms |
| `Lease.KeepaliveIntervalIs` | internal/taskrunner/runner.go:595-601 | a third of the lease time in whole nanoseconds, at least half a second and at most ten |
| `Lease.PunctualIsTimely` | internal/taskrunner/runner.go:602-629 | with renewals every interval, each late by less than the interval leaves of the lease time, a run is timely |
| `Lease.GrantIsHeld` | internal/lease/inmemory.go:29-61 | a grant starts a held period while the clock is within the lease time of its reading |
| `Lease.KeepaliveHoldsLease` | internal/taskrunner/runner.go:587-632 | if every renewal commits within the lease time of the last successful reading, every renewal succeeds and every other Acquire is refused, for any number of renewals |
| `Lease.KeepaliveDeadlineIsSharp` | internal/lease/inmemory.go:46-60 | at the expiry a rival is granted the resource and the former holder cannot renew |
| `NodeLeasing.NodeRunner.TryAcquireReadyNode` | internal/taskrunner/runner.go:541-574 | the first listed Ready node without a running lease is taken and marked Leased, exactly one lease is made, and without such a node nothing changes |
| `NodeLeasing.NodeRunner.ReleaseNode` | internal/taskrunner/runner.go:576-585 | exactly the own lease is released, and the node reports Ready |
| `NodeLeasing.SameResourceIff` | internal/taskrunner/runner.go:552 | nodes share a lease resource exactly when their trimmed ids agree; it is node: and that id |
| `NodeLeasing.TakeThenGiveBack` | internal/taskrunner/runner.go:541-585 | taking and giving back leaves no lease on the node, all other leases as they were, and one token used |
| `NodeLeasing.NodeRunner.KeepaliveTick` | internal/taskrunner/runner.go:602-629 | one tick: the lease is renewed; success marks the node Leased again, refusal tells that the lease is lost, an error is ignored |
| `NodeLeasing.RegistryChangesStates` | internal/pool/registry.go:45-163 | heartbeats, set states and registrations change the state of a node only as the events of the next two rows do |
| `NodeLeasing.MarkSurvivesReleaseIff` | internal/taskrunner/runner.go:559-629 | for any events between taking and releasing a node: after the release it is Draining or Dead if and only if some event made it so and only Ready heartbeats came after; otherwise it is Ready |
| `NodeLeasing.MarkSurvivesIffNoLeasedBeatFollows` | internal/taskrunner/runner.go:602-629 | a mark set while the node is leased survives the release if and only if no Leased heartbeat follows it, so the next tick of the keepalive undoes it |
| `RedisLease.RedisManager.Acquire` | internal/lease/redis.go:29-62 | INCR, then SET if absent; granted exactly when the key was absent, with the expiry the client computes; the argument errors |
| `RedisLease.RedisManager.Release` | internal/lease/redis.go:64-84 | compare-and-delete of the own value; which argument error is answered |
| `RedisLease.RedisManager.Renew` | internal/lease/redis.go:86-115 | compare-and-expire of the own value, with the expiry the client computes; which argument error is answered |
| `RedisLease.LeaseValueInjective` | internal/lease/redis.go:49-50 | owner, bar, token determines owner and token, even when the owner contains a bar |
| `RedisLease.ScriptMatchIsOwn` | internal/lease/redis.go:77-115 | a compare script takes effect only on the caller's own present lease |
| `RedisLease.RedisExclusion` | internal/lease/redis.go:42-62 | over every interleaving of INCR and SET: grants of a resource have distinct stored values, at most one is live, and the stored value is its own |
| `RedisLease.OnlyHolderTouchesLease` | internal/lease/redis.go:77-115 | in every reachable state no step but the live holder's own Release or Renew, or the clock, touches its lease |
| `RedisLease.GrantOrderIsNotTokenOrder` | internal/lease/redis.go:42-62 | a concrete interleaving in which the smaller token is granted last |
| `RedisLease.LargerGrantIffOvertaken` | internal/lease/redis.go:42-62 | after an Acquire has begun, a larger token of its resource is granted if and only if a client that began later is granted in the meantime |
| `RedisLease.UninterruptedGrantIsLargest` | internal/lease/redis.go:42-62 | a grant whose INCR is still the latest has the largest token of its resource |
| `RedisLease.RenewKeepsKeyIff` | internal/lease/redis.go:97-115 | a renewal that reports success keeps the key if and only if it asks for at least one millisecond |
| `RedisLease.LeaseLastsAsRequested` | internal/lease/redis.go:42-115 | a granted SET stores owner and token until the clock has advanced by the whole milliseconds of the requested time, at least one; a Renew of the own value until they have passed once more; nothing else changes |
| `RedisLease.GrantIsHeld` | internal/lease/redis.go:42-62 | a granted SET starts a held period of that length |
| `RedisLease.RenewalsHoldLease` | internal/lease/redis.go:86-115 | while the deadline is not reached and the holder does not release, every own renewal succeeds and every other SET on the resource is refused, for any number of steps |
| `RedisLease.NextKeepsInv` | internal/lease/redis.go:29-145 | every single command keeps the invariant between counters, keys and grants |
| `WarmPool.InMemoryRegistry.Register` | internal/pool/registry.go:45-82 | argument errors; the node becomes Ready; the complete new registry |
| `WarmPool.InMemoryRegistry.Heartbeat` | internal/pool/registry.go:84-128 | a Ready heartbeat does not revive a draining or dead node, any other state is taken over; the complete new registry |
| `WarmPool.InMemoryRegistry.SetState` | internal/pool/registry.go:130-163 | the state is set whatever it was |
| `WarmPool.RegisteredMeaning` | internal/pool/registry.go:45-82 | a registered node is ready, alive now, not leased, with the given address, version and boot time, and keeps its creation time |
| `WarmPool.BeatenMeaning` | internal/pool/registry.go:84-128 | a heartbeat is recorded at its time, sets the state unless it is Ready on a draining or dead node, and ends or moves the lease |
| `WarmPool.PlacedMeaning` | internal/pool/registry.go:130-163 | a set state holds whatever it was before, and any but Leased ends the lease |
| `WarmPool.InMemoryRegistry.List` | internal/pool/registry.go:165-179 | every node once |
| `WarmPool.Manager.Reconcile` | internal/pool/manager.go:94-154 | an undisturbed pass: exactly the reapable and the oldest surplus managed nodes die, warming is pruned and extended, and exactly the missing nodes are provisioned |
| `WarmPool.PassMeaning` | internal/pool/manager.go:94-171 | read off the nodes before and after a pass: overdue managed nodes and over-age ones that are not leased die; leased nodes in time, unmanaged ones and fit warming or draining ones are unchanged; of the fit ready ones exactly the surplus dies, none of which booted after a kept one |
| `WarmPool.WarmingMeaning` | internal/pool/manager.go:195-246 | warming afterwards are the nodes just started, from now on, and of the others exactly those neither registered nor waiting longer than the timeout |
| `WarmPool.Manager.ReapAndCount` | internal/pool/manager.go:101-134 | counts and candidates are the unmanaged ready and the surviving managed ready nodes; exactly the reapable nodes die |
| `WarmPool.Manager.ScaleDown` | internal/pool/manager.go:248-278 | exactly the surplus of managed ready nodes dies, oldest first |
| `WarmPool.Manager.DestroyNode` | internal/pool/manager.go:173-185 | the node is dead and no longer warming |
| `WarmPool.Manager.PruneWarmingKnown` | internal/pool/manager.go:207-215 | warming loses exactly the registered nodes |
| `WarmPool.Manager.ReapTimedOutWarming` | internal/pool/manager.go:217-246 | warming loses exactly the timed-out nodes, and the count is what is left |
| `WarmPool.Manager.Provision` | internal/pool/manager.go:133-153 | as many provider calls as nodes are missing; the started ones are warming |
| `WarmPool.SortByAgeSorts` | internal/pool/manager.go:254-268 | the age order is sorted and a permutation |
| `WarmPool.PassCounts` | internal/pool/manager.go:94-154 | after a pass u + m nodes are ready when they fit the target, max(target, u) otherwise, and max(0, target - ready - warming) provider calls are made |
| `WarmPool.SecondPass` | internal/pool/manager.go:94-154 | once the warming nodes have registered, an unexpired pass leaves exactly max(target, u) ready, none warming, and provisions nothing |
| `WarmPool.ThirdPass` | internal/pool/manager.go:94-154 | a further unexpired pass provisions nothing and changes no live node |
| `WarmPool.ReconcileConverges` | internal/pool/manager.go:94-154 | the three passes together, from any registry and warming map |
| `Planner.SanitizePlannedActions` | cmd/node-agent/planner.go:865-958 | the one-pass loop with a seen-map equals the first twelve of the signature-deduplicated, filtered, clamped input |
| `Planner.SanitizedActionMeaning` | cmd/node-agent/planner.go:884-936 | any one action: dropped exactly when its type is unknown or a needed field is missing; otherwise trimmed, its text collapsed and cut at 320 bytes, its numbers bounded, a scroll up exactly for the word up and down otherwise |
| `Planner.SanitizedMeaning` | cmd/node-agent/planner.go:865-958 | any plan: the at most twelve kept actions are the first of each signature in order; those left out are dropped alone too, repeat a signature, or come after twelve |
| `Planner.CandidateIsFound` | cmd/node-agent/planner.go:880-948 | every action of a plan is kept or dropped as it would be alone |
| `Planner.FirstPlacesAreFirst` | cmd/node-agent/planner.go:939-955 | deduplication keeps exactly the first occurrence of every signature, in the original order |
| `Planner.SanitizedIsClean` | cmd/node-agent/planner.go:865-958 | what leaves the sanitiser is clean, of distinct signatures, and at most twelve |
| `Planner.SanitizedFixesIff` | cmd/node-agent/planner.go:865-958 | a plan is left alone if and only if it has at most twelve clean actions of distinct signatures |
| `Planner.SanitizedIsIdempotent` | cmd/node-agent/planner.go:865-958 | sanitising twice is sanitising once |
| `Planner.SanitizedOfOne` | cmd/node-agent/planner.go:114-121 | a single action is either cleaned or dropped |
| `Planner.CleanAction` | cmd/node-agent/planner.go:884-937 | normalising, clamping and checking field by field is cleaning |
| `Planner.CleanIsClean` | cmd/node-agent/planner.go:884-936 | cleaned actions have an allowed type, required fields, tidy texts and clamped numbers |
| `Planner.CleanFixesIff` | cmd/node-agent/planner.go:884-936 | clean actions are exactly the fixed points of cleaning; trace normalisation leaves them alone |
| `Planner.SnippetIsTidy` | cmd/node-agent/planner.go:970-976 | a snippet is trimmed, collapsed and within the limit, also after the cut |
| `Planner.SnippetFixesIff` | cmd/node-agent/planner.go:970-976 | a string is its own snippet if and only if it is trimmed, collapsed and fits |
| `Planner.SignaturesCollide` | cmd/node-agent/planner.go:139-149 | the condition is met: two different clean actions of one signature, of which the sanitiser drops one |
| `Planner.SignaturesEqualIff` | cmd/node-agent/planner.go:139-149 | two clean actions have one signature if and only if types and numbers agree and so do selector and text joined by a bar |
| `Planner.SignatureDeterminesIfNoBar` | cmd/node-agent/planner.go:139-149 | for selectors without a bar, equal signatures mean equal actions |
| `Planner.PairSurvivesIff` | cmd/node-agent/planner.go:939-955 | two clean actions both survive the sanitiser if and only if those parts differ; otherwise exactly the later one is dropped |
| `Planner.PlanStep` | cmd/node-agent/planner.go:87-137 | the answer for the plan given in a round and the prior actions |
| `Planner.FirstUnusedIsFirst` | cmd/node-agent/planner.go:114-136 | the fallback answers the first action of unused signature, and plan_exhausted if and only if all are used |
| `Planner.UsedIff` | cmd/node-agent/planner.go:114-121 | the signatures in use are exactly those of the prior actions the sanitiser keeps |
| `Planner.ClosedLoopAnswer` | cmd/node-agent/planner.go:87-137 | after the first n actions of the sanitised plan the answer is the next one, plan_exhausted exactly when all have run, no_actions exactly when there are none |
| `PlannerLoop.Configured` | cmd/node-agent/main.go:177-180 | a configured limit is kept when it is at least 1, 0, 1 or 1, and raised to just that otherwise |
| `PlannerLoop.ExecuteGoal` | cmd/node-agent/main.go:257-413 | for any planner and browser the loop ends in the first round whose history calls for it (or the last allowed), having executed exactly the chosen actions, with that trace, failure counts and stop reason |
| `PlannerLoop.Round` | cmd/node-agent/main.go:272-401 | one round: the decision to stop read off the counters is the one read off the whole history |
| `PlannerLoop.GuardedOutcome` | cmd/node-agent/main.go:272-413 | every returned trace: indices 1 to k, strictly increasing rounds within max steps, nondecreasing failure counts within max failures, a stop reason or a failed action only in the last step; giving up means max failures + 1 |
| `PlannerLoop.EarlierRoundsPassed` | cmd/node-agent/main.go:272-401 | no action is executed after one that failed or after a blocked page: before the last round every action succeeded on a page that is not blocked, and no limit was reached |
| `PlannerLoop.ReasonMeaning` | cmd/node-agent/main.go:280-413 | each stop reason, and giving up, if and only if planner, browser and limits say so in the last round; blocker_detected exactly when the last action succeeded and its page is blocked |
| `PlannerLoop.TraceTells` | cmd/node-agent/main.go:317-413 | the trace has one step per executed action with its round, success and the number of failed rounds before it; the answered reason is on the last step alone |
| `PlannerLoop.FailuresAreCounted` | cmd/node-agent/main.go:284-315 | the failure count is the number of rounds in which planning failed, the action was invalid or the page could not be captured |
| `PlannerLoop.ChoiceMeaning` | cmd/node-agent/main.go:284-315 | an error fails the round, a stop ends the loop with its trimmed reason or planner_stop, no action ends it with planner_no_action, an action runs exactly as the sanitiser leaves it |
| `PlannerLoop.HistoryMeaning` | cmd/node-agent/main.go:322-401 | the executed actions are those of the rounds that acted, each once; the captures are the first and those after them |
| `PlannerLoop.NoLongRepeats` | cmd/node-agent/main.go:329-401 | no signature runs more often in a row than max repeat actions, at most max repeat snapshots captures in a row are unchanged, and every executed action is clean |
| `PlannerLoop.TrailingRunIsMaximal` | cmd/node-agent/main.go:329-336 | the repeat counters count the maximal run of equal elements at the end of the history |
| `PlannerLoop.RunsAPrefixOfThePlan` | cmd/node-agent/main.go:283-347 | for a planner that always gives one plan, or fails, the executed actions are a prefix of the sanitised plan, in order |
| `PlannerLoop.StopsOnceThePlanHasRun` | cmd/node-agent/main.go:296-303 | when the planner stops that loop, the whole sanitised plan has run, and the reason is plan_exhausted (no_actions for an empty plan) |
| `PlannerLoop.WholePlanRuns` | cmd/node-agent/main.go:272-401 | with more rounds than actions, a repeat limit of at least two and no failures, blockers or unchanged pages, exactly the whole sanitised plan is executed and the reason is plan_exhausted |
| `Scroll.PlanScrollBurstDeltas` | cmd/node-agent/humanize.go:687-740 | every delta is at least 1, total <= sum < total + n, and sum = total if and only if the rounded shares that have to give a pixel are at least 2 |
| `Scroll.Correct` | cmd/node-agent/humanize.go:725-737 | the round-robin correction reaches the total exactly when every event that has to give a pixel has two |
| `Scroll.BaseExceedsByLessThanN` | cmd/node-agent/humanize.go:714-723 | the clamped rounded shares exceed the total by less than one per event |
| `Scroll.OnePixelOverTwoEventsGrows` | cmd/node-agent/humanize.go:687-740 | one pixel over two events becomes two |
| `Scroll.SevenPixelsPerEventConserve` | cmd/node-agent/humanize.go:687-740 | with the jitter used, seven pixels per event are enough for the sum to equal the total |
| `Scroll.ScrollEvents` | cmd/node-agent/humanize.go:307-355 | for every random stream the loop ends having emitted at least the distance and less than the distance plus the largest number of events in a burst |
| `Scroll.EmitBurst` | cmd/node-agent/humanize.go:331-349 | a burst is emitted until it or the distance is exhausted |
| `Scroll.ChooseBurst` | cmd/node-agent/humanize.go:309-329 | a burst has as many events as the profile allows and aims at what is left, or at least at 16 pixels and half the least delta for each event and not above the profile |
| `Scroll.RandomIntReaches` | cmd/node-agent/humanize.go:309-321 | every value between the bounds can be drawn |
| `Scroll.DistanceIs` | cmd/node-agent/humanize.go:268-278 | 600 pixels by default, at most 3000 |
| `Scroll.RoundIsNearest` | cmd/node-agent/humanize.go:717 | rounding goes to the nearest whole number, up from the middle |
| `Scroll.ShapeIs` | cmd/node-agent/humanize.go:700-704 | without jitter the weights rise evenly from 0.45 to the middle and fall as they rose |
| `Scroll.JitterScales` | cmd/node-agent/humanize.go:704-712 | jitter scales a weight, down to a tenth at the least |
| `Scroll.MaxEventsIs` | cmd/node-agent/humanize.go:307-312 | a burst has at most the larger configured number of events, and may have one |
| `Idempotency.InMemoryStore.Get` | internal/idempotency/inmemory.go:36-58 | an unexpired response is found, an expired one removed |
| `Idempotency.InMemoryStore.TryClaim` | internal/idempotency/inmemory.go:60-85 | claimed exactly when no claim is unexpired at the reading |
| `Idempotency.InMemoryStore.Save` | internal/idempotency/inmemory.go:87-107 | the response is stored with its expiry |
| `Idempotency.InMemoryStore.Release` | internal/idempotency/inmemory.go:120-141 | only the own claim is freed |
| `Idempotency.GetMeaning` | internal/idempotency/inmemory.go:36-58 | found exactly until its expiry, removed by a look after that |
| `Idempotency.ClaimMeaning` | internal/idempotency/inmemory.go:60-85 | granted exactly when no claim is unexpired, for the requested time, half a minute by default |
| `Idempotency.SaveAndReleaseMeaning` | internal/idempotency/inmemory.go:87-141 | kept for the requested time, a day by default; freed by its owner alone |
| `Idempotency.InMemoryStore.HandleRequest` | internal/api/idempotency.go:20-74 | an undisturbed request: replayed, executed (saved below 500, claim released) or waiting behind a claim |
| `Idempotency.SequentialRequestsExecuteOnce` | internal/api/idempotency.go:20-74 | non-overlapping requests execute up to and including the first response below 500; later ones replay it while it is retained |
| `Idempotency.ExecutionsDoNotOverlap` | internal/api/idempotency.go:33-72 | over every interleaving, two executing requests of one key whose claims last are the same request |
| `Idempotency.StaleReleaseFreesNobodyElse` | internal/idempotency/inmemory.go:120-141 | a Release leaves everybody else's running claim in place |
| `Idempotency.LateRequestReplays` | internal/api/idempotency.go:20-98 | a request whose first Get follows an unexpired Save never executes and answers the latest saved response |
| `Idempotency.ServerErrorsAreNotReplayed` | internal/api/idempotency.go:56-72 | in every run a response of 500 or above is neither saved nor replayed |
| `Idempotency.ClaimDecidesExecution` | internal/api/idempotency.go:33-60 | after a missed Get, execution depends on the claim alone |
| `Idempotency.DoubleExecutionOrder` | internal/api/idempotency.go:20-98 | when a request claims after a retained Save of another: its Get came before that Save, it executes exactly when no unexpired claim is in the way, and the other has then released its claim or let it run out |
| `Idempotency.OverlappingRequestsCanExecuteTwice` | internal/api/idempotency.go:20-74 | an interleaving in which two overlapping requests both execute |
| `Idempotency.NextKeepsInv` | internal/api/idempotency.go:20-98 | every step keeps the invariant between requests, claims and saved responses |
| `ReplayChain.ApiStoresAreWellSourced` | internal/api/tasks.go:303-373 | in every store built by create and replay calls every source exists and is older |
| `ReplayChain.LineageDescends` | internal/api/tasks.go:413-440 | the true lineage follows sources with strictly decreasing numbers, so it has no repeats |
| `ReplayChain.GetReplayChain` | internal/api/tasks.go:399-446 | the handler answers the lineage cut at the depth (20 by default, at most 100), truncated exactly when it is longer; on any store the chain follows sources without repeats |
| `ReplayChain.WalkBack` | internal/api/tasks.go:413-440 | the walk with its visited set |
| `RateLimiter.FixedWindowLimiter.Allow` | internal/api/security.go:118-143 | the answer and the complete new bucket map of a call |
| `RateLimiter.FixedWindowLimiter.PruneLocked` | internal/api/security.go:145-156 | exactly the buckets that ended two windows ago are dropped |
| `RateLimiter.PrunedMeaning` | internal/api/security.go:145-156 | below a thousand clients nothing is dropped, from then on exactly the buckets begun more than two windows before |
| `RateLimiter.SameBucketIff` | internal/api/security.go:119-122 | clients share a bucket exactly when their trimmed names agree, nameless ones counting as unknown |
| `RateLimiter.AllowedIffBelowLimit` | internal/api/security.go:118-156 | for nondecreasing times a call is allowed if and only if fewer than limit calls of the client were allowed in its window |
| `RateLimiter.WindowCountAtMostLimit` | internal/api/security.go:118-143 | at most limit calls are allowed in a window |
| `RateLimiter.AtMostTwiceTheLimit` | internal/api/security.go:118-143 | at most twice the limit in any interval of one window |
| `RateLimiter.AllowedIffFewRemembered` | internal/api/security.go:118-156 | for readings in any order: a call is allowed if and only if fewer than limit calls of the client were allowed in its window since the last call that made the limiter forget that window |
| `RateLimiter.LimitKeptIff` | internal/api/security.go:118-156 | the limit is kept for a call exactly unless so many allowed calls of its window were forgotten that those remembered stay below the limit |
| `RateLimiter.LateCommitsDefeatTheLimit` | internal/api/security.go:118-143 | for every n there is a run that allows n * limit calls in one window, because calls with readings of the window before commit late |
| `RateLimiter.AfterSummarises` | internal/api/security.go:118-156 | the pruned map counts what the history counts |
| `Cooldown.DomainCooldown.IsDomainBlocked` | internal/taskrunner/runner.go:766-783 | the answer, and the deletion of an expired entry |
| `Cooldown.DomainCooldown.MarkDomainBlocked` | internal/taskrunner/runner.go:785-802 | exactly a blocker of the two kinds, compared trimmed and lower-cased, raises the deadline of a host to now plus the cooldown; nothing else changes |
| `Cooldown.BlockedIffSurvivor` | internal/taskrunner/runner.go:766-802 | for readings in any order: a host is blocked if and only if some recorded blocker is no older than the cooldown and no query after it had a reading beyond its deadline |
| `Cooldown.BlockedIffRecentBlocker` | internal/taskrunner/runner.go:766-802 | for nondecreasing times a host is blocked if and only if some recorded blocker on it is no older than the cooldown |
| `Cooldown.AfterSummarises` | internal/taskrunner/runner.go:766-802 | for readings in any order, the entry of a host is the latest deadline of a blocker that no later query has outrun |
| `Cooldown.OutOfOrderQueryForgets` | internal/taskrunner/runner.go:775-781 | a query with a later reading makes an earlier reading forget |
| `Text.TrimSpaceTrims` | cmd/node-agent/planner.go:886-890 | trimming reaches its fixed point at once |
| `Text.TrimSpaceRemovesSpace` | cmd/node-agent/planner.go:886-890 | trimming removes white-space characters at both ends, nothing else, and all of them |
| `Text.SpaceRuneIff` | cmd/node-agent/planner.go:886-890 | a white-space character is the UTF-8 encoding of one of the White_Space characters of Unicode |
| `Text.ToLowerOfAscii` | cmd/node-agent/planner.go:881 | on ASCII, lower-casing changes the capital letters alone |
| `Text.CollapseCollapses` | cmd/node-agent/planner.go:970-972 | after the replacement every blank is a single space |
| `Text.CollapseOfBlanks` | cmd/node-agent/planner.go:971 | a run of blanks becomes one space |
| `Text.CollapseOfParts` | cmd/node-agent/planner.go:971 | parts that do not meet in a run of blanks collapse independently |
| `Text.CollapseKeepsTrimmed` | cmd/node-agent/planner.go:970-972 | collapsing a trimmed string leaves it trimmed, multi-byte white space included |
| `Text.BarNumberInjective` | internal/lease/redis.go:49-50 | owner, bar and decimal number can be split at the last bar |
| `Text.ValueOfPad6` | internal/task/service.go:174-176 | a six-digit padded number determines the number |

## Left out

- TaskRunner.OneOpenAttempt: node waiting and the execution itself are not steps of a worker; whether an execution succeeds, is retriable or blocked is arbitrary. Leases join the workers in `LeasedRuns.dfy`.
- LeasedRuns.TimelyWorkerKeepsItsNode: leases of the in-memory manager only; that a worker which has lost its lease is told to stop is not modelled, since success is reported without asking.
- TaskRunner.RetryBound: the retry delay (floating-point jitter) is left out; the retry time is arbitrary.
- TaskService.InMemoryService.CreateTask: the atomic counter and the insert under the lock are one step.
- TaskPostgres.TwoStatementsRefineAtomic: driver errors, lost replies and the random ids of created tasks are left out; completion times are compared separately, in `TaskPostgres.CompletionTimesAgreeAfterStartIff`.
- RunQueue.QueueAgreesWithSet: the periodic loop that enqueues queued tasks and the delayed re-enqueue are ordinary calls of Enqueue.
- NodeLeasing.NodeRunner.TryAcquireReadyNode: errors of the registry listing, and other clients between two of its attempts (their interleaving is `Lease.LeaseExclusion`).
- RedisLease.RedisExclusion: exclusion is stated on the server, not for the expiry time the client computes after the reply.
- WarmPool.InMemoryRegistry.List: the order of the listing is arbitrary, and nodes of equal age are taken in some fixed order.
- WarmPool.ReconcileConverges: between the passes nodes register and send heartbeats, but none changes its state otherwise.
- WarmPool.Manager.Reconcile: one pass without registrations or heartbeats in between; errors of the provider change the result, not the state, so only provisioning failures are modelled.
- Planner.SanitizePlannedActions: lower-casing is modelled as far as a comparison with an ASCII word can see it.
- PlannerLoop.ExecuteGoal: timing, screenshots, page titles, the evidence in step results, the blocker checks and errors before and after the loop, and runs of given actions without a goal; the browser answers arbitrarily per round. An executed action is recorded as it is, which `Planner.CleanFixesIff` justifies.
- PlannerLoop.NoLongRepeats: the signature of a snapshot is a given string.
- Scroll.ScrollEvents: weights are real numbers, not floating point; scrolling to the top or bottom and the final correction event are left out.
- Idempotency.InMemoryStore.HandleRequest: a request that waits for another one's claim ends as in progress; polling is modelled in the step system only. The store's hash of scope and key is the pair itself.
- ReplayChain.ApiStoresAreWellSourced: numbered ids of the in-memory store only.
- RateLimiter.AllowedIffBelowLimit: client addresses are given; times within one window of Go's zero time are excluded, in which every bucket counts as unset.
- Cooldown.BlockedIffRecentBlocker: hosts are given normalised, without the parsing of URLs.
- Browser protocol client, HTTP and gRPC transport, container provider, language-model planners, goal parsing, configuration, logs, metrics, dashboard: foreign calls or plumbing.
- Egress policy and API keys: library and policy behaviour.
- Mouse paths, typing delays and typos: cosmetics of random numbers.
- Overflow of tokens and durations: numbers are unbounded.
