# A model of AsyncGate

AsyncGate hands tasks to workers under leases and keeps an append-only ledger of receipts from
which obligations are read. This project models four parts of it in Dafny and proves what they
guarantee over whole runs.

**The task engine.** `Domain`, `Ledger` and `Lifecycle` give the task, lease and receipt tables and
one step per engine call. `complete` and `fail` take two steps, the unlocked pre-read and the locked
phase, with anything in between. The outcome of every emission to the external ledger is an input.
`LifecycleInvariant` holds the inductive invariant, `LifecycleTheorems` what a step may change, and
`Guarantees` the results: leases match statuses, statuses move along legal edges, stale leases are
fenced off, terminal receipts match statuses, the ledger replays to the tables, decisions made
before the lock are still right under it, attempts and lease lifetimes are bounded, claims respect
priority and reconciliation is exact. `Notices` shows that the end of a task is told exactly once,
`Effects` writes out what each call leaves behind, receipts and all, and `Commits` when it commits at
all. `Engine` is the imperative form: a class over the tables with savepoints, loops and partial
sweeps, each operation proved to do what its step says and to keep the invariant.

**The obligation query.** `Obligations` is the batched, capped, cursor-paged listing, proved
against the one-line definition of an open obligation, for one page, for a walk over all pages and
for paging while the ledger grows. `OpenWork` says what the listing means for reachable engine
states.

**The way to the external ledger.** `Breaker` is the three-state circuit breaker with calls running
outside its lock, `Outbox` the durable queue as a machine over its locked sections, and
`ReceiptGate` the client object with its emission and replay methods.

**The rate limiter.** `RateLimit` is the in-memory sliding window, proved against the full history
of admitted calls since the key was last reset.

## Results that differ from what one might expect

- The sweep re-reads no lease inside its savepoint. On a stale row it can queue a task under a standing
  lease, write QUEUED over QUEUED, or evict a holder that has renewed (`Guarantees.StaleSweepBreaks`,
  `StaleSweepRewrites`, `StaleSweepEvicts`). `Guarantees.SweepSoundIff` gives the exact condition: the
  lease is still there and expired.
- Reconciliation writes no receipts, so a task it frees no longer replays until it leaves the queue
  again (`Guarantees.ReplaysIffNotLapsed`, `ReplaySurvivesReconciliationIff`).
- Creating again under a taken idempotency key adds an assignment unless the receipt is an exact
  duplicate, and of two assignments of one task one stays open for ever
  (`Guarantees.RecreationAddsIff`, `OneAssignmentStaysOpen`, `RecreatedWhileQueued`).
- A lease ends before its maximum lifetime plus the maximum ttl only if the configured lifetime is
  positive, because the first grant is not held against it (`Guarantees.LifetimeBoundIff`).
- The cursor of the obligation listing is a creation time; obligations of one principal created at the
  same instant can be lost at a page boundary (`Obligations.TiesAreLost`, `ResumesExactlyIff`).
- A refusal during a half-open period uses up a probe slot and decides nothing, so refusals can wedge
  any breaker (`Breaker.RefusalsWedge`), and a wedged breaker drops queued receipts that were never
  sent (`ReceiptGate.DroppedUnsent`).
- The breaker is said to close after consecutive successes of its test calls. Late successes of calls
  admitted earlier count as well (`Breaker.LateSuccessCloses`); `Breaker.ClosesIff` and
  `ClosedByProbesIff` give the exact conditions.
- A refused receipt must not be retried, says the client
  (src/asyncgate/integrations/memorygate_client.py:46-53). The replay pass treats a refusal like any
  other failure (lines 545-549): a refused item is dropped exactly when its retries are used up
  (`ReceiptGate.RefusedReplayIff`, `TriedToTheEnd`).

## Model

| member | source | states |
|---|---|---|
| Domain.TerminalIffTerminatesSomething | src/asyncgate/models/termination.py:26-84 | a receipt type is terminal exactly when some registered obligation type can be discharged by it |
| Ledger.HashIdentity | src/asyncgate/models/receipt.py:50-86 | two receipts have the same hash exactly when they agree on every field and on their parents as a multiset |
| Ledger.ObligationIsPreferred | src/asyncgate/db/repositories.py:1069-1093 | a task's obligation is its newest assignment addressed to the expected owner, and its newest assignment of all only if none is addressed to the owner |
| Ledger.OfExtend | src/asyncgate/db/repositories.py:813-893 | appending receipts of one task extends that task's history and leaves every other history alone |
| Engine.AsyncGate.FindByHash | src/asyncgate/db/repositories.py:1043-1052 | finds a stored receipt exactly when one with the same hash exists |
| Engine.AsyncGate.ParentsExist | src/asyncgate/db/repositories.py:764-812 | answers true exactly when every parent is a stored receipt |
| Engine.AsyncGate.EmitReceipt | src/asyncgate/engine/core.py:1277-1398 | raises on a size limit, a terminal receipt without stored parents, and a forwarded receipt that was buffered or may not wait; otherwise a duplicate adds nothing and a success that cannot be located is stored without parents, with an anomaly |
| Engine.AsyncGate.EmitTwo | src/asyncgate/engine/core.py:1400-1424 | the receipt of a transition and its follow-up are recorded in this order exactly when neither emission raises; undoing a first one is the savepoint's business |
| Engine.AsyncGate.Settle | src/asyncgate/engine/core.py:712-786 | one savepoint: row, leases and receipts change together, and an emission that raises restores all of them |
| Engine.AsyncGate.Release | src/asyncgate/db/repositories.py:617-640 | deletes a task's leases, or of those only the one with the given id |
| Engine.AsyncGate.CreateTask | src/asyncgate/engine/core.py:219-287 | inserts the row or finds the holder of the idempotency key, assigns the task to the caller, or changes nothing |
| Engine.AsyncGate.CancelTask | src/asyncgate/engine/core.py:335-404 | closes an unfinished task, whoever holds it, with its canceled and result_ready receipts, or changes nothing |
| Engine.AsyncGate.SelectEligible | src/asyncgate/db/repositories.py:416-441 | returns an answer of the ordered, limited query: eligible rows, none twice, none preceded by a row left out or placed after it |
| Engine.AsyncGate.Foremost | src/asyncgate/db/repositories.py:431-441 | picks a row that no other one precedes in priority and age |
| Engine.AsyncGate.ClaimRows | src/asyncgate/db/repositories.py:443-483 | exactly the capable ones among the selected rows become LEASED and get consecutive new leases |
| Engine.AsyncGate.AcceptClaims | src/asyncgate/engine/core.py:512-552 | records one acceptance per claimed task, in order, exactly when no emission raises |
| Engine.AsyncGate.ClaimAndAccept | src/asyncgate/engine/core.py:512-552 | a claim and all its acceptances commit together or leave no trace |
| Engine.AsyncGate.LeaseNext | src/asyncgate/engine/core.py:494-569 | one claim request does what granting one selected, capable task after the other does, and its selection is one the query may return |
| Engine.AsyncGate.RenewLease | src/asyncgate/db/repositories.py:526-615 | renews the caller's own lease on an active task within the renewal and lifetime limits, without asking whether it has expired |
| Engine.AsyncGate.Validate | src/asyncgate/db/repositories.py:496-524 | true exactly for a lease of this worker on this task that has not expired |
| Engine.AsyncGate.MarkRunning | src/asyncgate/engine/core.py:1192-1214 | the savepoint of the start: RUNNING and the started receipt go together, and a start time once set stays |
| Engine.AsyncGate.StartTask | src/asyncgate/engine/core.py:652-689 | starts a leased task, accepts a running one silently, refuses the rest |
| Engine.AsyncGate.ReportProgress | src/asyncgate/engine/core.py:601-650 | starts a leased task first; both receipts commit or neither |
| Engine.AsyncGate.BeginComplete | src/asyncgate/engine/core.py:708-730 | the pre-read of complete: what it decides is remembered and nothing else changes |
| Engine.AsyncGate.BeginFail | src/asyncgate/engine/core.py:806-828 | the pre-read of fail, with the decision whether to requeue |
| Engine.AsyncGate.CompleteLocked | src/asyncgate/engine/core.py:732-786 | the locked phase of complete: lease and status are checked again |
| Engine.AsyncGate.FailLocked | src/asyncgate/engine/core.py:830-904 | the locked phase of fail: only the lease is checked again, the decision made before the lock is carried out |
| Engine.AsyncGate.Finish | src/asyncgate/engine/core.py:691-910 | a pending call ends in its locked phase, whatever the outcome |
| Engine.AsyncGate.ExpireOne | src/asyncgate/engine/core.py:939-1035 | one sweep iteration on a lease row read earlier, rolled back as a whole when an emission raises |
| Engine.AsyncGate.GetExpired | src/asyncgate/db/repositories.py:657-690 | at most the limit of expired leases on this instance's active tasks, none twice, and all of them if there are fewer |
| Engine.AsyncGate.ExpireFound | src/asyncgate/engine/core.py:939-1035 | expiring a lease the query has just returned keeps the invariant and leaves every other expired lease expired |
| Engine.AsyncGate.ExpireLeases | src/asyncgate/engine/core.py:916-1038 | a whole sweep is a run of expiry steps on distinct snapshots, removes only expired leases, counts exactly those that are gone, and if fewer than 100 leases have expired tries every one of them although some iterations roll back |
| Engine.AsyncGate.ReleaseUnbacked | src/asyncgate/engine/reconcile.py:101-119 | releases one lease and queues its task if unfinished |
| Engine.AsyncGate.Reconcile | src/asyncgate/engine/reconcile.py:75-142 | the loop over the worker's leases, in any order, ends in the reconciled state; its report lists exactly the leases released, each once with its task, and the owed tasks missing locally |
| Engine.AsyncGate.Acknowledge | src/asyncgate/engine/core.py:465-492 | appends an acknowledgement that has the acknowledged receipt as parent |
| Engine.AsyncGate.constructor | src/asyncgate/engine/core.py:58-68 | a new engine starts with empty tables and satisfies the invariant |
| Lifecycle.ClaimThenAccept | src/asyncgate/engine/core.py:512-552 | claiming all rows first and accepting afterwards equals granting task by task |
| LifecycleInvariant.RunKeeps | src/asyncgate/engine/core.py:219-1038 | every run, in every interleaving, keeps the invariant, and ledger and tables stay in step for all tasks but those a reconciliation has freed and that have stayed in the queue since |
| LifecycleInvariant.NextKeeps | src/asyncgate/engine/core.py:219-1038 | every single step keeps the invariant |
| LifecycleInvariant.ExitIsNew | src/asyncgate/db/repositories.py:813-850 | a receipt that ends a live lease or closes an open task is never taken for a duplicate |
| LifecycleInvariant.StartIsNew | src/asyncgate/db/repositories.py:813-850 | the started receipt of a task that is only leased is never taken for a duplicate |
| LifecycleInvariant.FreshIsNew | src/asyncgate/db/repositories.py:813-850 | a receipt about a new lease or a new task is never taken for a duplicate |
| LifecycleInvariant.SettleKeeps | src/asyncgate/engine/core.py:712-786 | a savepoint that takes a task out of a worker's hands keeps the invariant and the replay |
| LifecycleInvariant.GrantAllKeeps | src/asyncgate/engine/core.py:494-569 | a claim keeps the invariant, touches only the claimed tasks and gives only new leases |
| LifecycleInvariant.ReconcileKeeps | src/asyncgate/engine/reconcile.py:75-142 | reconciliation keeps the invariant |
| LifecycleInvariant.ExpireKeeps | src/asyncgate/engine/core.py:939-1035 | a sweep iteration on a fresh row keeps the invariant and the replay |
| LifecycleTheorems.NextMoves | src/asyncgate/models/task.py:85-106 | every step leaves each row as it was or takes one legal edge, and adds to the ledger without changing it |
| Guarantees.LeaseIffActive | src/asyncgate/db/repositories.py:443-483 | in every reachable state a task has exactly one lease while LEASED or RUNNING, and none otherwise |
| Guarantees.EveryWriteIsLegal | src/asyncgate/models/task.py:85-106 | in every step of the model a status write is one of the eleven legal pairs, written out, and starts from an unfinished status, although fail, the requeues and reconciliation check no edge; a sweep step works on a lease that is still there and expired |
| Guarantees.FinishedForever | src/asyncgate/db/repositories.py:190-322 | a finished task never changes again, in any respect, in any run |
| Guarantees.RunMoves | src/asyncgate/db/repositories.py:712-893 | over a run the ledger only grows and a surviving lease is still the same grant |
| Guarantees.Fencing | src/asyncgate/engine/core.py:728-762 | once a lease id has left the table, every later call presenting it is refused and changes no table |
| Guarantees.StaleDecisionIsFresh | src/asyncgate/engine/core.py:806-854 | whatever happens between pre-read and locked phase of fail, if the lease still validates the requeue decision is the one a fresh read would make |
| Guarantees.AttemptsHeldThroughout | src/asyncgate/engine/core.py:806-854 | while a lease lasts, its task's attempts do not change |
| Guarantees.HolderMayBegin | src/asyncgate/engine/core.py:708-730 | a worker whose lease validates is never turned away by the status or obligation check of complete and fail |
| Guarantees.HolderMayFinish | src/asyncgate/engine/core.py:732-904 | if the lease still validates in the locked phase and no emission raises, the call commits and frees the lease, and the status is the one a decision under the lock would give |
| Guarantees.RefusedChangesNothing | src/asyncgate/engine/core.py:219-1038 | whatever is not answered with success has changed no table |
| Guarantees.TerminalReceipts | src/asyncgate/engine/core.py:728-901 | one terminal receipt, of the matching type, iff the status is terminal; open tasks have all assignments open; FAILED, CANCELED and located SUCCEEDED close exactly one of their own; unlocated SUCCEEDED closes none and leaves one anomaly |
| Guarantees.ClosedByOwnTask | src/asyncgate/db/repositories.py:1130-1159 | an assignment is terminated exactly when its own task's terminal receipts name it |
| Guarantees.ReassignmentStaysOpen | src/asyncgate/engine/core.py:254-285 | an assignment made after its task has finished is never closed |
| Guarantees.RecreationAddsIff | src/asyncgate/engine/core.py:254-285 | creating again under a taken key adds one assignment of the task that holds it exactly if no stored receipt has its hash, and changes nothing else |
| Guarantees.OneAssignmentStaysOpen | src/asyncgate/engine/core.py:254-285 | of two assignments of one task at least one is open throughout every run, whenever they were made and however the task ends |
| Guarantees.RecreatedWhileQueued | src/asyncgate/engine/core.py:254-285 | under every configuration a task created twice under one key and then canceled leaves an assignment that stays open in every continuation |
| Guarantees.LedgerReplay | src/asyncgate/engine/core.py:494-1038 | without reconciliation, folding a task's receipts gives back its status, attempt, live lease and holder |
| Guarantees.ReplaySurvivesReconciliationIff | src/asyncgate/engine/reconcile.py:101-119 | after reconciliation the ledger still replays to the tables exactly when there was nothing to release |
| Guarantees.ReplaysIffNotLapsed | src/asyncgate/engine/reconcile.py:101-119 | after any run, reconciliation included, a task replays to its row and lease exactly if no reconciliation has freed it since it last left the queue |
| Guarantees.LeaseWindow | src/asyncgate/db/repositories.py:526-615 | one lease id can authorise complete or fail only before its acquisition plus maximum lifetime plus maximum ttl (or plus ttl alone if larger), with renewals within the limit |
| Guarantees.LeaseLifetime | src/asyncgate/db/repositories.py:409-414 | every lease in a reachable state has at most max_lease_renewals renewals and ends within its first ttl or before lifetime plus ttl after it was acquired |
| Guarantees.LifetimeBoundIff | src/asyncgate/db/repositories.py:546-615 | every lease of every reachable state ends before max_lease_lifetime plus max_lease_ttl after it was acquired exactly when the configured lifetime is positive |
| Guarantees.AttemptAccounting | src/asyncgate/engine/core.py:815-882 | attempt is the number of retry_scheduled receipts and at most max(0, max_attempts - 1); at most max(1, max_attempts) fail calls commit on a task |
| Guarantees.ExpiryCostsNoAttempt | src/asyncgate/db/repositories.py:275-322 | any number of lease expiries, committed or rolled back, leaves attempt unchanged |
| Guarantees.NoPriorityInversion | src/asyncgate/db/repositories.py:416-483 | a claimed task is eligible, of an accepted type and within the capabilities, and no such task left unclaimed precedes it |
| Guarantees.UnreachableGrantsNothing | src/asyncgate/engine/core.py:1350-1398 | one acceptance the ledger could not be reached for undoes the whole claim |
| Guarantees.RefusedStillGranted | src/asyncgate/engine/core.py:1380-1398 | an acceptance the ledger refused still grants the lease |
| Guarantees.ReconcileExact | src/asyncgate/engine/reconcile.py:84-142 | afterwards the worker holds exactly its leases on owed tasks; other leases, finished tasks and the ledger are untouched; only freed tasks change, and only their status; a second run changes nothing |
| Guarantees.StaleSweepIff | src/asyncgate/engine/core.py:939-979 | of the invariant, the match of leases and statuses survives a sweep iteration on a stale row exactly when no other lease stands on the task |
| Guarantees.SweepSoundIff | src/asyncgate/engine/core.py:939-979 | whatever happened since the row was read, a committed iteration keeps the whole invariant, writes along an edge of the transition table and takes no unexpired lease exactly if the lease is still there and expired |
| Guarantees.StaleSweepBreaks | src/asyncgate/engine/core.py:939-979 | under every configuration there is a run in which a stale row leaves a queued task under a standing lease |
| Guarantees.StaleSweepRewrites | src/asyncgate/engine/core.py:939-979 | under every configuration there is a run in which a stale row writes QUEUED over QUEUED and cuts the delay short |
| Guarantees.StaleSweepEvicts | src/asyncgate/engine/core.py:939-979 | wherever one renewal and two seconds of life are allowed there is a run in which a stale row evicts a holder whose lease validates |
| Notices.ToldExactlyOnce | src/asyncgate/engine/core.py:782-783 | in every reachable state a task has one result_ready receipt if it has ended and none before; it goes to the addressee of the assignment it names and carries the row's status and artifacts |
| Effects.EmissionRaisesIff | src/asyncgate/engine/core.py:1277-1398 | an emission raises exactly on a size limit, for a terminal receipt without stored parents, and for one of the five forwarded types that was buffered or may not wait |
| Effects.EmissionAppends | src/asyncgate/db/repositories.py:764-893 | one that does not raise appends its receipt unless it is a duplicate; a success without artifacts and proof loses its parents and is followed by the anomaly |
| Effects.Created | src/asyncgate/engine/core.py:219-287 | a committed create under no key or a new one inserts the queued row with its defaults and appends the assignment, from the service to the requested owner |
| Effects.OwnerIsAssigned | src/asyncgate/engine/core.py:254-285 | in every reachable state each task has an assignment addressed to the owner in its row |
| Effects.CanceledBy | src/asyncgate/engine/core.py:335-404 | a committed cancel frees all leases of the task, closes its row and tells the obligation's addressee with task.canceled and result_ready |
| Effects.Claimed | src/asyncgate/db/repositories.py:399-483 | the claimed tasks, at most ten and no more than asked for, become LEASED, each under a new lease of the requested or default ttl up to the maximum, and their acceptances go to the addressees of their obligations |
| Effects.ClaimsAllThereIs | src/asyncgate/db/repositories.py:416-441 | when the query returns fewer rows than the limit, every waiting task that is eligible, of an accepted type and within the capabilities is claimed |
| Effects.LeasedByClaim | src/asyncgate/db/repositories.py:416-441 | only a claim takes a task out of the queue to a worker: not before its time, of an accepted type, within the capabilities |
| Effects.RenewedIff | src/asyncgate/db/repositories.py:526-615 | a renewal is granted exactly to the holder on an active task with renewals and lifetime left; the lease then ends the requested or default time from now, up to the maximum ttl, and nothing else changes |
| Effects.StartedBy | src/asyncgate/engine/core.py:1178-1216 | a start makes a leased task RUNNING since the time it was first started and tells the obligation's addressee; a running one it leaves alone |
| Effects.ProgressedBy | src/asyncgate/engine/core.py:601-650 | a report starts a leased task first and then tells the obligation's addressee unless the very same report is on the ledger |
| Effects.CompleteBegun | src/asyncgate/engine/core.py:708-730 | the pre-read passes exactly the holder of an unexpired lease, and remembers the obligation and its addressee |
| Effects.FailBegun | src/asyncgate/engine/core.py:806-828 | so does that of fail, and the requeue decision is retryable and attempt + 1 < max_attempts |
| Effects.Completed | src/asyncgate/engine/core.py:732-786 | a committed complete leaves the row SUCCEEDED with payload and artifacts, frees the lease, and appends task.completed, which names the obligation only with artifacts and is otherwise followed by the anomaly, and result_ready |
| Effects.FailedForGood | src/asyncgate/engine/core.py:880-904 | a committed fail without another attempt leaves the row FAILED with the error, frees the lease, and appends task.failed and result_ready |
| Effects.RetryScheduled | src/asyncgate/db/repositories.py:238-273 | a committed fail with another attempt queues the task, eligible after its backoff, doubled for every attempt used before and capped at the maximum, and appends task.retry_scheduled |
| Effects.NotBeforeItsTime | src/asyncgate/db/repositories.py:416-425 | in no run does a task that waits for its time leave the queue before it, unless it is canceled; its row stays as it is |
| Effects.ExpiredLease | src/asyncgate/engine/core.py:939-1035 | a committed expiry takes a lease past its end, queues the task after the jitter with its attempt unchanged, and tells the obligation's addressee and, where it is on, the escalation target |
| Commits.CreatesIff | src/asyncgate/engine/core.py:219-287 | a create commits unless its receipt is too large or its key is empty and taken; under a taken key it assigns the task again, to the owner given this time, unless that was said before |
| Commits.CancelsIff | src/asyncgate/engine/core.py:335-404 | a cancel commits exactly for an unfinished task, an authorised caller and receipts that get through |
| Commits.ClaimsIff | src/asyncgate/engine/core.py:494-569 | a claim commits exactly if its number is not negative, its rows answer the query and every acceptance reached the external ledger or was refused by it |
| Commits.StartsIff | src/asyncgate/engine/core.py:652-689 | a start commits exactly for the holder of an unexpired lease, unless the receipt it needs is too large |
| Commits.ReportsIff | src/asyncgate/engine/core.py:601-650 | a report commits exactly for the holder of an unexpired lease, unless a receipt is too large |
| Commits.FinishesIff | src/asyncgate/engine/core.py:732-904 | a pending complete or fail commits exactly if its lease is still its worker's, on its task and unexpired, and its receipts get through |
| Commits.ExpiresIff | src/asyncgate/engine/core.py:939-1035 | an expiry commits exactly for a lease past its end on a task of this instance whose receipts get through |
| Commits.Acknowledged | src/asyncgate/engine/core.py:465-492 | an acknowledgement goes from the actor to the service with the receipt as parent, unless it is too large or was made before |
| Obligations.Fetch | src/asyncgate/db/repositories.py:1277-1302 | the ordered query returns the principal's obligations behind the cursor, up to the cap plus one |
| Obligations.TerminatedAmong | src/asyncgate/db/repositories.py:1309-1331 | the batched pass over all terminal parents finds exactly the candidates for which has_terminator is true |
| Obligations.Scan | src/asyncgate/db/repositories.py:1333-1342 | keeps the first open candidates up to the limit |
| Obligations.ListOpenObligations | src/asyncgate/db/repositories.py:1228-1351 | the batched, capped page equals the one defined by asking has_terminator per obligation, exceptions for limits below one included |
| Obligations.PageIsStretch | src/asyncgate/db/repositories.py:1282-1351 | a page is the open part of a stretch of obligations starting at its cursor; its next cursor is the end of the stretch, and a null cursor means nothing is left |
| Obligations.PageAdvances | src/asyncgate/db/repositories.py:1344-1351 | every page moves its cursor forward, whatever the creation times are, so a walk ends |
| Obligations.WalkIsExact | src/asyncgate/db/repositories.py:1130-1351 | if the principal's obligations have distinct times, the walk over a fixed ledger returns exactly the open obligations, each once, in order, for every page size |
| Obligations.ListsExactlyTheOpen | src/asyncgate/db/repositories.py:1265-1351 | with distinct times a receipt is in the walk exactly if it is an assignment addressed to the principal that no completed, failed or canceled receipt names, and receipts come in the order of their times |
| Obligations.PageHoldsOwnOpen | src/asyncgate/db/repositories.py:1265-1342 | on any ledger every receipt of a page is an assignment addressed to the principal, newer than the cursor's, that no terminal receipt names |
| Obligations.PageLooksFar | src/asyncgate/db/repositories.py:1298-1351 | a page short of its limit with a cursor has looked at exactly min(3 * limit, 1000) of the assignments behind its own cursor, and one without at all of them |
| Obligations.ResumesExactlyIff | src/asyncgate/db/repositories.py:1282-1296 | resuming after an obligation continues with the next one exactly when no later obligation has the same creation time |
| Obligations.TiesAreLost | src/asyncgate/db/repositories.py:1282-1296 | with two open obligations of one creation time a walk of page size one loses the second |
| Obligations.PagingUnderGrowth | src/asyncgate/db/repositories.py:1282-1351 | with distinct times for the principal's obligations, following cursors over a growing ledger returns nothing twice and, once the cursor is null, everything that was there at the start and stayed open |
| OpenWork.UnfinishedWorkIsListed | src/asyncgate/engine/core.py:1105-1136 | in reachable states the walk returns every assignment of an unfinished task and, once it is closed, all of its assignments but one |
| OpenWork.OwnerFindsTask | src/asyncgate/db/repositories.py:1228-1351 | in every reachable state the walk of a task's owner returns an assignment of each unfinished task that is addressed to that owner, if the owner's assignments have distinct times |
| Breaker.CircuitBreaker.constructor | src/asyncgate/integrations/circuit_breaker.py:87-92 | a breaker starts closed with all counters zero |
| Breaker.CircuitBreaker.Enter | src/asyncgate/integrations/circuit_breaker.py:137-172 | the locked entry: open refuses until the timeout, half-open admits up to its limit |
| Breaker.CircuitBreaker.RecordSuccess | src/asyncgate/integrations/circuit_breaker.py:185-194 | counts a success and closes a half-open breaker at the threshold |
| Breaker.CircuitBreaker.RecordFailure | src/asyncgate/integrations/circuit_breaker.py:196-215 | counts a failure, reopens a half-open breaker at once and opens a closed one at the threshold |
| Breaker.CircuitBreaker.SecondsUntilHalfOpen | src/asyncgate/integrations/circuit_breaker.py:257-263 | the whole seconds a refused caller is told to wait |
| Breaker.RetryAfterIsRight | src/asyncgate/integrations/circuit_breaker.py:250-263 | before the reported time has passed an open breaker still refuses; one second after it a probe is tried |
| Breaker.OpenedAtAndProbes | src/asyncgate/integrations/circuit_breaker.py:159-172 | the opening time is unset exactly in CLOSED, and no half-open period lets more than the limit through |
| Breaker.OpensIff | src/asyncgate/integrations/circuit_breaker.py:196-215 | a closed breaker opens exactly on a failure that completes failure_threshold failures in a row since it closed, refusals not counted |
| Breaker.ClosesIff | src/asyncgate/integrations/circuit_breaker.py:185-215 | short of a reset, a half-open breaker closes exactly on the success that completes success_threshold successes recorded in its period, late ones included, and reopens exactly when a running call fails |
| Breaker.ClosedByProbesIff | src/asyncgate/integrations/circuit_breaker.py:185-194 | when it closes, success_threshold probes of its own period have succeeded exactly if no late success was recorded in the period |
| Breaker.LateSuccessCloses | src/asyncgate/integrations/circuit_breaker.py:185-194 | with thresholds of one, a late success of a call admitted before the opening closes the breaker while its only probe is still running |
| Breaker.AdmitsUpToLimit | src/asyncgate/integrations/circuit_breaker.py:229-237 | a fresh half-open period that nothing decides lets exactly half_open_max_calls callers in |
| Breaker.AdmittedIff | src/asyncgate/integrations/circuit_breaker.py:137-172 | a caller is let in exactly if the breaker is closed, or open since at least the timeout, or half-open, and in the last two cases with a probe left; nothing else makes an open breaker half-open |
| Breaker.CallsBalance | src/asyncgate/integrations/circuit_breaker.py:137-239 | every call let in is running, recorded as a success or a failure, or ended without an outcome, and every caller is counted |
| Breaker.StaysOpen | src/asyncgate/integrations/circuit_breaker.py:137-172 | until the timeout nothing is admitted, and late outcomes change neither state nor opening time |
| Breaker.AccountedThroughout | src/asyncgate/integrations/circuit_breaker.py:137-194 | if no call ends in a refusal, the probes of a half-open period are exactly those still running and those that have succeeded in it |
| Breaker.NeverWedgesIff | src/asyncgate/integrations/circuit_breaker.py:137-194 | calls that only succeed or fail can never leave a half-open breaker stuck exactly when 1 <= half_open_max_calls and success_threshold <= half_open_max_calls |
| Breaker.StuckForever | src/asyncgate/integrations/circuit_breaker.py:159-172 | a stuck breaker with nothing running refuses every call for ever, short of a manual reset |
| Breaker.RefusalsWedge | src/asyncgate/integrations/circuit_breaker.py:174-183 | under every configuration some run with non-failure exceptions leaves the breaker refusing for ever |
| Outbox.DelayBounds | src/asyncgate/integrations/memorygate_client.py:418-421 | retry delays never shrink and stay between one second and one hour |
| Outbox.RetryWaits | src/asyncgate/integrations/memorygate_client.py:490-513 | a missed item waits for the configured interval, at least a second, then twice as long every time up to an hour, counts one retry more and keeps its place; with its retries used up it is dropped |
| Outbox.DeliveredLeaves | src/asyncgate/integrations/memorygate_client.py:481-488 | a delivered item leaves the queue and the others close up |
| Outbox.JoinsTheEnd | src/asyncgate/integrations/memorygate_client.py:423-459 | a receipt that may wait joins the end of the queue, a full queue gives up its first item, and any other receipt raises and changes nothing |
| Outbox.IdsAscend | src/asyncgate/integrations/memorygate_client.py:423-513 | in every reachable outbox the items wait in the order they were queued in, restarts included |
| Outbox.OverflowTakesTheOldest | src/asyncgate/integrations/memorygate_client.py:440-451 | whatever overflow has dropped at any step of a run is older than everything that still waits |
| Outbox.LoadsTheNewest | src/asyncgate/integrations/memorygate_client.py:187-222 | one readable entry more at the end of the file is one item more at the end of the loaded list, the first one going if there are too many; other entries are skipped |
| Outbox.ReloadRoundTrip | src/asyncgate/integrations/memorygate_client.py:187-236 | reading the file a section has written gives back the same list |
| Outbox.Conservation | src/asyncgate/integrations/memorygate_client.py:187-552 | from any file, in any interleaving of locked sections and restarts: queued = pending + replayed + dropped in each process, pending <= max(1, buffer_size), no phase that may not wait is taken in, and a reload gives the same list |
| Outbox.LifetimeConservation | src/asyncgate/integrations/memorygate_client.py:187-552 | over any number of restarts every receipt ever queued is pending, was replayed or was dropped |
| Outbox.AcceptanceFailsClosed | src/asyncgate/integrations/memorygate_client.py:313-338 | an acceptance the ledger cannot be reached for is not queued and aborts its claim |
| Outbox.StepSpends | src/asyncgate/integrations/memorygate_client.py:490-513 | a failed or blocked replay of a pending item lowers the summed retry budget by exactly one, a delivery by at least one; a new receipt adds at most max_retries + 1 |
| Outbox.RetriesBounded | src/asyncgate/integrations/memorygate_client.py:490-552 | over a whole run with restarts an item's replay fails at most max_retries + 1 times, and a waiting item has failed exactly as often as its count says |
| ReceiptGate.BatchIsOldestDue | src/asyncgate/integrations/memorygate_client.py:523-532 | a pass takes only due items and leaves behind no due item queued before one it takes |
| ReceiptGate.TakesAllItMay | src/asyncgate/integrations/memorygate_client.py:523-532 | a pass takes at most max(1, limit) items, none twice, in the order of their queueing times, and all due ones if it takes fewer |
| ReceiptGate.ReceiptGateClient.constructor | src/asyncgate/integrations/memorygate_client.py:187-222 | a new process loads the readable entries and keeps the newest max(1, buffer_size) |
| ReceiptGate.ReceiptGateClient.BufferReceipt | src/asyncgate/integrations/memorygate_client.py:423-459 | queues the receipt, dropping the oldest when full |
| ReceiptGate.ReceiptGateClient.RemoveBufferItem | src/asyncgate/integrations/memorygate_client.py:481-488 | removes the item with this id, if it is there |
| ReceiptGate.ReceiptGateClient.ScheduleRetry | src/asyncgate/integrations/memorygate_client.py:490-513 | counts a retry and sets its time, or drops an item whose retries are used up |
| ReceiptGate.ReceiptGateClient.GiveUp | src/asyncgate/integrations/memorygate_client.py:313-338 | an unreachable ledger means the outbox for phases that may wait, and an exception for the others |
| ReceiptGate.ReceiptGateClient.BeginEmit | src/asyncgate/integrations/memorygate_client.py:266-300 | the entry of an emission through the breaker, or the fallback when the circuit refuses |
| ReceiptGate.ReceiptGateClient.EndEmit | src/asyncgate/integrations/memorygate_client.py:288-338 | a delivery and a failure are recorded with the breaker, a refusal is not; only a failure is buffered |
| ReceiptGate.ReceiptGateClient.TryToSend | src/asyncgate/integrations/memorygate_client.py:266-279 | an item goes through the breaker without a fallback: it is blocked, or its answer is recorded unless it is a refusal |
| ReceiptGate.ReceiptGateClient.Settle | src/asyncgate/integrations/memorygate_client.py:534-549 | a delivered item is removed, every other one, a refused one too, is rescheduled or dropped; either way budget is used up |
| ReceiptGate.ReceiptGateClient.ReplayOne | src/asyncgate/integrations/memorygate_client.py:534-549 | one item of a pass meets what the breaker makes of its answer and is settled accordingly |
| ReceiptGate.RefusedReplayIff | src/asyncgate/integrations/memorygate_client.py:46-53 | in every reachable outbox a pending item whose replay is refused stays queued, with one retry more, exactly if it has fewer than max_retries; otherwise it is dropped |
| ReceiptGate.TriedToTheEnd | src/asyncgate/integrations/memorygate_client.py:490-552 | a receipt whose every replay meets the same obstacle, a refusal for one, is tried max_retries + 1 times, each time as the due item a pass takes first, and then dropped |
| ReceiptGate.StuckBlocks | src/asyncgate/integrations/memorygate_client.py:266-279 | a stuck breaker blocks every replay whatever the ledger would answer |
| ReceiptGate.DroppedUnsent | src/asyncgate/integrations/memorygate_client.py:534-549 | behind a breaker that refusals have wedged, a queued receipt is blocked max_retries + 1 times and dropped without ever being sent |
| ReceiptGate.ReceiptGateClient.ReplayBufferedReceipts | src/asyncgate/integrations/memorygate_client.py:515-552 | a pass is a run of sections over the oldest due items, each meeting what the breaker makes of its answer; it ends early only at a blocked one, reports exactly what it did and lowers the retry budget by at least its length |
| RateLimit.InMemoryRateLimiter.CheckRateLimit | src/asyncgate/middleware/rate_limit.py:67-95 | prunes, decides and records; what it reports as remaining is the room the window then has, and the reset time is when its oldest call leaves |
| RateLimit.InMemoryRateLimiter.Reset | src/asyncgate/middleware/rate_limit.py:97-101 | forgets one key and no other |
| RateLimit.PrunedHistory | src/asyncgate/middleware/rate_limit.py:72-79 | the pruned list holds all of the full history a later check could still see |
| RateLimit.SameDecision | src/asyncgate/middleware/rate_limit.py:78-95 | a call is refused exactly when max_calls were admitted in the window ending with it |
| RateLimit.ResetTimeIsRight | src/asyncgate/middleware/rate_limit.py:85-89 | after a refusal the window is full and the key stays refused until its oldest call leaves; the reported reset time is right to the second |
| RateLimit.AnyWindowBounded | src/asyncgate/middleware/rate_limit.py:67-95 | every window (t - W, t], wherever it ends, holds at most max(0, max_calls) admitted calls of one key |

## Left out

- Tenants: all tables belong to one tenant; tenant filters and cross-tenant escalation are not modelled.
- HTTP, JSON-RPC and MCP routing, authentication, tokens and the authorisation rules of cancel: whether a caller may cancel is an input.
- Principal normalisation and owner resolution: a row's owner is the already resolved owner, and id variants of one principal are one value.
- SQLAlchemy, transactions, isolation levels and SKIP LOCKED: an engine call is one step, `complete` and `fail` are two, a savepoint is all or nothing.
- Order of equal rows: where SQL leaves the order open, claiming accepts any answer; the obligation lookup takes the row appended last and the listing the row appended first.
- Time: one clock in microseconds that is assumed never to run backwards, which the wall clock behind it does not promise; within one step, one sweep and one replay pass it stands still. `updated_at` is not modelled.
- Ids: uuid4 is a counter, receipt ids are positions in the ledger, and the ids of an aborted step are used again, which nothing observes.
- SHA-256 and JSON: equality of hashes is equality of the canonical records. Trace ids are part of receipt bodies as in the code.
- Body, parents and artifact size limits: they appear only as an emission that may raise.
- Payloads, instructions and progress contents are plain strings; the relationship table, metrics, logging and delivery marks are not modelled.
- Escalation classes and their per-class targets: one optional target is an input.
- Jitter, pauses and batch commits of the sweep: jitter is any non-negative delay, the rest is left out.
- The receipt adapter and the validation of canonical receipts: which verdict an emission gets is an input of the engine model.
- legivellum's `may_buffer` is an arbitrary judgement per transition name; the network call is an input.
- Failures of file reads and writes other than an unreadable file at start, and the atomic rename.
- Sharing of buffer items between a replay pass and the list: items are values, and a pass uses only their id and receipt, which never change.
- The background replay loop's waiting, start and stop.
- RedisRateLimiter, key selection and per-endpoint rules of the rate limiter; a key's limit and window are fixed over a run.
- The order of the report's missing list, which is a set here; logging of the report.
- Engine.AsyncGate.ExpireLeases: models a sweep without other calls between its iterations, each of which therefore finds its lease as it was read; what an iteration does when something came between is Guarantees.SweepSoundIff.
- Guarantees.EveryWriteIsLegal: a sweep step of the model is guarded by the sweep query, which the code does not repeat inside the savepoint; without that guard QUEUED can be written over QUEUED, as Guarantees.StaleSweepRewrites shows.
- Engine.AsyncGate.EmitTwo: says nothing about the ledger when an emission raises; Engine.AsyncGate.Settle restores it.
- Engine.AsyncGate.AcceptClaims: says nothing about the ledger when an emission raises; Engine.AsyncGate.ClaimAndAccept restores it.
- Engine.AsyncGate.MarkRunning: the tests of the current status are made by the methods that call it.
- Obligations.WalkIsExact: asks for distinct creation times among the principal's obligations; without them it is false, and the exact condition for one page boundary is Obligations.ResumesExactlyIff.
- Obligations.ListsExactlyTheOpen: asks for the same distinct times as Obligations.WalkIsExact.
- OpenWork.OwnerFindsTask: asks for them among the obligations of the principals the task is assigned to.
- Outbox.IdsAscend: starts from no buffer file; a file written by other hands may hold items in any order.
- Outbox.OverflowTakesTheOldest: starts from no buffer file as well.
- RateLimit.AnyWindowBounded: counts the calls admitted since the key was last reset.
- Outbox.RetriesBounded: counts replays that fail while the item is still in the queue.
