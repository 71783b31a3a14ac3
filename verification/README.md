# Verified models of the tenant pool, billing, telemetry and streaming protocols

This project models the stateful cores of the backend in Dafny and proves what they keep over every run. Each
protocol has two layers. The first is a state machine (or a pure function) whose transitions are the pieces of code
between two `await`s, so that every interleaving of callers, timers, releases, crashes and failed queries is a run
of it; the safety results are invariants and theorems over all runs. The second is the code's own form: a class with
the source's fields, its `while` loops and in-place updates, whose methods are proved to take exactly the steps of
the first layer. Functions of the source that only compute are functions here.

| file | what it models |
|---|---|
| `Sequences.dfy` | filters, intervals, concatenation, ordering, duplicate-freedom |
| `TenantPool.dfy`, `TenantPoolSafety.dfy`, `TenantPoolEffects.dfy`, `TenantAwarePoolProxy.dfy` | the fair-queue connection scheduler: state machine, invariants over runs, what each event does to whom, the class with its splice loops |
| `EventLog.dfy`, `EventLogHistories.dfy`, `EventStore.dfy` | the per-tenant event log with any number of writers and paging readers; whose rows its runs commit; the retry loop and the lock hash |
| `BillingCycle.dfy`, `Finalizer.dfy` | the billing state machine, both stores, and any number of concurrent finalisations |
| `BatchLifecycle.dfy`, `BatchHistories.dfy`, `BatchEffects.dfy`, `BatchSummary.dfy`, `BatchCompactor.dfy` | compact, rotate and ensure-open workers under advisory locks; what their runs leave behind; what their calls do and report; the aggregation; the code of the operations |
| `ReorderBuffer.dfy` | the out-of-order frame buffer over a sorted set |
| `TokenBucket.dfy`, `TokenBucketBounds.dfy`, `TokenBucketEffects.dfy` | the token bucket script with bursts, bounds on what it admits, and its numbers |
| `FragmentReassembler.dfy` | the telemetry fragment reassembler |
| `LedgerSync.dfy` | the ledger catch-up loop with its checkpoints |
| `SseConnection.dfy`, `SseEffects.dfy` | one server-sent-events connection with its bounded queue, and what each event writes |

`dafny verify dfyconfig.toml` checks everything. Automatic induction is switched off on every lemma, so each proof by
induction is written out.

## What turned out false of the code

Each of these is a lemma with the exact condition, a concrete run, or both.

- A device can have two OPEN batches: two `ensureOpenBatch` calls that straddle a bucket boundary
  (`TwoOpenBatchesAreReachable`). `SingleOpenUntilStaleStep` says exactly which runs keep one, and
  `SingleOpenWithoutOverlap` what callers can do about it.
- `ensureOpenBatch` promises an OPEN batch but reports its own row as OPEN even when the insert met a COMPACTING or
  CLOSED one (`EnsuredIsOpenIff`, `EnsuredButCompactingIsReachable`).
- A cycle is left in FINALIZING for ever exactly when its winner met a used idempotency key, threw or died
  (`Finalizer.StrandedIff`, `StrandedIffKeyTaken`, `Finalizer.StrandedForEver`, `Finalizer.StrandedIsReachable`). A
  batch stays COMPACTING for ever exactly when a worker that had it in hand threw or died (`BatchHistories.StrandedIff`,
  `BatchHistories.StrandedForEver`, `BatchHistories.StrandedIsReachable`), and a rotation that fails leaves a trace
  exactly when its commit took effect (`FailedRotationLeavesTraceIffCommitted`, `FailedRotationTraceIsReachable`).
- A set-up that fails after `pool.connect()` never gives the raw client back (`RawClientsMatchGrantsIff`,
  `LeakIsReachable`). The schema name is computed only then, so every request of a tenant whose name has no letter,
  digit or underscore loses the client it gets (`OnlyUnusableNamesLeak`, `UnusableNameLeaks`); names could be checked
  before the call.
- The retry time a denial announces is exact under an unchanged rate and can be too early when the rate falls
  (`RetryAllowedIff` says exactly when a retry is allowed, `ResetTimeCanBeTooEarly` is a run).
- The checkpoint can be 64 ledgers behind or more when the write that should have moved it throws, by up to one batch
  (`CheckpointKeepsUp`, `FailedWriteLagsABatchMore`).
- The reassembler's size limit applies to a chunk before its messages are taken out, so the same bytes can be accepted
  or refused depending on how they were cut (`AcceptsIff`, `CoarseChunkingMayViolate`); feeding byte by byte accepts the
  most (`AnyAcceptedStreamIsAcceptedBytewise`). A timeout drops the head of a message and keeps the connection, so the
  tail is later emitted as a message (`TimeoutIsHarmlessIff`, `TimeoutLosesFraming`).
- An SSE event on which the stream pushed back is written again after the drain (`RunWritesTwiceIff`,
  `DoubleWriteIsReachable`), and may be counted as dropped although it was written (`DropsWrittenEventIff`,
  `DroppedYetWritten`).
- The scheduler is not round-robin: `fairOrder` is never rotated, and the first grantable tenant in it is always
  served (`FirstGrantableIsFirst`, `PickedTwiceInARowIsReachable`).

## Model

| member | source | states |
|---|---|---|
| TenantPoolSafety.RunsAreSafe | src/database/pool_manager.ts:138-342 | in every state of every interleaving of connects, releases, timers, pool look-ups and promise outcomes: fairOrder lists the queued tenants once each, counters equal the granted unreleased clients, quotas hold, a grant suspended at an await still has room, requests are conserved, picks are in arrival order per tenant, and while no loop is suspended nothing queued could be granted and a retry timer is armed |
| TenantPoolSafety.NextKeepsInv | src/database/pool_manager.ts:263-341 | that invariant is inductive: each segment between two awaits keeps it |
| TenantPoolSafety.CountersStayWithinQuotas | src/database/pool_manager.ts:303-320 | globalActive is the sum of tenantActive and the number of unreleased clients, at most the global maximum; every tenant stays within TENANT_MAX_CONNECTIONS |
| TenantPoolSafety.ReleaseNeverClips | src/database/pool_manager.ts:314-320 | the clamp at zero never takes effect: both counters of a first release are at least one |
| TenantPoolSafety.ReleaseKeepsRoom | src/database/pool_manager.ts:299-320 | a release during the awaits of another request's grant cannot take away the room that grant was picked with, reserved capacity included |
| TenantPoolSafety.PickIsWorkConserving | src/database/pool_manager.ts:233-261 | nothing is picked if and only if no queued request may be granted; what is picked is its tenant's oldest request |
| TenantPoolSafety.PickPrefersTenantsBelowMinimum | src/database/pool_manager.ts:249-252 | while a queued tenant is below its minimum only such tenants are served, and none is only when the global maximum is reached |
| TenantPoolSafety.FirstGrantableIsFirst | src/database/pool_manager.ts:254-259 | the tenant served is the first grantable one in fairOrder, not the next one in turn |
| TenantPoolSafety.PickedTwiceInARowIsReachable | src/database/pool_manager.ts:248-261 | a run in which one tenant is picked twice in a row while another, which could be granted before and after the second pick, waits |
| TenantPoolSafety.PickAtMinimumSeesNoQueuedShortfall | src/database/pool_manager.ts:222-229 | the queue part of the reservation is zero at every pick of a tenant at its minimum |
| TenantPoolSafety.GrantsSpareReservedCapacity | src/database/pool_manager.ts:214-246 | after the grant of a request picked at its tenant's minimum, globalActive plus the other tenants holding exactly one connection is at most the global maximum, whatever happened during the awaits |
| TenantPoolSafety.LaunchPicksInOrder | src/database/pool_manager.ts:255-294 | picking a tenant's oldest request keeps that tenant's picks in arrival order and everything still queued later |
| TenantPoolSafety.EveryRequestIsInOnePlace | src/database/pool_manager.ts:164-341 | every request ever made is in exactly one of queue, flight, granted and rejected, once |
| TenantPoolSafety.SettledAtMostOnce | src/database/pool_manager.ts:196-330 | no promise is resolved or rejected twice, and settlements are never undone |
| TenantPoolSafety.OnlyFreshRequestsAreKept | src/database/pool_manager.ts:188-201 | whoever is picked had waited less than the timeout, the queue keeps only such requests, and every other one is rejected |
| TenantPoolSafety.RawClientsMatchGrantsIff | src/database/pool_manager.ts:299-331 | between loop runs the raw check-outs equal the granted clients if and only if no event so far made a set-up fail after its check-out, and they exceed the maximum by at most the number that did |
| TenantPoolSafety.OnlyUnusableNamesLeak | src/database/pool_manager.ts:44-51 | while no query fails after a check-out, raw clients are lost if and only if one arrived for a tenant without a schema name; none is when every tenant name asked for has one |
| TenantPoolSafety.UnusableNameIff | src/database/pool_manager.ts:45-51 | tenantSchemaName throws exactly for names without a letter, digit or underscore |
| TenantPoolSafety.UnusableNameLeaks | src/database/pool_manager.ts:299-331 | for every such name, a run in which its one request loses a raw client |
| TenantPoolSafety.HeldUntilFirstRelease | src/database/pool_manager.ts:306-324 | on every run a client is held exactly from its grant to the first call of its release, and only granted clients' releases are called |
| TenantPoolSafety.RunHasEvents | src/database/pool_manager.ts:263-341 | every run comes with the events that make it, so results on runs with events speak of every run |
| TenantPoolSafety.LeakIsReachable | src/database/pool_manager.ts:299-331 | a run in which a query that fails after the check-out leaks a raw client |
| TenantPoolSafety.NextOnlyExtendsLogs | src/database/pool_manager.ts:299-331 | settlements and picks are only ever appended, and precisely a failure after check-out leaks a raw client |
| TenantPoolEffects.WhoIsRejected | src/database/pool_manager.ts:188-341 | who is rejected by any event: while the loop is suspended nobody but a request whose own set-up fails; when it runs without a pool the whole queue; when it runs with one exactly those who have waited 500 ms, newest first, and every other one is afterwards queued or, if it is the one picked, in flight |
| TenantPoolEffects.WhoIsGranted | src/database/pool_manager.ts:164-341 | only the end of the second await grants, and only the request in flight; only connect issues a request; every call of a release is passed on once; a pick is the request then in flight; and a timer is armed exactly when the loop ends with requests left |
| TenantPoolEffects.GrantIff | src/database/pool_manager.ts:214-246 | a tenant may be granted a connection if and only if it holds fewer than ten, the total is below the maximum, and it holds fewer than two or leaves free what the others who hold one, and the first waiting one below two, still lack |
| TenantPoolEffects.PickFollowsFairOrder | src/database/pool_manager.ts:248-261 | a tenant listed in fairOrder before the one picked could not be granted, unless it had its minimum already and the one picked had not |
| TenantPoolEffects.FairOrderKeepsPlaces | src/database/pool_manager.ts:172-212 | tenants keep their places in fairOrder as long as they are in it, and a new one comes last |
| TenantPoolEffects.PickIsRemembered | src/database/pool_manager.ts:288-329 | on every run the flight says, from its pick on, whether its tenant held two connections or more at that moment |
| TenantPoolEffects.GrantAfterPickSparesReserve | src/database/pool_manager.ts:214-332 | told from the events: whoever is picked holding two connections or more is granted so that, whatever came in between, every other tenant that holds one can still have its second |
| TenantPoolEffects.CleanSchemaName | src/database/pool_manager.ts:45-51 | a name of letters, digits and underscores becomes the schema tenant_ followed by its first 48 characters |
| TenantPoolEffects.SchemaNameIgnoresOthers | src/database/pool_manager.ts:46-46 | any other character in a name makes no difference to the schema, wherever it stands |
| PoolProxy.TenantAwarePoolProxy.CompactFairOrder | src/database/pool_manager.ts:203-212 | the backward splice loop keeps exactly the tenants with queued requests, in order |
| PoolProxy.TenantAwarePoolProxy.SpliceTimedOut | src/database/pool_manager.ts:189-198 | the backward splice loop keeps exactly the requests within the timeout, in order, and rejects the others last first |
| PoolProxy.TenantAwarePoolProxy.RejectTimedOutRequests | src/database/pool_manager.ts:188-201 | the state after it: timed-out requests rejected, fairOrder compacted, nothing else changed |
| PoolProxy.TenantAwarePoolProxy.ReservedForHolders | src/database/pool_manager.ts:215-221 | the loop over tenantActive counts the other tenants that hold exactly one connection |
| PoolProxy.TenantAwarePoolProxy.ReservedForGuarantees | src/database/pool_manager.ts:214-231 | that count plus what the first other queued tenant below its minimum lacks |
| PoolProxy.TenantAwarePoolProxy.CanGrantTo | src/database/pool_manager.ts:233-246 | the quota, global and reservation conditions under which a grant is allowed |
| PoolProxy.TenantAwarePoolProxy.PickNextRequest | src/database/pool_manager.ts:248-261 | the scan returns the request the specification picks |
| PoolProxy.TenantAwarePoolProxy.RunLoop | src/database/pool_manager.ts:280-341 | the queue loop from its head to its next await or its exit is one transition of the scheduler; whom that transition rejects, picks and keeps is said by WhoIsRejected and WhoIsGranted |
| PoolProxy.TenantAwarePoolProxy.RunProcessQueue | src/database/pool_manager.ts:263-294 | processQueue up to its first await: re-entry does nothing, a missing pool rejects the whole queue |
| PoolProxy.TenantAwarePoolProxy.Connect | src/database/pool_manager.ts:164-178 | connect is the transition that queues the request and runs the loop unless it is suspended |
| PoolProxy.TenantAwarePoolProxy.Release | src/database/pool_manager.ts:308-324 | the first release of a granted client is the transition that frees its place, passes the call on and looks at the queue; a later one is only passed on |
| PoolProxy.TenantAwarePoolProxy.FreePlace | src/database/pool_manager.ts:313-321 | the counters, the tenant's entry and the passed-on call after a first release, without leaving a non-positive entry |
| PoolProxy.TenantAwarePoolProxy.RetryTimerFires | src/database/pool_manager.ts:335-339 | the retry timer is a transition of its own |
| PoolProxy.TenantAwarePoolProxy.RawClientArrives | src/database/pool_manager.ts:299-332 | the end of the first await checks the client out; a tenant without a schema name is rejected at once and the loop goes on |
| PoolProxy.TenantAwarePoolProxy.SearchPathSet | src/database/pool_manager.ts:301-332 | after the second await the counters move, the promise is resolved and the loop goes on |
| PoolProxy.TenantAwarePoolProxy.SetupFails | src/database/pool_manager.ts:329-331 | a failed await rejects the request without touching the counters, and the loop goes on |
| EventLog.SequencesAreDense | src/ingestion/eventStore.ts:108-179 | for any number of writers and any tenant-to-lock mapping, collisions included, each tenant's committed events are 1, 2, ..., n in commit order |
| EventLog.ConflictBranchIsUnreachable | src/ingestion/eventStore.ts:152-168 | no call conflicts, retries or throws SequenceConflictError while all writers use appendEvent |
| EventLog.InsertNeverConflicts | src/ingestion/eventStore.ts:129-150 | the sequence computed under the lock is still free at the insert |
| EventLog.ReturnedMeansCommittedOnce | src/ingestion/eventStore.ts:147-178 | a call that returned committed exactly the row it returned, one still running committed nothing, and no call commits twice; whose row that is, is said by RowsComeFromCalls |
| EventLog.ReadersSeeEveryEventOnce | src/ingestion/eventStore.ts:193-215 | a reader that pages with its last sequence while writers commit has read exactly events 1..cursor in order |
| EventLog.PagesMakeProgress | src/ingestion/eventStore.ts:193-215 | a page advances the cursor by the limit or to the end of the log, whichever is nearer |
| EventLog.PageIsTheSmallestMatches | src/ingestion/eventStore.ts:199-212 | on any table a page is sorted, matches, and leaves out only rows beyond the limit with no smaller sequence |
| EventLog.RunsAreSafe | src/ingestion/eventStore.ts:108-215 | the invariant behind these results holds in every state of every run with crashes, rollbacks and lost commit answers |
| EventLogHistories.RowsComeFromCalls | src/ingestion/eventStore.ts:108-150 | on every run each committed row carries the tenant and the event type that its own call was made with |
| EventLogHistories.ReturnsForItsCaller | src/ingestion/eventStore.ts:108-178 | on every run a call that returned gives back a committed row of its own, with the tenant and type it was made with |
| EventLogHistories.LocksEndWithTransactions | src/ingestion/eventStore.ts:118-178 | on every run a lock belongs to a call still in its transaction: commits, rollbacks and crashes all give it back |
| EventLogHistories.ReadersAreGivenPages | src/ingestion/eventStore.ts:193-215 | a reader starts with nothing, and what it has seen grows by exactly what readEvents returns for its tenant and cursor |
| EventLogHistories.UncontendedCallCommits | src/ingestion/eventStore.ts:108-178 | from any reachable state, a call whose lock is free can commit in five steps: one row, for its tenant and type, numbered after the tenant's last, returned, and the lock free again |
| EventStore.BillingEvents.AppendEvent | src/ingestion/eventStore.ts:124-168 | the retry loop, with arbitrary rows inserted by others before each attempt, is the three-attempt specification |
| EventStore.GivesUpIffAlwaysOvertaken | src/ingestion/eventStore.ts:126-168 | it gives up if and only if each attempt was overtaken by a row taking the sequence it had read |
| EventStore.StoresItsRowAtFirstChance | src/ingestion/eventStore.ts:124-168 | otherwise the first attempt not overtaken succeeds: exactly the intruders so far and one row are stored, with the given tenant, type and call and one above the maximum then read, and that row is returned |
| EventStore.MaxSequenceIsTheMaximum | src/ingestion/eventStore.ts:129-137 | that maximum is zero for no rows and otherwise attained and never exceeded |
| EventStore.AttemptsKeepKeysUnique | src/ingestion/eventStore.ts:139-150 | whatever intrudes, (tenant, sequence) stays unique and the returned row is the one stored last |
| EventStore.UndisturbedAppend | src/ingestion/eventStore.ts:129-150 | undisturbed, the first attempt stores maximum plus one, and tables with gapless logs stay so |
| EventStore.TenantLockId | src/ingestion/eventStore.ts:59-67 | wrapping at every round equals wrapping the polynomial in 31 once at the end; the lock id is its absolute value |
| EventStore.HashRound | src/ingestion/eventStore.ts:63-64 | one round, with its shift and its truncation to 32 bits |
| EventStore.LockIdsCollide | src/ingestion/eventStore.ts:59-67 | two distinct tenants share a lock id, so nothing may rest on distinct ones |
| BillingStateMachine.TransitionsAreSingleSteps | src/billing/state_machine.ts:19-67 | the table, validateTransition, nextState and isTerminal all describe one straight line of four states |
| BillingStore.InMemoryBillingCycleStore.ApplyTransition | src/billing/billing_cycle_repository.ts:70-86 | a compare-and-set on state and version: applied exactly when both match, otherwise no change |
| BillingStore.InMemoryBillingCycleStore.RecordFinalization | src/billing/billing_cycle_repository.ts:88-94 | true exactly for a key never recorded before |
| BillingStore.GuardedUpdateIsCas | src/billing/billing_cycle_repository.ts:153-166 | on a table with a primary key the guarded UPDATE changes one row or none, and is the in-memory store's compare-and-set |
| Finalizer.RunsAreSafe | src/billing/finalizer.ts:60-112 | over every interleaving of any number of finalisations with throws, deaths and settlements: versions count transitions, each cycle has one winner, each key one recorder |
| Finalizer.SecondTransitionApplies | src/billing/finalizer.ts:104-109 | the second transition, whose result the code ignores, always applies |
| Finalizer.ComputedAtMostOnce | src/billing/finalizer.ts:97-100 | the computation is entered at most once per cycle and at most once per idempotency key |
| Finalizer.FinalizedAtMostOnce | src/billing/finalizer.ts:78-111 | whoever reports 'finalized' computed, and nobody else won or computed for that cycle |
| Finalizer.ExactlyOneFinalizes | src/billing/finalizer.ts:60-112 | if calls on an OPEN cycle all returned and their keys are fresh, exactly one reports 'finalized', it alone computed, the others lost, and the version counts the transitions |
| Finalizer.WinnerDecides | src/billing/finalizer.ts:78-111 | once its calls have ended, the state of a cycle is decided by how its winner ended |
| Finalizer.StrandedIff | src/billing/finalizer.ts:90-100 | a cycle stays in FINALIZING if and only if some call on it met a used key, threw or died after winning |
| Finalizer.StrandedIffKeyTaken | src/billing/finalizer.ts:90-95 | when all calls on an OPEN cycle returned, it is left in FINALIZING if and only if the winner's key was recorded before the first call or by another call |
| Finalizer.StrandedForEver | src/billing/finalizer.ts:65-110 | over a run, a FINALIZING cycle with no call between its two transitions never changes again, whoever calls |
| Finalizer.StrandedIsReachable | src/billing/finalizer.ts:90-95 | a run in which a used key strands a cycle |
| Finalizer.ThrowStrandsToo | src/billing/finalizer.ts:97-100 | a run in which a throwing computation does |
| Finalizer.FinalizeBillingCycle | src/billing/finalizer.ts:60-121 | the code on the in-memory store, with an arbitrary write by somebody else between read and compare-and-set: new store, result record, and that the computation runs exactly if the cycle was OPEN, nobody changed it before the compare-and-set and the key is new |
| Finalizer.SoloOutcomes | src/billing/finalizer.ts:60-121 | each outcome told, if and only if, by what the call met; finalised means version plus two in the store; a lost race leaves cycle and keys to the winner; the state reported is the cycle's own, and a key is reported exactly with a finalisation or a replay |
| Finalizer.SecondCallIsNoOp | src/billing/finalizer.ts:55-72 | a later call on the same cycle changes nothing and never computes, whatever the first did |
| Finalizer.SoloIsARunOfTheSystem | src/billing/finalizer.ts:60-112 | with any write by somebody else between its read and its compare-and-set, the steps of the concurrent system leave the store and outcome of the sequential code and enter the computation exactly when it does |
| BatchLifecycle.RunsAreSafe | src/ingestion/batchCompactor.ts:80-223 | over every interleaving of compact, rotate and ensure-open workers, with failures and any batch-to-lock mapping: windows, locks, compactions and rotations stay consistent |
| BatchLifecycle.CasNeverRaces | src/ingestion/batchCompactor.ts:91-164 | under the lock the compare-and-set always applies: the lost-race branches are dead |
| BatchLifecycle.WindowsAreDisjoint | src/ingestion/batchCompactor.ts:138-210 | a device's batches are aligned, one window long and pairwise disjoint |
| BatchLifecycle.RotationLeavesNoGap | src/ingestion/batchCompactor.ts:138-166 | a committed rotation has a successor of the same device starting at the old end |
| BatchHistories.FailedRotationLeavesTraceIffCommitted | src/ingestion/batchCompactor.ts:153-180 | over a run, a rotation that threw or died changed the table by its own steps if and only if its commit took effect; it then committed once, leaving its batch COMPACTING and the successor OPEN, and wrote nothing else unless it died after closing |
| BatchHistories.FailedRotationTraceIsReachable | src/ingestion/batchCompactor.ts:153-180 | a run in which a rotation throws after its commit and leaves its batch COMPACTING and the successor OPEN |
| BatchHistories.RunHasEvents | src/ingestion/batchCompactor.ts:80-223 | every run comes with the events that make it, so results on runs with events speak of every run |
| BatchLifecycle.CompactedAtMostOnce | src/ingestion/batchCompactor.ts:88-175 | doCompact is entered at most once per batch, never on an OPEN one and always before CLOSED |
| BatchLifecycle.BatchesOnlyMoveForward | src/ingestion/batchManager.ts:11-90 | no batch disappears, changes its window, skips a state or goes back |
| BatchLifecycle.BatchesNeverGoBack | src/ingestion/batchManager.ts:11-90 | over a run a batch keeps its device and window for ever and its state never goes back |
| BatchHistories.BecomesStrandedIff | src/ingestion/batchCompactor.ts:91-180 | a step leaves a batch COMPACTING with nobody to close it if and only if it is a throw or death of the worker that has the batch in hand |
| BatchHistories.StrandedIff | src/ingestion/batchCompactor.ts:91-180 | over a run, a batch is so stranded if and only if some worker that had it in hand threw or died |
| BatchHistories.StrandedBatchesStayStranded | src/ingestion/batchCompactor.ts:88-180 | a step keeps a stranded batch stranded and compacts it no further |
| BatchHistories.StrandedIsReachable | src/ingestion/batchCompactor.ts:91-105 | a run in which the query after the compare-and-set fails and strands a batch |
| BatchHistories.StrandedForEver | src/ingestion/batchCompactor.ts:88-180 | over a run, once stranded a batch is COMPACTING at every later state and compacted no further |
| BatchHistories.SingleOpenIsLostIffStaleInsert | src/ingestion/batchCompactor.ts:190-217 | a device gets a second OPEN batch exactly at an ensureOpenBatch insert of a new bucket made after its look at the table went stale |
| BatchHistories.SingleOpenUntilStaleStep | src/ingestion/batchCompactor.ts:190-217 | over a run, no device ever has two OPEN batches if and only if no such insert was made |
| BatchHistories.SingleOpenWithoutOverlap | src/ingestion/batchCompactor.ts:190-217 | if no two ensureOpenBatch calls of a device are between look and insert at once, no device ever has two OPEN batches |
| BatchHistories.EnsuredIsOpenIff | src/ingestion/batchCompactor.ts:186-219 | the batch reported after an insert is OPEN in the table if and only if its row was absent or OPEN |
| BatchHistories.EnsuredButCompactingIsReachable | src/ingestion/batchCompactor.ts:194-219 | a run in which ensureOpenBatch reports as OPEN a batch that is COMPACTING |
| BatchHistories.StraddlingIsReachable | src/ingestion/batchCompactor.ts:194-201 | two calls can compute different buckets before either inserts |
| BatchHistories.TwoOpenBatchesAreReachable | src/ingestion/batchCompactor.ts:190-217 | a run that ends with two OPEN batches of one device |
| BatchEffects.LookFinds | src/ingestion/batchManager.ts:58-67 | the look at the open batch: a rotation goes on with the device's OPEN batch that starts last, ensureOpenBatch returns that row; without one, a rotation returns nothing and ensureOpenBatch goes on with the five minutes around the clock |
| BatchEffects.LocksEndWithCalls | src/ingestion/batchCompactor.ts:80-184 | on every run a lock belongs to a call that is still running: every way out gives it back |
| BatchEffects.QuietCallsWriteNothing | src/ingestion/batchCompactor.ts:80-168 | on every run a call that skipped, or found nothing to rotate, has changed no batch by its own steps |
| BatchEffects.ReportsAreEarned | src/ingestion/batchCompactor.ts:80-175 | on every run a call that reports success closed its batch by a step of its own, and a rotation reports the batch that starts where that one ends |
| BatchEffects.UncontendedCompactSucceeds | src/ingestion/batchCompactor.ts:80-109 | from any reachable state, compactBatch on an OPEN batch with a free lock can run to the end: compacted once, CLOSED, the lock free again, nothing else changed |
| BatchEffects.CompactSkips | src/ingestion/batchCompactor.ts:83-89 | from any reachable state, with the lock taken or the batch not OPEN, it runs to 'skipped' and leaves table, compactions and locks alone |
| BatchEffects.UncontendedRotateSucceeds | src/ingestion/batchCompactor.ts:122-184 | from any reachable state, rotateBatch on a latest OPEN batch with a free lock and no successor can run to the end: that batch CLOSED and compacted, the next five minutes OPEN and returned, the lock free again |
| BatchIds.RenderingIsInjective | src/ingestion/batchCompactor.ts:16-18 | different (device, start) pairs have different identifiers, even with colons in device names |
| BatchIds.DecimalIsInjective | src/ingestion/batchCompactor.ts:16-18 | different numbers are written differently |
| BatchIds.ExampleIdentifier | src/ingestion/batchCompactor.ts:16-18 | the form of an identifier: device, colon, start in decimal |
| BatchSummary.SummaryIsBounded | src/ingestion/batchCompactor.ts:40-57 | minimum and maximum are attained and bound every value, and the average lies between them and times the count is the sum |
| BatchSummary.MinMaxAreAttained | src/ingestion/batchCompactor.ts:41-42 | the minimum and maximum of a group belong to it and bound it |
| BatchSummary.SummariesPartitionEvents | src/ingestion/batchCompactor.ts:32-58 | over the metrics, in any order, counts add up to the number of events and sums to their total |
| BatchSummary.SummaryMatchesTable | src/ingestion/telemetryStore.ts:39-55 | what is counted and summed for a metric is what the table holds for it in the half-open window |
| BatchSummary.SummariesTellTheTable | src/ingestion/batchCompactor.ts:28-60 | what compacting stores, told by the telemetry table: one summary for each metric with an event in the window, under the batch, its device and the metric, for the batch's window; count and sum are those of these events, average is sum over count, minimum and maximum are attained and bound them all |
| BatchSummary.AdjacentWindowsAdd | src/ingestion/telemetryStore.ts:48-50 | counts and sums of adjacent half-open windows add up to those of their union |
| BatchSummary.ChainCoversInterval | src/ingestion/batchCompactor.ts:138-141 | a chain of rotated batches counts and sums each event of the interval exactly once |
| BatchSummary.RotationsCoverInterval | src/ingestion/batchCompactor.ts:138-175 | in any state of any run, the batches of a chain of committed rotations together count and sum exactly what lies from the start of the first to the end of the last |
| BatchSummary.ReadsTheWindow | src/ingestion/telemetryStore.ts:39-55 | readRawEvents returns exactly the device's events with start <= time < end, each as often as stored, in time order |
| BatchCompactor.TimescaleDb.WriteSummary | src/ingestion/telemetryStore.ts:60-83 | a summary is stored unless its key already has one |
| BatchCompactor.TimescaleDb.TransitionBatchState | src/ingestion/batchManager.ts:73-90 | throws exactly on transitions that are not single steps forward, otherwise a compare-and-set |
| BatchCompactor.TimescaleDb.GetOpenBatch | src/ingestion/batchManager.ts:58-67 | the device's OPEN batch with the latest start, or none |
| BatchCompactor.TimescaleDb.GroupByMetric | src/ingestion/batchCompactor.ts:32-38 | the grouping loop collects exactly the metrics that occur, each with its values in order |
| BatchCompactor.TimescaleDb.DoCompact | src/ingestion/batchCompactor.ts:28-60 | writes the summaries of the window's events and keeps those that existed; what each holds is said by SummariesTellTheTable |
| BatchCompactor.TimescaleDb.CompactBatch | src/ingestion/batchCompactor.ts:80-109 | compacts and closes exactly an OPEN batch whose lock was granted, and otherwise changes nothing |
| BatchCompactor.TimescaleDb.RotateBatch | src/ingestion/batchCompactor.ts:122-184 | rotates exactly when an OPEN batch was found, locked and its successor absent; throws with no change when the successor exists |
| BatchCompactor.TimescaleDb.EnsureOpenBatch | src/ingestion/batchCompactor.ts:190-223 | returns the latest OPEN batch unchanged, or inserts the clock's bucket into whatever table others left meanwhile, unless its row exists there |
| BatchCompactor.BatchLockId | src/ingestion/batchManager.ts:29-37 | the FNV-1a loop, kept to 31 bits |
| BatchCompactor.FnvVectors | src/ingestion/batchManager.ts:29-37 | the loop's hash before the mask, on the empty string and on "a", is the published FNV-1a value |
| ReorderBuffer.RedisReorderBuffer.SubmitFrame | src/core/ingestion/validator.ts:271-330 | submit, with its drain loop and its eviction, takes the step of the specification; what that step does to a due, a passed and an early frame is said by the next three |
| ReorderBuffer.DueFrameDelivers | src/core/ingestion/validator.ts:289-314 | the frame that is due is delivered, then the buffered frames numbered after it up to the first gap, of several with one number the one with the least payload; exactly the frames beyond stay |
| ReorderBuffer.PassedFrameIsIgnored | src/core/ingestion/validator.ts:284-287 | a frame whose number has been passed changes nothing |
| ReorderBuffer.EarlyFrameIsBuffered | src/core/ingestion/validator.ts:314-330 | an early frame is buffered, its payload under its newest number; when that is one too many exactly one frame is evicted and counted, no frame that stays has a greater number, and nothing is delivered |
| ReorderBuffer.RunsDeliverInOrder | src/core/ingestion/validator.ts:271-330 | on every run the frames delivered are numbered 1..d without gap or repeat, and the buffer is sorted, beyond d + 1 and within its window |
| ReorderBuffer.DrainDelivers | src/core/ingestion/validator.ts:294-310 | draining delivers consecutive buffered frames and leaves exactly those beyond the first gap |
| ReorderBuffer.NothingElseIsLost | src/core/ingestion/validator.ts:284-328 | every submitted frame was delivered, is buffered, was evicted, or carries a number already delivered |
| ReorderBuffer.WithoutEvictionsNothingIsLost | src/core/ingestion/validator.ts:271-330 | without evictions d is the largest n with all of 1..n submitted, and the buffer holds exactly the submitted numbers above d |
| ReorderBuffer.EvictsIff | src/core/ingestion/validator.ts:314-327 | one frame is evicted exactly when a new out-of-order frame meets a full window |
| ReorderBuffer.LastIsFarOut | src/core/ingestion/validator.ts:321-323 | pigeonhole: n distinct numbers above d + 1 reach d + 1 + n |
| ReorderBuffer.EvictedFramesAreFarOut | src/core/ingestion/validator.ts:318-327 | with one payload per number, an evicted frame is at least maxWindow + 2 beyond what was delivered |
| ReorderBuffer.NearArrivalsAreNeverEvicted | src/core/ingestion/validator.ts:314-327 | any arrival order that stays within d + maxWindow + 1 suffers no eviction |
| TokenBucket.RedisBucket.BucketScript | src/api/middleware/rate_limiter.ts:49-108 | the script, updating tokens, refill time and burst start in place, returns and stores what the specification says |
| TokenBucket.RedisBucket.CheckLimit | src/api/middleware/rate_limiter.ts:163-204 | the rates by tier and clamped compliance, and the result record of the call |
| TokenBucketEffects.BurstsInNumbers | src/api/middleware/rate_limiter.ts:20-79 | a burst starts if and only if compliance is above 0.95, no burst is running, and none started within 60 seconds; for 5 seconds capacity and refill are three times the tier's, the refill being scaled by half plus half the compliance |
| TokenBucketEffects.CallTakesOne | src/api/middleware/rate_limiter.ts:81-107 | a call finds what was left plus what was refilled, up to the capacity, is allowed exactly when that is at least one, takes one, and stores the rest and the time |
| TokenBucketEffects.NewBucketServesItsCapacity | src/api/middleware/rate_limiter.ts:20-107 | of any number of calls in one millisecond on a new bucket, exactly the first 10, 100 or 500 are allowed, three times as many with a compliance above 0.95 |
| TokenBucketEffects.SlowCallersAreNeverDenied | src/api/middleware/rate_limiter.ts:62-107 | over a run with expiring hashes and any tiers and compliance, a call that comes the time of two tokens at the full rate after the one before is allowed |
| TokenBucketBounds.IdleIsFresh | src/api/middleware/rate_limiter.ts:64-105 | a bucket idle for its time to live answers and continues like a new one, for all tiers and compliance values |
| TokenBucketBounds.SameAnswersAlike | src/api/middleware/rate_limiter.ts:64-104 | that likeness is a bisimulation: equal answers, and alike again afterwards |
| TokenBucketBounds.ExpiryIsUnobservable | src/api/middleware/rate_limiter.ts:101-105 | every answer of every run is the same with and without expiry |
| TokenBucketBounds.BurstsAreApart | src/api/middleware/rate_limiter.ts:69-76 | over a run with expiring hashes, any two calls that start a burst are at least 60000 ms apart |
| TokenBucketBounds.BurstsIgnoreExpiry | src/api/middleware/rate_limiter.ts:67-105 | expiry changes neither when bursts start nor when they run |
| TokenBucketBounds.BurstsAreFew | src/api/middleware/rate_limiter.ts:69-76 | the bursts that can serve an interval, one already running included, fit the cooldown into the time from the first start |
| TokenBucketBounds.AfterDenialAllowedIff | src/api/middleware/rate_limiter.ts:86-99 | after a denial a later call is allowed exactly when enough was refilled at its own rate |
| TokenBucketBounds.ResetTimeIsExact | src/api/middleware/rate_limiter.ts:96-99 | under the same rate that is exactly from the announced millisecond on |
| TokenBucketBounds.RetryAllowedIff | src/api/middleware/rate_limiter.ts:86-107 | over a run with expiring hashes, the call after a denial is allowed exactly when enough was refilled at its own rate, and, under the same rate, exactly from the announced reset time on |
| TokenBucketBounds.ResetTimeCanBeTooEarly | src/api/middleware/rate_limiter.ts:96-99 | a run of twelve calls: ten drain the bucket, the eleventh is denied with a reset time, and the twelfth, made then with a lower compliance, is denied again |
| TokenBucketBounds.PotentialStep | src/api/middleware/rate_limiter.ts:69-94 | one call adds at most its refill at the base rate, plus one allowance if it starts a burst, to admissions plus potential |
| TokenBucketBounds.BurstRateBound | src/api/middleware/rate_limiter.ts:62-94 | from any call of a run on, admissions and tokens stay within three buckets plus the refill at three times the base rate |
| TokenBucketBounds.BaseRateBound | src/api/middleware/rate_limiter.ts:62-94 | from any call on, while no call is served at burst capacity, within one bucket plus the refill at the base rate |
| TokenBucketBounds.PotentialBound | src/api/middleware/rate_limiter.ts:62-94 | from any call on, admissions and potential stay within one bucket, the refill at the base rate and one allowance per burst, one already running included |
| TokenBucketBounds.AdmissionsAreBounded | src/api/middleware/rate_limiter.ts:62-107 | the bounds on requests admitted over any interval of calls of one tier in the bucket's life, whatever came before and with expiring hashes: in general, while no call is served at burst capacity, and in the long run |
| FragmentReassembler.TelemetryFragmentReassembler.AppendChunk | src/core/ingestion/stream_parser.ts:121-158 | append, with its consuming loop, limit, timer and closed flag, takes the step of the specification and reports the violations it should |
| FragmentReassembler.ViolationCloses | src/core/ingestion/stream_parser.ts:121-136 | a violation is exactly a chunk that does not fit on an open connection; it closes the connection with code 1009, empties the buffer and emits nothing |
| FragmentReassembler.ClosedForEver | src/core/ingestion/stream_parser.ts:121-204 | whatever chunks and timeouts follow, a closed connection stays closed, and every answer carries 1009, no message and no further violation |
| FragmentReassembler.TelemetryFragmentReassembler.TakeMessages | src/core/ingestion/stream_parser.ts:142-148 | the loop splits the buffer into its terminated messages and the remainder |
| FragmentReassembler.TelemetryFragmentReassembler.ResetForViolation | src/core/ingestion/stream_parser.ts:186-204 | the event describes the buffer before it is emptied; timer off |
| FragmentReassembler.TelemetryFragmentReassembler.TimeoutFires | src/core/ingestion/stream_parser.ts:170-177 | a timeout empties the buffer and leaves the connection open |
| FragmentReassembler.TelemetryFragmentReassembler.Dispose | src/core/ingestion/stream_parser.ts:164-168 | buffer emptied and timer off |
| FragmentReassembler.SplitLosesNothing | src/core/ingestion/stream_parser.ts:142-148 | the messages with their terminators, then the remainder, are the bytes; neither contains a terminator |
| FragmentReassembler.SplitIsTheDecoder | src/core/ingestion/stream_parser.ts:142-148 | and this is the only such reading: splitting inverts encoding |
| FragmentReassembler.SplitContinues | src/core/ingestion/stream_parser.ts:138-148 | splitting the remainder with the next chunk continues the split of all bytes |
| FragmentReassembler.ReassemblyReadsPieces | src/core/ingestion/stream_parser.ts:121-204 | over any run of chunks and timeouts without a size violation, the messages are those of the bytes between timeouts, each piece split on its own; the buffer is what the last leaves, within the limit, and the timer is armed exactly while it is not empty |
| FragmentReassembler.ReassemblyIgnoresChunking | src/core/ingestion/stream_parser.ts:121-184 | without timeouts, that is what splitting all the bytes at once gives, however they were cut |
| FragmentReassembler.EncodedMessagesComeBack | src/core/ingestion/stream_parser.ts:95-158 | any chunking of encoded messages without violation gives exactly those messages back |
| FragmentReassembler.BytewiseAcceptsIff | src/core/ingestion/stream_parser.ts:126-136 | byte by byte a stream is accepted exactly when each unfinished message with one more byte fits the limit |
| FragmentReassembler.AcceptsIff | src/core/ingestion/stream_parser.ts:126-136 | a run causes no violation if and only if each chunk fits on top of what the bytes since the last timeout left over |
| FragmentReassembler.ChunkingAcceptsIff | src/core/ingestion/stream_parser.ts:126-136 | without timeouts: if and only if each chunk fits on top of the unfinished message before it |
| FragmentReassembler.AnyAcceptedStreamIsAcceptedBytewise | src/core/ingestion/stream_parser.ts:126-136 | what some chunking gets accepted, bytewise feeding does too |
| FragmentReassembler.CoarseChunkingMayViolate | src/core/ingestion/stream_parser.ts:126-136 | the converse fails: two small messages in one chunk can violate |
| FragmentReassembler.TimeoutIsHarmlessIff | src/core/ingestion/stream_parser.ts:173-204 | a timeout anywhere in a run leaves the messages as they would have been if and only if nothing was buffered or no terminator arrives before the next timeout |
| FragmentReassembler.TimeoutLosesFraming | src/core/ingestion/stream_parser.ts:173-204 | a run in which the second half of a cut message comes out as a message |
| LedgerSync.LedgerEventSynchronizer.SyncLedger | src/core/blockchain/event_listener.ts:114-133 | up to three attempts, stopping at the first success; processed exactly if the last attempt succeeded, otherwise, after the third, counted as an error |
| LedgerSync.LedgerEventSynchronizer.SyncBatch | src/core/blockchain/event_listener.ts:110-135 | each ledger of a batch is processed once or counted as skipped once |
| LedgerSync.LedgerEventSynchronizer.Checkpoint | src/core/blockchain/event_listener.ts:147-154 | a write that does not throw persists lastSyncedLedger |
| LedgerSync.LedgerEventSynchronizer.CatchUp | src/core/blockchain/event_listener.ts:96-145 | the loop, with failing ledgers and failing checkpoints, leaves the progress the specification computes and inProgress false |
| LedgerSync.LedgerEventSynchronizer.PollLatestLedger | src/core/blockchain/event_listener.ts:156-169 | successive polls leave no ledger out and attempt none twice, and a catch-up that does not throw ends with its target persisted |
| LedgerSync.CatchUpCovers | src/core/blockchain/event_listener.ts:96-142 | the ledgers after `from` up to the capped target are attempted in order, each in one batch within the concurrency; without a throw the end is persisted |
| LedgerSync.CatchUpAccounts | src/core/blockchain/event_listener.ts:113-132 | each of them was processed, or all its attempts failed and the error count grew by one |
| LedgerSync.OutcomeAccounts | src/core/blockchain/event_listener.ts:114-131 | among any ledgers, those processed are exactly those with a successful attempt, and processed plus skipped is all |
| LedgerSync.SkippedIff | src/core/blockchain/event_listener.ts:114-131 | a ledger is skipped if and only if its first three attempts all fail |
| LedgerSync.CatchUpInNumbers | src/core/blockchain/event_listener.ts:96-145 | the catch-up stops at its target or 172800 ledgers on, whichever is nearer, unless a write throws; all batches but the last are full; and a batch writes the checkpoint if and only if it holds a multiple of 64 or the end |
| LedgerSync.CheckpointKeepsUp | src/core/blockchain/event_listener.ts:135-142 | started persisted in the same block: at every batch boundary whose checkpoint write did not throw the checkpoint is less than 64 ledgers behind, and where it threw less than 64 plus one batch |
| LedgerSync.CheckpointLagIsBounded | src/core/blockchain/event_listener.ts:135-154 | wherever failed writes left the checkpoint: at a boundary whose write did not throw it is less than 64 behind, or unwritten and less than 64 further behind than it was; where the write threw, up to one batch more |
| LedgerSync.EveryBoundaryIsMarked | src/core/blockchain/event_listener.ts:102-142 | these boundaries are all of them: one for each batch, at its last ledger, and only the last write can have thrown |
| LedgerSync.FailedWriteLagsABatchMore | src/core/blockchain/event_listener.ts:137-142 | for every concurrency a catch-up that ends 63 ledgers and one batch ahead of its checkpoint |
| SseQueue.SseConnection.Enqueue | src/core/ingestion/sse_manager.ts:78-100 | enqueue, dropping the oldest of a full queue, takes the step of the specification; true exactly on an open connection |
| SseQueue.SseConnection.FlushQueue | src/core/ingestion/sse_manager.ts:159-180 | the shift, write and unshift loop writes queued events in order until the stream pushes back |
| SseQueue.SseConnection.OnDrain | src/core/ingestion/sse_manager.ts:52-55 | the drain event resumes writing |
| SseQueue.SseConnection.SendKeepalive | src/core/ingestion/sse_manager.ts:146-153 | a keepalive is written unless closed and may start draining |
| SseQueue.SseConnection.Close | src/core/ingestion/sse_manager.ts:121-140 | the queue is discarded, once |
| SseEffects.WhatIsWritten | src/core/ingestion/sse_manager.ts:46-180 | what each event writes: nothing when closed, one keepalive for the heartbeat, the queue from its front until the stream pushes back for a drain, the new event alone, unless draining, for an enqueue |
| SseEffects.WhatIsAccepted | src/core/ingestion/sse_manager.ts:78-140 | an enqueue on an open connection accepts its event, at the cost of the oldest one exactly when fifty wait; on a closed one it only counts a drop; a close throws the queue away, once; nothing else drops anything |
| SseEffects.DrainingIff | src/core/ingestion/sse_manager.ts:46-180 | over a run, the connection is draining if and only if the stream refused some write, event or keepalive, since the last drain |
| SseQueue.RunsAreSafe | src/core/ingestion/sse_manager.ts:37-181 | over every sequence of enqueues, drains, keepalives, closes and write answers the accounting, the drop policy and the stream contents stay consistent, and a non-empty queue means draining |
| SseQueue.AcceptedEventsAreAccounted | src/core/ingestion/sse_manager.ts:78-180 | accepted events are sent, dropped by a full queue, queued or discarded by close; an open queue is the last of the accepted ones, at most 50 |
| SseQueue.SendsKeepOrder | src/core/ingestion/sse_manager.ts:162-177 | the writes the stream took are the sent events, once each and in acceptance order, and nothing but accepted events is written |
| SseQueue.SentPositionsAreExact | src/core/ingestion/sse_manager.ts:162-177 | the positions sent are increasing and exactly those whose fate is to be sent |
| SseQueue.RecentEventsSurvive | src/core/ingestion/sse_manager.ts:85-92 | while open, each of the last 50 accepted events was sent or is still queued |
| SseQueue.RepeatsIff | src/core/ingestion/sse_manager.ts:166-174 | a step first writes an event twice exactly when it is a drain after the stream pushed back on the oldest queued event |
| SseQueue.RunWritesTwiceIff | src/core/ingestion/sse_manager.ts:52-174 | the same over whole runs |
| SseQueue.DoubleWriteIsReachable | src/core/ingestion/sse_manager.ts:166-174 | a run in which an event is written twice |
| SseQueue.DropsWrittenEventIff | src/core/ingestion/sse_manager.ts:85-90 | a dropped event had already been written exactly when the queue was full behind such a push-back |
| SseQueue.DroppedYetWritten | src/core/ingestion/sse_manager.ts:85-90 | and a run in which that happens |

## Left out

- Release: what the database driver does with a call passed on, a second one included, is not modelled.
- The pool's state machine: what runs between two awaits is atomic, as on one event loop; the global maximum is fixed during a run, and pool autoscaling is not modelled.
- The pool's metrics and logging; the text of errors everywhere.
- AppendEvent: row ids, payloads and timestamps are not modelled; a unique violation other than (tenant, sequence) aborts the transaction, so it appears as any failing query.
- SequencesAreDense: assumes every writer uses appendEvent; rows inserted by others are covered for a single call by GivesUpIffAlwaysOvertaken.
- Seed and GetCycle of the in-memory store: modelled, but their contracts say no more than their bodies.
- FinalizeBillingCycle: one interference between the read and the compare-and-set, which is where it matters; arbitrary interleavings are the state machine's. Minted idempotency keys are arguments. When the interfering write leaves the cycle as it was, the call goes on as if undisturbed.
- GuardedUpdateIsCas: the INSERT of the finalisation log has the contract of RecordFinalization and is not repeated on rows.
- withCycleLock and getCycleForUpdate: a pessimistic lock around the same operations that finalizeBillingCycle does not take.
- CompactBatch: runs alone in the class form, with the lock's answer as an argument; failing queries and interleavings are in the state machine.
- RotateBatch: the same, and it requires well-formed rows, which every run keeps; a query that fails after the commit is in FailedRotationLeavesTraceIffCommitted.
- EnsureOpenBatch: requires well-formed rows, before the call and as others leave them meanwhile; every run keeps them so. A failing query changes nothing here.
- GetOpenBatch: requires well-formed rows, which every run keeps.
- An unlock query that throws on a connection that survives would leave a session lock behind; a lost connection frees it here, as in the database.
- SummaryIsBounded: values are reals; the rounding of doubles is not modelled.
- EvictedFramesAreFarOut: assumes one payload per sequence number; submits of one device happen one at a time, since the Redis calls are not atomic together.
- BucketScript: reals instead of doubles, a nondecreasing clock, and one clock for the script and for expiry. The compliance tracker's own counters are arguments.
- AdmissionsAreBounded: the clock starts at a positive time, because the script takes a burst start of zero for none.
- CatchUp: requires concurrency of at least one, without which the source's loop does not end.
- SyncBatch: the ledgers of a batch are handled one after the other, where the source overlaps them; so the order of `processed` within a batch is the model's, and the waits between attempts are not modelled.
- PollLatestLedger: overlapping polls are not modelled, because the flag is read before an await.
- The SSE stream: whether bytes a stream pushed back on reach the client is the stream's affair; the model says what was written.
- TelemetryStreamParser.parseFrame, the nonce caches, session refresh, the nonce pool, the RPC client's circuit breaker and the ledger event bus: smaller or independent protocols.
- SseManager, HTTP routes, metrics, tracing, cryptography, environment handling and the contracts: plumbing or foreign code.
