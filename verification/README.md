# Sankalp, verified

A Dafny model of Sankalp, the durable saga orchestrator: workers claim saga rows under a lease and a
fencing token, replay checkpoints, commit each step together with its events, and unwind in reverse on
failure. `dafny verify dfyconfig.toml` checks everything.

## The model

**One saga and everyone who touches it.** `Storage` gives the rows a saga owns and every SQL statement on
them as a function from tables to tables. `Saga` is a transition system over those statements: claim, load,
renew, invoke, emit, return, raise, commit, finish, retry, begin compensation, commit an undo, fail dirty,
defer, API cancel, the clock, and a crash at any point. Each claim is a session keyed by its fencing token
and is never deleted, so a stalled worker keeps its snapshot and its program counter and may wake up at any
time. Claim and load are separate steps. A run is any sequence of actions; an action that is not enabled
changes nothing. `SagaInvariant` proves one inductive invariant over all of it, and the `Saga*` modules draw
the consequences. `Executor` is `execute_workflow` and `_compensate` as loops that write to the store of
`Tables` while the rest of the system moves between any two statements: their history is always a run, so
each theorem about runs is a theorem about the loops. The ghost counter `mishaps` counts what others did and
what broke; with no mishap the results are pinned down as well, so a loop cannot hide behind a crash.

**On top of it.** `Ledger` is the product of the protocol with the `demo_transfer` ledger: posting a leg is a
step of its own, before the body returns, and a stale worker may still post. `Drain` is the outbox table, the
stream and any number of drainers; `Draining` is `drain_once` as code in that world; `Delivery` joins a saga
and the drain, from `emit` to a deduplicating consumer. `Queue` is the dequeue statement over the whole
table, `Worker` the concurrency slots, `Definition` the collection and registration of a class's steps.
`SagaTiming` says when a saga can be claimed, `SagaErrors` what its error column tells. `LedgerAccounts` follows
the accounts, `LedgerFailAfter` the requested failure, `LedgerOrphans` traces an imbalance to where it came from, `LedgerFuture` says when one can still arise, and
`DrainProgress` what the drain achieves.

**Limits.** `ResizablePool`, `Adaptive` and `Admission` are the adaptive limiter and its callers, `RateLimit` the
token bucket script, `FailOpen` the check around it, `Circuit` the breaker, `Backoff` the delay formula. Times, tokens and delays are exact
reals (bucket clocks are whole milliseconds); a jitter is any value in [0, 1); the square root of the limit is
a non-negative number with that square.

## Where the code and its text disagree

The model follows the code.

- `schedule_retry` has no guard on the status (src/sankalp/storage/workflows.py:239-248), so a forward owner
  that fails retryably after an API cancel puts the row back to PENDING, and the saga may still succeed. The
  comment at src/sankalp/storage/workflows.py:682-686 says it cannot. `SagaCancel` proves that this is the only
  way out, exactly, and decides from the state at the cancel whether it is open; `SagaRescue` that SUCCESS can
  then still be reached in exactly the same cases; `SagaWitness` exhibits the run.
- Fencing covers writes, not invocations: a stalled worker can invoke a step that somebody else has already
  checkpointed (`SagaWitness.StaleWorkerCanReinvoke`). Exactly when: any worker about to invoke a step repeats
  one if and only if the outputs it goes by are not the FORWARD rows of the moment, and about to invoke an undo if
  and only if a COMPENSATION row lies at or below it (`SagaRepeats`). A worker that holds the row never does.
- A `demo_transfer` can end COMPENSATED and unbalanced without any cancel: a worker stalls before its INSERT,
  another takes over, gives up and the saga is unwound, and then the first one posts
  (`LedgerWitness.StalledWorkerLeavesADebit`). A cancel between the debit and its checkpoint does the same
  (`LedgerWitness.CancelLeavesADebit`). Balance after COMPENSATED is therefore stated as an equivalence, twice:
  on the final state (`Ledger.CompensatedBalancesIffNoOrphan`) and on the run, where the cause is a leg left
  uncheckpointed when the unwind was first claimed, or posted by a stale worker after that
  (`LedgerOrphans.CompensatedIsOffExactlyWhen`). `Ledger.TidyRun` is a hypothesis under which neither happens.
- `load_forward_outputs` is awaited before the `try` of `execute_workflow` (src/sankalp/engine/executor.py:180),
  so a failed load leaves the row to its lease; the text at src/sankalp/engine/executor.py:720-724 speaks of it
  as a failure to be compensated.
- Permits in use can exceed the semaphore's target after an idle shrink (`ResizablePool.HeldCanExceedTarget`);
  between resizes they cannot exactly when no debt is owed.
- The bucket stores the caller's time even when it moves back (src/sankalp/resilience/ratelimit.py:104), so
  skewed callers refill again at every turn; the comment above it promises a one-time burst. The promised rate
  holds for every policy and all costs exactly when the readings never move back.
- A half-open probe that ends in a ResponseError of any kind (src/sankalp/resilience/ratelimit.py:229-231), or
  whose caller is cancelled, reports nothing to the breaker, and HALF_OPEN then refuses for ever once nothing
  else is in flight, however healthy Redis is and whatever the policy. src/sankalp/resilience/circuit.py:122-123
  counts on the probe to report in.
- Clamping the backoff exponent at 32 is observable for caps above 2^32, which the comment rules out.

## Model

| member | source | states |
|---|---|---|
| SagaSafety.UnwindIsOneWay | src/sankalp/engine/executor.py:159-170 | once a claim is granted on a COMPENSATING row, no later action of anyone, stale forward workers included, adds a FORWARD row or brings back PENDING, RUNNING or SUCCESS |
| SagaSafety.SuccessIsComplete | src/sankalp/storage/workflows.py:225-236 | SUCCESS means a FORWARD row for every step, nothing undone, the output equal to those rows, and no unwinding claim ever granted |
| SagaSafety.CompensatedIsUndone | src/sankalp/engine/executor.py:340-413 | COMPENSATED means the undone steps are exactly the compensable committed ones |
| SagaSafety.DirtyIsACut | src/sankalp/engine/executor.py:386-393 | FAILED_DIRTY names a committed compensable step; every compensable step above it is undone and nothing else is |
| SagaSafety.RowsAreASegmentAndACut | src/sankalp/storage/workflows.py:146-189 | in every reachable state FORWARD rows are seq 1..k and COMPENSATION rows the compensable ones above some cut, through any crashes in mid-unwind |
| SagaSafety.TerminalIsFinal | src/sankalp/storage/workflows.py:225-330 | nothing in the tables changes after a terminal status, whoever still acts |
| SagaSafety.LostIsForever | src/sankalp/storage/workflows.py:377-400 | a claim whose guard fails once fails it in every later state, so none of its later actions changes the tables |
| SagaSafety.OneHolder | src/sankalp/storage/queue.py:53-77 | at any instant at most one claim passes the ownership guard, and it is the newest |
| SagaSafety.LostFlagIsSound | src/sankalp/engine/lease.py:111-131 | in every reachable state a lease that believes itself lost has lost the row |
| SagaSafety.RenewalTellsTheTruth | src/sankalp/engine/lease.py:124-131 | a renewal raises the flag exactly when the row is no longer its claim's |
| SagaSafety.NoDuplicateKey | src/sankalp/storage/workflows.py:377-400 | no commit that any worker can reach collides on the (workflow, step, kind) key |
| SagaSafety.LiveLeaseExcludes | src/sankalp/storage/queue.py:62-74 | while a claim holds the row, another is granted only after its lease has expired, running or unwinding alike |
| SagaTiming.ClaimedAgainExactlyAfterTheDelay | src/sankalp/storage/workflows.py:239-262 | after a matched retry, deferral or hand-over to the unwind at time T with delay d (zero for the last), and no cancel, the next claim is granted from exactly T + d on, whoever asks and whatever other workers do |
| SagaTiming.RenewalHoldsExactlyItsTime | src/sankalp/storage/workflows.py:340-345 | after a renewal that matched at T for d, as long as the claim does nothing to the row, it keeps the row and no other claim is granted up to T + d, through cancels too; and if none has been since, one is granted exactly from then on |
| SagaTiming.ClaimHoldsExactlyItsTime | src/sankalp/storage/queue.py:55-70 | the same for the lease a claim is granted with |
| SagaTiming.DueAtOnce | src/sankalp/storage/workflows.py:687-695 | a submitted saga, and a cancelled one that nobody holds, can be claimed at once |
| SagaErrors.ErrorTellsWhy | src/sankalp/storage/workflows.py:687-695 | in every state short of SUCCESS and FAILED_DIRTY the error column names a step's failure if any owner recorded one, else the cancel if one was accepted, else nothing; SUCCESS clears it and FAILED_DIRTY names the undo |
| SagaInvariant.RunInv | src/sankalp/storage/workflows.py:203-345 | the inductive invariant behind all of these is kept by every action of every run |
| SagaCancel.CancelEscapesOnlyByRetry | src/sankalp/storage/workflows.py:239-248 | after an accepted cancel the row leaves the unwind if and only if the claim that was newest at the cancel takes `schedule_retry` while it still holds the row |
| SagaCancel.CancelledEndsUnwound | src/sankalp/storage/workflows.py:687-695 | otherwise the saga can end only in COMPENSATED or FAILED_DIRTY |
| SagaCancel.EscapeOpenExactlyWhen | src/sankalp/storage/workflows.py:687-695 | at the cancel: some continuation leaves the unwind if and only if the newest claim holds the row, has an attempt left, and its worker is where it can still fail retryably |
| SagaCancel.CancelIsFinal | src/sankalp/storage/workflows.py:687-695 | hence cancelling a row that nobody owns, or on its last attempt, is final |
| SagaCancel.CancelAcceptedExactlyWhen | src/sankalp/storage/workflows.py:698-708 | a cancel is accepted exactly for a PENDING or RUNNING row, and takes no claim away |
| SagaRescue.SuccessOpenExactlyWhen | src/sankalp/storage/workflows.py:682-695 | after an accepted cancel some continuation reaches SUCCESS if and only if, at the cancel, the newest claim holds the row, has an attempt left and can still fail retryably |
| SagaRescue.PendingCanSucceed | src/sankalp/engine/executor.py:178-226 | from every reachable PENDING row some continuation reaches SUCCESS, whatever stale workers are about |
| SagaWitness.CancelledSagaCanSucceed | src/sankalp/storage/workflows.py:239-248 | a run in which a cancelled saga reaches SUCCESS |
| SagaWitness.StaleWorkerCanReinvoke | src/sankalp/engine/executor.py:185-202 | a run in which a preempted worker is about to invoke a step that is already checkpointed |
| SagaReplay.SuccessIsOnePass | src/sankalp/engine/executor.py:178-226 | with bodies that are functions of what they may read but fail at will, SUCCESS leaves the checkpoints and output of one uninterrupted pass |
| SagaReplay.CheckpointsArePartOfOnePass | src/sankalp/engine/executor.py:185-191 | in every reachable state the checkpoints are an initial piece of that pass |
| SagaReplay.CommitSawTheTable | src/sankalp/engine/executor.py:200-213 | an attempt that can still commit ran on exactly the committed rows, and they are those of lower seq |
| SagaEmission.OutboxIsCommittedAttempts | src/sankalp/engine/executor.py:596-643 | the outbox is always the concatenation, one entry for each checkpoint row, of the events of the single attempt that committed it; failed, retried and preempted attempts add nothing |
| SagaDiscipline.EachClaimBeginsAStepOnce | src/sankalp/engine/executor.py:185-205 | no claim, stale or not, begins the same step or the same undo twice |
| SagaDiscipline.InvocationsBoundedByClaims | src/sankalp/engine/executor.py:185-205 | under any faults a step body runs at most once for each claim granted forward |
| SagaRepeats.RepeatsExactlyWhenBehind | src/sankalp/engine/executor.py:185-202 | any worker, stale or not, that is about to invoke a step repeats a checkpointed one if and only if the outputs it goes by differ from the FORWARD rows |
| SagaRepeats.UndoRepeatsExactlyWhenBehind | src/sankalp/engine/executor.py:346-384 | any worker about to invoke an undo repeats a recorded one if and only if some COMPENSATION row lies at or below it, that is, the rows are not just those above it |
| SagaDiscipline.HolderNeverRepeats | src/sankalp/engine/executor.py:346-398 | the current holder never invokes a checkpointed step, nor an undo that has its row or whose step has none |
| SagaTermination.FaultFreeRunsAreBounded | src/sankalp/engine/executor.py:726-757 | every fault-free run makes at most a fixed number of moves besides waiting, emitting and renewing |
| SagaTermination.NeverStuck | src/sankalp/storage/queue.py:62-74 | until the row is terminal some fault-free move is possible after some wait |
| SagaTermination.FaultFreeSagasEnd | src/sankalp/engine/executor.py:726-757 | from every state of a fault-free run a terminal status can still be reached, fault-free; with the bound above, every such run that keeps moving ends |
| SagaTermination.FaultFreeWork | src/sankalp/engine/executor.py:462-507 | an n-step saga takes at most max_attempts forward claims and one more, n + max_attempts - 1 step invocations and n * compensation_max_attempts undo invocations |
| Ledger.SuccessBalances | src/sankalp/workflows/transfer.py:208-253 | a transfer in SUCCESS nets to zero in every run, with cancels, crashes and stale workers |
| LedgerAccounts.SuccessMovesTheAmount | src/sankalp/workflows/transfer.py:212-253 | SUCCESS has moved the amount from the source account to the destination, and no other account has changed |
| LedgerAccounts.CompensatedRestoresTheAccounts | src/sankalp/workflows/transfer.py:255-269 | COMPENSATED leaves every account as it was, but for a leg posted and never checkpointed |
| LedgerFailAfter.FailAfterDecides | src/sankalp/workflows/transfer.py:151-205 | some run of a transfer succeeds if and only if no fail_after was given |
| LedgerFailAfter.UnusableMovesNothing | src/sankalp/workflows/transfer.py:167-177 | an unusable fail_after posts nothing in any run |
| LedgerFailAfter.UsableNeverCredits | src/sankalp/workflows/transfer.py:197-205 | the usable one never lets the credit leg be posted |
| Ledger.CompensatedBalancesIffNoOrphan | src/sankalp/workflows/transfer.py:255-269 | a COMPENSATED transfer nets to zero if and only if no leg was posted without ever being checkpointed, and otherwise is off by exactly that leg |
| LedgerOrphans.CompensatedIsOffExactlyWhen | src/sankalp/workflows/transfer.py:212-219 | a COMPENSATED transfer is off, by the leg in question, if and only if that leg was orphaned when the unwind was first claimed or a stale worker posted it afterwards |
| LedgerFuture.CanEndOffExactlyWhen | src/sankalp/workflows/transfer.py:123-148 | from any state of an unwind that was claimed and has not ended, some continuation ends COMPENSATED and off if and only if a leg is orphaned or some forward worker can still post one that is not checkpointed |
| LedgerFuture.AtTheGrant | src/sankalp/workflows/transfer.py:208-253 | in particular right after the first unwinding claim of any run |
| LedgerFuture.CanEndCompensated | src/sankalp/engine/executor.py:340-413 | every claimed unwind of a transfer can still be brought to COMPENSATED |
| Ledger.ImbalanceIsOneLeg | src/sankalp/workflows/transfer.py:69-75 | in every reachable state the net is zero or one amount, and negative only over an orphan credit |
| Ledger.TidyTransfersReconcile | src/sankalp/workflows/transfer.py:123-148 | with no cancel, no posting by a worker that no longer owns the saga and nobody giving up over an uncheckpointed leg, SUCCESS and COMPENSATED balance and every state between is off by nothing or the amount |
| LedgerWitness.CancelLeavesADebit | src/sankalp/storage/workflows.py:687-695 | a run in which a cancel ends COMPENSATED with a debit nobody reversed |
| LedgerWitness.StalledWorkerLeavesADebit | src/sankalp/workflows/transfer.py:212-219 | the same with no cancel at all, by a worker that stalls before its INSERT |
| Tables.Store.CommitStepOutput | src/sankalp/storage/workflows.py:348-400 | ownership, then checkpoint and events together, else nothing |
| Tables.Store.CommitCompensationOutput | src/sankalp/storage/workflows.py:439-484 | the same for an undo, and only on a COMPENSATING row |
| Tables.Store.Finish | src/sankalp/storage/workflows.py:403-408 | SUCCESS only for the owner of a RUNNING row, with the output stored and the error cleared |
| Tables.Store.Retry | src/sankalp/storage/workflows.py:411-428 | back to PENDING, unowned and delayed, for the owner in any status |
| Tables.Store.Compensate | src/sankalp/storage/workflows.py:431-436 | handed to the unwind, unowned and due at once |
| Tables.Store.FinishUnwind | src/sankalp/storage/workflows.py:487-492 | COMPENSATED only for the owner of a COMPENSATING row |
| Tables.Store.Dirty | src/sankalp/storage/workflows.py:495-506 | FAILED_DIRTY only for the owner of a COMPENSATING row, naming the step |
| Tables.Store.Defer | src/sankalp/storage/workflows.py:509-549 | an unwind given back with its status untouched |
| Tables.Store.Renew | src/sankalp/storage/workflows.py:552-562 | for the owner, the lease becomes the given time and nothing else changes; for anyone else, nothing |
| Tables.Store.CancelWorkflow | src/sankalp/storage/workflows.py:698-708 | a PENDING or RUNNING row becomes COMPENSATING and due now, its error kept if it has one, its owner and lease left in place |
| Executor.Cluster.Renew | src/sankalp/engine/lease.py:111-131 | a lost lease issues no statement and changes nothing; otherwise the lease becomes now + duration exactly for the owner, a miss marks it lost, and a statement that breaks was carried out or not |
| Executor.Cluster.RenewIfNeeded | src/sankalp/engine/lease.py:133-144 | gone exactly when the lease is lost; a good claim is never told so and stays good |
| Executor.Cluster.CommitFinishedStep | src/sankalp/engine/executor.py:575-611 | one commit step of the protocol; it succeeds for a good claim, and failure proves the row is gone |
| Executor.Cluster.CommitCompensation | src/sankalp/engine/executor.py:614-643 | the same for an undo |
| Executor.Cluster.RunCompensation | src/sankalp/engine/executor.py:432-507 | the calls of this run, as logged and as booked in the history, number between one and the budget; every one but the last raised something not terminal; the outcome is the last one's, a retryable raise only on the last of the budget; undisturbed it ends done or stuck |
| Executor.Cluster.InvokeUndo | src/sankalp/engine/executor.py:373-384 | no call at all if the renewal before it fails or breaks, else the same |
| Executor.Cluster.HandleStepFailure | src/sankalp/engine/executor.py:709-757 | undisturbed, a retry exactly when retryable with attempts left, else the unwind; if its own write breaks, the row is left to its lease |
| Executor.Cluster.ExecuteForward | src/sankalp/engine/executor.py:172-245 | every interleaving, with exceptions at the load, renewals, commits and writes, is a run of the protocol; each result says what the row is; undisturbed it succeeds unless a body raises |
| Executor.Cluster.CompensateSaga | src/sankalp/engine/executor.py:312-429 | the same for the unwind: COMPENSATED unless a compensation raises, and then that or FAILED_DIRTY |
| Executor.Cluster.DeferCompensation | src/sankalp/engine/executor.py:265-309 | an unwind of an unknown type goes back, or was lost |
| Executor.Cluster.ExecuteWorkflow | src/sankalp/engine/executor.py:128-245 | dispatch on the claimed status before any step: an unwinding claim never reports a forward result nor the reverse, an unknown type never runs anything |
| Queue.Workflows.ClaimWorkflows | src/sankalp/storage/queue.py:53-77 | claims a batch of due, unowned or expired, unlocked rows, passing one over only when full and then none due later; stamps exactly those, column by column |
| Queue.TokensAreGrantedOnce | src/sankalp/storage/queue.py:55-60 | over every history of claims, other writes and submissions, no claim of a row by anyone, in any batch, carries a token granted before |
| Queue.ClaimsAreALeaseApart | src/sankalp/storage/queue.py:62-74 | two claims of a row that nobody wrote in between are more than the first one's lease apart, whatever happened to other rows; and it is in reach again exactly then |
| Queue.ClaimsTakeExactlyWhatIsDue | src/sankalp/storage/queue.py:62-70 | in every history every claimed row was due and unowned or expired, and a claim with room left took every such row that was not locked |
| Queue.PutOffUntilDue | src/sankalp/storage/queue.py:65-65 | a PENDING row put off until some time and then left alone is in no batch before it, and in every batch with room from then on |
| Queue.EarliestIsTaken | src/sankalp/storage/queue.py:71-74 | the free row that is due first is always in the batch |
| Worker.Slots.AcquireSlots | src/sankalp/engine/worker.py:262-280 | at least one slot, at most the batch, and short of it only with none left free; none made or lost |
| Worker.Slots.PollOnce | src/sankalp/engine/worker.py:121-155 | free, held and running slots always add up, through claim failures, short batches and shutdown; exactly the claimed workflows are spawned, and a round that goes on holds no slot |
| Worker.Slots.RunOne | src/sankalp/engine/worker.py:181-220 | for every ending of the execution and of the awaited renewer the slot comes back exactly once; what escapes is the renewer's own exception, else a cancellation, else nothing |
| Worker.Slots.BlockedOnlyWhenBusy | src/sankalp/engine/worker.py:275-275 | a poll loop that blocks for its first slot has every slot running a workflow |
| Worker.Slots.Drain | src/sankalp/engine/worker.py:293-330 | everything running is collected; slots are dropped only here |
| Definition.DeclaredExactly | src/sankalp/engine/definition.py:484-490 | the steps collected are exactly the objects some attribute still names once overrides have won, each once however many names it has |
| Definition.ClassRegisteredExactlyWhen | src/sankalp/engine/definition.py:477-525 | a class is registered exactly when those are non-empty, cover 1..n and have distinct names, and the definition consists of exactly them |
| Definition.RegisteredExactlyWhen | src/sankalp/engine/definition.py:493-525 | validation succeeds exactly for a non-empty set of declarations whose seqs cover 1..n in any order under distinct names, and step i of the result is the one declared with seq i |
| Definition.RefusedExactlyWhy | src/sankalp/engine/definition.py:495-525 | which of the four complaints a refused class gets: no steps, two declarations with one seq, then a seq missing from 1..n, then a reused name |
| Definition.PositionsAreNames | src/sankalp/engine/definition.py:372-391 | in a registered definition a name and a seq each determine the declaration, and it unwinds exactly if it declares a compensation |
| Drain.PickTakesTheFirst | src/sankalp/storage/outbox.py:102-114 | a claim takes the lowest unpublished unlocked ids and leaves one behind only when full |
| Drain.LockedBatchesAreDisjoint | src/sankalp/storage/outbox.py:102-114 | no row is held by two drainers, and no held row is published |
| Drain.NoCommittedEventIsLost | src/sankalp/engine/drain.py:133-151 | a committed row keeps its event for good and, if marked, is in the stream unchanged |
| Drain.StreamIsTheOutbox | src/sankalp/engine/drain.py:115-151 | the deduplicated stream is part of the outbox, equal to it exactly when every committed row was appended, hence whenever nothing is unpublished |
| Drain.SmoothRunsPublishOnce | src/sankalp/storage/outbox.py:119-123 | with no failure no event is ever appended twice |
| Drain.CrashBeforeMarkDuplicates | src/sankalp/engine/drain.py:139-142 | a crash between append and mark appends an event twice, which deduplication repairs |
| Drain.AttemptsAreCounted | src/sankalp/storage/outbox.py:119-133 | in every history attempts is the number of publish attempts on this very row that were marked or recorded as failed, and it is published exactly if one was marked |
| Draining.World.ClaimUnpublished | src/sankalp/storage/outbox.py:163-180 | the ordered walk locks exactly the batch of the claim statement |
| Draining.World.MarkPublished | src/sankalp/storage/outbox.py:183-187 | one mark step of the protocol; every row of the batch is then published and in the stream |
| Draining.World.RecordPublishFailure | src/sankalp/storage/outbox.py:190-200 | recorded means one more attempt on every row that was claimed |
| Draining.World.DrainOnce | src/sankalp/engine/drain.py:115-151 | a count means that many rows of this call are out and marked, a recorded failure shows on every claimed row, no lock stays behind; undisturbed, exactly the first eligible rows go out once, in order, and are marked, and the backlog shrinks by the smaller of the limit and what may be claimed |
| DrainProgress.EverythingCanBeDrained | src/sankalp/engine/drain.py:133-151 | from every reachable state, with any drainers hung or half done, and for every batch size, some continuation that claims only in that size leaves nothing owed, in as many passes as the backlog has batches, and every event committed before is in the stream |
| DrainProgress.PickTakesAllItMay | src/sankalp/storage/outbox.py:109-113 | a claim takes as many rows as the limit and the unlocked backlog allow |
| Delivery.CommittedEventsReachTheConsumer | src/sankalp/engine/definition.py:126-159 | end to end: a deduplicating consumer never sees anything else under a saga's ids, and once nothing is unpublished has, in outbox id order (the stream may interleave and repeat them), exactly the events of the attempts that committed its checkpoints |
| ResizablePool.ResizableSemaphore.Resize | src/sankalp/resilience/adaptive.py:88-101 | available + held = target + debt, and capacity becomes the larger of itself and the target |
| ResizablePool.ResizableSemaphore.Release | src/sankalp/resilience/adaptive.py:110-119 | the permit is out of use; it pays one of the debt if there is any, and is free again otherwise |
| ResizablePool.HeldWithinPeak | src/sankalp/resilience/adaptive.py:88-119 | permits in use never exceed the largest target ever requested |
| ResizablePool.HeldIsTakenLessReturned | src/sankalp/resilience/adaptive.py:103-119 | in every history permits in use are those taken less those returned |
| ResizablePool.EverythingComesBack | src/sankalp/resilience/adaptive.py:110-119 | once as many were returned as taken and no shrink is owed, the whole target is free |
| ResizablePool.ReturnedPermitIsFree | src/sankalp/resilience/adaptive.py:116-119 | a returned permit is free again, unless a shrink is owed one |
| ResizablePool.HeldCanExceedTarget | src/sankalp/resilience/adaptive.py:100-101 | they can exceed the current target |
| ResizablePool.HeldWithinTargetExactlyWithoutDebt | src/sankalp/resilience/adaptive.py:88-119 | between resizes permits in use never exceed the target, whatever is acquired and returned, if and only if capacity equals target, that is, no debt is owed |
| ResizablePool.ShrinkThenGrowIsLossless | src/sankalp/resilience/adaptive.py:94-101 | any sequence of resizes that ends where it began leaves the pool as it was |
| ResizablePool.DebtIsPaidByReleases | src/sankalp/resilience/adaptive.py:116-119 | between resizes a shrink is paid by exactly one per permit returned, whoever acquires meanwhile |
| Adaptive.AdaptiveConcurrencyLimiter.Admit | src/sankalp/resilience/adaptive.py:234-241 | a LOW caller is admitted exactly when a permit is free, and takes it |
| Admission.ServeTakesTheHead | src/sankalp/resilience/adaptive.py:243-249 | permits that come free go to the queued HIGH callers first come first served, as many as there are |
| Admission.ReleaseServesOrFrees | src/sankalp/resilience/adaptive.py:227-231 | a release with no shrink owed serves the head of the queue, or leaves one more permit free |
| Admission.HighGetsInOrInLine | src/sankalp/resilience/adaptive.py:243-249 | a HIGH caller is admitted at once exactly when a permit is free, and otherwise joins the end of the queue |
| Admission.TimeUpRefusesExactlyAfterTheLimit | src/sankalp/resilience/adaptive.py:244-248 | its timer refuses it, out of the queue and with its wait, exactly once the limit has passed |
| Admission.ResizeServesWithWhatItAdds | src/sankalp/resilience/adaptive.py:88-101 | growing the pool serves the head of the queue with what it adds; shrinking serves and evicts nobody |
| Admission.EveryoneIsAnsweredOrWaits | src/sankalp/resilience/adaptive.py:233-249 | over every history, those who came are exactly those waiting and those answered, each as often as it came |
| Admission.NobodyIsOvertaken | src/sankalp/resilience/adaptive.py:243-249 | over every history in which nobody gives up, whoever still waits came after everyone who was served |
| Admission.AlwaysFair | src/sankalp/resilience/adaptive.py:103-119 | in every history nobody waits while a permit is free, and permits in use stay within capacity |
| Adaptive.AdaptiveConcurrencyLimiter.RecordRtt | src/sankalp/resilience/adaptive.py:251-261 | the sample is kept, and the window closes over all of its samples once it is full |
| Adaptive.AdaptiveConcurrencyLimiter.CloseWindow | src/sankalp/resilience/adaptive.py:263-292 | the pool's target is the limit, the limit is in bounds, and the history is a trajectory of the gradient law |
| Adaptive.NextLimitReachesExactly | src/sankalp/resilience/adaptive.py:274-275 | within its bounds the next limit reaches n exactly when limit * gradient + sqrt(limit) does |
| Adaptive.GradientExactly | src/sankalp/resilience/adaptive.py:273-273 | the gradient is baseline over mean, one from there up, a half from half the mean down, and one for a mean that is not positive |
| Adaptive.MeanTimesCount | src/sankalp/resilience/adaptive.py:266-266 | the mean times the count is the sum of the samples |
| Adaptive.SumAdds | src/sankalp/resilience/adaptive.py:266-266 | and sums add up, sample by sample |
| Adaptive.FallsExactlyWhen | src/sankalp/resilience/adaptive.py:273-276 | the limit falls if and only if it is above its minimum and (1 - gradient) * sqrt(limit) exceeds one |
| Adaptive.RisesExactlyWhen | src/sankalp/resilience/adaptive.py:273-276 | and rises if and only if there is room and the slack is worth a whole permit |
| Adaptive.NeverBelowFour | src/sankalp/resilience/adaptive.py:263-276 | no latencies drive the limit below the smaller of four and its start |
| Adaptive.HalvedFallsToRest | src/sankalp/resilience/adaptive.py:273-276 | at gradient 0.5 it falls strictly each window to max(4, min_limit) and stays; at or below that it never moves |
| Adaptive.FullRisesToTop | src/sankalp/resilience/adaptive.py:273-276 | at gradient 1 it rises strictly each window to max_limit and stays |
| Adaptive.UpperClampNeverBinds | src/sankalp/resilience/adaptive.py:264-273 | for positive samples the baseline is positive and at most the window's minimum and mean, and the gradient is one exactly when every sample equals it |
| Adaptive.BaselineWithinSamples | src/sankalp/resilience/adaptive.py:268-271 | the baseline stays within the range of all samples seen |
| Adaptive.SteadyGap | src/sankalp/resilience/adaptive.py:268-271 | under constant latency r the gap after n windows is (1-decay)^n of the first; a drop is learned at once |
| Adaptive.SteadyLatencyOpensUp | src/sankalp/resilience/adaptive.py:263-276 | a fresh limiter under constant latency opens to max_limit, at least one permit a window |
| Backoff.ClampIsUnobservableWhen | src/sankalp/resilience/backoff.py:21-25 | the exponent clamp is invisible if and only if attempt <= 32 or cap <= 2^32 |
| Backoff.DelayRange | src/sankalp/resilience/backoff.py:43-45 | the delay is in [0.5, 1.5) of min(2^attempt, cap), and positive |
| Backoff.LaterWaitsLonger | src/sankalp/resilience/backoff.py:43-45 | with the same jitter a later attempt never waits less |
| Backoff.JitterSpreadsEvenly | src/sankalp/resilience/backoff.py:45-45 | equal steps of jitter are equal steps of delay, a whole unit being min(2^attempt, cap), which half a unit gives |
| Backoff.EachDelayHasOneJitter | src/sankalp/resilience/backoff.py:45-45 | every delay of the range is taken, by one jitter and no other |
| Circuit.CircuitBreaker.Allow | src/sankalp/resilience/circuit.py:116-138 | admits in CLOSED, and in OPEN only the first caller after the cooldown, which it moves to HALF_OPEN |
| Circuit.CircuitBreaker.RecordSuccess | src/sankalp/resilience/circuit.py:140-146 | closes from any state and clears the counters |
| Circuit.CircuitBreaker.RecordFailure | src/sankalp/resilience/circuit.py:148-179 | counts, trips at the threshold or at once from HALF_OPEN |
| Circuit.RunSound | src/sankalp/resilience/circuit.py:158-173 | under any interleaving of admissions and late reports the k-th open in a row cools down for [0.5, 1.5) of base * min(2^(k-1), 8) |
| Circuit.ClosedExactlyBelowThreshold | src/sankalp/resilience/circuit.py:154-156 | the breaker is closed if and only if fewer failures than the threshold were reported since the last success |
| Circuit.AdmissionExactly | src/sankalp/resilience/circuit.py:125-138 | below the threshold everyone is admitted; from it on nobody is, but for the first caller after the cooldown |
| Circuit.TripShutsForTheCooldown | src/sankalp/resilience/circuit.py:158-173 | a failure that trips the breaker keeps it shut for base times the backoff of the opens before it, and then for everyone but one caller |
| Circuit.LateFailuresReopen | src/sankalp/resilience/circuit.py:154-156 | in OPEN every threshold of late failures starts the cooldown again |
| Circuit.GrowthTable | src/sankalp/resilience/circuit.py:84-84 | the factor is 1, 2, 4 and from the fourth open in a row 8 |
| Circuit.ProbesAreSparse | src/sankalp/resilience/circuit.py:125-173 | with no success, p admissions outside CLOSED take at least p - 1 base cooldowns |
| Circuit.TwoProbesApart | src/sankalp/resilience/circuit.py:125-173 | two of them are at least one base cooldown apart |
| Circuit.ReportEndsTheProbe | src/sankalp/resilience/circuit.py:140-153 | any report ends it: closed, or open for less than twelve base cooldowns |
| RateLimit.BucketKey.Eval | src/sankalp/resilience/ratelimit.py:72-115 | the script refines the bucket functions, keeps tokens in [0, capacity], and on a refill that is not positive changes nothing |
| RateLimit.TokensAreConserved | src/sankalp/resilience/ratelimit.py:95-104 | for any callers and clocks, held + spent + spilled = first credit + refill over the forward movements of the stored clock |
| RateLimit.RateBound | src/sankalp/resilience/ratelimit.py:95-104 | hence admitted cost is at most capacity + refill * forward movement |
| RateLimit.RateBoundIsTight | src/sankalp/resilience/ratelimit.py:95-104 | for any readings whatever, some policy and costs meet that bound exactly |
| RateLimit.RateKeptExactlyOnOneClock | src/sankalp/resilience/ratelimit.py:104-104 | for given readings, capacity + refill * elapsed bounds the admitted cost for every policy and all costs if and only if the readings never move back |
| RateLimit.RateBoundOnOneClock | src/sankalp/resilience/ratelimit.py:95-104 | the direction that promises the rate: on one clock it telescopes |
| RateLimit.SkewRefillsEveryTurn | src/sankalp/resilience/ratelimit.py:104-104 | two callers a second apart, taking turns, get n of 2n calls of a one-token bucket admitted with every clock reading within that second |
| RateLimit.ExpiryIsUnobservable | src/sankalp/resilience/ratelimit.py:105-105 | deleting the key no earlier than its time to live changes no reply and no bucket, over any sequence of calls |
| RateLimit.TtlIsTwiceTheFill | src/sankalp/resilience/ratelimit.py:105-105 | the time to live is the least whole number of milliseconds in which the bucket could fill twice |
| RateLimit.ReportedTokens | src/sankalp/resilience/ratelimit.py:114-114 | the reply's count is what the bucket holds afterwards, in whole tokens |
| RateLimit.RetryHintIsLeast | src/sankalp/resilience/ratelimit.py:109-112 | a denied call of cost within capacity is admitted alone after a wait if and only if it is at least retry_after_ms |
| RateLimit.SecondsHintIsLeast | src/sankalp/resilience/ratelimit.py:208-210 | the rounded-up seconds (delay-seconds, section 10.2.3 of RFC 9110) are sufficient and least, and the floor of one never matters |
| FailOpen.TokenBucketLimiter.DoCheck | src/sankalp/resilience/ratelimit.py:184-243 | denies only when the bucket answered and refused; a refused breaker, any ResponseError and any transport failure admit the caller unenforced with no retry hint; the bucket is charged exactly when the script ran |
| FailOpen.ClosedExactlyWhileFewAreLost | src/sankalp/resilience/ratelimit.py:227-243 | over every sequence of checks the breaker is closed exactly while fewer calls than the threshold were lost since the last answered one |
| FailOpen.OutageOpensAtTheThreshold | src/sankalp/resilience/ratelimit.py:232-241 | lost calls open a fresh breaker at the threshold and not before |
| FailOpen.HealthKeepsItClosed | src/sankalp/resilience/ratelimit.py:242-243 | with no call lost it stays closed and every check gets through |
| FailOpen.FlowClosedExactlyWhileFewAreLost | src/sankalp/resilience/ratelimit.py:227-243 | the same with checks in flight together, counted as they end |
| FailOpen.HalfOpenExactlyAfterASilentProbe | src/sankalp/resilience/ratelimit.py:227-243 | one check after another, the breaker is HALF_OPEN in between if and only if some probe ended in an outcome that reports nothing, whatever the policy |
| FailOpen.SilentProbeWedges | src/sankalp/resilience/ratelimit.py:229-231 | after such a probe every later check is refused by the breaker |
| FailOpen.HalfOpenEndsExactlyByAReport | src/sankalp/resilience/ratelimit.py:227-243 | with checks in flight together, HALF_OPEN ends if and only if one that is in flight reports |
| FailOpen.HalfOpenCanEndExactlyWhileInFlight | src/sankalp/resilience/circuit.py:122-138 | some continuation leaves HALF_OPEN if and only if a check is still in flight |
| FailOpen.ReportingTrafficNeverWedges | src/sankalp/resilience/ratelimit.py:227-243 | in every history where each admitted check reports, HALF_OPEN never outlives the checks in flight |

## Left out

- asyncpg, Redis and asyncio: each statement, transaction or script execution is one atomic step, SKIP LOCKED is a filter on locked rows, a semaphore is a counter, and waiters have no order.
- Many sagas at once: the protocol is per row, so one saga is modelled; `Queue` and `Drain` cover the tables they share.
- JSON encoding: outputs and payloads are opaque values that round-trip, and an encoding failure is a body that raises.
- Columns that no guard reads: current_step, created_at, updated_at, durations; the error column keeps only what kind of error it is.
- Definition: a Step object's name is taken as declared; how `__set_name__` finds it is not modelled.
- Step names: steps are identified by seq, which `Definition.PositionsAreNames` justifies for a fixed definition; definitions that change under an in-flight saga, and the FAILED_DIRTY branch for a step name that no longer exists, are not modelled.
- Exception classification by retry_on and terminal_on: one four-way branch; a raise carries its verdict.
- The local lease deadline: it is set after the reply and so is optimistic; whether a renewal is due is left open.
- `Ledger.TidyTransfersReconcile`: its hypotheses are conditions on the run, not on the input; without them `Ledger.CompensatedBalancesIffNoOrphan` is the exact statement.
- `SagaTermination.FaultFreeSagasEnd`: with positive budgets and a registered type; a fault-free run has no crash, cancel, deferral or takeover of an owned row, and bodies raise only from inside a step.
- `Circuit.TwoProbesApart`: states the distance for the first and last event of a history; `Circuit.ProbesAreSparse` is the statement for any number in between.
- `FailOpen.TokenBucketLimiter.DoCheck`: one check without interleaving; checks in flight together are `FailOpen.Flow`, and the breaker under them `Circuit.RunSound` and `Circuit.ProbesAreSparse`. NOSCRIPT recovery is part of an answered call.
- `Adaptive.AdaptiveConcurrencyLimiter.Admit`: the class decides LOW callers; HIGH callers and their queue are `Admission`, over the same pool, on values. That a timer fires on time is the event loop's.
- `Worker.Slots.RunOne`: a Lease constructor that raises before the `try` would keep its slot; the settings exclude it.
- Redis Stream trimming: the stream is its append history.
- The drain's poll interval and backoff, signal handling, drain grace periods and the cancellation shield: a cancellation is a crash before or after the atomic write.
- Which delay a retry or a deferral is given: the delay is a parameter of the protocol, and `Backoff` says what the formula yields for an attempt.
- Floating point: exact reals, so rounding in the script, the limiter and the delays is not covered.
- FastAPI routes, middleware, configuration, roles and grants, migrations, crash gates, demo and load scripts.
