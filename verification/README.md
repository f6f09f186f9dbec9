# Verification of the SAGA engine and request signing

A Dafny model of the coordination logic of the SAGA engine (`saga/`), of its template and
JSONPath language, and of the replay protection and query canonicalisation of request
signing (`auth/`), with proofs of what that logic keeps in every run and for every input.

Verify with `dafny verify dfyconfig.toml`.

## What is modelled

**The protocol.** `Protocol` follows one transaction through any number of instances. Driver
goroutines, timeout and recovery scans and poll workers interleave one store call or HTTP
exchange at a time, each with its own, possibly stale, snapshot. Store calls may fail without
effect or take effect and still report an error; any set of processes may crash at any point;
leases expire as the clock advances. `DriveStep` is saga/coordinator.go:270-376, `SelectNext`
saga/coordinator.go:380-459, `ExecStep` saga/coordinator.go:475-655 with saga/executor.go:102-287
and 394-426, `CompStep` and `UndoStep` saga/coordinator.go:682-749 with saga/executor.go:291-391,
`PollStep` saga/poller.go:179-394, `ScanStep` saga/coordinator.go:157-265. A run is a start state
of Submit and any finite sequence of actions. Proved over all runs: what statuses say about the
wire history (`ProtocolSafety`), leases (`LeaseSafety`), the shape of the step list under a
single driver (`SingleDriver`), that no step is begun after the deadline and that the deadline
makes no difference before it (`Deadline`), and that a transaction can always still be brought
to an end (`Completion`). `Faults` says what failing calls, stops and
unusable answers do at each program point.

**What "compensation completed" is worth.** `Settlement` says what the verdict means for the
stored statuses, `Ledger` that without disturbances it means that every accepted action was
undone, and `Guarantee` that each disturbance breaks that meaning, so that it holds over a
class of disturbances if and only if the class is empty. A disturbance is one of five precise
events (`Protocol.Troubles`, `Protocol.ActionTroubles`); other failing calls, crashes and stops
are none.

**The drive loop.** `CoordinatorClasses` performs the loop in place, with the source's methods,
loops and flags, over `SagaStore.Store` and `PollBudget.Poller`. `DriveLoop` says what each
operation does to the rows, `SagaSpec` what a saga should mean without any store, and
`Refinement` joins them: final statuses, exchanges on the wire and pauses. `Playing` builds
runs of the interleaving model, and `LoopInProtocol` shows that every execution of the loop,
with the poll workers it waits for, is one of them, so the two descriptions of the same code
agree on rows and wire.

**Inside one instance.** `Dispatch` is the active set and task queue, `Notify` the register-then-
reread against write-then-notify handshake, `PollBudget` the poll workers, `WaitLoop`
SubmitAndWait, `Builder` the definition of sagas and their stored start.

**Templates and paths.** `PathSyntax` has the two hand-written parsers, `PathLookup` the two
resolvers, `Render` one-pass substitution and its lifting to JSON trees. Strings are bytes.

**Request signing.** `Replay` composes the nonce map, its cleanup and the timestamp window, with
64-bit seconds and durations; `CanonicalQuery` is the canonical query string.

Two facts of the code differ from its own description. saga/README.md:104-112 draws a failed
step on its way to compensating; executeCompensation selects only succeeded, polling and
compensating steps (saga/coordinator.go:689), and the model follows the code. The comments in
auth/nonce.go:49-76 say that expired nonces are refused as well; that is so until the cleanup
removes them, which is what the bound in `Replay.DelayBoundIsExact` is about.

## Model

| member | source | states |
|---|---|---|
| ProtocolSafety.RunKeeps | saga/coordinator.go:232-376 | The inductive invariant holds after every finite run of drivers, scanners, poll workers, crashes, clock ticks and failing store calls: statuses are backed by the wire history, every snapshot and program point is justified by it, and whoever compensates sees a status of the compensation path |
| ProtocolSafety.ApplyKeeps | saga/coordinator.go:232-376 | One action of any process or of the environment keeps the invariant, never rewrites history, and moves the transaction status along a documented edge or not at all |
| ProtocolSafety.PcKeeps | saga/executor.go:102-391 | One store call or HTTP exchange of any process, from whatever stale snapshot it holds, keeps the shared state sound, gives the guarantee the other processes rely on, and justifies its own next program point |
| ProtocolSafety.Stable | saga/coordinator.go:305-336 | What a process relies on at its program point survives any step of the others that keeps the guarantee, so a snapshot read before the lease renewal stays usable |
| ProtocolSafety.StatusPath | saga/store.go:1029-1052 | Between any two points of any run the status only moves pending, running, then succeeded or compensating, then failed; one documented edge per action; succeeded and failed are absorbing |
| ProtocolSafety.CompensatorOwnsStatus | saga/coordinator.go:682-749 | While any process is inside executeCompensation the stored status is compensating or failed, which is why the unconditional last write is safe |
| ProtocolSafety.SucceededMeansDone | saga/coordinator.go:413-433 | A succeeded transaction never had a compensation request sent, and each step has an accepted forward response and, if asynchronous, a matching poll |
| ProtocolSafety.CompensationFollowsAcceptance | saga/coordinator.go:686-705 | Every compensation request in the history is preceded by an accepted forward action of the same step, also after takeovers, re-entry and from stale snapshots |
| ProtocolSafety.CompensatedMeansUndone | saga/executor.go:367-374 | In every interleaving a step stored as compensated was accepted forward, and its compensation was accepted |
| Completion.NeverStuck | saga/coordinator.go:157-208 | From every point of every run some continuation ends the transaction and leaves no process behind: after a crash of everything, a recovery scan past the lease and one driver bring it to succeeded or failed |
| Faults.LostWritesNothing | saga/store.go:235-261 | A store call that fails without effect leaves the rows as they are, whichever process makes it and wherever it stands |
| Faults.LateWritesTheSame | saga/store.go:235-261 | A call that takes effect but reports an error writes exactly what a reported success would have written |
| Faults.OthersGoOn | saga/executor.go:394-426 | Outside the listed calls no process looks at the outcome of a store call: it goes on to the same point, whether the call worked or not |
| Faults.DriverGivesUp | saga/coordinator.go:279-346 | A driver that cannot claim leaves at once; one that cannot load, renew or begin releases its lock and leaves |
| Faults.StepWriteTriggers | saga/coordinator.go:475-555 | A write of a forward step that fails leads to compensation; a failed reread leaves the transaction to the next driver, unless it is overdue |
| Faults.UndoWriteSpoils | saga/executor.go:291-391 | A step whose compensation cannot be marked or recorded counts as not compensated, and the pass goes on |
| Faults.PollerGivesBack | saga/poller.go:179-283 | A poll worker that cannot read the step or the transaction releases its task |
| Faults.StopMeans | saga/coordinator.go:295-303 | Where a stop is noticed, and what it interrupts: a fresh iteration, the next step of a pass, a pause before one of the MaxRetry further attempts (3 when zero), a submit of the scanner |
| Faults.UnpreparedStepFails | saga/executor.go:102-160 | A forward request that cannot be rendered, created or signed fails the step without a retry |
| Faults.UnpreparedUndo | saga/executor.go:291-384 | An undo that cannot be rendered fails at once; an attempt whose request cannot be created is used up, one that cannot be signed is the last; none reaches the wire |
| Faults.WaitMeans | saga/coordinator.go:617-655 | How each end of a wait goes on: running out and failure to compensation, a stop to the release of the lock, an error to another look, success to the next step |
| Faults.RereadMeans | saga/coordinator.go:571-611 | How each reread status goes on before the deadline: succeeded advances, failed or missing compensates, a status of compensation reloads, any other waits |
| Faults.PollRequestMeans | saga/poller.go:218-283 | How each outcome of a poll request goes on, and that only a match is recorded |
| Faults.ClaimLasts | saga/coordinator.go:279-293 | A reported claim locks the row for the configured lease, 300 seconds where none is configured |
| Deadline.OverdueTriggers | saga/coordinator.go:381-384 | Once the deadline is reached, a driver at the selection, before marking a step running, before advancing or before waiting writes nothing and turns to compensation |
| Deadline.OverdueAttemptFails | saga/executor.go:394-426 | An attempt ended by the deadline is not counted and not repeated: the step is failed |
| Deadline.NoneBegunLate | saga/coordinator.go:475-481 | In every run, from the deadline on, no step is newly stored as running |
| Deadline.ScanCompensates | saga/coordinator.go:232-265 | A running transaction past its deadline with a free lock is found by a timeout scan and stored as compensating for that reason |
| Deadline.DeadlineInvisible | saga/runtime_context.go:29-31 | A run whose clock stays before the deadline is, apart from the stored deadline itself, the run of the same actions without one |
| Guarantee.GuaranteedIffUndisturbed | saga/coordinator.go:682-749 | For all sagas, "compensation completed" means that every accepted forward action was undone, over any class of disturbances, if and only if the class is empty. The disturbances: an accepted action or a failed undo that goes unrecorded because its store call fails or its process crashes, a stop of a pass that knows of a failed undo, a poll that fails an accepted step, and a second driver. Everything else is always allowed: deadlines, scans, expired leases, full queues, refusals, poll workers at any time, and all other crashes, stops and failing calls |
| Guarantee.HarmlessPollsIffNoAsync | saga/coordinator.go:689 | For a given saga, with retry limits that are not negative, failing polls cannot make that verdict wrong if and only if the saga has no async step |
| Ledger.CompletedMeansUndone | saga/coordinator.go:694-748 | The positive half: with one driver at a time and none of those disturbances, once "compensation completed" is recorded every accepted forward action has an accepted compensation, in sagas of any steps |
| Ledger.RunLedger | saga/coordinator.go:475-555 | In every such run each accepted action is to be found again: its step is stored as to be undone or undone, or its driver is about to store it, or the running compensation has it on its list or knows of a failure, or the verdict admits one |
| Guarantee.StoreFailureBreaks | saga/executor.go:172-174 | The other half for store failures: the response of an accepted step cannot be stored, the step stays running, and compensation passes over it (saga/coordinator.go:689) |
| Guarantee.CrashBreaks | saga/coordinator.go:445-450 | For crashes: the driver crashes before it stores the answer, a recovery scan past the lease hands the running step to another one, which sends it again, is refused, and fails it without undoing it |
| Guarantee.TakeoverBreaks | saga/coordinator.go:304-346 | For takeovers: the same while the first driver is still alive behind its expired lease |
| Guarantee.InterruptionBreaks | saga/coordinator.go:696-703 | For interruptions: after a failed undo the pass is stopped, and the next pass skips that step and records "compensation completed" |
| Guarantee.PollFailureBreaks | saga/poller.go:319-327 | For failing polls, in every saga with an async step below which every step can be undone: that step is accepted, then failed by its poll, and never undone while everything below is |
| Settlement.CompletedLeavesNothing | saga/coordinator.go:694-748 | With one driver at a time, and crashes, recovery, deadlines and failing store calls at any point, once "compensation completed" is recorded no step is left succeeded, polling or compensating and every compensated one had its compensation accepted, provided no poll worker is in flight once compensation has begun |
| Settlement.RunCovers | saga/coordinator.go:682-749 | Over all such runs every step that still needs undoing is on the list of whoever compensates, unless that pass already knows of a failure |
| Settlement.NoAsyncPollsOver | saga/store.go:700-711 | Without async steps there is never a poll worker, so the condition on them holds in every run |
| LeaseSafety.RunLease | saga/store.go:986-1023 | In every run, for every instance, a lease it was told about and has not released is no longer than its lease duration and, until it runs out, is the lock in the row |
| LeaseSafety.LeaseIsReal | saga/store.go:986-1023 | An instance that holds a live lease is the recorded holder and the stored expiry is not earlier than the one it knows |
| LeaseSafety.LeaseExclusive | saga/store.go:986-1007 | Two instances never hold live leases at the same time |
| LeaseSafety.LeaseKeepsOthersOut | saga/store.go:726-898 | While a lease is live the single claim of any other instance and both batch scans refuse the row |
| SingleDriver.RunSolo | saga/coordinator.go:295-456 | With one driver at a time and exclusive poll work, crashes, recovery, scans and failing store calls at any point keep the shape invariant of steps, snapshots and program points |
| SingleDriver.RunningShape | saga/coordinator.go:386-411 | A running transaction has its steps in the order succeeded, then at most one running, polling, pending or failed step, then untouched pending ones |
| SingleDriver.SelectionIsFirst | saga/coordinator.go:386-456 | Although a later running or polling step overrides an earlier pending one, the loop selects the first step that has not succeeded, and selects none exactly when all have succeeded |
| LoopInProtocol.SagaHasARun | saga/coordinator.go:270-376 | For any answers from outside, a submitted saga of sync and async steps without a deadline has a run of the interleaving model that nothing but failing polls disturbs, one driver with its poll workers, that ends with the lease returned, no process left, exactly the all-or-nothing verdicts, and exactly the exchanges of the meaning in its history |
| LoopInProtocol.AcceptedInHistory | saga/executor.go:167-182 | That history holds the acceptance of a forward action exactly for the steps that are reached and accepted under those answers, and of a compensation exactly for the steps whose undo is accepted |
| LoopInProtocol.LoopPlays | saga/coordinator.go:295-376 | Whatever the drive loop computes on the rows and puts on the wire, one process of the interleaving model and its poll workers do by their own store calls and exchanges, holding the lease throughout |
| LoopInProtocol.RoundPlays | saga/coordinator.go:296-374 | The same for one iteration of the loop, rows and wire |
| LoopInProtocol.CompensationPlays | saga/coordinator.go:682-749 | The same for one uninterrupted compensation pass, rows and wire |
| LoopInProtocol.AttemptPlays | saga/coordinator.go:475-555 | The same for one attempt at a step, sync or async, with any of the outcomes, rows and wire |
| LoopInProtocol.WaitPlays | saga/coordinator.go:558-655 | The same for waiting: reread, wait, be told or give up, while poll workers take turns |
| Playing.SessionPlays | saga/poller.go:179-283 | processPollTask in the interleaving model, store call by store call, does to the rows what PollBudget says, for every reply |
| Playing.TurnRuns | saga/poller.go:155-176 | Taking a due task, handling it and letting it go next to a running driver is a run of the system that leaves no trace of the lock |
| Playing.HelpedRuns | saga/coordinator.go:139-152 | Steps of one driver and turns of its poll workers are a run of the whole system within the allowed disturbances |
| Playing.RecoveryRuns | saga/coordinator.go:169-199 | A recovery scan that finds the transaction claims it for its instance and queues it |
| Playing.TidyIsSolo | saga/coordinator.go:279-293 | Such runs have one driver at a time and exclusive poll work at every point |
| Selection.Pick | saga/coordinator.go:386-411 | What the selection loop picks is a step of the prefix it has seen that is pending, running or polling |
| Selection.PickAtFront | saga/coordinator.go:386-411 | On a well-shaped snapshot the selection over any prefix is the front step as soon as the prefix reaches it and nothing before |
| Protocol.SelectMeans | saga/coordinator.go:380-459 | Compensation if any step failed or the deadline has passed, success if and only if all succeeded, else the picked step: sent if it is pending or a running sync step, reread if it is polling or running otherwise |
| Selection.PickMeans | saga/coordinator.go:386-411 | From steps in any state the selection takes the last one that is running or polling, and only if there is none the first pending one |
| Selection.ToCompensate | saga/coordinator.go:686-692 | The compensation list names only steps of the snapshot that are succeeded, polling or compensating |
| Selection.CompensationMembers | saga/coordinator.go:686-692 | A step is on the compensation list if and only if its snapshot status is succeeded, polling or compensating |
| Selection.CompensationOrder | saga/coordinator.go:686-692 | The list is strictly decreasing in the step index |
| SagaSpec.AllOrNothing | saga/coordinator.go:295-376 | The meaning of a saga: it succeeds if and only if every step gets done; otherwise there is a first step f that does not, everything below it is compensated or failed, f is failed (or undone as well if only its polls stayed open, or left running if it was found stranded), everything above is skipped, and the undone steps are all compensated exactly when every undo was accepted |
| SagaSpec.ForwardRunMeans | saga/coordinator.go:386-456 | The forward run stops at the first step that does not get done, each step being asked where the one before ended, and is complete if and only if every step gets done |
| SagaSpec.AttemptsMean | saga/executor.go:394-426 | A step is accepted if and only if some attempt within MaxRetry minus RetryCount (but at least one) is good and all earlier ones are retryable |
| SagaSpec.SendMeans | saga/executor.go:394-426 | The same from rendering and answers: some attempt can be rendered and is accepted, all before it are answered with an error, and it is the first or keeps RetryCount below MaxRetry |
| SagaSpec.SendGivesUp | saga/coordinator.go:509-514 | If every answer is an error, the step is sent max(1, MaxRetry - RetryCount) times with a second in between, and not accepted |
| SagaSpec.UndoRunMeans | saga/executor.go:319-384 | The compensation retry loop stops at the first settling answer, succeeds exactly when that answer accepts, and fails early only on a signing error |
| SagaSpec.StepEndMeans | saga/coordinator.go:436-472 | How a step ends from the state it is found in: only a sync step survives being found running, a step being polled is not sent again, and an accepted async step still waits for its polls |
| SagaSpec.PollEndMeans | saga/poller.go:258-282 | Polls end a step as done if and only if some reply brings the success value, with nothing before it but lost replies and unclear ones within PollMaxTimes |
| SagaSpec.UndoStepMeans | saga/executor.go:313-384 | Undoing a step succeeds if and only if its request renders and one of the next MaxRetry + 1 answers (4 when MaxRetry is zero) accepts after failed requests only |
| SagaSpec.UndoGivesUp | saga/executor.go:313-329 | If every answer is an error, exactly MaxRetry + 1 requests are sent (4 when MaxRetry is zero), over 2^MaxRetry - 1 seconds of pauses |
| SagaSpec.SagaOnWire | saga/coordinator.go:295-376 | A whole saga puts on the wire about each step at most as many forward requests as it has attempts left, none above the step where it stops, and undo requests only for steps to be undone, at most MaxRetry + 1 each |
| SagaSpec.SagaAccepts | saga/executor.go:167-182 | The accepted forward requests are exactly those of the steps that are reached and accepted, the accepted undo requests exactly those of the steps whose undo is accepted |
| SagaSpec.AttemptsOnWire | saga/executor.go:394-426 | The attempts at a step are all for that step, none follows an accepted one, and the last is accepted exactly when the step is |
| SagaSpec.UndoRequestsBound | saga/executor.go:313-319 | Undoing one step puts at most MaxRetry + 1 requests on the wire (4 when MaxRetry is zero), all for that step, accepted by the last one or not at all |
| SagaSpec.UndoSlept | saga/executor.go:320-329 | j + 1 attempts to undo a step sleep 2^j - 1 seconds in all |
| SagaSpec.PassInOrder | saga/coordinator.go:696-715 | One pass requests only listed steps, and never a higher index after a lower one |
| Refinement.DriveRefinesSaga | saga/coordinator.go:295-655 | For sagas of sync, async and other steps, rereading rows in a loop computes the all-or-nothing meaning: same final transaction and step statuses, same exchanges and pauses, "compensation completed" exactly when every undo was accepted, and current_step at the step that stopped the run or behind the last one |
| Refinement.RunningRefines | saga/coordinator.go:358-374 | The same from every running row of the single-driver shape, such as one found after a crash: the front step may be pending, running, being polled or failed, with any counters |
| Refinement.NextStepIterates | saga/coordinator.go:380-459 | One iteration leaves a row whose meaning, behind what the iteration did, is the meaning of the row before: the run goes on behind the step, or with one attempt less, or stops there |
| DriveLoop.PollsMean | saga/poller.go:258-282 | The rows after any replies to the polls say how the replies end the step |
| Refinement.StoppedOutcome | saga/coordinator.go:682-749 | The compensation pass after a stop at step k ends with the statuses of the meaning, failed, and the right verdict |
| DriveLoop.CompensationOutcome | saga/coordinator.go:682-749 | After a pass: pending steps skipped, visited steps compensated or failed by their own undo, others untouched, status failed, and "compensation completed" exactly when every visited step was written compensated |
| DriveLoop.IterationDecides | saga/coordinator.go:475-655 | One iteration works on the selected step alone, and its new status decides: succeeded moves current_step behind it, pending repeats it, failed, polling or running begins compensation because of a step error |
| DriveLoop.NextStepUsesFuel | saga/coordinator.go:380-655 | Every iteration that goes on strictly lowers status rank plus remaining attempts of unfinished steps |
| DriveLoop.RoundUsesFuel | saga/coordinator.go:295-376 | The same over all live statuses |
| DriveLoop.DriveFrom | saga/coordinator.go:295-376 | The loop ends after at most 2 + sum of max(1, MaxRetry - RetryCount) over unfinished steps iterations |
| CoordinatorClasses.Executor.HandleHTTPError | saga/executor.go:394-426 | Past the deadline fails the step at once; otherwise counts the failed attempt first, then sets the step pending (retryable) while attempts are left, else failed (fatal) |
| CoordinatorClasses.Executor.ExecuteStep | saga/executor.go:102-185 | The new row, result, answers used and request sent are those of one attempt of the meaning; an unrenderable, uncreatable or unsigned request fails the step without retry |
| CoordinatorClasses.Executor.ExecuteAsyncStep | saga/executor.go:189-287 | The same for an async step, which is left polling with a poll task when it is accepted |
| CoordinatorClasses.Executor.RetryUndo | saga/executor.go:313-384 | Succeeds if and only if one of the next MaxRetry + 1 answers (4 when MaxRetry is zero) accepts after failed requests only; requests and pauses are those of the meaning |
| CoordinatorClasses.Executor.CompensateStep | saga/executor.go:291-391 | Marks, renders, retries: the step ends compensated if and only if the undo is accepted, else failed; requests and pauses as in the meaning |
| CoordinatorClasses.Coordinator.SelectStep | saga/coordinator.go:386-411 | The loop with its flags reports a failed step, all succeeded, or the picked step, for steps in any state |
| CoordinatorClasses.Coordinator.ExecuteStep | saga/coordinator.go:462-472 | Dispatches on the type, unknown types as sync; rows, requests and pauses of one attempt and its consequences |
| CoordinatorClasses.Coordinator.ExecuteSyncStep | saga/coordinator.go:475-519 | Advances on success, pauses a second before another try, triggers compensation on a fatal error, always asks to go on, and sends exactly the one request |
| CoordinatorClasses.Coordinator.ExecuteAsyncStep | saga/coordinator.go:522-555 | The same for an async step, which is waited for when it is accepted |
| CoordinatorClasses.Coordinator.WaitForAsyncStep | saga/coordinator.go:558-655 | Rereads the step, then lets the poll workers work: advances if they settle it as succeeded, triggers compensation if they fail it or the wait ends first |
| CoordinatorClasses.Coordinator.LetPoll | saga/poller.go:155-176 | Poll workers handle the replies one after the other, if the step has a poll task |
| CoordinatorClasses.PollsInTwo | saga/coordinator.go:571-611 | Polls before and after the reread come to the same as all of them in a row, and a step settled before it is not changed after |
| CoordinatorClasses.Coordinator.ExecuteNextStep | saga/coordinator.go:380-459 | One decision on the current rows: trigger compensation, finish, stop, one attempt at the selected step, or a wait; with its requests and pauses |
| CoordinatorClasses.Coordinator.TriggerCompensation | saga/coordinator.go:659-679 | Moves a running transaction to compensating and leaves any other alone |
| CoordinatorClasses.Coordinator.CollectCompensations | saga/coordinator.go:686-692 | The backward loop builds the compensation list |
| CoordinatorClasses.Coordinator.CompensateAll | saga/coordinator.go:694-715 | The pass writes each listed step by its own undo result in list order, sends exactly those requests, and reports whether all were compensated |
| CoordinatorClasses.Coordinator.SkipPendingSteps | saga/coordinator.go:717-728 | Exactly the steps pending in the snapshot become skipped |
| CoordinatorClasses.Coordinator.ExecuteCompensation | saga/coordinator.go:682-749 | The whole uninterrupted pass, with the recorded verdict, the exact sequence of requests and the pauses |
| CoordinatorClasses.Coordinator.DriveOnce | saga/coordinator.go:296-374 | One iteration acts on the status loaded before the renewal and keeps the lease; rows, requests and pauses |
| CoordinatorClasses.Coordinator.RunLoop | saga/coordinator.go:295-376 | The loop computes the specified final row, requests and pauses in the specified number of iterations |
| CoordinatorClasses.Coordinator.DriveTransaction | saga/coordinator.go:270-376 | Nothing happens when the claim is refused; otherwise the loop runs to the end, the lease is returned, the requests and pauses are those of the loop, and the iteration bound holds |
| CoordinatorClasses.UndoPassMeans | saga/coordinator.go:694-715 | Undoing step by step while rewriting rows, flags and requests gives the same as undoing the whole list first and writing afterwards |
| SagaStore.Store.ClaimTransaction | saga/store.go:986-1007 | Claims a live row that is unlocked, expired or already held by the caller, and says whether it did |
| SagaStore.Store.ClaimRecoverable | saga/store.go:726-809 | The recovery scan takes a live row only if it is unlocked or expired |
| SagaStore.Store.ClaimTimedOut | saga/store.go:814-898 | The timeout scan takes a running or compensating row only past its deadline and unlocked or expired |
| SagaStore.Store.ReleaseTransaction | saga/store.go:1012-1023 | Clears the lock only for its holder |
| SagaStore.Store.UpdateTransactionStatusCAS | saga/store.go:1029-1052 | Writes status and reason only if the expected status is stored, and says whether it did |
| SagaStore.Store.UpdateTransactionStatus | saga/store.go:235-261 | Writes status and reason unconditionally |
| SagaStore.Store.UpdateStepStatus | saga/store.go:565-597 | Writes one step status unconditionally and nothing else; a missing step is reported and changes nothing |
| SagaStore.Store.IncrementStepRetry | saga/store.go:628-648 | Adds one to the retry counter of one step; a missing step is reported and changes nothing |
| SagaStore.Store.IncrementStepPollCount | saga/store.go:651-697 | Counts a poll and postpones the next one in a single database transaction; without the step or its poll task nothing changes and that is reported |
| SagaStore.Store.CreatePollTask | saga/store.go:700-711 | Inserts a task, or moves an existing one and keeps its lock |
| SagaStore.Store.AcquirePollTask | saga/store.go:902-966 | Locks a due task that is unlocked or whose lock expired |
| SagaStore.Store.ReleasePollTask | saga/store.go:969-980 | Clears the lock of a task |
| Dispatch.RunConserves | saga/coordinator.go:113-152 | In every interleaving of submitters and workers an active transaction is in exactly one place (between marking and enqueueing, queued, or driven) and an inactive one in none |
| Dispatch.StepConserves | saga/coordinator.go:113-136 | One step of any submitter or worker keeps that balance, also when the queue is full and the submit is dropped |
| Dispatch.NeverDrivenTwice | saga/coordinator.go:270-276 | No two workers of an instance drive the same transaction, and a driven one is not queued |
| Dispatch.FirstInFirstOut | saga/coordinator.go:122-151 | In every run the workers are handed the transactions in the order in which they were queued, and the rest waits in that order |
| Dispatch.EntersAndLeaves | saga/coordinator.go:114-135 | A transaction becomes active only by being marked, and stops being so only when its worker finishes or its submitter meets a full queue |
| Dispatch.Dispatcher.TryMark | saga/coordinator.go:114-120 | First critical section of Submit: refuses an active transaction |
| Dispatch.Dispatcher.TryEnqueue | saga/coordinator.go:122-135 | Non-blocking send; a full queue unmarks the transaction |
| Dispatch.Dispatcher.Receive | saga/coordinator.go:142-151 | A worker takes the oldest queued transaction |
| Dispatch.Dispatcher.MarkInactive | saga/coordinator.go:271-276 | The deferred unmarking after driving |
| Notify.NoLostWakeUp | saga/coordinator.go:567-652 | A coordinator blocked although its async step is already resolved has a message in its channel or a poll worker between its status write and its send |
| Notify.UnderwayDelivers | saga/poller.go:121-133 | Such a worker makes the wake-up possible by its own next two steps |
| Notify.RunInv | saga/poller.go:94-133 | In every run waiters hold the registered channel, no channel is shared between transactions, and every resolved blocked waiter is deliverable |
| Notify.MessageMeans | saga/poller.go:121-133 | In every run a message in a channel is a result that some worker wrote for the one transaction that channel was made for |
| Notify.ChannelChanges | saga/poller.go:94-133 | A channel changes only by a send while it is empty and by the wake-up of the waiter blocked on it; a full one keeps its message |
| Notify.NotifyTable.RegisterNotify | saga/poller.go:94-106 | Performs the registration step of the interleaving model: the registered channel, or a fresh empty one |
| Notify.NotifyTable.UnregisterNotify | saga/poller.go:111-118 | Performs the deregistration step: removes the entry and leaves the channel itself alone |
| Notify.NotifyTable.NotifyResult | saga/poller.go:121-133 | Performs the look-up and the best-effort send of a worker that has written its result: that result ends up in the registered channel if it is empty, and nothing changes otherwise |
| PollBudget.Poller.ProcessPollTask | saga/poller.go:179-283 | The row after one reply: success, failure, exhausted, rescheduled, released, or a stale task deleted; and the notify steps exactly when the step was settled, after the write |
| PollBudget.Poller.Settle | saga/poller.go:286-365 | The three handlers: write the step, delete its task, then tell the coordinator |
| PollBudget.NewsMeans | saga/poller.go:286-365 | The coordinator is told exactly when a step stops being polled, and told how it ended |
| PollBudget.NewsWakes | saga/poller.go:121-133 | In every run a coordinator blocked on the step can wake up once its task has been settled |
| PollBudget.NewsIsRead | saga/poller.go:121-133 | In every run, what a blocked coordinator with an empty channel gets to read is the very result it is told |
| PollBudget.ReadsWhatIsStored | saga/coordinator.go:613-646 | It reads success if and only if the row now has the step succeeded, and otherwise the row has it failed |
| PollBudget.ReplyMeans | saga/poller.go:179-394 | What each reply leaves of status, count and task: settled steps lose their task, an unclear reply costs one count and sets the next poll, a lost one costs nothing, and nothing else changes |
| PollBudget.PollCountBounded | saga/poller.go:271-282 | Over any replies PollCount stays within PollMaxTimes and a step that left polling has lost its task |
| PollBudget.UnclearRepliesExhaust | saga/poller.go:271-282 | A step whose replies never match survives exactly PollMaxTimes - PollCount of them; the next one fails it and deletes its task; failed requests do not count |
| PollBudget.FirstSettlingReplyDecides | saga/poller.go:258-268 | The first settling reply within the budget decides the step, whatever comes later |
| Replay.AtMostOnce | auth/aksk.go:204-223 | With cleanups at arbitrary times no two Verify calls with the same timestamp and nonce both pass the nonce check, if the time a nonce is kept covers twice the tolerance plus the delay between the two checks of a call and request times are in range |
| Replay.DelayBoundIsExact | auth/aksk.go:204-223 | That bound is necessary as well, with whole-second timestamps: it holds if and only if no timed, in-range run passes twice |
| Replay.NonceKept | auth/nonce.go:56-105 | A stored nonce is still stored for twice the TTL (in 64 bits), whatever calls and cleanups happen in between |
| Replay.WindowMeans | auth/aksk.go:446-455 | The timestamp check means "within tolerance" if and only if the request time is less than 2^63 ns ahead of the clock, where the saturated difference can still be negated |
| Replay.HeaderMeans | auth/aksk.go:438-455 | For a header less than 2^63 ns ahead of the clock: accepted if and only if its second lies within the tolerance on either side of the clock |
| Replay.KeptTwice | auth/nonce.go:56-105 | A new nonce survives a cleanup if and only if at most twice its TTL has passed; other nonces keep their own expiry |
| Replay.DefaultsStopReplays | auth/aksk.go:46-50 | With the default five and fifteen minutes no call passes twice as long as storing lags checking by at most twenty minutes |
| Replay.OutOfRangeRepeats | auth/aksk.go:438-455 | A concrete run outside that range, with a timestamp header the code accepts, in which the same call passes twice |
| Replay.MemoryNonceStore.CheckAndStore | auth/nonce.go:56-76 | Reports a known nonce and changes nothing; stores a new one for twice the TTL |
| Replay.MemoryNonceStore.Cleanup | auth/nonce.go:95-105 | Deletes exactly the entries whose expiry has passed, in any order of the map |
| Replay.Verifier.Verify | auth/aksk.go:195-255 | Timestamp before nonce; the nonce is stored exactly when both earlier checks pass, also if a later check fails |
| CanonicalQuery.CanonicalIffSameParameters | auth/aksk.go:334-362 | Two well-formed queries have equal canonical strings if and only if they carry the same multiset of name and value pairs |
| CanonicalQuery.ListingKeepsPairs | auth/aksk.go:345-359 | Grouping by name, sorting names and values, and listing keeps every pair as often as it was given |
| CanonicalQuery.JoinInjective | auth/aksk.go:356-361 | The joined text determines the list of pairs |
| CanonicalQuery.LeqMeans | auth/aksk.go:349-354 | The order of the sorting is that of byte strings: a prefix comes first, else the smaller byte at the first difference |
| CanonicalQuery.ListingAscends | auth/aksk.go:345-359 | Names ascend in that order, and so do the values under one name |
| CanonicalQuery.CanonicalReadsBack | auth/aksk.go:334-362 | A decoder of its own (split at the ampersand, split at the first equals sign, unescape plus and upper-case percent escapes, each byte in one way only) reads a canonical string back as the given pairs in ascending order |
| CanonicalQuery.SortCanonical | auth/aksk.go:345-354 | Sorting depends on the elements only, not on the order they come in |
| CanonicalQuery.QueryEscapeInjective | auth/aksk.go:357 | Escaped names and values determine the originals |
| CanonicalQuery.QueryEscapeClean | auth/aksk.go:357 | Escaped text holds neither separator |
| CanonicalQuery.BuildCanonicalQueryString | auth/aksk.go:334-362 | Empty stays empty, an unparsable query is returned as it is; any other gives the canonical string, which reads back as the parameters with names and values ascending |
| CanonicalQuery.CollectKeys | auth/aksk.go:345-349 | Names collected in arbitrary map order and sorted give the same list every time |
| CanonicalQuery.ListPairs | auth/aksk.go:351-359 | The nested loops list sorted values under sorted names |
| PathSyntax.ParsePathParts | saga/template.go:149-193 | The loop over index and builder computes the template parts |
| PathSyntax.ParseJSONPathParts | saga/jsonpath.go:97-143 | The loop computes the JSONPath parts |
| PathSyntax.ParsersAgree | saga/jsonpath.go:97-143 | The two parsers return identical parts if and only if no closed bracket group starts a part |
| PathSyntax.PartsOfPrintedPath | saga/template.go:149-193 | Both parsers read a printed list of accessors back as the printed accessors |
| PathSyntax.IndexOfPrinted | saga/template.go:197-217 | A printed accessor reads back as its key, or as its key and index |
| PathSyntax.AtoiOfItoa | saga/template.go:211 | A printed index within 64 bits reads back as itself |
| PathSyntax.AtoiSigned | saga/template.go:211 | A sign is read, and a number outside 64 bits is refused |
| PathSyntax.AtoiRefuses | saga/template.go:211 | A text with anything but digits behind its sign is no number |
| PathSyntax.IndexMeans | saga/jsonpath.go:147-167 | The index is the number between the first opening and the first closing bracket; what follows is ignored |
| PathSyntax.DotMeans | saga/template.go:149-193 | A dot ends a part, and empty parts are dropped, by both parsers |
| PathSyntax.UnclosedMeans | saga/jsonpath.go:97-143 | From an unclosed bracket on everything, dots included, belongs to the last part |
| PathSyntax.LeadingGroupMeans | saga/jsonpath.go:97-143 | A bracket group at the start of a part is a part of its own to the one parser and the beginning of a part to the other |
| PathLookup.ResolveTemplatePath | saga/template.go:104-146 | Follows the parts through objects and indexed arrays, failing on every missing key, wrong type or index out of bounds; on a printed path the text is true or false for a boolean, empty for null, a string or number itself, for the value the structural lookup finds |
| PathLookup.ExtractByPath | saga/jsonpath.go:19-93 | The same behind an optional root, where a number may also index an array directly |
| PathLookup.PrintedPathLookup | saga/jsonpath.go:19-93 | Resolving a printed path is structural lookup along its accessors, for both resolvers |
| PathLookup.ResolversAgree | saga/template.go:104-146 | On printed paths without numeric keys the two resolvers give the same value |
| PathLookup.ChildMeans | saga/jsonpath.go:19-93 | One accessor: a key selects a field, an index an element of an array under a key, a bare number an element of an array where that is allowed, and nothing else selects anything |
| PathLookup.LookupChains | saga/jsonpath.go:19-93 | A longer path is looked up piece by piece, and nothing lies below a scalar |
| PathLookup.MatchPollResult | saga/jsonpath.go:198-217 | Success if the success path finds the success value, failure if it does not and the failure path finds the failure value; empty paths and values never match |
| PathLookup.FoundMeans | saga/jsonpath.go:170-217 | A reply matches a text on a printed path if and only if the lookup finds that boolean, that string, a number of that text, or a tree that prints so |
| PathLookup.RootIsOptional | saga/jsonpath.go:19-40 | A path means the same with the root in front, with or without the dot |
| Render.RenderMeans | saga/template.go:34-59 | Rendering succeeds if and only if every brace group resolves and the filled text holds no nonempty brace group; then the result is the literal bytes interleaved with the values |
| Render.AnyGroupMeans | saga/template.go:54-56 | The scan for leftovers finds something exactly when there is a nonempty brace group |
| Render.LiteralStays | saga/template.go:34-59 | Text before the first opening brace is kept as it is, in front of what the rest fills to |
| Render.GroupGivesWay | saga/template.go:34-59 | A leading group gives way to its value, in front of what the rest fills to |
| Render.EmptyGroupStays | saga/template.go:24-32 | An empty group is literal text |
| Render.RenderIdempotent | saga/template.go:34-59 | Rendering a rendered text again, against any data, changes nothing |
| Render.BraceFreeValuesRender | saga/template.go:34-59 | If every group resolves to a value without braces, rendering succeeds |
| Render.RenderPath | saga/template.go:34-59 | A template that is one printed path renders to the text of the structural lookup along its accessors, and fails exactly when there is none or it holds a brace group |
| Render.RenderValueMeans | saga/template.go:63-101 | Tree rendering yields r if and only if r has the same shape, keys and other leaves and every string leaf is rendered |
| Render.RenderValueSucceeds | saga/template.go:63-101 | It succeeds if and only if every string leaf renders |
| Render.RenderValueIdempotent | saga/template.go:63-101 | A rendered tree renders to itself against any data |
| WaitLoop.WaitForTransaction | saga/engine.go:410-492 | Returns in the first round that settles, with the verdict of that round, the latest good status and the exact pauses |
| WaitLoop.NextBackoff | saga/engine.go:457-464 | The pause after f failures in a row is min(base * 2^(f-1), max) for base <= max |
| WaitLoop.GiveUpMeans | saga/engine.go:444-455 | It gives up if and only if the last retryLimit queries all failed |
| WaitLoop.LatestGoodMeans | saga/engine.go:472-478 | The status handed back is that of the last good answer, and there is none without a good answer |
| WaitLoop.VerdictMeans | saga/engine.go:444-491 | Each verdict by the answer it is given on: succeeded and failed statuses, a missing transaction, a nil status, retryLimit errors in a row, or an undecided answer with the context ended |
| WaitLoop.DelayMeans | saga/engine.go:457-491 | The plain interval after an answer; after errors first the base, then twice the pause before, up to the maximum |
| WaitLoop.SuccessIsFinal | saga/engine.go:479-480 | A success verdict taken from any run stays true for the rest of the run: still succeeded, every step accepted, nothing ever compensated |
| WaitLoop.FailureIsFinal | saga/engine.go:481-485 | A failure verdict stays true for the rest of the run |
| Builder.SagaBuilder.Build | saga/definition.go:231-284 | Succeeds if and only if there are steps and all are valid; then every step has defaults, its index and status pending; otherwise the error of the first invalid step, with only the steps before it rewritten |
| Builder.SagaBuilder.AddStep | saga/definition.go:211-214 | Appends the step |
| Builder.Launched | saga/engine.go:286-341 | What Submit stores is a starting point of the interleaving model: pending, unlocked, all steps pending |
| Builder.LaunchedMeans | saga/definition.go:256-275 | From the steps as the user gave them to the stored rows: MaxRetry 3 and PollMaxTimes 60 stand in for zero, sync for the empty type, every counter starts at zero and every step pending |
| Builder.LaunchedRow | saga/engine.go:286-302 | The stored transaction is pending, unlocked and unpolled, with a deadline timeoutSec after now if and only if timeoutSec is positive |
| Builder.InvalidMeans | saga/definition.go:237-254 | Which gap of a step is reported, and that a step without any is accepted |
| Builder.ChoicesKept | saga/definition.go:256-275 | Polling with GET every five seconds stands in for a missing choice only |
| Builder.CompletedTwice | saga/definition.go:231-284 | Building again changes nothing |

## Left out

- Other transactions: one is followed at a time; batch scans act row by row, and ordering and LIMIT of the listings are not modelled.
- Exactly-once forward execution: not claimed; the snapshot is read before the renewal (saga/coordinator.go:305-336).
- Exclusivity of leases per goroutine: not claimed, only per instance (saga/coordinator.go:198, saga/coordinator.go:262); wake-ups are claimed within one poller only.
- Settlement.CompletedLeavesNothing: does not cover poll workers that are still in flight when compensation has begun; their writes are unconditional (saga/poller.go:297).
- Settlement.RunCovers: the same.
- Guarantee.HarmlessPollsIffNoAsync: takes retry limits as not negative; a step with a negative one, which Build lets through, is never undone, and the "only if" half is then stated by Guarantee.PollFailureBreaks with its own condition.
- Refinement.DriveRefinesSaga: does not model deadlines, failing store calls and interruptions, which are modelled in Protocol.
- Refinement.RunningRefines: the same.
- CoordinatorClasses.Executor.ExecuteStep: does not model failing store calls and an execution context past its deadline; Protocol.ExecStep does.
- CoordinatorClasses.Executor.ExecuteAsyncStep: the same.
- CoordinatorClasses.Executor.RetryUndo: does not model the end of the context during a pause; Protocol.UndoStep does.
- CoordinatorClasses.Executor.CompensateStep: does not model failing store calls and the end of the context; Protocol.UndoStep does.
- CoordinatorClasses.Coordinator.ExecuteNextStep: does not model the deadline checks; Protocol.DriveStep does.
- CoordinatorClasses.Coordinator.ExecuteSyncStep: does not model the deadline checks; Protocol.ExecStep does. Neither does it let a deadline fire during a request, so HandleHTTPError is called for an unexpired context only.
- CoordinatorClasses.Coordinator.ExecuteAsyncStep: the same.
- CoordinatorClasses.Coordinator.WaitForAsyncStep: does not model the deadline, a stop during the wait, and PollResultError, which no poller sends; Protocol.ExecStep does. The message that ends the wait is read off the row it reports on; Notify and PollBudget relate the two.
- CoordinatorClasses.Coordinator.CompensateAll: does not model the stop check between two steps; Protocol.CompStep does.
- CoordinatorClasses.Coordinator.ExecuteCompensation: does not model the early return on a stop; Protocol.CompStep does.
- CoordinatorClasses.Coordinator.DriveOnce: does not model failing loads and a lost renewal; Protocol.DriveStep does.
- CoordinatorClasses.Coordinator.RunLoop: the same, and stops.
- CoordinatorClasses.Coordinator.DriveTransaction: does not model other drivers, failing store calls, deadlines and stops; Protocol does.
- Scanners as goroutines: modelled on values in Protocol; their store calls are also methods of class Store.
- LoopInProtocol.SagaHasARun: takes poll tasks as due at once, since Protocol takes poll intervals as zero; that gives Protocol every run of the source and more.
- Response bodies, current trace context and the texts of last_error: abstracted, the texts to an enumeration.
- SQL, JSON columns, HTTP transport, signing and HMAC: each store method is one atomic row update, each exchange one answer from outside.
- Replay.AtMostOnce: does not model a clock outside the range of 64-bit nanoseconds.
- WaitLoop.WaitForTransaction: the caller's context ends during an arbitrary wait; a context that ends inside a query shows up as a query error.
- CanonicalQuery.BuildCanonicalQueryString: url.ParseQuery is a parameter; a well-formed query is given as its list of decoded pairs.
- CanonicalQuery.SortStrings: is an insertion sort; only the sorted result matters to the source.
- PathLookup.ResolveTemplatePath: takes the formatting of numbers, arrays and objects as given.
- PathLookup.ExtractByPath: the same.
- PathLookup.FoundMeans: the same; the poll worker's use of the match is the reply it is given.
- Render.RenderMeans: takes path resolution as a parameter, so it holds for every resolver.
- Overflow of time.Duration in the exponential pause of compensation: seconds are unbounded.
- lock/, logger/, config/, taskqueue/, trace/, saga/observer and cmd/: wrappers and I/O.
