# Verified protocols and arithmetic of the benchmark and result-journal code

This project models the parts of the microservices repository whose correctness depends on many
steps fitting together, and proves what they promise over every run or every input:

- **Result journal** (`ResultJournal`, `JournalRuns`, `ResultIds`, `IdDecoding`, `DerivedIdRuns`):
  replicas load, commit optimistically and publish, with injected conflicts, ambiguous publish
  acknowledgements and redelivery, for any number of workers and inputs. The journal is a sequential execution of
  distinct inputs, and every accepted publication is the journaled result. The handler is the
  imperative one; the interleavings are built from the same specification functions its methods are
  proved against.
- **Leases over a compare-and-swap store** (`RevisionedStore`, `BootstrapClaim`, `BootstrapRuns`,
  `RunLease`, `LeaseRuns`, `RunRecord`, `RecordRuns`): the token-fenced bootstrap claim, the
  benchmark run lease and the run record. Reads may be stale; a request, once sent, may land at any
  later time or never, and its sender may be told anything about it that the recovery loop allows.
- **Saturation barrier, ladder and schedules** (`SaturationBarrier`, `SaturationCoordinator`,
  `LoadSchedules`, `BenchmarkConfig`): lockstep and agreement of the workers, which worker submits
  which request, how load is split over workers, and what the report expects of it.
- **From checkout to outcome** (`CheckoutOutcome`, `CheckoutEndings`, `CheckoutRuns`,
  `OutstandingLog`, `OutstandingMerge`): many users of a worker share one log of accepted and ended
  orders; the logs of all workers are merged and recounted.
- **Decoders** (`ProtobufWire`, `ProtobufDescriptors`, `ProtobufNames`, `SseDecoder`, `SseBlocks`): the
  protobuf wire reader with the descriptor parser on top of it, and the server-sent-events parser,
  each with its inverse and with what it makes of any input.
- **Fault controller** (`FaultController`) and **resource accounting** (`ResourceCounters`).

`Options`, `Bytes`, `Sums` and `Rounding` are shared helpers.

A key of the store is modelled by the history of the writes that landed on it; its revision is the
length of that history, and a compare-and-swap lands exactly when it expects that length. All
protocols share one monotone clock. Concurrent programs are state machines: a run is a list of
steps, a step that is not enabled changes nothing, and the theorems hold for every list. Loops and
classes of the source are methods and classes here, proved against specification functions.

## What the proofs found

Where a natural promise is false of the code, the code is kept and the exact condition is proved.

- An accepted request can be split into open-loop workers one of which is then refused: at 50.005
  requests a second the remainder share 0.005 is below the minimum (`RemainderShareCanBeRefused`);
  all workers accept if and only if the remainder is at least 0.01 (`WorkersAcceptIff`).
- Terminal run states are not absorbing. A run is active exactly when the last change that set its
  state was a stop request, a start or a running mark (`ActiveIff`, `ActiveExactlyWhen`): from every
  active record a finish can land between the check of a stop and its write
  (`StopMayReviveFinished`). A heartbeat landing after the finish puts `lease_until` back
  (`FinalLeaseIff`).
- Bootstrap publishing is fenced only while the lease lasts: at most one unexpired holder publishes
  (`OneUnexpiredPublisher`), and once the lease of a publisher has run out any other call may come to
  publish beside it (`ExpiredPublisherMayOverlap`, `OverlapHappens`).
- The expected request count of the report is the scheduled one unless, for some worker, rate times
  duration exceeds an integer by a positive amount of at most 1e-9 (`ExpectationMatchesScheduleIff`,
  `ExpectationCanMissOne`).
- A deployment that could not be restored is named in the error the fault controller raises if and
  only if the `restore_failed` record could be written; otherwise the exception of that write
  replaces the restoration error (`FaultController.Call`, `UnnamedFailure`).
- A list of results is accepted verbatim if and only if equal message IDs mean equal results
  (`AcceptedVerbatimIff`).

## Model

| member | source | states |
|---|---|---|
| ResultJournal.InMemoryResultJournal.Load | scripts/testing/stateless_handler_contract.py:52-54 | load returns the stored commit of the input, or nothing |
| ResultJournal.InMemoryResultJournal.TryCommit | scripts/testing/stateless_handler_contract.py:56-82 | what each of the four cases does, field by field: a duplicate returns its stored commit, an injected conflict consumes a version, an outdated version on a new input changes nothing and conflicts, and only the current one commits, at the next version |
| ResultJournal.NewCommitNeedsCurrentVersion | scripts/testing/stateless_handler_contract.py:62-82 | a new input is stored exactly by an attempt at the current version with no injected conflict; an outdated attempt leaves the journal as it is |
| ResultJournal.RecordingPublisher.Publish | scripts/testing/stateless_handler_contract.py:94-103 | every publish is recorded; the first result of an ID is accepted, also when the publish then times out; timeouts come as often as injected |
| ResultJournal.ResultJournalHandler.CommitInput | scripts/testing/stateless_handler_contract.py:122-137 | with c injected conflicts and no other writer a new input commits at version v+c+1 if c is at most the retry bound, else a conflict is raised after bound+1 attempts; the new journal state is given in every case |
| ResultJournal.ResultJournalHandler.PublishCommit | scripts/testing/stateless_handler_contract.py:139-141 | publishes the results in order up to the first timeout |
| ResultJournal.ResultJournalHandler.Handle | scripts/testing/stateless_handler_contract.py:143-146 | commits and then publishes; nothing is published unless the commit was obtained |
| ResultJournal.PublishAllAccepts | scripts/testing/stateless_handler_contract.py:94-103 | after publishing without a timeout every result's ID is accepted, and what was accepted before is unchanged |
| ResultJournal.AcceptedVerbatimIff | scripts/testing/stateless_handler_contract.py:94-103 | publishing a list leaves every result accepted verbatim if and only if equal IDs mean equal results |
| ResultJournal.PublishAllNeverTimesOut | scripts/testing/stateless_handler_contract.py:139-141 | with no injected timeout publishing never stops early and attempts every result once, in order |
| ResultJournal.RepublishChangesNothing | scripts/testing/stateless_handler_contract.py:94-103 | publishing the same results again leaves the accepted ones as they are |
| JournalRuns.JournalIsSequential | scripts/testing/stateless_handler_contract.py:33-146 | every interleaving of handlers, conflicts, timeouts and redeliveries leaves the journal of a sequential execution of distinct inputs; the version is commits plus injected conflicts |
| JournalRuns.CommitsAreExactAndDistinct | scripts/testing/stateless_handler_contract.py:56-82 | each stored commit is what the factory builds at its version for its own input, versions are pairwise distinct and at most the journal's |
| JournalRuns.CommitFollowsItsRead | scripts/testing/stateless_handler_contract.py:56-82 | in every run a commit that lands directly follows the read of the version that led to it: from that read on nobody changed the version or a commit |
| JournalRuns.TriesAreBounded | scripts/testing/stateless_handler_contract.py:122-137 | no worker tries a commit more often than its retry limit allows |
| JournalRuns.NothingStoredChanges | scripts/testing/stateless_handler_contract.py:56-103 | stored commits and accepted publications never change in any continuation of a run |
| JournalRuns.OnlyJournaledResultsArePublished | scripts/testing/stateless_handler_contract.py:139-146 | nothing is attempted or accepted that is not a result of a stored commit |
| JournalRuns.AcceptedPublicationsAreExact | scripts/testing/stateless_handler_contract.py:94-146 | with injective IDs every accepted publication is the journaled result of its ID, and a handler that returned has all results of its commit accepted verbatim |
| JournalRuns.ReturnsAgree | scripts/testing/stateless_handler_contract.py:122-146 | two handlers that return for the same input, on any replica and at any time, return the same commit |
| ResultIds.Utf8Injective | scripts/verify-stateless-phase0.py:79-89 | the UTF-8 encoding of strings is injective |
| ResultIds.PreimageInjective | scripts/verify-stateless-phase0.py:79-89 | the length-prefixed preimage is injective in input and slot for all strings shorter than 2^32 bytes |
| ResultIds.Base64UrlInjective | scripts/verify-stateless-phase0.py:79-89 | unpadded base64url (RFC 4648, section 5) is injective on byte strings of any length |
| ResultIds.DerivedIdsEqualIff | scripts/verify-stateless-phase0.py:79-89 | two derived IDs are equal if and only if input and slot are, or the hash collides on two different preimages |
| DerivedIdRuns.DerivedIdsAreInjective | scripts/verify-stateless-phase0.py:79-89 | derived IDs of stored results are injective when each input's slots differ and the hash does not collide on what is stored |
| DerivedIdRuns.DerivedPublicationsAreExact | scripts/testing/stateless_handler_contract.py:94-146 | with derived IDs every accepted publication of every run is the journaled result |
| IdDecoding.Utf8Decodes | scripts/verify-stateless-phase0.py:79-89 | a UTF-8 decoder (RFC 3629, section 3) undoes the encoding of every string |
| IdDecoding.PreimageReads | scripts/verify-stateless-phase0.py:79-89 | a reader of the tag and of two fields with big-endian lengths gets input and slot back from every preimage |
| IdDecoding.Base64UrlDecodes | scripts/verify-stateless-phase0.py:79-89 | a decoder of unpadded base64url (RFC 4648, section 5) undoes the encoding of every byte string |
| IdDecoding.IdReads | scripts/verify-stateless-phase0.py:79-89 | an ID is br1_ and the text of the hash of bytes from which input and slot can be read |
| RevisionedStore.Key.CompareAndSet | src/benchmarkservice/shared_store.py:243-268 | create and update land exactly when the expected revision is the current one |
| RevisionedStore.Key.UpdateWithRecovery | src/benchmarkservice/shared_store.py:194-225 | replaying a request after lost requests or replies lands it at most once; success means it is stored; a conflict that is due to its own earlier landing implies a lost reply |
| RevisionedStore.LandedIsStable | src/benchmarkservice/shared_store.py:255-268 | a landed write stays, and no other write lands at its revision |
| BootstrapClaim.Acquire | src/currencyservice/bootstrap_claim.js:27-78 | a claim that is acquired is the only write of the call and a proper take-over of the record stored just before it; a holder is reported only if its lease is stored and unexpired; undisturbed on an absent or expired record it acquires; retries are exhausted only by 32 other writes; an error other than a conflict may hide a take-over, and every other outcome writes nothing |
| BootstrapClaim.CompleteClaim | src/currencyservice/bootstrap_claim.js:80-110 | complete returns normally only over a completed record; its own write completes the record with the same owner and token within its lease; a claim is lost only if it is absent, foreign or expired; undisturbed on a live claim it completes; retries are exhausted only by 32 other writes |
| BootstrapClaim.EnsureBootstrap | src/currencyservice/bootstrap_claim.js:118-139 | whatever the clock, the other workers, the network and publish() do: a normal return is over a completed record, a publish starts only after the call took the claim for the given or the default 30 seconds, and its own completion comes only after its publish finished; undisturbed on a free key, within its lease, it publishes |
| BootstrapRuns.ClaimsNeverOverlap | src/currencyservice/bootstrap_claim.js:27-78 | each successful acquire has a strictly larger token, and validity intervals of two acquires are disjoint |
| BootstrapRuns.CompletionIsFenced | src/currencyservice/bootstrap_claim.js:80-110 | a completion directly follows the claim it completes, by the same caller, within its lease, after its publish finished |
| BootstrapRuns.CompletedIsAbsorbing | src/currencyservice/bootstrap_claim.js:53-75 | nothing lands on a completed record in any continuation |
| BootstrapRuns.ReturnMeansPublished | src/currencyservice/bootstrap_claim.js:118-139 | a normal return of ensureBootstrap on any worker implies a finished publish under the completed token |
| BootstrapRuns.PublishesAreBounded | src/currencyservice/bootstrap_claim.js:118-139 | the number of publishes started never exceeds the stored token |
| BootstrapRuns.OneUnexpiredPublisher | src/currencyservice/bootstrap_claim.js:118-139 | at most one call publishes under an unexpired lease |
| BootstrapRuns.ExpiredPublisherMayOverlap | src/currencyservice/bootstrap_claim.js:118-139 | the converse of OneUnexpiredPublisher: from every reachable world in which a call publishes under the stored claim after its lease ran out, any call that has not begun can come to publish beside it without time passing |
| BootstrapRuns.OverlapHappens | src/currencyservice/bootstrap_claim.js:118-139 | such a world is reached: two calls publish, one with an expired lease |
| RunLease.AcquireLease | src/benchmarkservice/control.py:104-132 | an acquired lease follows an absent or expired one at the clock reading of that very try; a conflict before the last try means an unexpired lease is stored; undisturbed on an absent or expired lease it acquires; every write of the call, also one whose reply was lost, takes an absent or expired lease |
| RunLease.RenewLease | src/benchmarkservice/job.py:80-101 | every write of the call renews an unreleased lease of the same run to the clock reading plus 90 seconds; not renewing means an absent, foreign or released lease, or 12 lost races; undisturbed on its own lease it renews |
| RunLease.ReleaseLease | src/benchmarkservice/control.py:134-150 | every write of the call, also one whose reply was lost, follows a lease of the same run and leaves it expired and released; undisturbed on its own lease it releases; giving up takes 12 lost races |
| LeaseRuns.LeasePassesOnlyWhenExpired | src/benchmarkservice/control.py:104-132 | the lease passes to another run only if it had expired, or was released, at the acquirer's clock reading, which is not in the future |
| LeaseRuns.LostForGood | src/benchmarkservice/job.py:80-120 | once a run is released or replaced no later record is an unreleased lease of it |
| LeaseRuns.RenewalMeansHeldThroughout | src/benchmarkservice/job.py:80-101 | a successful renewal means the run held the lease at every revision since it acquired it |
| LeaseRuns.HolderIsStored | src/benchmarkservice/job.py:80-101 | a run's last lease is unreleased and unexpired if and only if it is the stored record |
| LeaseRuns.AtMostOneHolder | src/benchmarkservice/control.py:104-150 | at most one run has a last lease that is unreleased and unexpired, even with replayed and hidden successes |
| RunRecord.Mutate | src/benchmarkservice/control.py:163-180 | what mutate writes is the change applied to the record stored just before it; undisturbed on a stored record it succeeds; contention means 12 lost races; without lost replies a failing mutate writes nothing |
| RunRecord.StopRequestedIff | src/benchmarkservice/control.py:324-345 | a stop is requested if and only if a stop request landed, whatever landed after it |
| RunRecord.CompletedIff | src/benchmarkservice/job.py:556-574 | the state is completed if and only if the last state-setting change is a completed finish and no stop was ever requested |
| RunRecord.SummaryIsLastFinish | src/benchmarkservice/job.py:556-574 | summary and artifacts are those of the last finish that landed |
| RunRecord.FinalLeaseIff | src/benchmarkservice/job.py:389-408 | lease_until is what the last start, heartbeat or finish made of it |
| RunRecord.ActiveIff | src/benchmarkservice/control.py:324-345 | over any list of changes the run is active if and only if the last change that set a state was a stop request, a start or a running mark |
| RunRecord.StateIsLastSet | src/benchmarkservice/job.py:556-574 | over any list of changes the state is exactly the one the last change to set a state names, a finish being stopped if a stop was requested before it |
| RunRecord.ExitCodeIsLastFinish | src/benchmarkservice/job.py:556-574 | the exit code is that of the last finish |
| RunRecord.MessageIsLastGiven | src/benchmarkservice/job.py:556-574 | the message is the last reason or note given |
| RunRecord.JobIsLastNamed | src/benchmarkservice/control.py:215-226 | job name and worker count are the last ones given |
| RunRecord.TerminalStateLeftIff | src/benchmarkservice/control.py:324-345 | one step of ActiveIff: which changes leave a terminal state |
| RunRecord.ChangesAreIdempotent | src/benchmarkservice/job.py:60-77 | applying a change again after a hidden success changes nothing |
| RecordRuns.RecordIsFold | src/benchmarkservice/control.py:163-180 | over all interleavings the record is the fold, in landing order, of the changes that landed, and every mutate that returned is among them |
| RecordRuns.StatusIsLastSaid | src/benchmarkservice/control.py:163-180 | over all interleavings every field of the stored status is what the last change to it that landed says |
| RecordRuns.CompletedNeverStopRequested | src/benchmarkservice/job.py:556-574 | completed never co-exists with a stop request, and a stop request is never cleared |
| RecordRuns.ActiveExactlyWhen | src/benchmarkservice/control.py:163-180 | the same over all interleavings, where stop and _reconcile check the record they read and mutate another |
| RecordRuns.StopMayReviveFinished | src/benchmarkservice/control.py:324-345 | from every reachable active record, a finish can land between the state check of a stop and its write, and the stop then leaves the terminal state again |
| RecordRuns.CompletedRunRevived | src/benchmarkservice/control.py:324-345 | a run in which the record is completed and then stopping |
| RecordRuns.FinishedSummaryIsKept | src/benchmarkservice/job.py:556-574 | once a finish landed, in every continuation summary and artifacts are those of the last finish that landed, that one or a later one |
| RecordRuns.OnlyFinishIsKept | src/benchmarkservice/job.py:556-574 | with a single finishing Job they never change again |
| SaturationBarrier.Lockstep | src/benchmarkservice/saturation.py:333-439 | no worker is past a rung that another has not posted, and two workers' rungs differ by at most one |
| SaturationBarrier.DecisionsAgree | src/benchmarkservice/saturation.py:318-439 | all workers that left a rung were told the same decision, which evaluates all posted progress against the goodput known before; its count is the sum of theirs, and it stops them exactly on the last rung |
| SaturationBarrier.PostedCountIsExact | src/benchmarkservice/locustfile.py:1519-1568 | the clamp of the posted completed count never fires |
| SaturationBarrier.PostsAreWindowOrders | src/benchmarkservice/locustfile.py:1519-1568 | what a worker posts for a rung is exactly the number of orders that completed between the start and the end of its window |
| SaturationBarrier.DecidedCountIsWindowOrders | src/benchmarkservice/saturation.py:333-439 | the decision on a rung counts exactly the orders that completed inside its windows on all workers |
| SaturationBarrier.RungsNeverOvercount | src/benchmarkservice/locustfile.py:1519-1568 | the counts of all decided rungs together never exceed the orders that completed |
| SaturationBarrier.LadderStopsTogether | src/benchmarkservice/locustfile.py:1519-1568 | at the ladder of a valid configuration the workers run its rungs in lockstep, and the decision that stops them is exactly the one on its final rung |
| SaturationCoordinator.SaturationCoordinator.Collect | src/benchmarkservice/saturation.py:318-373 | worker 0's list is what every worker posted for the rung, in worker order, or it timed out |
| SaturationCoordinator.SaturationCoordinator.FinishRung | src/benchmarkservice/saturation.py:333-439 | a worker posts the orders between its two readings and returns the posted decision; worker 0 decides on exactly what all workers posted, as LogIsExplained says, compares with the goodput it last knew, posts the decision and logs it |
| SaturationCoordinator.LogIsExplained | src/benchmarkservice/saturation.py:42-142 | every logged decision counts what all workers completed and what the first worker with both observer readings saw processed; goodput is that a second; a backlog grows rapidly at ten messages a second or more; it stops the run exactly on the final rung |
| SaturationCoordinator.ProcessedNeverNegative | src/benchmarkservice/saturation.py:375-402 | the processed count is never negative, however readings are missing or observers change |
| SaturationCoordinator.PlateauIff | src/benchmarkservice/saturation.py:42-93 | over the whole log, without NATS, a rung is called saturated if and only if its goodput is no higher than the previous rung's |
| SaturationCoordinator.PlateauAgainstLastKnown | src/benchmarkservice/saturation.py:42-93 | in general a rung stops increasing if and only if its goodput is no higher than that of the last rung whose goodput was known, unless the backlog grows rapidly |
| BenchmarkConfig.OpenLoadIsConserved | src/benchmarkservice/config.py:310-347 | open-loop shares lie in (0, 50] and add up to the arrival rate |
| BenchmarkConfig.WorkersAcceptIff | src/benchmarkservice/config.py:256-267 | every worker's split configuration is accepted if and only if the remainder share is at least 0.01 |
| BenchmarkConfig.RemainderShareCanBeRefused | src/benchmarkservice/config.py:310-347 | at an arrival rate of 50.005 the second worker's configuration is refused |
| BenchmarkConfig.ClosedLoadIsConserved | src/benchmarkservice/config.py:310-347 | closed-loop user shares lie in [1, 1000], differ by at most one and add up to the users |
| BenchmarkConfig.ClosedWorkersAccept | src/benchmarkservice/config.py:256-267 | closed-loop spawn rates add up to the spawn rate, stay above the workers' floor of 0.001, and every worker's configuration is accepted |
| BenchmarkConfig.SeedsAreDistinct | src/benchmarkservice/config.py:310-347 | worker seeds are pairwise distinct |
| BenchmarkConfig.SeedsCountUp | src/benchmarkservice/config.py:317-324 | worker 0 keeps the requested seed and each further worker has the next one, wrapping at 2^31 |
| BenchmarkConfig.OnlyWorkersAreConfigured | src/benchmarkservice/config.py:310-315 | a configuration exists exactly for the indices of the workers |
| BenchmarkConfig.SaturationWorkerCount | src/benchmarkservice/config.py:278-294 | a saturation run has the fewest workers of 50 requests a second that reach its highest rate |
| BenchmarkConfig.SaturationWorkersKeepLadder | src/benchmarkservice/config.py:335-339 | workers of a saturation run keep the global ladder and load |
| BenchmarkConfig.MetricsAreCollectedOnce | src/benchmarkservice/config.py:317-324 | only worker 0 collects metrics, and no worker changes the phases of the run |
| LoadSchedules.ScheduleWindow | src/benchmarkservice/locustfile.py:1599-1651 | a worker submits exactly the ordinals below rate * duration - 1e-9 that are its own, in order and once, each at ordinal / rate inside the window, spawned unless at the concurrency limit |
| LoadSchedules.WindowsSubmitOnce | src/benchmarkservice/locustfile.py:1599-1651 | an ordinal is submitted by some worker if and only if it is below rate * duration - 1e-9, and then by exactly one, once |
| LoadSchedules.EveryOrdinalOnce | src/benchmarkservice/locustfile.py:1599-1651 | every ordinal below the scheduled count is submitted by exactly one worker, once |
| LoadSchedules.WindowIsShared | src/benchmarkservice/locustfile.py:1599-1651 | the workers' counts add up to the scheduled count and differ by at most one |
| LoadSchedules.RunLadder | src/benchmarkservice/locustfile.py:1519-1568 | the ladder runs exactly the configured number of rungs, their durations add up to the run's, each climbs by ten requests a second up to the maximum, and exactly the last one is final |
| LoadSchedules.ScheduleLadder | src/benchmarkservice/locustfile.py:1519-1568 | a worker runs such a window on every rung of the ladder, at that rung's rate and duration |
| LoadSchedules.LadderSubmitsOnce | src/benchmarkservice/locustfile.py:1519-1568 | on every rung of the ladder every ordinal of its window is submitted by exactly one of the workers, once, and no other is |
| LoadSchedules.LadderStaysBelowEffectiveMax | src/benchmarkservice/config.py:297-308 | no rung exceeds the effective maximum rate and the last one reaches it |
| LoadSchedules.ScheduleOpenLoop | src/benchmarkservice/locustfile.py:1391-1429 | the open-loop driver comes to ceil(rate * seconds) indices, each at index / rate inside the window, spawned unless at the concurrency limit |
| LoadSchedules.ClampNeverFires | src/benchmarkservice/reporting.py:1174-1188 | the inner max of the expected requests never fires |
| LoadSchedules.ExpectationTelescopes | src/benchmarkservice/reporting.py:1174-1188 | the per-second expectations add up to ceil(rate * T - 1e-9) per worker, and to nothing beyond the submission window |
| LoadSchedules.DueEqualsScheduledIff | src/benchmarkservice/reporting.py:1174-1188 | expectation and schedule of a worker differ, by one, exactly when rate * T exceeds an integer by at most 1e-9 |
| LoadSchedules.DueNeverExceedsScheduled | src/benchmarkservice/reporting.py:1174-1188 | the expectation never exceeds the schedule, and equals it exactly when that holds for no worker |
| LoadSchedules.ExpectationMatchesScheduleIff | src/benchmarkservice/reporting.py:1174-1188 | the whole run's expectation is what the drivers schedule, under exactly that condition |
| LoadSchedules.ExpectationCanMissOne | src/benchmarkservice/reporting.py:1174-1188 | a valid configuration for which two requests are scheduled and one is expected |
| OutstandingLog.ArtifactRecorder.Accept | src/benchmarkservice/runtime.py:172-175 | an acceptance is logged with the count after it |
| OutstandingLog.ArtifactRecorder.Finish | src/benchmarkservice/runtime.py:177-180 | an outcome is logged with the clamped count after it |
| OutstandingLog.CountMoves | src/benchmarkservice/runtime.py:172-180 | the count goes up by one for an acceptance, down by one for an outcome, and never below zero |
| OutstandingLog.CountIsOpenTransactions | src/benchmarkservice/runtime.py:172-200 | in a paired log the count is the number of transactions accepted and not ended |
| OutstandingLog.PairedNeverClamps | src/benchmarkservice/runtime.py:177-180 | the clamp never fires on a paired log |
| OutstandingMerge.MergeLogs | src/benchmarkservice/parallel.py:116-149 | the merge is an order-preserving interleaving of all logs, sorted if they are |
| OutstandingMerge.Rebase | src/benchmarkservice/parallel.py:137-149 | every merged record gets the running count of the merged log and keeps everything else |
| OutstandingMerge.RebasedCountIsSumOfOwn | src/benchmarkservice/parallel.py:137-149 | the rebased count after each record is the sum of all workers' latest own counts, and its clamp never fires |
| OutstandingMerge.MergeOutstanding | src/benchmarkservice/parallel.py:116-149 | the whole merge: each output record is the merged record with the sum of the workers' own counts |
| CheckoutOutcome.React | src/benchmarkservice/locustfile.py:750-1052 | one reaction of a checkout takes the step that CheckoutRuns interleaves, on the context and on the log |
| CheckoutOutcome.CheckoutToOutcome | src/benchmarkservice/locustfile.py:750-1052 | whatever responses, events, reconnects and deadlines come, an accepted checkout logs its acceptance and then its outcome once each, any other logs nothing, and it counts as completed once, if that is its outcome |
| CheckoutOutcome.CompletedWasSent | src/benchmarkservice/locustfile.py:964-1040 | a checkout is reported completed only on an order event that says so for the order its 202 response named |
| CheckoutEndings.RefusedPost | src/benchmarkservice/locustfile.py:796-840 | a post that is not accepted ends the checkout at once with the outcome of its status, and logs nothing |
| CheckoutEndings.BadLocation | src/benchmarkservice/locustfile.py:842-853 | an accepted checkout whose location leads nowhere ends as an invalid response |
| CheckoutEndings.FirstEndDecides | src/benchmarkservice/locustfile.py:855-1051 | whatever a waiting checkout meets, it ends with exactly what the first stimulus to end the wait says: the terminal status of its own order as sent, a foreign order, a broken protocol, a refused stream, drain or timeout; 404, 503 and broken streams do not end it |
| CheckoutEndings.WaitsOtherwise | src/benchmarkservice/locustfile.py:855-1051 | without such a stimulus it still waits |
| CheckoutEndings.LoggedEnding | src/benchmarkservice/locustfile.py:750-1052 | from the stimuli to the log: an accepted checkout that ends and is reported has logged its acceptance and then exactly that ending, and counts as completed if it is COMPLETED |
| CheckoutRuns.LogIsPaired | src/benchmarkservice/locustfile.py:750-1052 | for all users of a worker interleaved, every terminal follows its accept and nothing is logged twice |
| CheckoutRuns.OutstandingIsOpenCheckouts | src/benchmarkservice/runtime.py:172-180 | the outstanding count is the number of checkouts accepted and not ended |
| CheckoutRuns.ReportsAgree | src/benchmarkservice/runtime.py:158-169 | the completed count is the number of checkouts reported completed, and log and contexts agree on every outcome |
| CheckoutRuns.MergedCountIsOpenCheckouts | src/benchmarkservice/parallel.py:116-149 | however the workers' logs interleave, the final merged count is the number of open checkouts on all workers |
| ProtobufWire.ReadVarint | scripts/verify-phase0-contracts.py:40-52 | read_varint agrees with the varint of the remaining bytes, ten bytes at most, and reports where it ends |
| ProtobufWire.VarintBounds | scripts/verify-phase0-contracts.py:40-52 | a varint that is read is below 2^70 and takes at least one byte |
| ProtobufWire.VarintIsGroups | scripts/verify-phase0-contracts.py:40-52 | a varint ends at its first byte below 128, also when longer than need be, and has the value of its seven-bit groups; without such a byte among the first ten there is none |
| ProtobufWire.VarintRoundTrip | scripts/verify-phase0-contracts.py:40-52 | reading inverts base-128 encoding for every value below 2^70, whatever follows ('Base 128 Varints' of the Protocol Buffers Encoding specification) |
| ProtobufWire.FieldRoundTrip | scripts/verify-phase0-contracts.py:55-78 | an encoded field is read back, whatever follows, and all of it is used up |
| ProtobufWire.FieldsRoundTrip | scripts/verify-phase0-contracts.py:55-78 | decoding inverts encoding of any list of fields ('Message Structure') |
| ProtobufWire.DecodeConcatenation | scripts/verify-phase0-contracts.py:55-78 | decoding a concatenation is the concatenation of the decodes |
| ProtobufWire.CanonicalForm | scripts/verify-phase0-contracts.py:55-78 | re-encoding what was decoded and decoding that gives the same fields |
| ProtobufWire.ChunksAreShorter | scripts/verify-phase0-contracts.py:55-78 | every length-delimited payload is strictly shorter than its message |
| ProtobufWire.WireFields | scripts/verify-phase0-contracts.py:55-78 | the loop computes exactly the decoded fields or the first error |
| ProtobufDescriptors.SpelledMessageParses | scripts/verify-phase0-contracts.py:109-132 | parsing any encoding of a message descriptor, nested to any depth, its fields in any order, with unknown fields and without default values, gives its tables of messages, fields and enums |
| ProtobufDescriptors.SpelledFieldsParse | scripts/verify-phase0-contracts.py:109-132 | parsing any encodings of field descriptors gives their field table |
| ProtobufDescriptors.SpelledEnumsParse | scripts/verify-phase0-contracts.py:99-107 | parsing any encodings of enum descriptors gives their value tables |
| ProtobufDescriptors.OmittedFieldSpells | scripts/verify-phase0-contracts.py:109-132 | a field descriptor written without its default values is one of its encodings |
| ProtobufDescriptors.OmittedValueSpells | scripts/verify-phase0-contracts.py:99-107 | an enum value written without its default values is one of its encodings |
| ProtobufDescriptors.MessageRoundTrip | scripts/verify-phase0-contracts.py:109-132 | encoding then parsing a message descriptor is the identity on its tables |
| ProtobufDescriptors.EnumsRoundTrip | scripts/verify-phase0-contracts.py:99-107 | encoding then parsing enum descriptors gives their value tables |
| ProtobufDescriptors.FieldInfosRoundTrip | scripts/verify-phase0-contracts.py:109-132 | encoding then parsing field descriptors gives their field table |
| ProtobufNames.NamesArePaths | scripts/verify-phase0-contracts.py:109-132 | parsing a message enters exactly the messages and enums in it, at any depth, each under the dot-joined path to it |
| ProtobufNames.PathsStayApart | scripts/verify-phase0-contracts.py:109-132 | different paths give different names, also for equally named messages |
| ProtobufNames.LastFieldWins | scripts/verify-phase0-contracts.py:116-128 | a field table has exactly the field numbers of its message, and for each what the last field with it says |
| ProtobufDescriptors.DescriptorTables.AddMessageFrom | scripts/verify-phase0-contracts.py:109-132 | the in-place parser terminates and fills the tables as the specification function says, or reports its error |
| SseDecoder.IterSseEvents | src/benchmarkservice/sse.py:62-106 | the loop yields the events of the specification fold |
| SseDecoder.DecodeConcat | src/benchmarkservice/sse.py:62-106 | decoding in pieces gives the same events as decoding at once |
| SseDecoder.DecodeEncoded | src/benchmarkservice/sse.py:62-106 | decoding inverts an encoder for every list of events; the last event ID carries over |
| SseDecoder.CommentsAreIgnored | src/benchmarkservice/sse.py:90-92 | comment lines inserted anywhere change nothing |
| SseDecoder.TerminatorsAreIgnored | src/benchmarkservice/sse.py:75-76 | LF, CR LF, CR or missing line ends, chosen line by line, change nothing |
| SseDecoder.ByteOrderMarkIsSkipped | src/benchmarkservice/sse.py:76-78 | one byte order mark at the start of the stream is skipped |
| SseDecoder.StreamRoundTrip | src/benchmarkservice/sse.py:62-106 | all of these at once, with an unterminated last event dropped, also one cut off inside a line (WHATWG HTML Living Standard, section 9.2.6) |
| SseDecoder.JoinedDataSplits | src/benchmarkservice/sse.py:82-86 | the joined data of an event determines its data lines |
| SseBlocks.BlocksDecode | src/benchmarkservice/sse.py:62-106 | any stream of blocks decodes to the events its fields give: the last type, all data, the last ID without a NUL carried over, nothing without data; unknown fields, blank lines, comments and the ways to write a field change nothing else |
| SseBlocks.SpelledStep | src/benchmarkservice/sse.py:92-106 | a line has the effect of its field, with or without the space or the colon |
| SseBlocks.Heartbeat | src/benchmarkservice/sse.py:80-92 | a comment and a blank line change nothing at all |
| FaultController.FaultController.WaitUntil | src/benchmarkservice/fault_tolerance.py:172-181 | an interruption is seen only while time is left; otherwise the deadline has passed |
| FaultController.FaultController.TakeDown | src/benchmarkservice/fault_tolerance.py:222-235 | the deployment is tracked for rollback before it is scaled, never scaled early, and nothing else is down |
| FaultController.FaultController.BringBack | src/benchmarkservice/fault_tolerance.py:236-253 | tracking ends exactly when the scale-up succeeded |
| FaultController.FaultController.Restore | src/benchmarkservice/fault_tolerance.py:259-281 | the rollback's outcome, by what its calls and log writes answer |
| FaultController.FaultController.Call | src/benchmarkservice/fault_tolerance.py:183-281 | for every pattern of failures and interruptions: never two deployments down; each touched one was last set to its replicas unless the last scale of all, its own, failed; it then goes unnamed in the restoration error if and only if the record of its failed restoration was lost too, which is exactly when that loss replaces the error; a run without failures follows the plan and its log |
| FaultController.UnnamedFailure | src/benchmarkservice/fault_tolerance.py:259-281 | a run of the controller, from any plan, in which a deployment stays down and no error names it |
| FaultController.RestoredIsOriginal | src/benchmarkservice/fault_tolerance.py:183-281 | a touched deployment that is not down has its original replicas as its last successful scale |
| FaultController.UndisturbedIsIntact | src/benchmarkservice/fault_tolerance.py:183-281 | it really has them, even where failing calls took effect |
| FaultController.OneAwayInPlannedRun | src/benchmarkservice/fault_tolerance.py:347-421 | in a safe history of an accepted plan at most one deployment of the cluster differs from its original replicas at any moment |
| FaultController.RunPlan | src/benchmarkservice/fault_tolerance.py:347-421 | planning and running: at most one deployment of the cluster is away from its replicas at any moment, and at the end only one whose last scale failed |
| FaultController.TimelineIsOrdered | src/benchmarkservice/fault_tolerance.py:347-421 | an accepted plan's outages start and last as the arguments say, are ordered and disjoint, and the whole recovery time follows them |
| FaultController.TimesChecked | src/benchmarkservice/fault_tolerance.py:347-379 | the arguments are accepted if and only if they meet every documented bound |
| ResourceCounters.ResourceSummary | src/benchmarkservice/reporting.py:405-575 | the loops compute, for every counter, the overall total, each service's total and the memory trapezoid |
| ResourceCounters.UsedIsRise | src/benchmarkservice/reporting.py:455-560 | a counter that went up adds its rise and one that went back adds nothing; disk latency counts only while both counters are reported |
| ResourceCounters.ServicesAddUp | src/benchmarkservice/reporting.py:440-575 | for every counter the services' totals add up to the overall total |
| ResourceCounters.NeverNegative | src/benchmarkservice/reporting.py:440-575 | no total is ever negative |
| ResourceCounters.TotalsTelescope | src/benchmarkservice/reporting.py:440-575 | with the same pods in every sample, increasing timestamps and monotone counters a total is the last level less the first |
| ResourceCounters.ServiceMemoryIsBounded | src/benchmarkservice/reporting.py:440-575 | the entries of a summary add up to its totals for every counter, and its services' memory-seconds to at most the overall trapezoid, with equality when the pods stay the same |
| ResourceCounters.PodMemoryIsBounded | src/benchmarkservice/reporting.py:440-575 | the same for the pods that both ends of each interval have |
| ResourceCounters.TwoSamples | src/benchmarkservice/reporting.py:447-460 | the memory of two samples is the mean of their levels times the time between them |
| ResourceCounters.LinearMemoryIsExact | src/benchmarkservice/reporting.py:447-460 | for memory that changes linearly the sampled byte-seconds are exact, however often it is sampled |
| ResourceCounters.ElapsedIsWholeTime | src/benchmarkservice/reporting.py:440-444 | the sampled time is the whole time when timestamps do not go back |

## Left out

- SHA-256 is a parameter; the theorems about derived IDs assume it does not collide on the preimages actually stored.
- Floating point: rates, times and counters are exact real numbers, and `round()` and unit conversions of results are presentation.
- Liveness: retries may be exhausted, waits may time out, and a controller whose own create was hidden gives up; only safety is claimed.
- The store's connections, delays and deadlines: the recovery loop is a finite list of what happened to each delivery of a request; failing reads are not modelled in the imperative lease and mutate loops.
- NATS revisions are per stream; here a revision is the position in the key's own history, which is all a compare-and-swap uses.
- Which lease a Job that disappeared still has: `_reconcile` compares `lease_until` with the clock before it calls a run stopped or interrupted; here it may decide at any time.
- The claim key's format check and the back-off delays of `bootstrap_claim.js`; timestamps, owners and job fields of the run record and the lease that no branch reads.
- A result factory that raises; in the reference handler it is a function of the input and the version.
- SaturationCoordinator.SaturationCoordinator.FinishRung: does not model the remaining fields of a decision (rates, counts and reasons that are only reported); `round(_, 6)` is a parameter, and `consumer_pending_total` is not modelled.
- SaturationBarrier.DecisionsAgree: that a single worker uses no backend is modelled in FinishRung, not in the interleavings.
- The file and NATS coordination backends: posting puts an object that a later wait reads; a worker that stops waiting gives up.
- RevisionedStore.Key.OtherClients: chooses any writes by other clients, so it states only that nothing is removed and none of them is the caller's.
- OutstandingMerge.MergeLogs: models the heap of `heapq.merge` by choosing the least head, ties by worker index; records other than the outstanding log are not merged.
- OutstandingLog.ArtifactRecorder.Finish: does not model the lower-casing of the logged outcome.
- OutstandingLog.ArtifactRecorder.Accept: does not model a recorder whose file is closed, which counts but does not log.
- CheckoutOutcome.React: models each suspension point of the coroutine as a stimulus; response times, HTTP measurements and receipt fields of the context are not modelled, and the parsing of the Location is a stimulus.
- ProtobufWire.ReadVarint: models the bitwise or of shifted groups as addition, which is the same because the groups do not overlap.
- ProtobufWire.WireFields: collects the fields that the generator yields one by one; fields before an error are not observed.
- ProtobufDescriptors.SpelledMessageParses: names are byte strings; a name that is not UTF-8 raises in the source.
- SseDecoder.IterSseEvents: decodes text lines; UTF-8 decoding and its error, and a stream cut inside a character, are not modelled. Unlike the WHATWG standard the code ends lines at LF only and keeps an empty event type, and so does the model.
- FaultController.FaultController.Call: the plan file written before the first fault, the text of records and error messages, and signals other than the stop event are not modelled.
- ResourceCounters.ResourceSummary: the maximum sampled memory, the summary of a single sample, and the ratios and averages derived from the totals are not modelled; parsing gives each pod its defaults.
- Kubernetes objects, manifests, HTTP, the user interface, plotting, static guardrails, and the services' own handlers are outside the model.
