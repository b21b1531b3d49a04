# Pulse: verified models of its protocols, aggregation and codec

Pulse is an at-least-once job engine: leaders dispatch scheduled load windows as Kafka jobs, workers
claim, run and settle them under Redis leases, and an aggregator merges slice results into run
summaries that leave through a durable outbox. This project models that machinery in Dafny and proves
what it keeps. `dafny verify dfyconfig.toml` checks everything.

How the parts are modelled:

- **Redis scripts.** Each Lua script is one atomic function of the record it touches (`...Step`), and
  a class performs the same script field by field (`ExecutionRecord`, `LeaderRecord`, `ScheduleHash`,
  `RunHash`). Redis time is whole milliseconds; a key whose expiry has passed does not exist for the
  next script.
- **Protocols.** Workers, schedulers, publishers and clients are state machines over those scripts.
  A commit and a receive are several steps, with rebalances between any two (`Settlement`);
  `CommitHistory` says what the commit fence guarantees, and `CommitOrder`, `CommitQueue`,
  `CommitRegress` and `CommitWitness` when offsets move backwards.
  Crashes, lost or late responses, lease expiry, rebalances and redelivery may happen at any step.
  Clocks run at the same rate with arbitrary offsets. `LeaseAnswers`, `DispatchAnswers` and
  `SettlementAnswers` say what every script and worker step must answer in every reachable state;
  `SettlementProgress` and `DispatchProgress` that from every such state the work can still be finished.
- **Aggregation.** `RunRecord` is the durable record of one run with its index entries, `RunLaws` and
  `RunOutcomes` what every script sequence keeps, `RunDelivery` order independence, `SummaryOutbox`
  the publication protocol with expiring records, `OutboxWitness` runs that reach its failing cases,
  `RunAggregator` the in-process aggregator, `AggregationRefinement` the simulation between the two;
  `RunAnswers` and `AggregatorAnswers` fix every reply by the history of accepted results.
- **Codec.** `Wire`, `Codec`, `Messages` are the functions, `CodecLoops` the loops that compute them,
  `MessageRoundTrip`, `PackedFields` and `TypedMessages` the round trip, `UnknownFields` forward
  compatibility, `DecodeRules` and `EncodeRules` the two directions against the wire format.
- **Arithmetic.** `Planning`, `Backoff`, `Pacing` and `Identity` cover slice plans, retry sleeps, the
  token bucket with the launch loop, and identity strings; `ScenarioTask` is one launched task, poll by
  poll. Rates and seconds are exact reals.
- **EndToEnd** runs dispatch and settlement together over the jobs topic.

Where the code does not meet an obvious claim, the model follows the code and states when the claim
holds:

- A lease deadline never outlives the Redis lease exactly when the reserve covers both roundings
  (`BudgetNeverOutlivesLease`, `SmallReserveBreaksExclusion`).
- Committed offsets never move backwards exactly when the broker never applies a commit that another
  member has overtaken since the record's assignment (`OffsetsRegressExactlyByLateCommits`). Such a
  commit needs a revoke and assign cycle between receipt and stamp, or between the checks and the
  broker (`LateCommitSlipsPastTheCheck`); both happen (`RegressBeforeTheStamp`,
  `RegressAfterTheChecks`). No record is lost either way.
- A rejected result leaves a run record unchanged exactly when it does not fill unset histogram bounds
  (`RejectionChangesOnlyUnsetBounds`); a cancelled run without slices then stops decoding
  (`RejectedResultBreaksSummary`).
- A finalized run leaves the outbox only after its current revision was published, exactly when no
  acknowledgement of an expired record hits the same unpublished revision of its successor
  (`OutboxEmptiesOnlyAfterPublication`). Publishers that acknowledge within the retention of their load
  are safe (`PromptPublishersAreSafe`); one that pauses longer is not (`StrayAckHappens`).
- A redelivered result is a duplicate exactly when it carries a histogram (`RedeliveryIsDuplicate`,
  `EmptyHistogramIsRefusedAgain`). The store interface calls every repeated identity a duplicate
  (src/application/aggregation.rs:140-141); the script refuses the others.
- Two summaries of one revision are equal exactly when no slice arrived in between and no rejected
  result set the unset bounds (`SameRevisionSameSummary`, `LateSliceHappens`); complete runs publish
  one summary.
- A message in decoded form comes back as itself exactly when no packed list occurs in it
  (`TypedRoundTrip`): packed lists decode to a list holding the list.
- Negative `int32` and enum values are written as five-byte varints, while the Protocol Buffers encoding
  guide sign-extends them to ten bytes; the reader takes both (`NegativeInt32IsFiveBytes`).

## Model

| member | source | states |
|---|---|---|
| `ExecutionLease.ExecutionRecord.Claim` | src/infrastructure/redis/mod.rs:947-992 | the claim script: new lease, takeover of a lapsed one, busy, already completed, identity conflict, with the whole new record |
| `ExecutionLease.ExecutionRecord.Renew` | src/infrastructure/redis/mod.rs:1063-1090 | only the running owner extends its lease and retention |
| `ExecutionLease.ExecutionRecord.Complete` | src/infrastructure/redis/mod.rs:1135-1173 | only the owner records an outcome; repeating it is accepted, changing it is not |
| `ExecutionLease.ExecutionRecord.Release` | src/infrastructure/redis/mod.rs:1214-1237 | only the running owner lets its lease lapse |
| `ExecutionLease.ReplacedOwnerNeverActs` | src/infrastructure/redis/mod.rs:1063-1237 | over every history, a replaced owner can never again renew, complete or release |
| `ExecutionLease.LostOwnershipStaysLost` | src/infrastructure/redis/mod.rs:965-990 | a used token that is not the owner never becomes the owner again |
| `ExecutionLease.TerminalOutcomeIsFinal` | src/infrastructure/redis/mod.rs:1137-1171 | while the record is retained its terminal outcome never changes |
| `ExecutionLease.LostCompletionIsHarmless` | src/infrastructure/redis/mod.rs:1135-1173 | after an accepted completion whose reply was lost, repeating it is accepted with the same timestamp and every claim learns the outcome, until the record expires |
| `LeaderLease.LeaderRecord.Acquire` | src/infrastructure/redis/mod.rs:105-126 | acquisition of a free or lapsed election issues the next fence |
| `LeaderLease.LeaderRecord.Renew` | src/infrastructure/redis/mod.rs:182-197 | only the holder of token and fence renews |
| `LeaderLease.LeaderRecord.Relinquish` | src/infrastructure/redis/mod.rs:256-268 | only the holder gives up leadership |
| `LeaseTiming.BudgetNeverOutlivesLease` | src/application/service.rs:142-171 | for every grant instant the local budget ends within the millisecond-floored lease, if and only if the reserve covers the rounding |
| `LeaseTiming.WholeMillisecondConfigIsSafe` | src/infrastructure/config/mod.rs:589-650 | every configuration validation admits meets that condition |
| `LeaseTiming.LeaseIsExclusive` | src/application/service.rs:1192-1258 | in every run at most one client is before its local deadline |
| `LeaseTiming.SmallReserveBreaksExclusion` | src/application/service.rs:142-171 | below that reserve there is a run with two clients before their deadlines |
| `LeaseTiming.AtMostOneExecutingWorker` | src/application/service.rs:1095-1109 | the execution scripts obey the protocol: at most one worker per execution key and attempt believes it holds the lease |
| `LeaseTiming.AtMostOneLocallyValidLeader` | src/application/service.rs:2153-2172 | the leader scripts obey it too: at most one locally valid leader |
| `LeaseAnswers.BelieverIsRenewed` | src/infrastructure/redis/mod.rs:1063-1090 | in every run, a renewal executed while its sender is before its local deadline is granted, with a full lease from that instant and the recovery count kept |
| `LeaseAnswers.OnlyTheLiveOwnerIsRenewed` | src/infrastructure/redis/mod.rs:1063-1090 | a renewal is granted if and only if the sender owns a lease that has not lapsed; otherwise nothing changes |
| `LeaseAnswers.ClaimNeedsAFreeOrLapsedLease` | src/infrastructure/redis/mod.rs:947-992 | a claim is granted if and only if there is no record or its lease has lapsed, with the whole new record; otherwise nothing changes |
| `LeaseAnswers.NobodyClaimsFromABeliever` | src/infrastructure/redis/mod.rs:965-990 | while a worker is before its deadline every other claim is answered with exactly the time left on the lease |
| `LeaseAnswers.BelieverCanFinish` | src/infrastructure/redis/mod.rs:1135-1237 | a worker before its deadline can always record its outcome or release the lease |
| `LeaseAnswers.LapsedLeaseIsNotFinished` | src/infrastructure/redis/mod.rs:1135-1237 | nobody completes or releases a lapsed lease |
| `LeaseAnswers.StrangersCloseNothing` | src/infrastructure/redis/mod.rs:1135-1237 | a completion or release by anyone but the owner changes nothing |
| `LeaseAnswers.RepliesAreExact` | src/infrastructure/redis/mod.rs:947-1237 | what every script answers in every reachable state: lease ends, recovery, stale owner, absent, completed |
| `LeaseAnswers.ForeignRecordIsRefused` | src/infrastructure/redis/mod.rs:947-1237 | a record of another execution key or attempt is refused by every script and left alone |
| `LeaseAnswers.FreeElectionIsGranted` | src/infrastructure/redis/mod.rs:105-126 | in every run an acquisition is granted if and only if nobody leads, with the next fence and a full lease |
| `LeaseAnswers.BelievingLeaderRenews` | src/infrastructure/redis/mod.rs:182-268 | a leader before its deadline renews and relinquishes with its own fence and with no other |
| `LeaseAnswers.FollowerWaitIsExact` | src/infrastructure/redis/mod.rs:105-126 | a follower is told exactly how long the leader's lease still runs, a leader when its own ends |
| `Settlement.CommittedPrefixIsSettled` | src/infrastructure/kafka/mod.rs:1051-1106 | with rebalances between any two steps of receive and commit, in every reachable state every offset below a committed offset has a durable poison record, result, dead letter or next-attempt job |
| `Settlement.NothingIsLost` | src/application/service.rs:945-1138 | once every job record is committed, every job ever appended ended in a result or dead letter and every undecodable record in a poison record |
| `Settlement.CommittedJobsAreAnswered` | src/application/service.rs:1473-1617 | following retries to the last attempt, a committed job reaches a result or dead letter |
| `SettlementAnswers.SettledRecordIsCommitted` | src/infrastructure/kafka/mod.rs:1051-1106 | a settled record of a kept partition can be committed, and that changes nothing but its offset and the worker |
| `SettlementAnswers.JobIsServed` | src/application/service.rs:1140-1617 | a claimable job of a kept partition can be brought to any outcome its attempts allow: exactly that one output, the outcome in Redis, the offset committed, all else untouched |
| `SettlementAnswers.FinishedJobIsOnlyCommitted` | src/application/service.rs:1072-1082 | a job whose outcome is recorded can be committed with no second output and no change in Redis |
| `SettlementAnswers.UnrunnableRecordIsCommitted` | src/application/service.rs:957-1066 | an undecodable record can be committed after its poison record, any job that can never run after its dead letter |
| `SettlementAnswers.LiveLeaseIsWaitedFor` | src/application/service.rs:1083-1087 | a claim against another worker's live lease changes nothing at all |
| `SettlementAnswers.LostWorkerStops` | src/application/service.rs:1852-1890 | a worker that published but lost its lease stops, with no outcome recorded and its offset uncommitted |
| `SettlementAnswers.UnconfirmedStepIsRepeated` | src/application/service.rs:1619-1890 | an unacknowledged output or completion leaves the worker where it was |
| `SettlementAnswers.UnclearClaimStops` | src/application/service.rs:1088-1093 | a claim whose answer is lost or that finds a foreign record stops the worker with the offset uncommitted |
| `SettlementAnswers.RenewalKeepsWorking` | src/application/service.rs:1192-1258 | a renewal changes nothing but the job's own execution record |
| `SettlementProgress.EverythingCanStillBeSettled` | src/application/service.rs:685-943 | from every state of every run, whatever crashed or was lost, a new member can bring the same log to a state with every offset committed, every record settled and every job answered |
| `CommitRegress.OffsetsRegressExactlyByLateCommits` | src/infrastructure/kafka/mod.rs:1062-1099 | in every run, committed offsets never move backwards if and only if the broker never applies a commit overtaken by another member since the record's assignment |
| `CommitOrder.LateCommitNeedsCycleInWindow` | src/infrastructure/kafka/mod.rs:1062-1099 | such a commit needs a rebalance between receipt and stamp, or between stamp and broker |
| `CommitHistory.LateCommitSlipsPastTheCheck` | src/infrastructure/kafka/mod.rs:1062-1083 | the second window is after the epoch check that found the record's epoch |
| `CommitHistory.OnlyCheckedCommitsAreApplied` | src/infrastructure/kafka/mod.rs:1062-1077 | in every run, whatever the broker applies was found in its own epoch and still assigned before |
| `CommitHistory.WorkerGoesOnOnlyAfterItsCommit` | src/infrastructure/kafka/mod.rs:1062-1102 | in every run, a worker goes on only after its commit was checked, applied and checked again; otherwise it stops |
| `CommitRegress.QuietWindowsNeverRegress` | src/infrastructure/kafka/mod.rs:1062-1099 | without a rebalance in either window the epoch fence keeps offsets from regressing |
| `CommitWitness.RegressAfterTheChecks` | src/infrastructure/kafka/mod.rs:1063-1083 | a run with a revoke and assign cycle after the checks takes a committed offset from 2 to 1 |
| `CommitWitness.RegressBeforeTheStamp` | src/infrastructure/kafka/mod.rs:980-1005 | so does a run with the cycle between receiving a record and reading its epoch |
| `DispatchLedger.ScheduleHash.PrepareWindow` | src/infrastructure/redis/mod.rs:415-496 | the prepare script with its loops: fencing, plan conflicts, resumption with the missing slices, not due, new window |
| `DispatchLedger.ScheduleHash.AckSlice` | src/infrastructure/redis/mod.rs:589-683 | the acknowledge script with its loops: flags, counter, completion and the next schedule time |
| `DispatchLedger.MissingMeansUnflagged` | src/infrastructure/redis/mod.rs:448-461 | the missing list holds exactly the slices without a flag, once each |
| `DispatchAnswers.LeaderIsHandedTheWindow` | src/infrastructure/redis/mod.rs:415-496 | in every reachable state a current leader gets a window if and only if one is open under its plan or due, and then the open window with exactly its unflagged slices in order, never none |
| `DispatchAnswers.DueWindowIsOpened` | src/infrastructure/redis/mod.rs:464-496 | when a window is due, a current leader's preparation opens exactly that one and hands out its slices |
| `DispatchAnswers.RefusalsAreExact` | src/infrastructure/redis/mod.rs:415-496 | not due names the exact wait, finished holds for ever, a conflict means a different open plan, stale means not the leader |
| `DispatchAnswers.BadArgumentsAreRefused` | src/infrastructure/redis/mod.rs:375-415 | arguments outside the contract are refused before anything is looked at |
| `DispatchAnswers.LastCompletedIsRecorded` | src/infrastructure/redis/mod.rs:589-683 | the ledger always names the window finished last |
| `DispatchAnswers.AcknowledgementsAreExact` | src/infrastructure/redis/mod.rs:589-683 | an acknowledgement of the open window flags its slice and reports exactly how many are left, the last one finishes the window and sets the next time; any other changes nothing and is complete only for the window finished last |
| `DispatchAnswers.FreeElectionMakesALeader` | src/infrastructure/redis/mod.rs:105-126 | an acquisition succeeds if and only if nobody leads and makes the caller current for exactly its lease |
| `DispatchAnswers.OnlyTheHolderRenews` | src/infrastructure/redis/mod.rs:182-268 | the holder extends or gives up its leadership; nobody else changes the election |
| `DispatchProgress.LeaderCanBeElected` | src/application/service.rs:321-423 | from every state of every run, after any wait, some scheduler can become the current leader |
| `DispatchProgress.NextWindowCanBeFinished` | src/application/service.rs:425-627 | every run continues to one that has finished the open window, or else the next one of its schedule, with all slices in Kafka, unless a Once schedule is done |
| `Dispatch.CompletedWindowsArePublished` | src/application/service.rs:470-618 | across leader changes, every slice of every finished window is in Kafka under its key, and the counter equals the number of flags |
| `Dispatch.LeaderResumesMissingSlices` | src/infrastructure/redis/mod.rs:439-462 | a current leader with the same plan is handed exactly the unacknowledged slices, never none and never an error |
| `Dispatch.WindowsFormProgression` | src/infrastructure/redis/mod.rs:464-496 | with a fixed policy, Once creates at most one window and Every creates exactly start plus k times the interval |
| `Dispatch.FencesStrictlyIncrease` | src/infrastructure/redis/mod.rs:105-126 | later acquisitions get larger fences |
| `Dispatch.OnlyLatestFenceChangesLedger` | src/infrastructure/redis/mod.rs:417-430 | only a caller with the latest issued fence changes the ledger |
| `Dispatch.StaleLeaderIsFenced` | src/infrastructure/redis/mod.rs:591-604 | a superseded leader's prepare and acknowledge change nothing |
| `EndToEnd.EverySliceIsAnswered` | src/application/service.rs:425-627 | dispatch and workers together: once the topic is consumed, every slice of every finished window has a result or dead letter under its own key |
| `EndToEnd.SliceKeysAreDistinct` | src/domain/coordination.rs:148-159 | different slices never share an execution key |
| `Histogram.ValidateLatencyBuckets` | src/domain/contracts.rs:509-542 | accepts exactly bounded histograms with increasing bounds that sum to the total, with `u64` overflow handled |
| `Histogram.HistogramQuantile` | src/infrastructure/redis/aggregation.rs:1449-1469 | stops at the first bucket whose cumulative count reaches the rank; the overflow bucket reports the previous bound; empty gives zero |
| `Histogram.SumAddCounts` | src/infrastructure/redis/aggregation.rs:231-233 | bucketwise increments add the totals |
| `Histogram.BucketizeDescribes` | src/application/metrics.rs:55-75 | counting observations between consecutive bounds describes them, so the merge theorem applies |
| `Histogram.MergedQuantileIsTrueQuantile` | src/application/aggregation.rs:467-487 | the value reported for the merged histogram is the smallest finite bound at or above the ceil(q n)-th smallest of all n observations, or the largest finite bound when that observation overflows, or 0 without observations |
| `ResultContract.CheckErrors` | src/domain/contracts.rs:285-343 | accepts exactly distinct kinds whose counts sum to the failures (at most, for version 1) |
| `ResultContract.Validate` | src/domain/contracts.rs:239-349 | the counting part of result validation, both directions |
| `ResultContract.NormalizedResultIsValid` | src/infrastructure/redis/aggregation.rs:614-683 | normalization of a valid result keeps its totals and gives what the scripts are proved for |
| `RunRecord.CountersFit` | src/infrastructure/redis/aggregation.rs:176-198 | accepts exactly merges whose every counter stays exact |
| `RunRecord.IncrementBuckets` | src/infrastructure/redis/aggregation.rs:231-233 | the bucket loop adds pointwise, absent fields counting zero |
| `RunRecord.IncrementErrors` | src/infrastructure/redis/aggregation.rs:234-242 | the error loop adds kind by kind |
| `RunRecord.RunHash.Ingest` | src/infrastructure/redis/aggregation.rs:33-271 | the ingest script with its check order, record, retention and index effects, and reply |
| `RunRecord.RunHash.MarkExpired` | src/infrastructure/redis/aggregation.rs:273-326 | the deadline script |
| `RunRecord.RunHash.FinalizeRun` | src/infrastructure/redis/aggregation.rs:328-376 | explicit finalization |
| `RunRecord.RunHash.Acknowledge` | src/infrastructure/redis/aggregation.rs:388-433 | the acknowledgement script |
| `RunRecord.RunHash.Register` | src/infrastructure/redis/mod.rs:773-836 | the registration script |
| `RunLaws.RunKeepsInv` | src/infrastructure/redis/aggregation.rs:33-447 | after any sequence of scripts: slices and executions are inverse, counters agree, pending equals revision, acknowledged <= revision <= 2, outbox and persistence exactly when unacknowledged, open runs indexed at their deadline |
| `RunLaws.MergeConserves` | src/infrastructure/redis/aggregation.rs:224-242 | a merge keeps success + failure = total = bucket sum and error sum = failures |
| `RunOutcomes.RecordIsSumOfAcceptedSlices` | src/infrastructure/redis/aggregation.rs:133-242 | after any sequence of scripts the record is the counter-by-counter sum of the accepted slices, each slice and execution once |
| `RunOutcomes.FinalizedRecordDecodes` | src/infrastructure/redis/aggregation.rs:1288-1447 | a finalized record decodes if and only if it has a slice or no bounds, and names exactly the missing slices |
| `RunOutcomes.LoadedSummaryDecodes` | src/infrastructure/redis/aggregation.rs:1248-1286 | the same for every loadable summary of every reachable record |
| `RunOutcomes.RejectionChangesOnlyUnsetBounds` | src/infrastructure/redis/aggregation.rs:112-151 | a result that is not merged leaves the record unchanged if and only if it does not fill unset bounds |
| `RunOutcomes.RejectedResultBreaksSummary` | src/infrastructure/redis/aggregation.rs:121-151 | one rejected result makes a cancelled, empty run undecodable |
| `RunOutcomes.CancelledEmptyRunIsReachable` | src/infrastructure/redis/aggregation.rs:328-376 | registering and cancelling reaches that state |
| `RunOutcomes.RedeliveryIsDuplicate` | src/infrastructure/redis/aggregation.rs:121-148 | redelivery of an accepted result is a duplicate exactly when it has a histogram, and never changes the record |
| `RunOutcomes.RunWithoutHistogramAcceptsOneSlice` | src/infrastructure/redis/aggregation.rs:121-126 | without a histogram a run never accepts a second slice |
| `RunOutcomes.OpenRunIsFoundAtItsDeadline` | src/infrastructure/redis/aggregation.rs:308-386 | every reachable open run is due from its deadline until its key expires strictly later, and marking it queues its summary |
| `RunOutcomes.UnacknowledgedSummaryIsKept` | src/infrastructure/redis/aggregation.rs:95-107 | an unacknowledged summary is in the outbox and survives any passage of time |
| `RunOutcomes.StaleAcknowledgementReleasesNothing` | src/infrastructure/redis/aggregation.rs:408-413 | acknowledging an older revision never clears a newer one |
| `RunOutcomes.CompleteRecordIsFinal` | src/infrastructure/redis/aggregation.rs:133-151 | no script changes more of a complete record than its acknowledgement |
| `RunAnswers.ResultsAreAnsweredByHistory` | src/infrastructure/redis/aggregation.rs:33-271 | in every reachable state the reply to any result is the one its run's accepted slices determine: conflict, duplicate, over, capacity, overflow, accepted, late or completing |
| `RunAnswers.DuplicatesAreExactlyAcceptedIdentities` | src/infrastructure/redis/aggregation.rs:133-151 | a fitting result is a duplicate if and only if the same index was accepted from the same execution; a half match is a conflict and never merges |
| `RunAnswers.ScreenAnswersByHistory` | src/infrastructure/redis/aggregation.rs:112-163 | a result is rejected, repeated or let through by its metadata, its bounds, the status and the accepted slices alone |
| `RunAnswers.IdentityIsDecided` | src/infrastructure/redis/aggregation.rs:133-151 | the two identity maps say exactly whether a slice was seen, clashes or is new |
| `RunAnswers.KindsAreThoseAccepted` | src/infrastructure/redis/aggregation.rs:165-174 | the error kinds counted are exactly those of the accepted slices |
| `RunAnswers.ScoresFollowTheRecord` | src/infrastructure/redis/aggregation.rs:95-107 | the active index holds a record exactly as long as its key lives |
| `RunAnswers.DeadlineIsAnswered` | src/infrastructure/redis/aggregation.rs:273-326 | the deadline script answers by status and deadline alone and changes only a due open run |
| `RunAnswers.FinalizationIsAnswered` | src/infrastructure/redis/aggregation.rs:328-376 | explicit finalization answers by status and sets the summary of an open run |
| `RunAnswers.AcknowledgementIsAnswered` | src/infrastructure/redis/aggregation.rs:388-433 | an acknowledgement is accepted exactly for revisions that exist and clears the outbox exactly with the current one |
| `RunAnswers.OutboxIsClean` | src/infrastructure/redis/aggregation.rs:388-447 | in a reachable state the outbox holds nothing to clean |
| `RunAnswers.RegistrationIsAnswered` | src/infrastructure/redis/mod.rs:773-836 | registration creates the record with its deadline if there is none and room, and otherwise only compares metadata |
| `RunAnswers.TouchingRefreshesRetention` | src/infrastructure/redis/aggregation.rs:95-107 | a merged or repeated result restarts the retention unless a summary waits |
| `RunAnswers.InexactTimesAreRefused` | src/infrastructure/redis/aggregation.rs:58-72 | times beyond the exact range are refused and change nothing |
| `RunAnswers.RecordKnowsItsArrivals` | src/infrastructure/redis/aggregation.rs:243-250 | the first and last times are those of the first and last accepted slice |
| `RunAnswers.LastArrivalNeverRunsBack` | src/infrastructure/redis/aggregation.rs:243-250 | whatever the clock says the last arrival never moves backwards |
| `RunAnswers.FinalizedRunsAreSettled` | src/infrastructure/redis/aggregation.rs:273-376 | looking at a finalized run takes it out of the deadline index and keeps a waiting summary |
| `RunAnswers.DecodedSummaryIsConsistent` | src/infrastructure/redis/aggregation.rs:1288-1447 | whatever is stored, a summary that decodes is finalized, complete exactly when nothing is missing, and its parts sum to its total |
| `RunAnswers.LoadedRevisionExists` | src/infrastructure/redis/aggregation.rs:1248-1286 | a loaded summary carries an existing revision, pending exactly until acknowledged |
| `RunDelivery.MergedSwap` | src/infrastructure/redis/aggregation.rs:224-242 | merging two different slices commutes |
| `RunDelivery.OrderAndRepetitionDoNotMatter` | src/infrastructure/redis/aggregation.rs:110-265 | under any order, repetition and interleaving within capacity the record is the canonical merge of what arrived |
| `RunDelivery.SchedulesAgree` | src/infrastructure/redis/aggregation.rs:110-265 | two schedules that delivered the same slices end with the same content and completeness |
| `RunDelivery.OneSliceFamily` | src/infrastructure/redis/aggregation.rs:200-242 | every valid one-slice result meets the conditions of the two theorems above |
| `SummaryOutbox.OutboxEmptiesOnlyAfterPublication` | src/application/aggregation_service.rs:310-344 | with concurrent, crashing publishers and records that expire and return, a finalized run leaves the outbox only after its current revision was published, if and only if no acknowledgement crosses an expiry onto the same unpublished revision |
| `SummaryOutbox.PromptPublishersAreSafe` | src/infrastructure/redis/aggregation.rs:388-433 | that never happens when every acknowledgement comes within the retention of its load |
| `OutboxWitness.StrayAckHappens` | src/infrastructure/redis/aggregation.rs:388-433 | a run in which a paused publisher's acknowledgement removes a new, unpublished summary from the outbox |
| `SummaryOutbox.CompleteSummaryIsPublishedOnce` | src/application/aggregation_service.rs:310-344 | every publication of a complete record's revision carries the same summary |
| `SummaryOutbox.SameRevisionSameSummary` | src/infrastructure/redis/aggregation.rs:1268-1286 | at any two moments of any run on one record, summaries of one revision are equal if and only if no slice arrived and no rejected result set the bounds in between |
| `OutboxWitness.LateSliceHappens` | src/infrastructure/redis/aggregation.rs:200-268 | a run in which a slice after the deadline changes the summary under its old revision |
| `OutboxWitness.EmptyHistogramIsRefusedAgain` | src/infrastructure/redis/aggregation.rs:121-126 | a run that accepts a result without a histogram and refuses its redelivery |
| `SummaryOutbox.LateSliceChangesNumberedSummary` | src/infrastructure/redis/aggregation.rs:267-268 | a late slice that does not complete the run changes the summary under an unchanged revision and status |
| `RunAggregator.Aggregator.Ingest` | src/application/aggregation.rs:273-313 | in-process ingestion: capacity, compatibility, duplicates, merge, completion |
| `RunAggregator.Aggregator.FinalizeExpired` | src/application/aggregation.rs:315-334 | the sweep marks exactly the overdue runs and returns exactly their summaries |
| `RunAggregator.MergeBuckets` | src/application/aggregation.rs:410-412 | the histogram loop |
| `AggregatorAnswers.AggregatorAnswersByHistory` | src/application/aggregation.rs:273-313 | after any results and sweeps the in-process aggregator answers each result by what it accepted before |
| `AggregatorAnswers.AggregatorHoldsTheSum` | src/application/aggregation.rs:385-418 | its totals are the saturated sums of the accepted results, its histogram and error counts their sums, its times those of the first and the last of them |
| `AggregatorAnswers.IngestTouchesOneRun` | src/application/aggregation.rs:273-313 | ingestion touches only the run it names and refuses only a new run that would be one too many |
| `AggregationRefinement.DeliveryAgrees` | src/application/aggregation.rs:273-313 | on a regular result the script and the in-process aggregator answer alike, with equal summaries, and stay related |
| `AggregationRefinement.SweepAgrees` | src/application/aggregation.rs:315-334 | the deadline marks the run on both sides or neither, with equal summaries |
| `AggregationRefinement.DurableStoreRefinesAggregator` | src/infrastructure/redis/aggregation.rs:33-326 | over every regular history every answer corresponds and every finalized summary is equal |
| `Wire.WriteVarint` | src/infrastructure/grpc/dynamic_gateway.rs:970-979 | the writing loop appends the base-128 form |
| `Wire.ReadVarintLoop` | src/infrastructure/grpc/dynamic_gateway.rs:899-919 | the reading loop with its 64-bit accumulator computes the ten-byte-bounded value, the next index, or an error |
| `Wire.ReadVarint` | src/infrastructure/grpc/dynamic_gateway.rs:899-919 | a read advances, stays inside the buffer and fits 64 bits |
| `Wire.VarintReadsBack` | src/infrastructure/grpc/dynamic_gateway.rs:899-979 | every 64-bit number reads back from its varint, anywhere in a buffer |
| `Wire.FixedReadsBack` | src/infrastructure/grpc/dynamic_gateway.rs:921-949 | fixed-width little-endian numbers read back |
| `Wire.ZigzagInverts32` | src/infrastructure/grpc/dynamic_gateway.rs:981-993 | zigzag and back is the identity on 32-bit integers |
| `Wire.ZigzagInverts64` | src/infrastructure/grpc/dynamic_gateway.rs:985-997 | zigzag and back is the identity on 64-bit integers |
| `Wire.UnzigzagInverts` | src/infrastructure/grpc/dynamic_gateway.rs:981-997 | and every code is the code of its number |
| `Codec.ReadSlice` | src/infrastructure/grpc/dynamic_gateway.rs:951-964 | a length-delimited value lies inside the buffer and is strictly shorter |
| `Codec.DecimalParses` | src/infrastructure/grpc/dynamic_gateway.rs:1022-1078 | integer fields accept the decimal text of every number they accept |
| `Codec.ScalarReadsBack` | src/infrastructure/grpc/dynamic_gateway.rs:526-638 | whatever scalar the encoder accepts is read back in canonical form |
| `Codec.NegativeInt32IsFiveBytes` | src/infrastructure/grpc/dynamic_gateway.rs:526-553 | the code of an `int32` or enum value is its sign-extended 64-bit code exactly when it is not negative; negative ones take five bytes instead of ten, and both forms decode to the value |
| `Messages.DecodeOne` | src/infrastructure/grpc/dynamic_gateway.rs:653-685 | every decoded field advances the index and stays inside the buffer; what it decodes to and what unknown fields leave is stated in the rows below |
| `CodecLoops.DecodeBytes` | src/infrastructure/grpc/dynamic_gateway.rs:640-688 | the decoding loop terminates on every input with exactly the specified value or error |
| `UnknownFields.UndeclaredFieldsAreTransparent` | src/infrastructure/grpc/dynamic_gateway.rs:862-897 | a field with an undeclared number, of any payload form, between any complete fields and any further bytes leaves the decoded value or error exactly as it is without it |
| `UnknownFields.FieldsInside` | src/infrastructure/grpc/dynamic_gateway.rs:640-688 | complete fields inside a buffer decode as on their own and decoding goes on after them |
| `UnknownFields.TailDecodesAlone` | src/infrastructure/grpc/dynamic_gateway.rs:640-688 | what follows decodes the same wherever it lies, errors included |
| `DecodeRules.OneMoreField` | src/infrastructure/grpc/dynamic_gateway.rs:835-850 | one more field replaces a singular value and appends to a repeated one, and changes no other name |
| `DecodeRules.VarintPayload` | src/infrastructure/grpc/dynamic_gateway.rs:791-833 | any varint is accepted for a varint number, whatever its size, and stands for its residue in the field's range |
| `DecodeRules.BoolPayload` | src/infrastructure/grpc/dynamic_gateway.rs:791-833 | every varint but zero is true |
| `DecodeRules.FixedPayload` | src/infrastructure/grpc/dynamic_gateway.rs:921-949 | eight or four bytes, the least significant first |
| `DecodeRules.TextPayload` | src/infrastructure/grpc/dynamic_gateway.rs:690-790 | length-delimited UTF-8 is the text |
| `DecodeRules.MessagePayload` | src/infrastructure/grpc/dynamic_gateway.rs:690-790 | a length-delimited message that decodes is the value |
| `DecodeRules.EndlessKeyFails` | src/infrastructure/grpc/dynamic_gateway.rs:899-919 | a key that does not end is an error |
| `DecodeRules.WrongWireTypeFails` | src/infrastructure/grpc/dynamic_gateway.rs:852-884 | unknown wire types and declared fields under a wire type not their own are errors |
| `DecodeRules.OverlongLengthFails` | src/infrastructure/grpc/dynamic_gateway.rs:951-964 | a length beyond the end is an error, for declared and undeclared fields |
| `DecodeRules.ShortFixedFails` | src/infrastructure/grpc/dynamic_gateway.rs:886-949 | a cut fixed-width value is an error, declared or not |
| `DecodeRules.BadTextFails` | src/infrastructure/grpc/dynamic_gateway.rs:690-790 | text that is not UTF-8 is an error |
| `DecodeRules.BadMessageFails` | src/infrastructure/grpc/dynamic_gateway.rs:690-790 | a nested message that does not decode is an error |
| `CodecLoops.DecodePackedItems` | src/infrastructure/grpc/dynamic_gateway.rs:673-677 | the packed loop |
| `CodecLoops.SortByNumber` | src/infrastructure/grpc/dynamic_gateway.rs:461-476 | the field list is sorted by number and holds exactly the object's keys |
| `CodecLoops.EncodeValue` | src/infrastructure/grpc/dynamic_gateway.rs:446-483 | the encoding loops write exactly the specified bytes or fail |
| `EncodeRules.ScalarsAccepted` | src/infrastructure/grpc/dynamic_gateway.rs:999-1078 | a scalar field accepts exactly the values that stand for one of its own: numbers in range as numbers or signed decimal text, booleans or their words in any case, text, decimal numbers and words |
| `EncodeRules.TextIsReadAsWritten` | src/infrastructure/grpc/dynamic_gateway.rs:1022-1078 | number text is exactly optional sign and digits, a minus only for signed kinds, and is worth its decimal value |
| `EncodeRules.RangeIsWhatDecodes` | src/infrastructure/grpc/dynamic_gateway.rs:791-833 | the numbers a kind accepts are exactly those it can decode to |
| `EncodeRules.EncodesExactlyTheEncodable` | src/infrastructure/grpc/dynamic_gateway.rs:446-638 | a value encodes if and only if it is an object of declared keys whose every value suits its field, at every depth |
| `EncodeRules.VarintIsBase128` | src/infrastructure/grpc/dynamic_gateway.rs:970-979 | a varint is the base-128 form, least group first, continuation bits exactly before the last, no group in vain |
| `EncodeRules.LittleEndianIsLeastFirst` | src/infrastructure/grpc/dynamic_gateway.rs:526-553 | fixed-width numbers are that many bytes, the least significant first |
| `EncodeRules.ScalarsAreWrittenInWireForm` | src/infrastructure/grpc/dynamic_gateway.rs:526-638 | every accepted scalar is written with the wire type, width and code of its kind: varints 0, 64-bit fixed 1, text 2, 32-bit fixed 5 |
| `EncodeRules.FieldIsKeyAndBody` | src/infrastructure/grpc/dynamic_gateway.rs:555-638 | a field is the varint of eight times its number plus its wire type, then its body; messages are counted |
| `EncodeRules.PackedListIsCounted` | src/infrastructure/grpc/dynamic_gateway.rs:511-524 | a packed list is one field of wire type 2 with the counted wire forms of its items in order |
| `EncodeRules.UnpackedListIsItsItems` | src/infrastructure/grpc/dynamic_gateway.rs:485-509 | an unpacked list is one field per item in order |
| `EncodeRules.MessageIsItsFieldsInOrder` | src/infrastructure/grpc/dynamic_gateway.rs:446-483 | a message is each of its fields once, in ascending order of numbers |
| `MessageRoundTrip.PackedReadsBack` | src/infrastructure/grpc/dynamic_gateway.rs:511-553 | the packed loop recovers exactly the packed items |
| `MessageRoundTrip.MessageReadsBack` | src/infrastructure/grpc/dynamic_gateway.rs:640-850 | for every schema and every nested value the encoder accepts, decoding gives the value's image |
| `PackedFields.ImageOfField` | src/infrastructure/grpc/dynamic_gateway.rs:835-850 | the image holds the image of every field under its proto name; empty unpacked lists are absent |
| `PackedFields.ImageHasNoOtherField` | src/infrastructure/grpc/dynamic_gateway.rs:835-850 | and no name that no key stands for |
| `PackedFields.RoundTripIsExactWithoutPackedLists` | src/infrastructure/grpc/dynamic_gateway.rs:663-681 | the round trip gives the image without wrapped lists if and only if no packed list occurs in the value |
| `TypedMessages.TypedImage` | src/infrastructure/grpc/dynamic_gateway.rs:640-850 | that image of a message with proto names, scalars of their kinds and no empty unpacked list, at every depth, is the message itself |
| `TypedMessages.TypedRoundTrip` | src/infrastructure/grpc/dynamic_gateway.rs:446-850 | every such message encodes, and decodes to the very same value if and only if it holds no packed list |
| `Planning.SharesConserve` | src/application/service.rs:2026-2048 | shares sum to the whole |
| `Planning.PlanConserves` | src/application/service.rs:2015-2041 | a plan spends exactly the scenario's concurrency, burst and rate |
| `Planning.SlicesMeetTargetsUnlessCapped` | src/application/service.rs:1988-2009 | unless a cap binds every slice is within both targets, and no smaller count would be |
| `Planning.SliceCountRespectsCaps` | src/application/service.rs:1988-2013 | for every load the count respects the concurrency, start and total caps, and a load with nothing to run is one slice |
| `Planning.PlannedSlicesAreAdmissible` | src/application/service.rs:1988-2009 | every slice of an admitted scenario has concurrency, no more burst than concurrency, and never meets the zero-start dead-letter test |
| `Backoff.RetryBackoffUpperBound` | src/infrastructure/config/mod.rs:1050-1069 | the bound loop adds the per-attempt bounds |
| `Backoff.DelayIsBounded` | src/application/service.rs:2174-2190 | every sleep is positive, at least 80% of the exponential delay, and within its bound and the maximum, for every entropy |
| `Backoff.DelayIsScaled` | src/application/service.rs:2174-2190 | a sleep below the maximum is the exponential delay times its basis points, rounded down |
| `Backoff.ExponentialDoubles` | src/application/service.rs:2175-2176 | the delay starts at the base and doubles, at most sixteen times, up to the maximum |
| `Backoff.SettleWithRetry` | src/application/service.rs:1619-1890 | a bounded loop ends with the first try that is acknowledged or refused for good, sleeps after every other failed try but the last, and fails if and only if every try failed |
| `Backoff.AckedBeforeRefused` | src/application/service.rs:1791-1815 | it succeeds exactly when an acknowledgement comes before any refusal by an owner check |
| `Backoff.LoopSleepsWithinStartupBound` | src/infrastructure/config/mod.rs:734-738 | however a loop ends, it slept no longer than the startup bound |
| `Pacing.RefillTwice` | src/application/rate_limiter.rs:74-79 | refilling twice is refilling once |
| `Pacing.GrantsAreBacked` | src/application/rate_limiter.rs:57-79 | over any polls, grants never exceed initial tokens plus rate times time |
| `Pacing.GrantsPerWindow` | src/application/rate_limiter.rs:57-79 | in any window, grants never exceed capacity plus rate times its length |
| `Pacing.ComputedSleepSuffices` | src/application/rate_limiter.rs:64-70 | after the sleep that acquire computes, a token is there |
| `Pacing.FirstStartIsCentered` | src/application/rate_limiter.rs:14-20 | without a burst the first start falls in the middle of the first interval |
| `Pacing.TokenBucket.constructor` | src/application/rate_limiter.rs:19-55 | smooth pacing starts half full, a burst bucket full |
| `Pacing.TokenBucket.Acquire` | src/application/rate_limiter.rs:57-72 | an acquire cancelled before its grant leaves the bucket merely refilled |
| `Pacing.RunOnce` | src/application/runner.rs:92-185 | a poll launches a task if and only if the deadline has not passed, fewer than the allowed tasks are pending and the bucket grants a token; the launch times are exactly those polls, pending tasks stay within the concurrency, every joined task's record is in the metrics, and started tasks equal records plus panics |
| `Pacing.UnlimitedRunStartsEveryGrant` | src/application/runner.rs:92-185 | with room for every task, the loop starts one task for every token the bucket grants before the deadline |
| `Pacing.FirstTimerLaunches` | src/application/runner.rs:92-185 | a scenario with a burst starts a task at its first timer, whatever its concurrency |
| `ScenarioTask.OneRecordWhenOver` | src/application/runner.rs:229-303 | however steps fail and the timeout falls, a task has written exactly one scenario record when it is over and none before |
| `ScenarioTask.UntimedTaskIgnoresTheClock` | src/application/runner.rs:229-303 | without a deadline only readiness and step results decide how a task ends |
| `ScenarioTask.PassingTaskSucceeds` | src/application/runner.rs:255-303 | a task whose every step passes is recorded as a success |
| `ScenarioTask.FailureIsRecorded` | src/application/runner.rs:229-298 | a task with a failed step or a timeout is recorded as a failure and nothing else |
| `Identity.WindowReads` | src/infrastructure/redis/mod.rs:475-479 | a window identity and what follows it can be read in one way |
| `Identity.ExecutionKeysAreInjective` | src/domain/coordination.rs:151-158 | window and execution identities determine version, scenario, time, slice count and index |
| `Identity.EventIdsAreInjective` | src/domain/contracts.rs:203-205 | terminal event identities also determine attempt and kind |
| `Identity.SummaryIdsAreInjective` | src/infrastructure/redis/aggregation.rs:1280-1286 | summary identities determine window, revision and status |
| `Identity.ReplayIdsAreInjective` | src/application/dlq_replay.rs:368-375 | replay run identities determine their source coordinates |
| `Identity.ReplayIdsFit` | src/application/dlq_replay.rs:313-386 | for every admitted topic, `i32` partition and `i64` offset the replay identities stay within the contract bound, so the length test never fires |
| `Identity.ReplayIsNeverAWindow` | src/application/dlq_replay.rs:368-375 | a replayed run never takes a scheduled run's identity |
| `Identity.BudgetBoundsEveryIdentity` | src/application/service.rs:2116-2143 | a scenario that passes the budget never produces an identity over the bound |

## Left out

- `Histogram.HistogramQuantile`: the rank is computed with an exact fraction, not an `f64` product.
- `Histogram.BucketizeDescribes`: exact counting; the worker's histogram library counts only to its own resolution and is not part of this model.
- `ResultContract.Validate`: text checks (blank or overlong identities, event identity) are not modelled.
- `ResultContract.CheckErrors`: blank and overlong error kinds are not modelled.
- `RunRecord.RunHash.Ingest`: one run at a time; the number of other runs in the active index is a parameter, and the fields are numbers rather than their decimal text.
- `RunOutcomes.OpenRunIsFoundAtItsDeadline`: the scan's batch limit is not modelled.
- `RunAggregator.Aggregator.Ingest`: histogram and error counters are unbounded, where the source would overflow beyond 64 bits; `cancel` and `remove` are left out.
- `RunAggregator.Aggregator.FinalizeExpired`: the order of the returned summaries is not modelled.
- `AggregationRefinement.DurableStoreRefinesAggregator`: for unregistered, uncancelled runs with a shared histogram, consistent identities and room for a new slice, since outside these the two differ.
- `MessageRoundTrip.MessageReadsBack`: float, double and bytes fields are not modelled, nor are objects that name one field by two keys.
- `MessageRoundTrip.PackedReadsBack`: float and double lists are not modelled.
- `Codec.ScalarReadsBack`: float, double and bytes scalars are not modelled.
- `Messages.DecodeOne`: float, double and bytes fields are not modelled.
- `CodecLoops.DecodeBytes`: float, double and bytes fields are not modelled.
- `CodecLoops.DecodePackedItems`: float and double lists are not modelled.
- `CodecLoops.EncodeValue`: float, double and bytes fields are not modelled; when an object names one field by two keys, which of the two is written first is not specified.
- `Wire.ReadVarintLoop`: shifts and masks are written as arithmetic.
- `Planning.PlannedSlicesAreAdmissible`: exact reals; rounding of `f64` rates is not modelled.
- `Pacing.RunOnce`: the outcomes of the select are an input sequence of timed events; step records, latency values and task abortion are not modelled, and a panic is assumed to strike before the scenario record.
- `DispatchLedger.ScheduleHash.PrepareWindow`: whether the caller is the current leader is an argument; `Dispatch` computes it from the election.
- `DispatchLedger.ScheduleHash.AckSlice`: whether the caller is the current leader is an argument; `Dispatch` computes it from the election.
- `Dispatch.WindowsFormProgression`: that a leader ever prepares, and so that Once creates its one window, is liveness and left out; that it always can is `NextWindowCanBeFinished`.
- `SettlementProgress.EverythingCanStillBeSettled`: that a state can be reached, not that fair scheduling reaches it.
- `DispatchProgress.NextWindowCanBeFinished`: that the run can go on so, not that it must; a window left open under another plan needs that plan back.
- `DispatchAnswers.BadArgumentsAreRefused`: blank fingerprints other than the empty one are not modelled.
- `Identity.WindowReads`: timestamps are printed in full; Lua prints numbers from 10^14 in exponent form.
- `Identity.ReplayIdsAreInjective`: base64 and the 128-bit hash are opaque text.
- `Settlement.NothingIsLost`: what a job does when it runs, plan fingerprints and metrics are left out; only its disposition matters.
- `CommitRegress.OffsetsRegressExactlyByLateCommits`: a rebalance changes the epoch and the assignment of one member in one step, and assigned partitions resume at their committed offsets.
- `LeaseTiming.AtMostOneExecutingWorker`: a worker that sent its completion or release no longer counts as executing.
- Committing result records after aggregation, and their dead letters, follow the worker pattern and are left out.
- Kafka and Redis clients, readiness probes, topic creation, YAML and JSON parsing, templates, endpoint checks, metrics, health endpoints, logging and demo tools are left out.
- `register_run` is not fenced by leadership in the source, and nothing here assumes that it is.
