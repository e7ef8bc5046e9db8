# A verified model of the fault-injection harness's oracles

The harness drives a message broker through faults and decides afterwards whether the broker behaved.
This project models that decision: the checks and ledgers that accept or reject a run, the client loops
that feed them, and the raw wire protocol. Code that updates state in place is a class or a method with
loops, proved against a specification function; what the code is for is then proved about that function,
or about every run of a state machine built from it.

| file | what it models |
|---|---|
| `Tlv.dfy`, `RpcPayload.dfy`, `BigEndian.dfy` | TLV records with an escaped type, RPC payloads inside them |
| `TcpFraming.dfy`, `TcpConnection.dfy` | length-prefixed frames over a chunked stream, and the hand-off to waiting receivers |
| `Latency.dfy`, `Percentile.dfy` | bucketed latency histograms, their merge, percentiles read off them, timeout warnings |
| `StageEvidence.dfy`, `PressureGuidance.dfy` | outcome counters of a stage, aggregation of clients, the checks and the rating of the report |
| `PressureReport.dfy` | from the workers' events to the numbers of the report |
| `QueueReconcile.dfy`, `QueuePressure.dfy` | the exactly-once oracle of the queue, and the loop and drain it judges |
| `StreamPressure.dfy` | the stream append loop with offset reconciliation |
| `DurabilityLedger.dfy`, `DurabilityVerifier.dfy`, `CrashCutRun.dfy` | the durability ledger, the verifier that reads the broker back, and the crash-cut runs both judge |
| `ScheduleDelivery.dfy`, `ScheduleRun.dfy` | the schedule subscribers and the analysis of their logs; whole runs of them |
| `QueueRedelivery.dfy` | the redelivery oracle with the drain and the runs it judges |
| `LeaseAdmissions.dfy`, `LeaseContention.dfy` | the lease oracle; the contention runs it judges, from the contenders' logs |
| `ProgressWindows.dfy`, `Lanes.dfy` | the silence check, and the lane scheduler all workloads share |
| `Sequences.dfy`, `Wrappers.dfy` | facts about sequences, sets and multisets; Option and Result |

The broker and its client library are not part of this model: they appear as nondeterministic replies
(confirmed, of unknown outcome, refused) and as steps of the state machines (an unconfirmed write that
takes effect late, a message that is lost or comes back). Thrown errors are `Err` or `Some(error)`,
latencies are exact reals, clocks and randomness are parameters.

## Results the code does not promise

Some natural expectations are false of the code. The model keeps the code as it is and proves the exact
condition under which they hold, with a concrete counterexample.

- The queue oracle rejects some runs of a perfectly honest broker: those in which one message had two
  completions of unknown outcome. This is the only such case (`QueuePressure.HonestRunAccepted`, with
  `QueuePressure.DoubtedTwice` as the example).
- An aggregate p95 above half the request timeout implies a warning for some client exactly when the
  timeout is below 120000 ms (`Percentile.AggregateWarnedIff`, with `Percentile.SlowTimeoutMissesWarning`
  as the example): above that the last bucket bound hides the difference.
- A TCP frame survives its encoding exactly when it is shorter than 2^32 bytes (`TcpFraming.FrameRoundTrip`):
  the length prefix wraps silently, so a frame of 2^32 bytes comes out as an empty one first
  (`TcpFraming.LongFrameLost`).
- The stream offset is not always that of the next append. It is exactly when no commit of unknown outcome is
  still undecided and none turned out to be stored since the last confirmed commit or reconciliation
  (`StreamPressure.OffsetExactIff`; `StreamPressure.OffsetLag` says by how much it is behind). Two ways into a
  stale offset between operations are a failed peek (`StreamPressure.StaleExample`) and a shutdown that skips
  the peek (`StreamPressure.ShutdownExample`); without one of them since the last alignment there is none
  (`StreamPressure.StaleOnlyAfterFailure`).
- The durability scenario does not notice a key or a stream that nobody wrote when its sequence lies beyond
  those of the run: it never asks for it. In the queue and the schedule it does
  (`CrashCutRun.CompleteRunPassesIff`; `CrashCutRun.StrayUnseen` adds such a write to any honest run).
- The progress check allows a silence of almost three windows, not one (`ProgressWindows.SilenceBounded`,
  `ProgressWindows.SilenceBoundTight`).

One further case cannot arise from the callers: the lane scheduler without a lane reports success without
doing anything (`Lanes.CompletesAllIff`, with `Lanes.NoLanesNoWork` as the example), but the concurrency it
is given is always at least one (src/config.ts:278-284, src/worker.ts:359).

## Model

| member | source | states |
|---|---|---|
| `Tlv.EncodeTlv` | src/workloads/raw-protocol.ts:17-35 | succeeds exactly for a 16-bit type and a payload of at most 65535 bytes, and then writes the shortest form of the record |
| `Tlv.DecodeTlvs` | src/workloads/raw-protocol.ts:37-60 | the offset-driven loop computes the decoding that the lemmas below characterise, errors included |
| `Tlv.DecodeRecord` | src/workloads/raw-protocol.ts:40-57 | one turn of the loop reads the record at the offset and moves past it, or fails with its error |
| `Tlv.DecodeIffImage` | src/workloads/raw-protocol.ts:37-60 | a frame decodes to given records exactly when it is, byte for byte, a non-empty sequence of them, each in short or escaped form |
| `Tlv.DecodeEncode` | src/workloads/raw-protocol.ts:17-60 | decoding inverts concatenated encodings of any non-empty record list |
| `Tlv.ReEncode` | src/workloads/raw-protocol.ts:17-60 | re-encoding a decoded frame decodes to the same records, saves two bytes per needlessly escaped type, and equals the frame exactly when there is none |
| `Tlv.RejectsIffCut` | src/workloads/raw-protocol.ts:37-60 | a frame is rejected exactly when it is empty or some records followed by one record cut short |
| `Tlv.RejectedWith` | src/workloads/raw-protocol.ts:37-60 | the error is that of the place of the cut: in the escaped type, before the end of the length, or in the value; an empty frame has its own |
| `RpcPayload.ConcatBytes` | src/workloads/raw-protocol.ts:88-96 | the buffer filled part by part holds the parts in order |
| `RpcPayload.RequestDecodesIff` | src/workloads/rpc-response-state-conformance.ts:169-184 | a payload decodes to a request exactly when it is that request's correlation, route and body in wire form |
| `RpcPayload.CutRequestRejected` | src/workloads/rpc-response-state-conformance.ts:169-184 | a payload cut short is rejected with the error of the field it ends in, one with bytes too many as malformed |
| `RpcPayload.RequestThroughTlv` | src/workloads/rpc-response-state-conformance.ts:169-184 | a request survives the TLV layer among any other records of the frame |
| `RpcPayload.ResponseUnambiguous` | src/workloads/rpc-response-state-conformance.ts:159-167 | two responses with equal bytes agree in every field |
| `BigEndian.ReadWriteU32` | src/workloads/raw-protocol.ts:66-71 | a length prefix reads back as the length modulo 2^32, which is all that fits |
| `BigEndian.MostSignificantFirst` | src/workloads/raw-protocol.ts:60-77 | the most significant byte comes first |
| `TcpFraming.DrainIff` | src/workloads/raw-protocol.ts:192-206 | what the data handler takes off a buffer are exactly the frames whose encodings, followed by a rest without a whole frame, make up the buffer |
| `TcpFraming.DrainIncremental` | src/workloads/raw-protocol.ts:192-206 | where the stream is cut into chunks makes no difference |
| `TcpFraming.FrameRoundTrip` | src/workloads/raw-protocol.ts:98-103 | an encoded frame comes back, alone and whole, exactly when it is shorter than 2^32 bytes |
| `TcpFraming.LongFrameLost` | src/workloads/raw-protocol.ts:98-103 | a frame of 2^32 bytes is taken off the stream as an empty frame |
| `TcpConnection.StepKeeps` | src/workloads/raw-protocol.ts:188-213 | every event keeps: never both buffered frames and waiters; delivered frames re-encoded plus the buffer equal the bytes received; frames go to one taker each in order; a call is settled or waits |
| `TcpConnection.SettledStays` | src/workloads/raw-protocol.ts:226-262 | no event changes how a call was settled |
| `TcpConnection.SettledForever` | src/workloads/raw-protocol.ts:188-262 | nor does any further run: every call settles once |
| `TcpConnection.FailedIff` | src/workloads/raw-protocol.ts:188-262 | over every run, a call is told a failure exactly when an event failed it while it was unsettled: its deadline, a socket error, the close, or being made on a closed connection with no frame left; and it is told that failure, with the latest socket error if there was one |
| `TcpConnection.TimedOutIff` | src/workloads/raw-protocol.ts:229-256 | a call that is unsettled when its deadline passes is timed out from then on, and no other call ever is |
| `TcpConnection.ResolvedIff` | src/workloads/raw-protocol.ts:226-256 | a call resolves with a frame exactly when it took that frame and had not timed out |
| `TcpConnection.RunKeeps` | src/workloads/raw-protocol.ts:188-230 | these invariants hold after any interleaving of data, receive, timeout, error and close |
| `TcpConnection.Reassembly` | src/workloads/raw-protocol.ts:192-206 | for any chunking, the frames sent are the frames delivered, in order, and the buffer ends empty |
| `TcpConnection.FrameForEachCall` | src/workloads/raw-protocol.ts:226-230 | while nothing fails, the n-th call to receive gets the n-th frame, timed-out calls included |
| `TcpConnection.ClosedSettlesEveryCall` | src/workloads/raw-protocol.ts:208-213 | once closed, no call is left waiting |
| `TcpConnection.BufferedFramesStay` | src/workloads/raw-protocol.ts:208-230 | only a receive takes a frame out of the buffered queue |
| `TcpConnection.ReceivableAfterClose` | src/workloads/raw-protocol.ts:226-230 | frames buffered before the close are still received after it, in order |
| `TcpConnection.RawTcp.constructor` | src/workloads/raw-protocol.ts:179-187 | a fresh connection is the initial state of the machine |
| `TcpConnection.RawTcp.DeliverFrame` | src/workloads/raw-protocol.ts:202-204 | hands a frame to the first waiter, or queues it |
| `TcpConnection.RawTcp.Data` | src/workloads/raw-protocol.ts:192-206 | the buffer loop is the data step of the machine |
| `TcpConnection.RawTcp.Receive` | src/workloads/raw-protocol.ts:226-230 | is the receive step of the machine |
| `TcpConnection.RawTcp.Timeout` | src/workloads/raw-protocol.ts:254-262 | is the deadline step of the machine: a waiting call that is unsettled times out (`TcpConnection.TimedOutIff`) and keeps its place in the queue |
| `TcpConnection.RawTcp.Fail` | src/workloads/raw-protocol.ts:188-191 | an error rejects all waiters |
| `TcpConnection.RawTcp.Close` | src/workloads/raw-protocol.ts:208-213 | closing rejects all waiters with the stored error, or the generic one |
| `Latency.RecordedCounts` | src/pressure.ts:132-140 | a histogram's count, total, maximum, cumulative buckets and overflow are those of the raw sample list |
| `Latency.Bounds` | src/pressure.ts:3-5 | the fifteen bucket bounds |
| `Latency.MergeLatencyHistograms` | src/pressure.ts:216-241 | fails exactly on a histogram of the wrong shape, the first one, and otherwise computes the merge |
| `Latency.RecordedConcat` | src/pressure.ts:132-140 | adding two recorded histograms is recording both sample lists |
| `Latency.MergedRecorded` | src/pressure.ts:216-241 | merging recorded histograms is recording the concatenation of their samples |
| `Latency.RecordedAnyOrder` | src/pressure.ts:132-140 | the order of the samples makes no difference |
| `Latency.FoldedIsMerged` | src/orchestration/pressure.ts:514-532 | merging two by two, as the aggregation does, is merging all at once |
| `Latency.MergedAnyOrder` | src/pressure.ts:216-241 | the order of the clients makes no difference |
| `Latency.RecordedConsistent` | src/pressure.ts:132-140 | buckets and overflow add up to the count, the total is at most count times maximum, and there is overflow exactly when the maximum is above 60000 ms |
| `Latency.MergedConsistent` | src/pressure.ts:216-241 | merging keeps these |
| `Percentile.Percentile` | src/pressure.ts:358-367 | the cumulative loop computes the percentile the lemmas are about |
| `Percentile.PercentileIsNearestRank` | src/pressure.ts:358-367 | the percentile is the smallest bucket bound at or above the nearest-rank sample when that sample is at most 60000 ms, otherwise the rounded maximum |
| `Percentile.RankMonotone` | src/pressure.ts:358-367 | a higher fraction never asks for a lower rank |
| `Percentile.PercentileMonotone` | src/pressure.ts:358-367 | a higher fraction never gives a lower percentile, across the overflow boundary too |
| `Percentile.SummaryOfSamples` | src/pressure.ts:198-214 | for any samples: the count, the rounded mean and maximum, and as p50, p95 and p99 the nearest ranks of 1/2, 19/20 and 99/100 of them |
| `Percentile.SummaryOfNothing` | src/pressure.ts:198-214 | without a sample every number is zero |
| `Percentile.RoundIsNearest` | src/pressure.ts:415-417 | rounds to the nearest hundredth, halves up |
| `Percentile.SummaryOrdered` | src/pressure.ts:198-214 | p50 <= p95 <= p99 and mean <= maximum |
| `Percentile.MergedAboveSmallest` | src/pressure.ts:216-241 | the merged percentile is at least that of some non-empty client |
| `Percentile.MergedBelowLargest` | src/pressure.ts:216-241 | the merged percentile is at most some client's when it falls in a bucket, and overflows only if some client's does |
| `Percentile.LatencyWarnings` | src/pressure.ts:319-329 | warns about exactly the stages whose p95 exceeds half the timeout, in order |
| `Percentile.AggregateWarned` | src/pressure.ts:319-329 | below a timeout of 120000 ms, an aggregate p95 above half the timeout comes with a client whose own is |
| `Percentile.SlowTimeoutMissesWarning` | src/pressure.ts:319-329 | from 120000 ms on, two clients whose merged p95 is above half the timeout while neither one's is |
| `Percentile.AggregateWarnedIff` | src/operational-guidance.ts:497 | hence the aggregate implies a warning for all clients' samples exactly when the timeout is below 120000 ms |
| `StageEvidence.ObservationConserves` | src/worker.ts:949-974 | over every interleaving: started = succeeded + failed + ambiguous + in flight, latency count = finished operations, error classes add up, shutdown cancellations stay within their outcomes |
| `StageEvidence.CountersCount` | src/pressure.ts:142-161 | over every interleaving each counter is the number of its events (definite and ambiguous errors, each inside and outside shutdown, told apart), the classes count the errors, and the samples are the first five |
| `StageEvidence.ObservationRecords` | src/worker.ts:971-973 | the shared histogram is the one recorded from the latencies of the ended operations, however they interleave |
| `StageEvidence.ObservedIsBalanced` | src/worker.ts:949-974 | what a worker reports satisfies the balance the report relies on |
| `StageEvidence.StageMetrics.RecordStageLatency` | src/pressure.ts:132-140 | the in-place bucket update is recording one sample |
| `StageEvidence.StageMetrics.RecordStageError` | src/pressure.ts:142-161 | counts the error once, by class and outcome, with its shutdown share |
| `StageEvidence.StageMetrics.BeginOperation` | src/worker.ts:956-958 | starts an operation |
| `StageEvidence.StageMetrics.OperationSucceeded` | src/worker.ts:959-973 | ends one with success and its latency |
| `StageEvidence.StageMetrics.OperationFailed` | src/worker.ts:963-973 | ends one with an error, ambiguous only where the stage allows it, and its latency |
| `StageEvidence.MergeBalanced` | src/orchestration/pressure.ts:514-532 | merging two balanced stages gives a balanced stage |
| `PressureGuidance.AggregateDomain` | src/orchestration/pressure.ts:373-397 | the loops over clients and stages compute the aggregate of a domain |
| `PressureGuidance.AggregateClients` | src/orchestration/pressure.ts:373-397 | every selected domain gets its aggregate, no other appears |
| `PressureGuidance.AggregateByName` | src/orchestration/pressure.ts:373-397 | a stage of the aggregate is the fold of exactly the clients' stages of that name |
| `PressureGuidance.FoldTotals` | src/orchestration/pressure.ts:514-532 | started, succeeded, failed, ambiguous and shutdown counts are the sums over the clients |
| `PressureGuidance.FoldErrors` | src/orchestration/pressure.ts:514-532 | error classes add up, and the first ten error samples in client order are kept |
| `PressureGuidance.FoldLatency` | src/orchestration/pressure.ts:514-532 | the aggregate's histogram, merged pair by pair, is the merge of all the clients' |
| `PressureGuidance.FoldBalanced` | src/orchestration/pressure.ts:514-532 | the aggregate of balanced stages is balanced |
| `PressureGuidance.ErrorsNonNegative` | src/operational-guidance.ts:552-596 | whatever evidence is accepted, old or new, no reported error count is negative; what the numbers are is stated below |
| `PressureGuidance.ProducedEvidenceParses` | src/operational-guidance.ts:552-626 | on produced evidence the consistency checks never fail |
| `PressureGuidance.AggregateParses` | src/operational-guidance.ts:552-596 | from workers to report: the domain parses exactly when some client has a stage in it |
| `PressureReport.StageReported` | src/operational-guidance.ts:556-582 | whatever the clients did: a stage reports as errors their definite failures outside shutdown, as expected cancellations their failures during it, as ambiguous outcomes the failures in doubt, and the summary of all latencies |
| `PressureReport.DomainReported` | src/operational-guidance.ts:552-596 | from the events of all clients to the report of a domain: it parses, its stages are those, its errors, ambiguous outcomes and cancellations count all events, its completed operations are the clients' successes |
| `PressureReport.ReportAddsUp` | src/operational-guidance.ts:583-595 | any accepted report adds up its stages, gives the rate per second, and names the first stage that no other exceeds in p95 |
| `PressureReport.AggregateCounts` | src/orchestration/pressure.ts:379-394 | the aggregate adds up the successes of the clients and, apart from them, their failures |
| `PressureReport.StageParsesIff` | src/operational-guidance.ts:556-626 | any stage is accepted exactly when its counts agree and it claims no more cancellations than outcomes; the errors that remain, and the error otherwise |
| `PressureReport.LegacyStage` | src/operational-guidance.ts:606-615 | for files without the shutdown share: as many outcomes as were cancelled are taken off the ambiguous ones first, then off the failures |
| `PressureReport.DomainFails` | src/operational-guidance.ts:583-585 | the error of a domain says what it lacks, or is that of its first stage that does not parse |
| `PressureGuidance.Rate` | src/operational-guidance.ts:492-519 | constrained exactly when a stage has errors or a p95 above half the timeout or the broker pushed back; clear exactly when nothing reached even a quarter |
| `PressureGuidance.ConstrainedStageHasWarning` | src/operational-guidance.ts:497 | below a 120000 ms timeout, a stage whose reported p95 exceeds half of it has a client whose own p95 does |
| `QueueReconcile.AssertUnique` | src/pressure.ts:384-391 | passes exactly lists of distinct sequence numbers in the safe range |
| `QueueReconcile.AssertDisjoint` | src/pressure.ts:393-409 | passes exactly when no message has two enqueue outcomes |
| `QueueReconcile.AssertExactlyOnce` | src/pressure.ts:269-294 | the checking loops accept exactly: only stored messages came out, none twice, every acknowledged one unless its completion is in doubt |
| `QueueReconcile.ReconcileQueueOutcomes` | src/pressure.ts:243-311 | accepts exactly when every worker is exactly-once and every drained worker is known, and then reports the totals and each worker's sorted messages; otherwise names the message or worker at fault |
| `QueueReconcile.ClientsInOrder` | src/pressure.ts:302 | the report lists the workers in order, each with a sorted rearrangement of its drained messages |
| `QueueReconcile.WorkerBounds` | src/pressure.ts:255-294 | completed and observed are disjoint; acknowledged - doubted <= completed + observed <= acknowledged + doubted enqueues |
| `QueueReconcile.TotalsBound` | src/pressure.ts:296-301 | the same bounds for the totals over any number of workers |
| `QueueReconcile.TotalsCount` | src/pressure.ts:296-301 | each total is the size of its own lists, taken over all workers |
| `QueueReconcile.DrainedWorkersReport` | src/pressure.ts:305-309 | nothing is accepted that was drained for a worker without an outcome |
| `QueuePressure.QueueLedger.Operate` | src/worker.ts:757-809 | one operation appends to each of the five lists exactly what its replies say (a refused completion to none), and throws exactly on an error |
| `QueuePressure.LedgersList` | src/worker.ts:757-809 | over every run, with any broker fault, each list holds exactly the operations, or reserved messages, whose request got that answer, in order |
| `QueuePressure.DrainRecords` | src/workloads/pressure.ts:97-122 | a drain records what was polled, in order, and ends after three empty polls in a row |
| `QueuePressure.OperationIsRun` | src/worker.ts:757-809 | an operation of the loop is a stretch of the state machine with the same ledgers |
| `QueuePressure.RunKeeps` | src/worker.ts:757-809 | over every run, with any broker fault: one outcome per counter, acknowledged messages are stored, lost, taken or doubted, and nothing appears that was never enqueued |
| `QueuePressure.AcceptedIff` | src/pressure.ts:243-311 | a run is accepted exactly when no completion was doubted twice, nothing was handed out again, no failed enqueue became visible and no undoubted acknowledged message is missing |
| `QueuePressure.FaultsRejected` | src/pressure.ts:269-294 | a lost acknowledged message, a message handed out again and a visible failed enqueue are each rejected |
| `QueuePressure.HonestRunAccepted` | src/pressure.ts:243-311 | with an honest broker a full drain is accepted exactly when no message had two ambiguous completions |
| `QueuePressure.DoubtedTwice` | src/worker.ts:799-808 | an honest, fully drained run that is rejected |
| `QueuePressure.HonestDrainSeesNoDuplicate` | src/workloads/pressure.ts:112-120 | with an honest broker the reconciler never meets a message twice |
| `QueuePressure.DrainRoute` | src/workloads/pressure.ts:97-122 | stops at the first three empty replies in a row with exactly the messages received, sorted, or at the first message seen twice |
| `QueuePressure.BatchTaken` | src/workloads/pressure.ts:112-120 | an honest broker's batch is recorded whole, in order, and leaves the broker |
| `QueuePressure.WorkersReconciled` | src/workloads/pressure.ts:95-125 | the report over all workers is accepted exactly when each worker's run is |
| `StreamPressure.StreamWriter.Append` | src/worker.ts:824-865 | the retry loop leaves the offset and the outcome that the lemmas below characterise |
| `StreamPressure.AppendEndsIff` | src/worker.ts:834-862 | the loop goes on exactly after a busy refusal that was reconciled; the first other turn decides: success when it committed, unreconciled when the reconciliation failed before the shutdown, thrown otherwise |
| `StreamPressure.LoopEnds` | src/worker.ts:834-862 | and leaves the offset of the latest reconciliation, one more after a commit |
| `StreamPressure.RecoverEnds` | src/worker.ts:840-862 | in a run, the operation begins again exactly after a busy refusal reconciled before the shutdown, with its counter unchanged; otherwise it is over |
| `StreamPressure.BusyIff` | src/workloads/pressure.ts:48-55 | only a refused begin counts as busy |
| `StreamPressure.StepIsTurn` | src/worker.ts:824-865 | the state machine moves the offset and ends the operation exactly as the loop does |
| `StreamPressure.RunKeeps` | src/worker.ts:824-865 | the invariants of log and offset hold over every run |
| `StreamPressure.StoredOnceInOrder` | src/worker.ts:824-865 | the log holds each counter at most once, in increasing order, whatever is lost or retried |
| `StreamPressure.SuccessIsExact` | src/worker.ts:834-839 | an operation succeeds only at the end of the log, stores its own counter and leaves the offset equal to the log length |
| `StreamPressure.OffsetNeverAhead` | src/workloads/pressure.ts:44-46 | the offset is never beyond the log |
| `StreamPressure.OffsetLag` | src/worker.ts:824-865 | over every run, the log is longer than the offset by the number of lost commits that turned out stored since the offset was last aligned |
| `StreamPressure.OffsetExactIff` | src/worker.ts:824-865 | so the offset is that of the next append exactly when no lost commit is undecided and none came to light since then |
| `StreamPressure.StaleOnlyAfterFailure` | src/worker.ts:840-862 | between operations the offset is exact unless, since the last confirmed commit or reconciliation, one failed or was skipped for the shutdown |
| `StreamPressure.StaleExample` | src/worker.ts:854-856 | a lost commit and a failed peek do leave it stale |
| `StreamPressure.ShutdownExample` | src/worker.ts:842 | so do a lost commit and a shutdown, without any failed peek |
| `StreamPressure.RecoveryRealigns` | src/workloads/pressure.ts:57-70 | a reconciliation that goes through makes the offset exact, whatever happened before |
| `StreamPressure.StaleRetryCannotAppend` | src/worker.ts:826-862 | an operation whose offset the log has outgrown stores nothing in all its further turns: until the next one starts the log gains at most an older undecided commit |
| `StreamPressure.LogGrows` | src/worker.ts:824-865 | the log only grows at its end |
| `QueueRedelivery.AssertQueueRedelivery` | src/orchestration/queue-redelivery.ts:68-88 | accepts exactly permutations of 0..n-1 with the victim's messages inside that range, and otherwise names the fault |
| `QueueRedelivery.RecoveredIff` | src/orchestration/queue-redelivery.ts:68-88 | that is: nothing twice, the right number, nothing missing, and nothing of the victim's missing |
| `QueueRedelivery.Drain` | src/workloads/queue-redelivery.ts:45-74 | ends after twenty idle seconds, not earlier, with exactly the messages received, sorted, or at the first message seen twice |
| `QueueRedelivery.IdleFromMeaning` | src/workloads/queue-redelivery.ts:55-59 | the idle period begins with the first empty reply after the last message |
| `QueueRedelivery.IdleExpiredIff` | src/workloads/queue-redelivery.ts:47-48 | the drain is over exactly when twenty seconds lie between the first of the closing empty replies and the last look at the clock |
| `QueueRedelivery.ProducedAll` | src/workloads/queue-redelivery.ts:18-27 | a producer whose lanes all end well has stored every message of the run, each once |
| `QueueRedelivery.VictimBatch` | src/workloads/queue-redelivery.ts:30 | the victim asks for half of the messages, rounded up and capped at 1024, and for one at least |
| `QueueRedelivery.StepKeeps` | src/workloads/queue-redelivery.ts:48-70 | every step keeps the messages partitioned between queue, victim and drainers, and no drainer sees one twice |
| `QueueRedelivery.DrainedRunAcceptedIff` | src/orchestration/queue-redelivery.ts:39-53 | a finished run is accepted exactly when queue and victim are empty at its end |
| `QueueRedelivery.HonestRunAccepted` | src/workloads/queue-redelivery.ts:45-74 | with at least one drainer, a broker that answers with nothing only when nothing is ready, and drainers that quit after an empty reply later than the release of the victim's messages, every interleaving is accepted |
| `LeaseAdmissions.ReadAdmissions` | src/orchestration/lease-contention.ts:82-98 | collects the entries of all logs in order and fails exactly when one is malformed |
| `LeaseAdmissions.AssertLeaseAdmissions` | src/orchestration/lease-contention.ts:100-126 | accepts exactly when all contenders entered, each once with every sequence of an equal share, and no token was used twice; otherwise names the fault |
| `LeaseAdmissions.Pigeonhole` | src/orchestration/lease-contention.ts:116-125 | why a prefix comparison per contender is enough: nobody can exceed the share, and together they reach it |
| `LeaseAdmissions.CheckedIff` | src/orchestration/lease-contention.ts:100-126 | the statements of the check, taken one by one, mean just that |
| `LeaseAdmissions.AdmittedAnyOrder` | src/orchestration/lease-contention.ts:82-126 | rearranged admissions have the same verdict, so the order of logs and of entries across them makes no difference |
| `LeaseContention.JudgeContention` | src/orchestration/lease-contention.ts:31-37 | reading and checking the logs pass together exactly when all entries are well formed and the admissions are in order |
| `LeaseContention.ContentionAdmittedIff` | src/workloads/lease-contention.ts:40-58 | for any interleaving of contenders that number their entries, the verdict holds exactly when no token was used twice, the counts are as expected and all entered equally often |
| `LeaseContention.RunAcceptedIff` | src/orchestration/lease-contention.ts:31-37 | the same for the contenders' logs, one each, in any order, with other events in between |
| `LeaseContention.FinishedRunAcceptedIff` | src/orchestration/lease-contention.ts:31-37 | when every contender has finished, its logs are accepted exactly when no fencing token was handed out twice |
| `LeaseContention.SoundLeaseAccepted` | src/workloads/lease-contention.ts:40-58 | under a lease whose tokens grow every finished run is accepted, however the contenders alternate |
| `LeaseContention.RunIsLogged` | src/workloads/lease-contention.ts:40-58 | every run has such logs |
| `ProgressWindows.Interval.WindowOf` | src/orchestration/pressure.ts:274 | every moment of the interval falls in an existing window |
| `ProgressWindows.AssertProgressWindows` | src/orchestration/pressure.ts:256-290 | passes exactly when every container, domain and window reports a success, and otherwise lists exactly the gaps |
| `ProgressWindows.UnreadableIff` | src/orchestration/pressure.ts:268-280 | a log is malformed exactly when a report inside the interval leaves a domain out |
| `ProgressWindows.SilenceBounded` | src/orchestration/pressure.ts:256-290 | then no client is silent for three window lengths anywhere in the interval, its ends included |
| `ProgressWindows.SilenceBoundTight` | src/orchestration/pressure.ts:263-264 | for every window length a silence one millisecond shorter can pass |
| `DurabilityLedger.AnalyzeDurabilityLedger` | src/orchestration/durability-crash-cuts.ts:150-186 | fails exactly on unreadable records or reports, and otherwise every list is increasing and holds exactly what was recorded |
| `DurabilityLedger.LedgerDetermined` | src/orchestration/durability-crash-cuts.ts:150-186 | the ledger does not depend on the order of the records, on repetitions or on how they are spread over logs |
| `DurabilityLedger.AssertDurabilityLedger` | src/orchestration/durability-crash-cuts.ts:188-210 | passes exactly when 0..iterations were started, 0 was acknowledged, and acknowledged within observed within started, per domain; otherwise names the domain and the sequence |
| `DurabilityLedger.DurableIff` | src/orchestration/durability-crash-cuts.ts:150-210 | the verdict on the ledger of a readable report is a verdict on the records and the values reported |
| `DurabilityLedger.CutOutcomes` | src/orchestration/durability-crash-cuts.ts:212-230 | acknowledged outweighs failed outweighs ambiguous, wherever the records stand |
| `DurabilityLedger.OutcomeIff` | src/orchestration/durability-crash-cuts.ts:212-230 | an outcome is acknowledged when such a record exists, failed when only a failure does, ambiguous when neither does |
| `DurabilityVerifier.ReadQueue` | src/workloads/durability-crash-cuts.ts:125-138 | reserves until the first empty reply; fails exactly on an unknown payload or when no empty reply comes, otherwise lists every message |
| `DurabilityVerifier.PolledBefore` | src/workloads/durability-crash-cuts.ts:125-138 | what it lists are the batches before the first empty one |
| `DurabilityVerifier.ReadStreams` | src/workloads/durability-crash-cuts.ts:164-187 | fails exactly when a stream of the run holds a record beyond offset zero or a wrong body, otherwise counts each stream's records |
| `DurabilityVerifier.VerifyState` | src/workloads/durability-crash-cuts.ts:113-214 | succeeds exactly when nothing it looks at is unexpected, and then reports, per domain, each sequence of the run as often as the broker showed it |
| `CrashCutRun.JudgeRun` | src/orchestration/durability-crash-cuts.ts:70-78 | verifier, analysis and verdict all pass exactly when the records are readable, nothing read is unexpected, no sequence is found twice, all were started, and acknowledged within found within started |
| `CrashCutRun.RunKeeps` | src/workloads/durability-crash-cuts.ts:30-57 | over every run, with any fault: the log tells what was dispatched and only that has outcomes; with an honest broker, all acknowledged is stored, all stored was dispatched, each once |
| `CrashCutRun.CompleteRunPassesIff` | src/workloads/durability-crash-cuts.ts:30-57 | a complete run passes verifier, analysis and verdict exactly when the store holds all it acknowledged, nothing of the run twice, and in queue and schedule nothing foreign, however records and answers are split |
| `CrashCutRun.HonestRunPasses` | src/workloads/durability-crash-cuts.ts:30-57 | so every complete run of an honest broker passes all three, wherever the crashes cut it |
| `CrashCutRun.CompleteRunExists` | src/workloads/durability-crash-cuts.ts:30-57 | for every number of cuts there is an honest complete run |
| `CrashCutRun.PassedRunReadTrue` | src/workloads/durability-crash-cuts.ts:125-205 | a run that passes had no wrong body, offset, payload or route to read |
| `CrashCutRun.SomethingShows` | src/workloads/durability-crash-cuts.ts:113-214 | every store whose keys have one value has answers that show it |
| `CrashCutRun.StrayUnseen` | src/workloads/durability-crash-cuts.ts:140-187 | a key or stream nobody wrote, beyond the sequences of the run, goes unnoticed: there are answers that show it, and with all of them the run passes |
| `ScheduleDelivery.Subscriber.Handle` | src/workloads/schedule-delivery.ts:124-175 | one notification updates seen set, counts, duplicates, invalid, lateness and log as specified |
| `ScheduleDelivery.HandledAgrees` | src/workloads/schedule-delivery.ts:124-204 | after any notifications, the tallies agree with those recomputed from the records |
| `ScheduleDelivery.HandledMeans` | src/workloads/schedule-delivery.ts:124-175 | the invalid ones are exactly those unidentified, out of range, early or more than a second late; each repeat of another is a duplicate; the lateness is the greatest |
| `ScheduleDelivery.NoDuplicates` | src/workloads/schedule-delivery.ts:147-153 | no duplicate is counted exactly when no sequence of a kind is recorded twice |
| `ScheduleDelivery.SequenceViolations` | src/orchestration/schedule-delivery.ts:408-420 | counts all violations and samples the first twenty in order |
| `ScheduleDelivery.AnalyzeScheduleDeliveryLogs` | src/orchestration/schedule-delivery.ts:190-291 | fails exactly on missing replicas, completions or unreadable records, naming the fault, and otherwise reports the totals and, per violation, the number and the first twenty sequences |
| `ScheduleDelivery.ObservedSums` | src/orchestration/schedule-delivery.ts:190-291 | each total is the sum of its own column, the lateness the greatest of all subscribers |
| `ScheduleDelivery.DeliveredIff` | src/orchestration/schedule-delivery.ts:293-311 | for logs whose tallies agree with their records, passes exactly when no handler saturated, nothing was invalid, every broadcast was recorded once by every subscriber, every single one once in all, and nothing cancelled |
| `ScheduleRun.SummarizeScheduleDeliveryLogs` | src/orchestration/schedule-delivery.ts:180-188 | accepts exactly readable logs of all replicas that show every delivery, and returns the summed totals |
| `ScheduleRun.CompletionTells` | src/workloads/schedule-delivery.ts:124-204 | what the completion record of a subscriber says of its notifications |
| `ScheduleRun.RunDeliveredIff` | src/workloads/schedule-delivery.ts:124-204 | whatever the subscribers are notified of, client events in between: their logs are accepted exactly when no handler saturated, every notification was valid, every broadcast was recorded once by every subscriber, every single one once in all, and nothing cancelled |
| `Lanes.Scheduler.TakeTurn` | src/workloads/live.ts:618-624 | the head of the loop is the turn of the state machine |
| `Lanes.Scheduler.SettleOperation` | src/workloads/live.ts:618-624 | an operation that ends lets its lane take the next turn, or ends the lane |
| `Lanes.IssuedOnceInOrder` | src/workloads/live.ts:611-627 | sequences are issued as 0, 1, 2, ...; each is in flight, completed or failed, once; no more lanes, and in flight, than min(n, concurrency) |
| `Lanes.IssuedCount` | src/workloads/live.ts:618-624 | every turn before the abort issues an operation while there are any, and none after it |
| `Lanes.RejectedIff` | src/workloads/live.ts:611-627 | a run that is over is rejected exactly when an operation failed or, with lanes at work, not all were issued |
| `Lanes.CompletesAllIff` | src/workloads/live.ts:611-627 | a finished run without failure and abort completed all n once exactly when n is 0 or there is a lane |
| `Lanes.NoLanesNoWork` | src/workloads/live.ts:611-627 | one operation and no lane: over at once, without failure, with nothing done |
| `Lanes.TurnsBounded` | src/workloads/live.ts:611-627 | a run takes at most one step per operation and two per lane |
| `Lanes.NeverStuck` | src/workloads/live.ts:611-627 | a run that is not over can go on once the next operation finishes |

## Left out

- Docker control, child processes, HTTP polling, timers, artifact files, token creation and WebSocket transport: plumbing without an invariant beyond the order of calls.
- JSON parsing, regular expressions and error-message classification: records and error classes are taken as parsed; the texts of errors are not modelled.
- UTF-8: routes and strings on the wire are bytes.
- Floating point: latencies and fractions are exact (1/2, 19/20, 99/100) and rounding is monotone rounding to two decimals, so results of binary rounding, NaN and infinities are not modelled.
- Heap-level aliasing of buffers in the TLV decoder: payloads are copied out, as `slice` does.
- `pressureUnexpectedErrors`, Markdown rendering, report totals, restart metrics, option parsing, scenario tables and fixed-count evidence checks: easy counting or enumeration.
- The broker snapshot part of `diagnosticWarnings` (pending growth, resident memory): comparisons one reading settles; the rating takes their number as a parameter.
- The shared-route mode of the pressure run and the client event counts of the schedule analysis, which no verdict reads.
- The count of active handlers and the shutdown wait of the schedule subscriber.
- Sorting by locale of stage names: a report's stages are taken in the order they come.
- QueuePressure.RunKeeps: counters stop at 2^53, where the source's number would stop growing; at one operation a second that is out of reach.
- QueueReconcile.AssertExactlyOnce: the source's separate check that no failed enqueue became visible is shown to be unreachable after the checks before it, so its error value does not appear.
- QueueRedelivery.StepKeeps: no drainer's own lease expires during the drain.
- StreamPressure.RunKeeps: the refusal because of a still active session is raised by begin only, and a lost commit is decided before the next session begins or the next peek answers.
- ProgressWindows.AssertProgressWindows: a window length of zero or less, which no caller passes.
- CrashCutRun.CompleteRunPassesIff: the store keeps bodies intact, so a wrong body is a failure of the verifier only; a payload of one domain never equals another's; a message leaves the queue when the verifier completes it, and completing it does not fail.
- CrashCutRun.JudgeRun: a baseline that is not acknowledged ends the scenario before its verdict, so only complete runs are judged.
- LeaseAdmissions.ReadAdmissions: the three ways an entry can be malformed share one error value.
