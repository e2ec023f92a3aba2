# Verification of the multi-Worker runtime

This Dafny project models how a controller and several Workers execute the actions of an agent workflow, and proves
what the runtime promises about them. It has five parts.

**Artifact transfer** (`Protocol`, `ProtocolInvariant`, `ProtocolSteps`, `ProtocolSafety`, `ProtocolShape`,
`ProtocolListing`, `ProtocolTables`, `ProtocolCalls`, `ProtocolProgress`, `Transfer`). Actions ask for their inputs to
be made local; a guarded lock table, a set of completed keys, the mutable locations of artifact references and the
stores of the Workers have to stay consistent. The protocol is a step relation: one step is the code of one action
between two suspension points, and any action may take the next step. A pull looks for a local file, writes what
arrived and checks its size, and it may fail at each of these points. Several references may share an artifact id, and
the planner may copy a reference or merge locations into one through which no pull is in flight. `ProtocolProgress`
adds that nothing ever gets stuck: some unfinished action can always move without failing, every run can be continued
until all its actions are finished, and without new requests every run gets there, whatever fails. `Transfer` holds
the same segments as methods of mutable objects, each proved to be the protocol step it stands for.

**Record queries** (`Json`, `JsonCanonical`, `JsonText`, `Records`, `TopK`, `Predicates`, `Aggregation`, `Grouping`,
`ShardMerge`, `AggregateMeaning`, `MergeExactly`, `AggregateOrder`, `Projection`, `StructuredPlan`, `RankingPushdown`,
`WorkerChain`, `DistributedPlan`). What each operator answers is first said in a caller's terms: which records a
filter keeps, what a row of an aggregation tells, how a ranking reads, what a derivation holds. The comparator of
`top_k_records` mixes numeric, string, boolean and text comparison and is still a total order. Shard-wise top-k,
shard-wise aggregation and the projection step of a structured plan follow, down to the chain of stored files of each
Worker and what the final stage reads from them.

**Trace reconstruction** (`TraceRows`, `Lineage`, `FaultFree`, `Recording`, `TraceTimes`, `TraceFacts`, `EndToEnd`,
`Verdict`, `VerdictExamples`, `RetryExamples`, `ProvenanceOrder`, `ExecutionTimes`, `TraceReads`). Transfer and
execution rows are rebuilt from the event list and judged. One half says what a complete verdict guarantees for any
rows. The other half starts from the protocol: `Verdict.TraceVerdict` says for every interleaving, failures included,
exactly when the finished trace is marked complete, and `ProvenanceOrder.ProvenanceIsAcyclic` that its dependencies
have no cycle.

**Sweeps over realized workflows** (`Intervals`, `WorkflowGraph`, `ExportedRuns`). The union length, the largest
overlap and the memoised depth refine simple definitions, and the workflow exported from a run, failures included, has
no cycle.

**Schedulers and ledgers** (`Locality`, `RoundRobin`, `SweepLog`, `Ledger`, `CodeContext`), each over all runs.

Numbers are integers, sizes and event times are natural numbers, and costs of the locality scheduler are exact
reals. `Options.None` stands for a raised exception or an infinite cost, as each member says. Python's `int` in the
sort key of the ledger is a parameter. To check the whole project, use `dafny verify dfyconfig.toml` in this directory.

## Where the code differs from what one might expect

- A plan may aggregate and then order. The aggregation is stored under `groups`, but only `records` is unwrapped
  when the next step loads it, so the ranking sees one record and the limit has no effect
  (`WorkerChain.OrderingIgnoresGroups`). Shard-wise ranking is therefore stated for plans without aggregation.
- A finished run without failures can still be marked partial: an artifact that an earlier action already brought to
  a Worker leaves no transfer row for a second action there, and an empty artifact leaves none at all
  (`VerdictExamples.SharedInputIsPartial`, `VerdictExamples.SingleInput`). `Verdict.FaultFreeVerdict` gives the exact
  condition.
- After a pull that failed and was tried again by another action the trace is complete only if the failed pull left
  no file on the Worker (`RetryExamples.RetryIsComplete`), and it is partial whenever bytes were moved for an action
  that failed later (`Verdict.FailedReceiverIsPartial`). `Verdict.TraceVerdict` gives the exact condition.
- The check of a trace does not look for cycles (`Lineage.CircleIsComplete`). The traces of finished runs have none
  (`ProvenanceOrder.ProvenanceIsAcyclic`).
- Among the Worker-native operators only sampling has a rule for its site; the rows of any other run under an
  executor id that the registry does not hold, and building them raises (`VerdictExamples.UnplacedToolRaises`).
  `Verdict.EvidenceExistsExactly` says exactly when.
- A derivation whose output equals the first component of a dotted field hides that field, also in plans that
  `validate_projection` accepts. `StructuredPlan.PushdownExactly` gives the exact condition.
- Top-k breaks ties by the whole record, so a projection before it may keep another of two tied records
  (`RankingPushdown.ProjectionMovesTie`). `RankingPushdown.TopKOfProjectionExactly` gives the exact condition, and
  `RankingPushdown.RankingPushdownExactly` says when at least the ranked sort columns stay the same.
- `min` and `max` over arrays need not merge from shards (`Aggregation.ArraysBreakMinMerge`).
  `Aggregation.ExtremesSplitExactly` gives the exact condition on values, and `MergeExactly.ShardsMergeExactly` carries
  it to the rows of aggregations of which at most one can fail. Where two fail it can be more than needed
  (`MergeExactly.FailingSumHidesMin`); `MergeExactly.OutcomesMergeExactly` gives the exact condition for every list.
- `min` and `max` may depend on the order of the records (`AggregateOrder.OrderMattersForEqualValues`), because
  Python holds `1` and `true` equal. `AggregateOrder.ExtremesPermuteExactly` gives the exact condition on values,
  `AggregateOrder.OrderNeverMattersExactly` carries it to rows, and `AggregateOrder.SwapsDecideOrder` covers every list
  of aggregations.
- Nothing rules out rows that finish before they start. For one such row the length of the union comes out negative
  (`Intervals.BackwardUnion`), and with another row the largest overlap is missed (`Intervals.BackwardOverlap`).
  `Intervals.UnionLength` and `Intervals.MaxParallel` give the exact conditions.

## Model

| member | source | states |
|---|---|---|
| `ProtocolSafety.OnePullInFlight` | src/infra_mas/execution/transfer.py:57-74 | in every interleaving, failing pulls included, at most one pull per artifact id and target Worker is in flight |
| `ProtocolSafety.BytesMovedOnce` | src/infra_mas/execution/transfer.py:60-74 | the bytes that successful transfers report for an artifact at a Worker sum to 0 or to exactly the artifact size over a whole run, and then the Worker stores it |
| `ProtocolSafety.LocationsAreTrue` | src/infra_mas/execution/transfer.py:88-126 | in every reachable state the locations of a ref are duplicate-free, start with the original Worker, and each lists a Worker that stores a copy of the right size |
| `ProtocolSafety.PullsFromOrigin` | src/infra_mas/execution/transfer.py:88-96 | the source of every pull is the original Worker of the artifact whenever that one has a client |
| `ProtocolSafety.SourceIsFirst` | src/infra_mas/execution/transfer.py:88-95 | the source is the first location that has a client, and there is none exactly when no location has one |
| `ProtocolSafety.InputsArePresent` | src/infra_mas/worker/service.py:544-552 | when the Worker call starts, every input is stored on that Worker in full |
| `ProtocolSafety.RunGrowsLocations` | src/infra_mas/execution/transfer.py:60-66 | along a run no ref loses or reorders a location |
| `ProtocolListing.LocalInputsAreListed` | src/infra_mas/execution/transfer.py:60-66 | in every reachable state, failing pulls included, each input that an action has made local lists the action's Worker in the very ref it was given, copies of one artifact and keys completed by other actions included |
| `ProtocolListing.CopiesAreAllListed` | src/infra_mas/execution/transfer.py:60-66 | however many copies of a ref are made local at once, each one that was lists exactly the origin and then the target |
| `ProtocolListing.LocationsAreExplained` | src/infra_mas/execution/transfer.py:121-126 | in every reachable state a Worker that a ref lists is the origin, was listed at the start, or runs an action that takes the artifact |
| `ProtocolListing.PlannerLists` | src/infra_mas/planner/context.py:59-71 | a merged ref lists what either ref listed, its own locations first, and a copied one what its original lists; no other ref changes |
| `ProtocolTables.CompletedIsFinal` | src/infra_mas/execution/transfer.py:60-65 | once a key is completed no transfer of that artifact to that Worker is ever started again |
| `ProtocolTables.PassedIsFinal` | src/infra_mas/execution/transfer.py:57-74 | so it is after any action has got past the input behind its lock |
| `ProtocolTables.RunLocksRemote` | src/infra_mas/execution/transfer.py:48-58 | in every reachable state there is no lock for an artifact at its own origin |
| `ProtocolTables.RetryFindsNoRest` | src/infra_mas/worker/service.py:593-624 | whatever bytes arrive and whichever pulls fail, a pull never finds a local file of the wrong size, as long as no pull is given up during the check and no execution fails |
| `ProtocolCalls.OnlyClientsRun` | src/infra_mas/execution/manager.py:47-49 | in every run only Workers with a client are called |
| `ProtocolCalls.ListedInputsNeedNothing` | src/infra_mas/execution/transfer.py:48-53 | an action whose inputs all list its Worker waits for no lock and records no transfer, whatever else goes on |
| `ProtocolCalls.WrongFileFails` | src/infra_mas/worker/service.py:593-597 | an action that finds a local file of another size is never executed, in any continuation |
| `ProtocolCalls.OutputsAreMade` | src/infra_mas/execution/manager.py:68-80 | what an execution made keeps its size and its origin along every continuation, and its refs are handed back in the order of the outputs |
| `ProtocolProgress.NoDeadlock` | src/infra_mas/execution/transfer.py:54-74 | while some action is unfinished, some unfinished action has an enabled step of its own that is neither a failure nor a new request |
| `ProtocolProgress.NoDeadlockWithoutFailure` | src/infra_mas/execution/transfer.py:54-126 | in a run without failures that step also delivers the whole artifact |
| `ProtocolProgress.CanFinish` | src/infra_mas/execution/transfer.py:45-162 | from every state that the invariant admits, failures behind it included, some continuation without a failing step finishes every action, with its inputs, Worker and executor unchanged |
| `ProtocolProgress.EveryRunCanFinish` | src/infra_mas/execution/transfer.py:45-162 | so every run can be continued until all submitted actions are finished, and a run without failures stays one |
| `ProtocolProgress.StuckMeansFinished` | src/infra_mas/execution/transfer.py:45-162 | no action can take a step, failures included, exactly when all submitted actions are finished; so every run that cannot go on has finished |
| `ProtocolProgress.ActLeavesLess` | src/infra_mas/execution/transfer.py:45-162 | every step of an action, failures included and whatever a Worker call returns, strictly lowers a well-founded measure of what is left to do |
| `ProtocolProgress.EveryFairRunFinishes` | src/infra_mas/execution/transfer.py:45-162 | in every infinite run without new requests in which actions are not kept from moving forever, whatever fails, all actions finish and stay finished |
| `ProtocolShape.StepShape` | src/infra_mas/execution/manager.py:52-119 | every step moves only its own action one place along its program, appends at most the one event of that place, and makes artifacts only by a successful execution, on its Worker |
| `ProtocolSteps.StepKeepsInv` | src/infra_mas/execution/transfer.py:45-171 | every step of every action, of the planner copying or merging refs, and every failure keeps the invariant over refs, stores, locks, completed keys, reported bytes and program counters |
| `ProtocolInvariant.HolderIsUnique` | src/infra_mas/execution/transfer.py:57-59 | two actions that hold the lock of the same artifact and Worker are the same action |
| `ProtocolSteps.CheckSizeStep` | src/infra_mas/worker/service.py:620-629 | deleting a pulled file of the wrong size never takes away a copy that anything relies on |
| `ProtocolSteps.ListLocationStep` | src/infra_mas/execution/transfer.py:121-126 | listing the target after a pull keeps locations unique and true |
| `ProtocolSteps.MergeRefStep` | src/infra_mas/planner/context.py:59-71 | merging the locations of two refs of one artifact, with no pull in flight through the first, keeps the invariant |
| `ProtocolSteps.ExecuteStep` | src/infra_mas/execution/manager.py:68-80 | storing new outputs on the Worker keeps the invariant |
| `Transfer.ArtifactStore.PutStream` | src/infra_mas/worker/artifact_store.py:59-86 | the chunks replace the file as a whole after the last one; a stream that breaks leaves the store as it was |
| `Transfer.ArtifactStore.Delete` | src/infra_mas/worker/artifact_store.py:120-124 | removes the one file when it is there |
| `Transfer.ArtifactStore.LookForFile` | src/infra_mas/worker/service.py:593-597 | the first segment of a pull is the FindFile step: a local file of the right size ends the pull with 0 bytes, one of another size fails it, none starts the stream |
| `Transfer.ArtifactStore.Fetch` | src/infra_mas/worker/service.py:599-618 | a complete stream is the WriteFile step with the bytes that arrived, a broken one is a failed pull that leaves no trace |
| `Transfer.ArtifactStore.CheckFetched` | src/infra_mas/worker/service.py:620-629 | a file of the wrong size is deleted and the pull fails, else the pull reports its bytes |
| `Transfer.TransferManager.EnsureLocal` | src/infra_mas/execution/transfer.py:54-59 | up to the first suspension: nothing to do for a listed target, else a lock to wait for |
| `Transfer.TransferManager.LockFor` | src/infra_mas/execution/transfer.py:164-171 | one lock per artifact id and target, made on first use |
| `Transfer.TransferManager.EnterLocked` | src/infra_mas/execution/transfer.py:60-97 | behind the lock a completed key lists the target in the given ref if it is not there yet, a listed target completes the key, and any other takes the lock and a source |
| `Transfer.TransferManager.FindSource` | src/infra_mas/execution/transfer.py:88-91 | the first location that has a client |
| `Transfer.TransferManager.RecordStart` | src/infra_mas/execution/transfer.py:98-109 | records the start of the transfer with its source and target |
| `Transfer.TransferManager.ListTarget` | src/infra_mas/execution/transfer.py:121-126 | an impossible byte count or a target already listed is an error, else the target is appended to the locations |
| `Transfer.TransferManager.Complete` | src/infra_mas/execution/transfer.py:127-141 | records the successful end, marks the key completed and frees the lock |
| `Transfer.TransferManager.Abort` | src/infra_mas/execution/transfer.py:142-162 | records the failed end and frees the lock without completing the key |
| `FaultFree.FindFileFine` | src/infra_mas/worker/service.py:593-597 | without failures a pull never finds a local file, so no key is pulled twice |
| `FaultFree.RunFine` | src/infra_mas/execution/transfer.py:45-74 | runs without failures keep: no action fails, stored copies are whole, and what a Worker stores away from its origin is completed or arriving |
| `FaultFree.DeliveredExactlyOnce` | src/infra_mas/execution/transfer.py:110-141 | when nothing fails and no lock is held, each artifact stored away from its origin was moved there exactly once and in full |
| `Recording.RunRecorded` | src/infra_mas/execution/manager.py:52-119 | along every run, failures included, every recorded event matches its action, every action has the events of the phases it has passed, and every artifact has one maker |
| `Recording.RunWhole` | src/infra_mas/execution/transfer.py:88-141 | along every run, failures included, a successful transfer end names the origin as source and either the whole size or no bytes |
| `Recording.EndEventClean` | src/infra_mas/execution/transfer.py:127-140 | without failures a recorded transfer end names the origin as source and the whole size |
| `Recording.RunClean` | src/infra_mas/execution/transfer.py:127-140 | along a run without failures every recorded transfer is whole and from the origin, and every execution succeeded |
| `TraceTimes.RunTimed` | src/infra_mas/execution/transfer.py:98-156 | in every run, failing pulls included, each recorded transfer end finds a pending start on its wire |
| `TraceRows.BuildTransferRows` | src/infra_mas/calibration_v0.py:576-625 | the loop over the events with its queues of pending starts builds exactly the specified rows; a Worker without a site raises the KeyError |
| `TraceRows.MatchedInOrder` | src/infra_mas/calibration_v0.py:593-603 | when no end precedes its start, the n-th end on a wire is matched with the n-th start on it |
| `TraceRows.BuildExecutionRows` | src/infra_mas/calibration_v0.py:493-573 | the loops build one row per successful execution with inputs, site, sizes, times and de-duplicated dependencies; a missing request or start, or for sampling a Worker without a site, raises the KeyError, and an executor id that the registry does not hold raises its ExecutorNotFoundError |
| `TraceRows.CollectTables` | src/infra_mas/calibration_v0.py:499-525 | the tables of sizes, requests, starts, producers and served inputs, the last entry winning |
| `TraceRows.CollectDependencies` | src/infra_mas/calibration_v0.py:546-552 | one dependency per input, a transfer before a producer, each once |
| `TraceTimes.RowsAreTimed` | src/infra_mas/calibration_v0.py:609-620 | when each end finds a start, every transfer row has a start time and it lies before its finish |
| `TraceFacts.RowsAreTraced` | src/infra_mas/calibration_v0.py:587-625 | the transfer rows are, in order, the successful ends that moved bytes, each telling that event |
| `ExecutionTimes.ExecutionsAreTraced` | src/infra_mas/calibration_v0.py:545-574 | for any event list there is one execution row for each successful end, in order, with its executor, Worker, outputs and end time |
| `ExecutionTimes.ExecutionRowsTell` | src/infra_mas/calibration_v0.py:545-574 | in every finished run, failures included, the event at the finish time of a row is the successful end of its action with the executor, Worker and outputs of the row, the event at its start time is the start of that action, the start comes first, and all outputs are announced after the finish; each action that did not fail has exactly one row |
| `TraceReads.DependenciesInOrder` | src/infra_mas/calibration_v0.py:546-552 | the dependencies of a row come in the order of the inputs that have them first, each once |
| `TraceReads.TransfersBuiltExactly` | src/infra_mas/calibration_v0.py:576-625 | for any event list the transfer rows can be built exactly when both Workers of every delivery have a site |
| `TraceReads.BytesAddUp` | src/infra_mas/calibration_v0.py:562-563 | the byte columns of a row add up the known sizes of its artifacts, and an unknown one counts nothing |
| `TraceReads.TimesCompleteExactly` | src/infra_mas/calibration_v0.py:683-764 | for any event list the timestamps are complete exactly when there is a row and each delivery finds its start |
| `TraceReads.SamplingHasSite` | src/infra_mas/calibration_v0.py:539-544 | a sampling run is reported at the site of its Worker, any other at the site of its registered executor |
| `TraceFacts.SizesAreTrue` | src/infra_mas/calibration_v0.py:499-502 | after a finished run, failures included, the table of sizes holds the true size of every artifact |
| `TraceFacts.RowBytesAreTrue` | src/infra_mas/calibration_v0.py:553-562 | the byte columns of every execution row that is built add up the true sizes of its inputs and of its outputs |
| `TraceFacts.RowIsServed` | src/infra_mas/calibration_v0.py:519-525 | the table of served inputs holds the last row for an action and an artifact |
| `TraceFacts.RowsBuiltExactly` | src/infra_mas/calibration_v0.py:526-546 | after a finished run, failures included, the execution rows can be built exactly when every action that did not fail ran under an executor that has a site |
| `TraceFacts.DependencyMembers` | src/infra_mas/calibration_v0.py:546-552 | the dependencies of a row are exactly those of its inputs |
| `Lineage.CheckLineage` | src/infra_mas/calibration_v0.py:703-762 | the loops that clear the flag compute the conjunction over all inputs and all transfers |
| `Lineage.CheckInput` | src/infra_mas/calibration_v0.py:707-736 | the verdict on one input, for initial and for produced artifacts |
| `Lineage.CheckTransfer` | src/infra_mas/calibration_v0.py:737-762 | the verdict on one transfer |
| `Lineage.RealizedTrace` | src/infra_mas/calibration_v0.py:682-774 | the three evidence fields: dependencies need known references and lineage, timestamps and coverage need at least one span |
| `Lineage.InputsAreExplained` | src/infra_mas/calibration_v0.py:704-736 | in a complete trace every input has a known home, and one from another site arrives by a listed transfer between exactly these sites on which the consumer depends |
| `Lineage.TransfersServeConsumers` | src/infra_mas/calibration_v0.py:737-749 | each transfer of a complete trace serves an action that lists its artifact and depends on it, from the producer at its own site or an initial artifact, to the site of that action |
| `Lineage.DependenciesAreSpans` | src/infra_mas/calibration_v0.py:682-699 | following dependencies backwards from any span of a complete trace, through executions and transfers, meets only spans, and none twice where every span starts after those it lists |
| `Lineage.CircleIsComplete` | src/infra_mas/calibration_v0.py:682-762 | without that order the check accepts a trace in which an action depends on itself |
| `Lineage.ChainsFollowTransfers` | src/infra_mas/calibration_v0.py:704-762 | in a complete trace data changes site along any provenance chain only through listed transfers that lead from the first site to the last |
| `Lineage.ClosedSite` | src/infra_mas/calibration_v0.py:704-762 | in a complete trace, what is made at a site that no listed transfer enters was made from what was made there |
| `TraceFacts.OneDelivery` | src/infra_mas/execution/transfer.py:60-74 | in a finished run, failures included, two recorded deliveries of one artifact to one Worker are the same event |
| `TraceFacts.NeededWasDelivered` | src/infra_mas/execution/transfer.py:67-74 | without failures, a non-empty input away from its origin has a recorded delivery to that Worker |
| `EndToEnd.RowsRebuildRun` | src/infra_mas/calibration_v0.py:493-625 | for a finished run, failures included, the transfer rows are built, the execution rows exactly when every action that did not fail ran under an executor with a site, and then both are the rows of that run |
| `EndToEnd.LineageCompleteExactly` | src/infra_mas/calibration_v0.py:703-762 | on the rows of such a run the lineage is complete exactly when every transfer was made for an action that did not fail, and each input that such an action takes from another site has a transfer made for it |
| `EndToEnd.AccountedExactly` | src/infra_mas/calibration_v0.py:703-762 | without failures that holds exactly when each crossing input is non-empty and needed by one action only on its Worker |
| `Verdict.JudgeEvents` | src/infra_mas/calibration_v0.py:1032-1060 | rows, rows, verdict: the evidence computed from an event list is the specified one |
| `Verdict.TraceVerdict` | src/infra_mas/calibration_v0.py:493-783 | for every interleaving, failed pulls and executions included: building the evidence raises exactly when some action that did not fail ran under an executor without a site; else the trace is marked complete if and only if bytes were recorded only for actions that did not fail, and for each input that such an action takes from another site; timestamps are complete whenever there is a row |
| `Verdict.FaultFreeVerdict` | src/infra_mas/calibration_v0.py:493-783 | without failures the trace is marked complete if and only if each input that crosses sites is non-empty and needed by one action only on its Worker |
| `Verdict.FailedReceiverIsPartial` | src/infra_mas/calibration_v0.py:737-749 | a trace with bytes recorded for an action that failed later is partial, with complete timestamps |
| `Verdict.EvidenceExistsExactly` | src/infra_mas/calibration_v0.py:493-625 | whatever fails and whatever sites the executors have, there is evidence exactly when each action that did not fail has one |
| `Verdict.UnsharedTraceIsComplete` | src/infra_mas/calibration_v0.py:763-774 | without failures, with executors that have a site, non-empty artifacts, at least one action and no artifact needed twice on one remote Worker, all three evidence fields are complete |
| `VerdictExamples.SharedInputIsPartial` | src/infra_mas/calibration_v0.py:703-774 | a finished run in which two actions on one Worker take one remote artifact of any size: its trace is partial |
| `VerdictExamples.SingleInput` | src/infra_mas/calibration_v0.py:703-774 | a finished run of one action with one remote input: its trace is complete exactly when the input is not empty |
| `VerdictExamples.UnplacedToolRaises` | src/infra_mas/calibration_v0.py:539-544 | finished runs under an executor id that the registry does not hold: there is no evidence |
| `RetryExamples.RetryIsComplete` | src/infra_mas/execution/transfer.py:110-162 | one of two actions gives up in the midst of a pull and the other one pulls again: the trace is complete exactly when the failed pull left no file behind and the input is not empty |
| `ProvenanceOrder.RunOrdered` | src/infra_mas/execution/manager.py:52-119 | along every run, failures included, an execution starts after those that made its inputs, and a transfer after the execution that made its artifact and before that of its consumer |
| `ProvenanceOrder.ExecutionGoesBack` | src/infra_mas/calibration_v0.py:546-552 | in the rows of a finished run each dependency of an execution is a span that started strictly before it |
| `ProvenanceOrder.ProvenanceIsAcyclic` | src/infra_mas/calibration_v0.py:546-625 | in the trace of a finished run, failures included, following dependencies from a span meets only spans and none twice, where no action is named like a transfer |
| `JsonCanonical.EncodeInjective` | src/infra_mas/worker/service.py:382-388 | two values with the same canonical text are the same value |
| `JsonCanonical.HeadSeparatesTypes` | src/infra_mas/worker/service.py:361-368 | the first character of the text orders values of different types |
| `JsonText.EncodeExactly` | src/infra_mas/worker/service.py:273-276 | the canonical text is the one text of a value in the grammar of RFC 8259 without white space, with sorted keys and the escapes that Python writes |
| `Json.StringOrder` | src/infra_mas/worker/service.py:350-369 | strings compare by code points, at the first place where they differ, and a proper prefix comes first |
| `Records.ResolveField` | src/infra_mas/worker/service.py:141-150 | exact key first, else the dotted path through nested objects |
| `Records.FieldValuePlain` | src/infra_mas/worker/service.py:143-150 | a field without a dot is found exactly when it is a key |
| `Records.NestedField` | src/infra_mas/worker/service.py:141-150 | a dotted field reads the value nested under the parts of its name, unless the whole name is a key |
| `Records.CompareByLoop` | src/infra_mas/worker/service.py:375-388 | the comparator loop: first differing sort column, then the canonical text |
| `Records.ValuesTransitive` | src/infra_mas/worker/service.py:342-369 | the mixed comparison of two lookups is transitive for either direction and null placement |
| `Records.CompareRecordsAntisymmetric` | src/infra_mas/worker/service.py:375-388 | swapping the records reverses the sign |
| `Records.CompareRecordsTransitive` | src/infra_mas/worker/service.py:375-388 | the comparator is transitive over mixed types, any sort list, direction and null placement |
| `Records.CompareRecordsZero` | src/infra_mas/worker/service.py:382-388 | the comparator returns 0 only for equal records, and 0 for a record and itself |
| `Records.RecordOrderTotal` | src/infra_mas/worker/service.py:372-390 | the comparator is a total order on records |
| `TopK.TopKReadsInOrder` | src/infra_mas/worker/service.py:342-390 | for any list of columns the answer and what is left out together hold all records, and the answer reads in order and before all that is left out: numbers by size, strings by code points, false before true and other values by their text, ascending or descending, null and missing placed as asked, each column deciding where those before it agree, and the text of the record last |
| `TopK.TopKOfNumbers` | src/infra_mas/worker/service.py:342-390 | ordered by one column, no kept number lies beyond an omitted one in the asked direction, and null or missing is kept before a value only with nulls first |
| `TopK.TopKOfPermutation` | src/infra_mas/worker/service.py:390-390 | the answer depends only on the multiset of records |
| `TopK.TopKSelectsFirst` | src/infra_mas/worker/service.py:390-390 | the answer is sorted, has min(limit, number) records, and nothing left out precedes anything kept |
| `TopK.TopKOfShards` | src/infra_mas/worker/service.py:372-390 | top-k of all records is top-k of the concatenated shard answers |
| `Predicates.OperatorsPartition` | src/infra_mas/worker/service.py:153-188 | a missing field matches is_null only; negated operators are complements on present values; for comparable values exactly one of lt, eq, gt holds |
| `Predicates.FilterNumbers` | src/infra_mas/worker/service.py:153-188 | a record whose field is the integer m, or a boolean read as 0 or 1, stays under lt, lte, gt, gte, eq and ne n exactly when m < n, m <= n, m > n, m >= n, m = n and m != n |
| `Predicates.FilterStrings` | src/infra_mas/worker/service.py:153-188 | the same for strings by code points, and contains keeps exactly the strings with that part |
| `Predicates.FilterMembers` | src/infra_mas/worker/service.py:153-188 | eq, in and contains go by sameness once booleans are read as numbers: members of a list, items of an array, keys of an object |
| `Predicates.EqualIsSame` | src/infra_mas/worker/service.py:163-171 | the equality used is sameness of the values with booleans read as numbers at every depth |
| `Predicates.ArraysCompare` | src/infra_mas/worker/service.py:177-187 | arrays compare at the first place where they differ, and by length when there is none |
| `Predicates.FilterIncomparable` | src/infra_mas/worker/service.py:177-187 | values of different types, nulls and objects match no ordering operator |
| `Predicates.FilterMissing` | src/infra_mas/worker/service.py:157-162 | a missing field matches nothing but is_null |
| `Predicates.FilterCombines` | src/infra_mas/worker/service.py:235-245 | a record stays under match all when each predicate alone keeps it, and under match any when one does |
| `Predicates.ComparisonFitsEquality` | src/infra_mas/worker/service.py:177-187 | where two values compare, they tie exactly when they are equal, and swapping reverses the sign |
| `Predicates.EqualComparesAlike` | src/infra_mas/worker/service.py:177-187 | equal values, arrays and objects included, compare alike with every third value |
| `Predicates.AtMostTransitive` | src/infra_mas/worker/service.py:177-187 | at most is transitive on all values, arrays included, and comparable ends follow from comparable neighbours |
| `Predicates.FilterKeepsExactly` | src/infra_mas/worker/service.py:235-245 | a record stays as often as it occurs when it matches, else not at all |
| `Predicates.FilterInStages` | src/infra_mas/worker/service.py:240-245 | requiring all of two lists of predicates is filtering twice |
| `Aggregation.AggregateConcat` | src/infra_mas/worker/service.py:191-232 | count, sum, min and max of a concatenation combine from the parts, failures included, where keeping the better of the values is associative |
| `Aggregation.ExtremesSplitExactly` | src/infra_mas/worker/service.py:222-231 | min and max of every two lists over given values combine exactly when keeping the better is associative on all triples of these values, failures included |
| `Aggregation.AggregatesSplitExactly` | src/infra_mas/worker/service.py:191-232 | the same on records: every two parts combine exactly under that condition on their present values |
| `Aggregation.OrdinaryValuesMerge` | src/infra_mas/worker/service.py:222-231 | values without arrays meet the condition, and so do values that all compare with each other |
| `Aggregation.ArraysBreakMinMerge` | src/infra_mas/worker/service.py:222-231 | with arrays as values the minimum of the whole can exist while that of a part fails |
| `Aggregation.NeverFailsExactly` | src/infra_mas/worker/service.py:191-232 | an aggregation succeeds on every list of given records exactly when sum finds only numbers and min and max find only values that compare |
| `Aggregation.ExtremeOfIsBest` | src/infra_mas/worker/service.py:222-226 | min and max return a value that occurs and that no present value beats, arrays included; null when none is present |
| `Aggregation.ExtremeIsFirst` | src/infra_mas/worker/service.py:223-226 | of equal values the minimum or maximum is the one that comes first |
| `Aggregation.CountDistinctCountsValues` | src/infra_mas/worker/service.py:205-211 | distinct texts are distinct values |
| `Grouping.CollectGroups` | src/infra_mas/worker/service.py:267-279 | the loop that fills the dict of groups |
| `Grouping.AggregateByLoop` | src/infra_mas/worker/service.py:262-296 | the loops compute the specified rows, in key order, failures included |
| `AggregateMeaning.RowsTell` | src/infra_mas/worker/service.py:262-296 | every row tells about exactly the records with its group values, rows stand in the order of the texts of those values, and every record has a row |
| `AggregateMeaning.OneRecord` | src/infra_mas/worker/service.py:191-232 | over one record sum, min and max return its value, a present value counts one, and sum fails on what is no number |
| `AggregateMeaning.RaisedSum` | src/infra_mas/worker/service.py:213-221 | raising the number of one record by d raises the sum by exactly d |
| `AggregateMeaning.RaisedRow` | src/infra_mas/worker/service.py:262-296 | and so it raises the sum in the row of its group, by exactly d |
| `AggregateMeaning.SumFailsExactly` | src/infra_mas/worker/service.py:213-221 | sum fails exactly when some present value is no number |
| `AggregateMeaning.CountIsNumber` | src/infra_mas/worker/service.py:201-205 | count of a field is the number of records that have it |
| `AggregateMeaning.LeastAndGreatest` | src/infra_mas/worker/service.py:223-226 | over numbers min is one of them that none is below, and max one that none is above |
| `ShardMerge.OutputValue` | src/infra_mas/worker/service.py:287-294 | each output field of a row holds the aggregate of exactly its group |
| `ShardMerge.RowForKey` | src/infra_mas/worker/service.py:284-295 | the row found under a key is that of the group with this key |
| `ShardMerge.GroupKeysIncrease` | src/infra_mas/worker/service.py:284-296 | the group keys of the output increase strictly |
| `ShardMerge.SameKeySameGroupFields` | src/infra_mas/worker/service.py:268-279 | the group values kept with the first record are those of every record of the group |
| `ShardMerge.GroupSizesAddUp` | src/infra_mas/worker/service.py:268-279 | the sizes of the groups add up to the number of records |
| `ShardMerge.AggregateOfTwoShards` | src/infra_mas/worker/service.py:262-296 | the rows of all records are the rows of two parts merged by group key, where each aggregation merges on the values of each group |
| `MergeExactly.ShardsMergeExactly` | src/infra_mas/worker/service.py:262-296 | a list of aggregations of which at most one can fail, over every two parts of some records, can be merged by group key exactly when each merges on the values of each group |
| `MergeExactly.OneAggregationMergesExactly` | src/infra_mas/worker/service.py:262-296 | a single aggregation can be merged exactly under that condition, whether or not it can fail |
| `MergeExactly.FailingSumHidesMin` | src/infra_mas/worker/service.py:213-231 | with two aggregations that fail the condition is not needed: a sum that fails on all records hides a minimum that does not merge |
| `MergeExactly.OutcomesMergeExactly` | src/infra_mas/worker/service.py:262-296 | any list of aggregations over every two parts of some records can be merged by group key exactly when combining the outputs that lists of one group have is associative, failures included |
| `ShardMerge.AggregateOfShards` | src/infra_mas/worker/service.py:262-296 | the rows of any list of shards merge under that condition, empty shards and the ungrouped single row included |
| `AggregateOrder.ExtremesPermuteExactly` | src/infra_mas/worker/service.py:222-231 | the order of given values never matters for min and max exactly when keeping the better is associative and commutative on them |
| `AggregateOrder.CommutesExactly` | src/infra_mas/worker/service.py:222-226 | two values commute exactly when they do not tie or are the same value |
| `AggregateOrder.AggregationIgnoresOrder` | src/infra_mas/worker/service.py:262-296 | the same records in another order have the same rows, failures included, where that holds for the compared values of each group; count, count_distinct and sum need nothing |
| `AggregateOrder.OrderNeverMattersExactly` | src/infra_mas/worker/service.py:262-296 | over all lists of some records the order never matters for the rows exactly under that condition, for a single aggregation and for several that cannot fail |
| `AggregateOrder.SwapsDecideOrder` | src/infra_mas/worker/service.py:262-296 | for any list of aggregations the order of records never matters exactly when swapping the last two records of one group changes no output and no failure |
| `AggregateOrder.OrderMattersForEqualValues` | src/infra_mas/worker/service.py:222-226 | the minimum of 1 and true is the one that comes first |
| `Projection.SelectByLoop` | src/infra_mas/worker/service.py:248-259 | the projection loop keeps each listed field that resolves |
| `Projection.ProjectKeepsLookup` | src/infra_mas/worker/service.py:252-258 | a selected field resolves in the projected record as in the original |
| `Projection.DeriveByLoop` | src/infra_mas/worker/service.py:299-339 | the derivation loops; a missing or non-numeric operand fails the step |
| `Projection.DerivesExactly` | src/infra_mas/worker/service.py:299-340 | the step succeeds with exactly the records that the derivations make one after the other: each output holds the sum, difference or product of two fields that read as numbers at that point, all else stays, and one operand that is missing or no number fails the step |
| `Projection.LookupWithDerived` | src/infra_mas/worker/service.py:303-338 | a selected field reads the same in the projected and in the full record after derivation, unless an output hides its path |
| `Projection.SubtractUndoesAdd` | src/infra_mas/worker/service.py:320-323 | deriving a sum and then the difference returns the first operand and leaves the other fields |
| `Projection.FilterCommutesWithSelect` | src/infra_mas/worker/service.py:235-259 | filtering after the projection keeps the same records when the predicate fields are selected |
| `StructuredPlan.PushdownKeepsRows` | src/infra_mas/longbench_v2.py:173-203 | for an accepted plan that reads no shadowed field the projection step changes no aggregated row |
| `StructuredPlan.PushdownExactly` | src/infra_mas/longbench_v2.py:173-203 | the projection is harmless for all records if and only if no derivation or aggregate reads a field whose path an earlier output hides |
| `StructuredPlan.AcceptedExactly` | src/infra_mas/longbench_v2.py:174-208 | a plan is accepted exactly when no field is selected or grouped by twice, no derived field is selected, a selection retains what is read after it, sort fields exist by then, and it asks for aggregations alone or for an ordering with a limit of 1 to 1000 |
| `RankingPushdown.TopKOfColumns` | src/infra_mas/worker/service.py:372-390 | the sort columns of the top-k are the top-k of the sort columns |
| `RankingPushdown.PushdownKeepsRanking` | src/infra_mas/longbench_v2.py:661-706 | if no read is shadowed, the projection leaves the ranked sort columns as they are and fails no other derivation |
| `RankingPushdown.RankingPushdownExactly` | src/infra_mas/longbench_v2.py:173-203 | it does so for all records if and only if no derivation or sort reads a field whose path an earlier output hides |
| `RankingPushdown.TopKOfProjectionExactly` | src/infra_mas/worker/service.py:372-390 | with the sort fields selected, top-k after the projection is the projection of top-k, for every limit, exactly when records tied on the sort columns keep their order under the projection |
| `RankingPushdown.PlanRanksTheSameExactly` | src/infra_mas/longbench_v2.py:661-706 | the same for a plan in which no derivation reads a field that an earlier one hides and no derived field hides a selected one: with and without its projection it ranks the same records, for every limit, exactly when a derivation fails or that condition holds of the derived records |
| `RankingPushdown.ProjectionMovesTie` | src/infra_mas/worker/service.py:382-390 | two tied records of which the projection makes the other one first |
| `WorkerChain.RecordSetReloads` | src/infra_mas/worker/service.py:115-139 | a stored record set reads back as its records |
| `WorkerChain.GroupSetReloads` | src/infra_mas/worker/service.py:115-139 | a stored aggregation reads back as one record, the envelope, because only `records` is unwrapped |
| `WorkerChain.ProcessShard` | src/infra_mas/longbench_v2.py:661-706 | the chain of one Worker, its `current` reassigned and its results appended; a request that its model refuses or a failed step raises |
| `WorkerChain.RefusedChainFails` | src/infra_mas/core/execution.py:209-341 | no shard, more than 128, or a plan beyond the limits and uniqueness rules of the requests ends every chain |
| `WorkerChain.ChainSucceedsExactly` | src/infra_mas/longbench_v2.py:661-706 | on inputs that hold records the chain succeeds exactly within the stated limits of its requests and when every derivation and aggregation finds the values it needs |
| `WorkerChain.ChainStoresEach` | src/infra_mas/longbench_v2.py:661-706 | it stores one payload for each operator with work, in the order filter, select, derive, aggregate, top-k |
| `WorkerChain.PayloadHolds` | src/infra_mas/worker/service.py:115-139 | a payload reads as exactly the records it holds: those of its envelope, of its list, or itself |
| `WorkerChain.EnvelopeTells` | src/infra_mas/worker/service.py:1123-1134 | the envelope of an aggregation tells what was asked for and holds the rows that were computed |
| `WorkerChain.ChainRanks` | src/infra_mas/longbench_v2.py:661-706 | the last artifact of a ranking chain holds the top-k of the filtered, projected and derived records; the chain fails exactly when a request is refused or a derivation fails |
| `WorkerChain.ChainAggregates` | src/infra_mas/longbench_v2.py:661-706 | the last artifact of an aggregating chain holds the rows of the filtered, projected and derived records; it fails exactly when a request is refused or a step fails |
| `WorkerChain.OrderingIgnoresGroups` | src/infra_mas/longbench_v2.py:685-705 | a plan that aggregates and then orders ranks the single stored envelope, so no row is dropped or reordered |
| `DistributedPlan.AssignShards` | src/infra_mas/longbench_v2.py:657-659 | each shard goes to the list of its Worker; a length mismatch or an unknown Worker raises |
| `DistributedPlan.ShardsKeepOrder` | src/infra_mas/longbench_v2.py:656-662 | each Worker gets exactly the shards that name it, in the order in which they are given |
| `DistributedPlan.FinalInputsAre` | src/infra_mas/longbench_v2.py:656-711 | the final stage starts exactly when each shard is given to one of the three Workers and all three chains end with a payload, and gets these in the order of the Workers |
| `DistributedPlan.PartsHoldAll` | src/infra_mas/longbench_v2.py:657-659 | the lists of the Workers together hold the records of all shards, each as often |
| `DistributedPlan.DistributedCompute` | src/infra_mas/longbench_v2.py:656-711 | the final stage gets the last payload of each chain, in the order of the Workers; one failing chain raises |
| `DistributedPlan.DistributedRanking` | src/infra_mas/longbench_v2.py:656-711 | for shards assigned to Workers in any way, the final stage is reached exactly when all requests are accepted and no derivation fails, and the top-k of what it gets is the top-k of all records in their own order |
| `DistributedPlan.DistributedAggregation` | src/infra_mas/longbench_v2.py:656-711 | merging the stored rows that the final stage gets is the aggregation of all records taken Worker by Worker, where each aggregation merges on the values of each group; when a chain fails, so does that aggregation |
| `DistributedPlan.DistributedAggregationInOrder` | src/infra_mas/longbench_v2.py:656-711 | where no aggregation depends on the order within a group, the merged rows are the aggregation of all records in their own order, however they were assigned to Workers |
| `Intervals.UnionLength` | src/infra_mas/scope_expansion_v0.py:680-699 | for all rows the sweep returns the number of instants covered by the intervals with both times, less the lengths of the backward intervals that start beyond the end of every interval before them; so it is the length of the union exactly when there is no such interval |
| `Intervals.NoDebtExactly` | src/infra_mas/scope_expansion_v0.py:691-699 | nothing is taken away exactly when no interval is exposed in that way |
| `Intervals.CoveredByElements` | src/infra_mas/scope_expansion_v0.py:681-688 | the covered instants do not depend on the order or repetition of the intervals |
| `Intervals.UnionAtLeastEach` | src/infra_mas/scope_expansion_v0.py:691-699 | the union is at least as long as each interval |
| `Intervals.UnionAtMostSum` | src/infra_mas/scope_expansion_v0.py:691-699 | the union is at most as long as the intervals together |
| `Intervals.UnionIsSumExactly` | src/infra_mas/scope_expansion_v0.py:691-699 | it is as long as the intervals together exactly when no two of them share an instant |
| `Intervals.BackwardUnion` | src/infra_mas/scope_expansion_v0.py:680-699 | one row that finishes two units before it starts covers nothing, and the sweep returns -2 |
| `Intervals.MaxParallel` | src/infra_mas/semantic_switch.py:51-63 | for all rows the sweep returns the largest value, over all instants, of actions started less actions finished, and that is the largest number of actions with start <= t < finish exactly when some instant at which the most run lies in no action that finishes before it starts |
| `Intervals.BalanceIsRunning` | src/infra_mas/semantic_switch.py:51-63 | at an instant, actions started less actions finished is the number of actions with start <= t < finish exactly when the instant lies in no action that finishes before it starts |
| `Intervals.BalanceSplits` | src/infra_mas/semantic_switch.py:51-63 | for all rows it is that number less the number of actions with finish <= t < start |
| `Intervals.OverlapExactly` | src/infra_mas/semantic_switch.py:51-63 | the largest balance is the largest number running exactly under the condition of MaxParallel |
| `Intervals.BackwardOverlap` | src/infra_mas/semantic_switch.py:51-63 | rows from 5 to 1 and from 2 to 4: one action runs at 2, and the sweep returns 0 |
| `Intervals.StartIsCounted` | src/infra_mas/semantic_switch.py:60-62 | with ends before starts at one time, the running count after a start is reached at that instant |
| `WorkflowGraph.CollectProducers` | src/infra_mas/bench.py:247-270 | the table of producers, the last one winning |
| `WorkflowGraph.EdgesAreHandovers` | src/infra_mas/bench.py:272-280 | with artifacts produced once, an edge is exactly an output of one action that another takes |
| `WorkflowGraph.ExportIsOrdered` | src/infra_mas/bench.py:247-281 | when producers are requested before consumers and artifacts are produced once, every edge leads forward in request order |
| `WorkflowGraph.NoCycle` | src/infra_mas/bench.py:272-281 | in such a graph no path returns to its start |
| `WorkflowGraph.DepthMemo.Depth` | src/infra_mas/semantic_switch.py:39-46 | the memoised recursion ends, remembers, and returns the length of the longest path to the action |
| `WorkflowGraph.DepthMemo.WorkflowDepth` | src/infra_mas/semantic_switch.py:35-48 | the depth is the longest path over all requested actions and at most their number |
| `WorkflowGraph.PathsEndRequested` | src/infra_mas/semantic_switch.py:35-48 | every path of more than one action ends in a requested one, so the depth bounds all paths |
| `ExportedRuns.ExportActions` | src/infra_mas/bench.py:231-270 | one action per request with the outputs of its last successful execution |
| `ExportedRuns.ExportHasNoCycle` | src/infra_mas/bench.py:224-281 | whatever the interleaving and whatever fails, the workflow exported from a run has only forward dependencies |
| `Locality.EstimateInputTransfer` | src/infra_mas/resources/provider.py:119-141 | the loop sums the cheapest known source of each missing input and leaves with infinity when an input has none |
| `Locality.OneTransfer` | src/infra_mas/resources/provider.py:143-174 | never negative, and nothing for a Worker itself |
| `Locality.TransferPassesBits` | src/infra_mas/resources/provider.py:160-174 | between sites it takes one round trip, and in the rest of the time the link passes exactly the bits of the artifact; infinite exactly when no link is found |
| `Locality.LinkBetween` | src/infra_mas/resources/provider.py:155-172 | the link found joins the two sites in a direction it serves; none is found only when none does |
| `Locality.TotalCostFinite` | src/infra_mas/resources/provider.py:124-141 | the estimate is finite exactly when every input is local or has a reachable known source |
| `Locality.EstimateAddsUp` | src/infra_mas/resources/provider.py:119-174 | a finite estimate is the sum over the inputs of the least time from any known source: none inside a site, else the round trip of the first link that leads there and the time it needs for the bits |
| `Locality.LinkUsedIsSmallest` | src/infra_mas/resources/provider.py:68-172 | of several links between two sites the provider uses the one whose source, and then whose target, comes first |
| `Locality.SpreadNeverCosts` | src/infra_mas/resources/provider.py:124-141 | adding locations to the inputs never raises an estimate |
| `Locality.FactsIgnoreOrder` | src/infra_mas/resources/provider.py:68-71 | with one link per pair of sites the declaration order of the links does not matter |
| `Locality.SelectsBest` | src/infra_mas/scheduler/resource_aware.py:25-48 | the chosen replica has minimal cost and the smallest id among those; the choice fails exactly when every replica has an unreachable input |
| `Locality.SelectIgnoresOrder` | src/infra_mas/scheduler/resource_aware.py:27-48 | the declaration order of the replicas does not matter |
| `Locality.LocalizedChoiceIsFree` | src/infra_mas/scheduler/resource_aware.py:25-48 | after the inputs are moved to the chosen Worker no estimate has risen and the next choice costs 0 |
| `Locality.MediaWorkerMovesLeast` | src/infra_mas/execution/manager.py:292-316 | the selected Worker is capable, needs the fewest bytes moved, and has the smallest id among those; none is selected only when none is capable |
| `RoundRobin.RoundRobinScheduler.Select` | src/infra_mas/scheduler/round_robin.py:19-31 | takes the next replica in turn, stores the following position, and leaves other models alone; fails only for a model without replicas |
| `RoundRobin.CountsDifferByOne` | src/infra_mas/scheduler/round_robin.py:27-30 | after any interleaved selections two replicas of a model differ by at most one |
| `RoundRobin.TurnsAreRemainders` | src/infra_mas/scheduler/round_robin.py:27-30 | the selection with i selections of its model before it takes the replica at i modulo k, so the first one takes the first replica |
| `RoundRobin.WindowTakesEachOnce` | src/infra_mas/scheduler/round_robin.py:27-30 | any k consecutive selections of a model with k replicas take each exactly once |
| `SweepLog.ReadCompletedKeys` | src/infra_mas/scope_expansion_v0.py:499-520 | the set of cells that the log lists as completed in the series |
| `SweepLog.ScheduleIs` | src/infra_mas/scope_expansion_v0.py:473-476 | one warm-up numbered 0 and the repeats 1 to n; any other number of warm-ups is refused |
| `SweepLog.GridIs` | src/infra_mas/scope_expansion_v0.py:876-889 | the nested loops visit exactly the combinations of a task, a world, an attempt and a workflow |
| `SweepLog.GridOrder` | src/infra_mas/scope_expansion_v0.py:876-889 | for a task the worlds come one after the other, for a world the attempts, for an attempt the workflows; with SweepLog.GridOfTasks this is the order of every grid |
| `SweepLog.RefusedExactly` | src/infra_mas/scope_expansion_v0.py:876-889 | a number of warm-ups is refused exactly when some cell asks for the schedule |
| `SweepLog.Sweep.RunCell` | src/infra_mas/scope_expansion_v0.py:889-891 | skips a completed cell, else appends its row and remembers a success |
| `SweepLog.Sweep.RunPass` | src/infra_mas/scope_expansion_v0.py:871-891 | one pass over the grid from the log as it is; a wrong number of warm-ups is refused at the first task and world, so not for a grid without any |
| `SweepLog.RestartsCompleteOnce` | src/infra_mas/scope_expansion_v0.py:1184-1187 | over any restarts, failures and stops the log holds at most one completed row per cell of a series |
| `SweepLog.FaultFreePassCompletes` | src/infra_mas/scope_expansion_v0.py:876-891 | a pass without failures leaves every cell of the grid with exactly one completed row and no other cell changed |
| `SweepLog.SecondPassWritesNothing` | src/infra_mas/scope_expansion_v0.py:890-891 | a restart after such a pass writes nothing |
| `SweepLog.VisitAppends` | src/infra_mas/scope_expansion_v0.py:1184-1187 | a pass only appends, one row for each new row it reports |
| `Ledger.Open` | src/infra_mas/planner/ledger.py:44-50 | repeated initial ids are refused |
| `Ledger.PlanningLedger.RecordCompleted` | src/infra_mas/planner/ledger.py:52-63 | a second completion of an action is refused and changes nothing, else it is added and the snapshot returned |
| `Ledger.PlanningLedger.Snapshot` | src/infra_mas/planner/ledger.py:70-90 | the loops compute the specified snapshot |
| `Ledger.PlanningLedger.CountUses` | src/infra_mas/planner/ledger.py:75-79 | the nested loops count each invocation once per distinct input |
| `Ledger.SnapshotIgnoresOrder` | src/infra_mas/planner/ledger.py:70-90 | the snapshot is the same for every completion order of the same invocations |
| `Ledger.SnapshotCounts` | src/infra_mas/planner/ledger.py:70-90 | each use count is the number of invocations that take the input, and the unused list is exactly the inputs none takes, in initial order |
| `Ledger.SnapshotIsOrdered` | src/infra_mas/planner/ledger.py:70-98 | completed invocations are listed by the number after the last dash of their action, 0 when there is none, and those of equal number by the code points of the action |
| `Ledger.SuffixIs` | src/infra_mas/planner/ledger.py:92-98 | the sort key reads the text after the last dash |
| `CodeContext.CodePlannerContext.InvokeTool` | src/infra_mas/code_tasks/context.py:47-54 | draws the next action number and reads the current repository version |
| `CodeContext.CodePlannerContext.Gate` | src/infra_mas/code_tasks/context.py:78-115 | counts explorations and answers those beyond the budget itself |
| `CodeContext.CodePlannerContext.TakeAnswer` | src/infra_mas/code_tasks/context.py:138-148 | a successful edit raises the version; observation, version and patch become pending |
| `CodeContext.CodePlannerContext.TakeError` | src/infra_mas/code_tasks/context.py:119-134 | a call that raises hands over nothing |
| `CodeContext.CodePlannerContext.ConsumeObservations` | src/infra_mas/code_tasks/context.py:177-180 | hands over and clears what is pending |
| `CodeContext.CodePlannerTraceHooks.CountLlmStart` | src/infra_mas/code_tasks/trace_hooks.py:37-37 | counts the turn before its action number is drawn |
| `CodeContext.CodePlannerTraceHooks.RecordLlmStart` | src/infra_mas/code_tasks/trace_hooks.py:37-48 | the turn takes everything that is pending |
| `CodeContext.CodePlannerTraceHooks.RecordLlmEnd` | src/infra_mas/code_tasks/trace_hooks.py:57-60 | ends the open turn, if any |
| `CodeContext.ObservationsReachOneTurn` | src/infra_mas/code_tasks/context.py:117-180 | in every interleaving the observation of a call that did not raise is pending or was taken by exactly one turn, once |
| `CodeContext.VersionsCountEdits` | src/infra_mas/code_tasks/context.py:140-148 | versions count the successful edits and each is handed out exactly once |
| `CodeContext.PatchesAreSubmitted` | src/infra_mas/code_tasks/context.py:138-148 | the patch of a call is handed over once when the call is a successful submit_patch, and never otherwise |
| `CodeContext.CallsAreAnnounced` | src/infra_mas/code_tasks/context.py:47-54 | every call has the number drawn when it was asked for, its tool, and the number of edits that had succeeded by then as the version to read |
| `CodeContext.TurnsTakeInOrder` | src/infra_mas/code_tasks/context.py:117-180 | the turns one after the other, and then what is pending, are in order all that the answers produced |
| `CodeContext.OpenTurnIsLast` | src/infra_mas/code_tasks/trace_hooks.py:37-60 | the open turn is the last one started, with the numbers of that moment, and there is none once it ended |
| `CodeContext.BudgetHolds` | src/infra_mas/code_tasks/context.py:78-80 | of the explorations asked for, exactly the first ones up to the budget reach the Worker |

## Left out

- Aggregation.AggregateConcat: `mean` and `count_distinct` do not combine from the stored values; `min` and `max` do under the condition of `Aggregation.ExtremesSplitExactly`.
- ShardMerge.AggregateOfShards: carries the same condition, on the values of each group.
- ProvenanceOrder.ProvenanceIsAcyclic: asks that no action is named like a transfer, as request ids are not.
- FaultFree.DeliveredExactlyOnce: covers runs that start with every artifact stored at its origin only; the safety results in `ProtocolSafety` have no such condition.
- Verdict.TraceVerdict: covers runs in which every action has finished, every client has a site, and every initial artifact originates on a Worker with a client.
- Projection.DeriveByLoop: omits `divide`, whose results are floats.
- DistributedPlan.DistributedAggregation: takes the records in the order of the Workers; `DistributedPlan.DistributedAggregationInOrder` takes them in their own order, where the aggregations do not depend on it.
- Floating point: `divide` and `mean`, rounding of costs and times, NaN (which RFC 8259 section 6 disallows) and infinite bandwidth or delay.
- The contents of pulled artifacts in the protocol: the stores of `Protocol` hold sizes; `Transfer.ArtifactStore` holds bytes.
- A pull that the target Worker goes on with after the controller has given it up, cancellation, and failures of the trace file itself.
- HTTP, FastAPI routes, throttling, streaming and timing: a pull is a step that succeeds with some byte count or fails.
- The checks of an execution result (executor id, local output locations): both end in the same failed step as any other execution error.
- Parsing of JSON text, JSON Lines and media types: record files are payload values, `JsonText.EncodeExactly` says what their text is and `JsonCanonical.EncodeInjective` that it determines them.
- Texts of requests, error messages, and the token, cost and service columns of rows; the limits of requests are those of the record operators only (`WorkerChain.PlanAccepted`).
- The `executor.selected` event, which no row builder reads, and the other columns of exported actions.
- BM25 retrieval, media sampling and contact sheets, model backends and the planner's prompts.
- The planner catalogue beyond copying and merging references, and the lineage of reasoning artifacts in code runs.
- The `_realized_trace` of `scope_expansion_v0.py`, which states its evidence as constants.
- Two sweeps writing one log at once, torn writes, and the number of completed cells that a sweep reports.
- The order in which a set of parents or distinct inputs is visited: the loops take any order, and the results do not depend on it.
