# Verification of the energy agent

A Dafny model of the parts of the repository whose correctness depends on more than one
function: the asynchronous indexing protocol, the lifecycle of reviewed cases, and the
algorithms for evidence selection, module cycles, paging, cursors, event streams, batch
draining, circuit breaking and scoring.

## Layout

- **Indexing protocol.** `index_store.dfy` holds the job and outbox tables as values, one
  function for each committed transaction. `index_protocol.dfy` joins them with the broker's
  queues and the workers into one transition system; an event is a committed transaction, a
  broker action, or the loss of a process, and an event whose guard is false changes nothing,
  so theorems about all event sequences are theorems about all interleavings. Delivery is at
  least once: an unacknowledged message returns when its worker dies, and also when only the
  worker's channel is lost and the worker carries on. `index_delivery.dfy` and
  `index_attempts.dfy` prove what holds over every run; `index_scenarios.dfy` gives the runs in
  which a property fails without its condition; `index_outbox.dfy` says what the columns of an
  outbox row record. `index_runtime.dfy` and `index_workers.dfy` are
  the repository, the broker, the publisher and the consumer as classes, proved against the
  table functions and shown to be runs of the protocol; `batch_drainer.dfy` builds on them.
- **Cases.** `case_lifecycle.dfy` gives every service call as a function on the stored state
  with each external failure as a parameter. `case_history.dfy` and `case_decisions.dfy` cover
  both execution modes: what every call keeps, what has happened to a case in a given status,
  and what an idempotency key guarantees. `case_agreement.dfy` is about the sync mode with any
  failures, `case_calm.dfy` about it without any; `case_calls.dfy` says field by field what
  single calls do, and `case_texts.dfy` under which text a case is stored. `case_queue.dfy`
  combines the service calls, the protocol and the case handler for RabbitMQ mode;
  `case_handler.dfy` says what each outcome of the handler leaves behind, `case_convergence.dfy`,
  `case_outcomes.dfy` and `case_activity.dfy` prove the invariants of the whole and what they
  mean; `case_scenarios.dfy` holds a concrete run. `case_service.dfy` is the service, the case
  repository and the case handler as classes whose methods are proved against those functions.
- **Selection and scores.** `selection*.dfy`, `scoring.dfy`, `candidate_scoring.dfy`,
  `merge.dfy`, over the reals.
- **The rest.** `module_graph.dfy` and `module_cycles.dfy`; `sse_framing.dfy`, `sse_parser.dfy`
  and `sse_round_trip.dfy`; `alarm_query.dfy` and `alarm_paging.dfy`; `utf8.dfy` and
  `cursors.dfy`; `circuit_breaker.dfy`.

## Abstractions

- A database transaction is one atomic step. Rows are never deleted, so ids are positions. A
  start whose record fails validation rolls back and is a step without effect.
- The key `_supersede` builds from a case id is taken to differ from every key a client sends.
  In the code both are plain strings, so a client that sends such a key itself makes the later
  supersession clash.
- A handler call for a case is one step, because the handler does not check the review status
  again when it records its result.
- Calls into other systems are parameters: each may raise, and a vector write that raises may
  or may not have landed. The embedding of a text is an injective function of the text.
- Modules, alarm ids and moments are given by their rank in the order the program uses.
- JSON parsing and dumping, LIKE matching, template routing and ISO dates are parameters; what
  is used of them is stated where it is used.
- Scores and clocks are real numbers.

## Where the code does less than its documentation promises

Each of these has an exact condition or a run that shows it, or both.

- A job is lost exactly when a worker that has lost its delivery stops while it alone carries
  the job (`JobsAreLostOnlyByStranding`): after recording a failure it has not republished
  (`AStrayCanStrandAJob`), or at work on a failed job that it has started again
  (`ABelatedStartCanStrandAJob`).
- The acknowledgement of a success is inside the guarded block, so an exception from it
  reopens a settled job (`ARaisingAckReopensAJob`).
- An unfinished job can never end once it is out of attempts and no worker can settle or fail
  it, because every further start rolls back and an operator may only retry a failed job; this
  is the exact condition (`NeverEndsExactlyWhenAbandoned`). A crash during the last attempt
  leaves it RUNNING (`ACrashOnTheLastAttemptWedgesAJob`), and two overlapping deliveries leave
  it QUEUED although nothing crashed (`AnOverlapWedgesAQueuedJob`).
- A second reindex of a degraded case finds the settled job of the first one, takes the case
  out of retrieval and queues nothing (`RequestIsOwed`, `AReindexMayQueueNothing`).
- The diversity swap ignores the cap of the item it brings in, and a `top_k` below one does not
  limit the result (`CapsHoldUnlessTheSwapIgnoresOne`, `CapsHoldExactlyForTheseLimits`,
  `SizeLimitNeedsAPositiveTopK`).
- A revision whose event cannot be recorded has created its draft all the same, so the retry
  creates a second one (`RevisionIsRepeatedUnlessNoted`).
- The two execution modes store a case under different texts when one of its fields has white
  space around it: only indexing inside the call strips the fields (`ModesStoreTheSameText`).
- The drainer retries a stale event where the consumer settles it
  (`AgreesWithConsumerUnlessStale`).
- A chunk that ends inside a "\r\n" can hide the end of an event frame
  (`SeenExactlyWhenSplitFree`, `ACutInsideALineEndCanLoseAnEvent`).
- A failure that does not count hands the half-open probe back at once
  (`WhatReleasesTheProbe`, `UncountedFailuresBreakTheBound`).
- Without any weight on an available channel the retrieval score is zero, below all of them
  (`RetrievalIsBetween`).

## Model

| member | source | states |
|---|---|---|
| IndexStore.RecreationReturnsTheJob | src/energy_agent/indexing/repository.py:81-92 | asking again for the same tuple adds nothing and finds the one existing job |
| IndexProtocol.SoundRun | src/energy_agent/indexing/repository.py:76-289 | over every run: tuples stay unique, attempts stay within the limit, outbox rows and workers refer to existing jobs |
| IndexProtocol.OthersUntouched | src/energy_agent/indexing/service.py:57-196 | a step changes no delivery but the one it names |
| IndexDelivery.LosesOnlyByStranding | src/energy_agent/indexing/service.py:132-196 | a step keeps every owed job carried if and only if it is not the stop of a stray worker that alone carries one |
| IndexDelivery.JobsAreLostOnlyByStranding | src/energy_agent/indexing/service.py:57-196 | for every run: each job that is neither settled nor failed has an unsent row, a queued message or a live worker in all its states if and only if no step is the stop of a stray that alone carries a job |
| IndexDelivery.NoJobIsLost | src/energy_agent/indexing/service.py:57-196 | so no job is lost under every interleaving in which strays stop only when they are through with their message |
| IndexDelivery.NoJobIsLostByCrashes | src/energy_agent/indexing/publisher.py:32-62 | with crashes anywhere, but messages coming back only after their worker is gone, the outbox or the broker holds something for each owed job |
| IndexScenarios.AStrayCanStrandAJob | src/energy_agent/indexing/service.py:149-196 | a run in which a finished job falls back to QUEUED and is then lost |
| IndexScenarios.ABelatedStartCanStrandAJob | src/energy_agent/indexing/repository.py:176-193 | a run in which a stray starts a failed job again and stops at work, without recording anything, and the job is lost |
| IndexScenarios.ARaisingAckReopensAJob | src/energy_agent/indexing/service.py:97-153 | an acknowledgement that raises after success turns an INDEXED job into a QUEUED one |
| IndexScenarios.ACrashOnTheLastAttemptWedgesAJob | src/energy_agent/indexing/repository.py:176-193 | a run that ends with an abandoned RUNNING job whose message can only be rolled back |
| IndexScenarios.AnOverlapWedgesAQueuedJob | src/energy_agent/indexing/service.py:132-153 | a run in which no process dies and which ends with an abandoned QUEUED job |
| IndexAttempts.AttemptsAreCommittedStarts | src/energy_agent/indexing/repository.py:176-193 | in every committed state the attempts are the committed starts since creation or the last operator retry, and at most the limit |
| IndexAttempts.SettledChangesOnlyBySettling | src/energy_agent/indexing/repository.py:154-203 | a settled job changes if and only if a worker records another result for it |
| IndexAttempts.SettledIsFinal | src/energy_agent/indexing/service.py:77-85 | without overlapping deliveries of a job and raising acknowledgements, settled statuses are absorbing over every run |
| IndexAttempts.CalmStartsCommit | src/energy_agent/indexing/repository.py:176-193 | without crashes at work, the message of an unfinished job always starts it: the attempt is within the limit |
| IndexAttempts.CalmRunsSettleInTime | src/energy_agent/indexing/repository.py:176-193 | in every run without crashes at work and overlaps, a job with as many committed starts as its limit and nobody at work is settled or failed |
| IndexAttempts.SettlesWithinItsAttempts | src/energy_agent/indexing/service.py:132-148 | whatever the handler does, a waiting job is settled or failed after as many passes as it has attempts left |
| IndexAttempts.NeverEndsExactlyWhenAbandoned | src/energy_agent/indexing/repository.py:176-289 | no later run ever settles or fails a job if and only if it is unfinished, out of attempts, and no worker works on it, has a final result for it, or may have its last acknowledgement raise |
| IndexAttempts.AbandonedForEver | src/energy_agent/indexing/contracts.py:95-103 | such a job stays so in every later run |
| IndexOutbox.AttemptsToPublishAreCounted | src/energy_agent/indexing/repository.py:154-174 | in every state a row is sent if and only if its marking was committed, and its publish attempts are one for that and one for each error recorded on it |
| IndexRuntime.IndexRepository.AddJob | src/energy_agent/indexing/repository.py:76-128 | the whole new state: nothing for a known tuple, otherwise one pending job with one unsent row; returns the job of the tuple |
| IndexRuntime.IndexRepository.PendingOutbox | src/energy_agent/indexing/repository.py:138-152 | the oldest unsent rows in order, up to the limit, none passed over |
| IndexRuntime.IndexRepository.MarkPublished | src/energy_agent/indexing/repository.py:154-166 | marks an unsent row and queues a pending job, each only if it exists and is still so |
| IndexRuntime.IndexRepository.Start | src/energy_agent/indexing/repository.py:176-193 | missing, settled, rolled back or started, with the state each leaves |
| IndexRuntime.IndexRepository.Fail | src/energy_agent/indexing/repository.py:205-222 | the job is failed or queued again and nothing else changes |
| IndexRuntime.IndexRepository.Retry | src/energy_agent/indexing/repository.py:256-289 | only a failed job is reopened, with no attempts and a new unsent row |
| IndexRuntime.RowEventsStep | src/energy_agent/indexing/publisher.py:34-61 | the state after one row is dealt with, for each way its publish can go, is reached by protocol steps |
| IndexWorkers.OutboxPublisher.PublishOnce | src/energy_agent/indexing/publisher.py:32-62 | one poll is a run of the protocol over the oldest unsent rows, up to the first error that cannot be recorded; a row is sent exactly when it was or its marking committed; the count is the rows whose publish returned |
| IndexWorkers.IndexConsumer.Consume | src/energy_agent/indexing/service.py:57-196 | the whole state after an uninterrupted call, for every message, outcome and raising acknowledgement |
| IndexWorkers.IndexConsumer.Conclude | src/energy_agent/indexing/service.py:97-196 | the state from the handler's result on |
| IndexWorkers.ConsumedForSomething | src/energy_agent/indexing/service.py:97-196 | a started job ends settled with no copy queued, or queued with exactly one retry copy and an attempt left, or failed with exactly one dead copy |
| IndexWorkers.ConsumeIsAPass | src/energy_agent/indexing/service.py:57-196 | for its job the call is one pass, so the bound on passes is one on calls |
| IndexWorkers.ConsumeIsARun | src/energy_agent/indexing/service.py:57-196 | the call is the run of the worker's own protocol steps |
| CaseModel.MissingCaseFields | src/energy_agent/cases/application.py:65-79 | no field is missing if and only if all required ones are filled in and every reference is known |
| CaseLifecycle.MaxVersion | src/energy_agent/persistence/repositories/cases.py:364-373 | the greatest version of the session, or zero if there is none |
| CaseHistory.CallsProgress | src/energy_agent/cases/application.py:337-623 | every call, in either mode and with any failures, moves each case only along the lifecycle; submission needs complete content, review another person |
| CaseHistory.ReachableIsLawful | src/energy_agent/cases/application.py:373-438 | in every reachable state reviewers differ from creators, cases past DRAFT are complete, and versions of a session are distinct |
| CaseHistory.FinalStatusesAreFinal | src/energy_agent/cases/application.py:394-497 | REJECTED, DISABLED and SUPERSEDED are never left |
| CaseHistory.ChainsDescend | src/energy_agent/cases/application.py:520-547 | revision chains are finite and acyclic: versions strictly fall within one session |
| CaseHistory.RevisionIsRepeatedUnlessNoted | src/energy_agent/cases/application.py:507-560 | repeating a revision with its key creates no second draft if and only if the event of the first one was recorded |
| CaseDecisions.ReviewIsDecision | src/energy_agent/cases/application.py:394-450 | a review of a submitted case by someone other than its creator decides it: a rejection sets the status REJECTED and the reviewer and nothing else; any other review is the same one again or is refused |
| CaseDecisions.CallsMove | src/energy_agent/cases/application.py:355-746 | for every call and every case, the status after the call |
| CaseDecisions.StatusIsHistory | src/energy_agent/cases/application.py:355-746 | over every run a case is past DRAFT, rejected, approved, disabled or superseded if and only if some call submitted, rejected, approved, disabled or replaced it |
| CaseDecisions.AcceptedOnlyOnce | src/energy_agent/persistence/repositories/cases.py:200-215 | after a call was accepted under a key, whatever comes between, the same call is accepted and changes nothing, and the key serves no other request for the case |
| CaseCalls.PatchIsExact | src/energy_agent/persistence/repositories/cases.py:164-178 | who may edit a draft, and that each given field takes its value and every other one stays |
| CaseCalls.CreationIsExact | src/energy_agent/cases/application.py:256-321 | an inactive draft with the next version of its session, and nothing else |
| CaseCalls.RevisionIsExact | src/energy_agent/cases/application.py:499-563 | a draft of the same session that names the original, with the given fields changed; only of approved and rejected cases |
| CaseCalls.ApprovalQueues | src/energy_agent/cases/application.py:412-438 | in RabbitMQ mode an approved case waits, inactive, with its upsert requested |
| CaseCalls.DisablingQueues | src/energy_agent/cases/application.py:464-497 | in RabbitMQ mode a disabled case is inactive with its tombstone requested; replay and refusal |
| CaseCalls.ReindexQueues | src/energy_agent/cases/application.py:584-611 | which cases can be reindexed, and the job that is asked for |
| CaseCalls.ReindexRepairs | src/energy_agent/cases/application.py:612-623 | in sync mode a reindex without a fault makes index, activity and vector of such a case fit its status, whatever they were |
| CaseTexts.FieldsAreReadBack | src/energy_agent/cases/application.py:52-62 | the lines of the embedded text are the seven given fields in order, stripped, without the blank ones |
| CaseTexts.ModesStoreTheSameText | src/energy_agent/indexing/handler_runtime.py:359-371 | both execution modes store a case under the same text if and only if no field has white space around it |
| CaseAgreement.ReachableAgrees | src/energy_agent/cases/application.py:394-746 | in sync mode an active case is approved, indexed and stored under the embedding of its own text, and a removed one has no vector, whatever fails |
| CaseAgreement.ApprovalActivatesExactlyWhenRecorded | src/energy_agent/cases/application.py:394-450 | a sync approval puts the case into retrieval if and only if its index record is written and stays |
| CaseCalm.CalmRunsAreSettled | src/energy_agent/cases/application.py:394-746 | in every state that sync mode reaches without a fault, approved cases are indexed, active and stored under their own text, disabled and superseded ones are removed without a vector, all others were never indexed, and no case is approved beside one it supersedes |
| CaseQueue.SystemRunsTheProtocol | src/energy_agent/indexing/handler_runtime.py:319-420 | service calls and handler calls drive a run of the protocol, so its theorems apply |
| CaseConvergence.EveryStateConverges | src/energy_agent/indexing/handler_runtime.py:319-420 | the invariant of RabbitMQ mode: approved cases have an upsert job recorded, withdrawn ones are inactive with a tombstone recorded, and the statuses of jobs fit their cases |
| CaseActivity.ActiveCasesAreRetrievable | src/energy_agent/indexing/handler_runtime.py:357-420 | in every state of RabbitMQ mode an active case is approved, indexed in full or without its graph, and stored under the embedding of the text of its own fields |
| CaseHandler.OutcomesAreExact | src/energy_agent/indexing/handler_runtime.py:319-420 | the exact condition of each outcome; without a fault an upsert is DEGRADED if and only if the graph was not written |
| CaseHandler.SuccessIsExact | src/energy_agent/indexing/handler_runtime.py:325-420 | a case is recorded as its job will be, INDEXED, DEGRADED or TOMBSTONED; its vector is deleted or written under its text; exactly an approved predecessor is withdrawn |
| CaseHandler.FailureIsExact | src/energy_agent/indexing/handler_runtime.py:319-420 | what a call that does not succeed leaves behind, by where it raised |
| CaseOutcomes.TombstonesTakeEffect | src/energy_agent/indexing/handler_runtime.py:325-356 | a tombstone job never settles STALE, and once TOMBSTONED its case is withdrawn, inactive and without a vector |
| CaseOutcomes.JobsMatchDecisions | src/energy_agent/cases/application.py:412-497 | over every run a case has an upsert job if and only if it has been approved, and a tombstone if and only if it has been disabled or superseded |
| CaseOutcomes.StaleMeansWithdrawn | src/energy_agent/indexing/handler_runtime.py:319-358 | a job of a case settles STALE only when the case has been withdrawn |
| CaseOutcomes.ApprovedCasesAreOnTheirWayIn | src/energy_agent/cases/application.py:412-438 | in every run that strands no job, the upsert of an approved case is INDEXED, DEGRADED or FAILED, or is still carried |
| CaseOutcomes.TombstonedForEver | src/energy_agent/indexing/handler_runtime.py:319-420 | from then on, over every run, no late or repeated message brings the case back |
| CaseOutcomes.WithdrawnCasesAreOnTheirWayOut | src/energy_agent/cases/application.py:452-497 | in every run that strands no job, every withdrawn case is inactive and its tombstone has taken effect, has failed, or is still carried |
| CaseOutcomes.SupersessionIsComplete | src/energy_agent/indexing/handler_runtime.py:415-420 | once an upsert or reindex of a revision has settled INDEXED or DEGRADED, its predecessor is never again approved |
| CaseOutcomes.RequestIsOwed | src/energy_agent/cases/application.py:600-611 | the job a call asks for is owed afterwards if and only if no job of that tuple has settled or failed |
| CaseScenarios.AReindexMayQueueNothing | src/energy_agent/indexing/repository.py:81-92 | a run after which a reindex takes an active case out of retrieval with no job owed |
| CaseService.CaseStore.Transition | src/energy_agent/persistence/repositories/cases.py:180-250 | missing, clash, replay or move, and the whole state after each: status, updated fields, key and index job change together or not at all |
| CaseService.CaseStore.NextVersion | src/energy_agent/persistence/repositories/cases.py:364-373 | one more than the greatest version of the session |
| CaseService.CaseApplicationService.Index | src/energy_agent/cases/application.py:629-686 | the state after embedding, writing and recording, with every failure rescued |
| CaseService.CaseApplicationService.Tombstone | src/energy_agent/cases/application.py:688-709 | the state after deleting the vector and recording, with every failure rescued |
| CaseService.CaseApplicationService.Supersede | src/energy_agent/cases/application.py:711-746 | the predecessor's transition, tombstone or job request, and reply |
| CaseService.CaseApplicationService.Submit | src/energy_agent/cases/application.py:355-392 | the call as the lifecycle function gives it |
| CaseService.CaseApplicationService.ReviewCase | src/energy_agent/cases/application.py:394-450 | approval, rejection, replay or refusal, with indexing and supersession |
| CaseService.CaseApplicationService.DisableCase | src/energy_agent/cases/application.py:452-497 | withdrawal with its tombstone, replayed or refused |
| CaseService.CaseApplicationService.Revision | src/energy_agent/cases/application.py:499-563 | a new draft with the next version of the session and then its event, each in its own transaction, or replay or refusal |
| CaseService.CaseApplicationService.ReindexCase | src/energy_agent/cases/application.py:565-623 | which operation is retried, queued or refused, and the state after it |
| CaseService.IndexHandlerRuntime.HandleCaseEvent | src/energy_agent/indexing/handler_runtime.py:319-420 | the case handler on every event and every point where it may raise |
| CaseService.IndexHandlerRuntime.QueueSupersededCase | src/energy_agent/indexing/handler_runtime.py:524-551 | exactly an approved predecessor is superseded |
| Selection.CosineAboveComparesTheQuotient | src/energy_agent/retrieval/dedup.py:6-10 | the root-free test decides whether the quotient of dot product and norms exceeds the threshold |
| SelectionExact.CosineAboveIsExact | src/energy_agent/retrieval/dedup.py:6-10 | the same on all vectors: different lengths, empty and zero vectors have cosine 0 |
| SelectionExact.DotIsTheSum | src/energy_agent/retrieval/dedup.py:9-10 | the dot product adds up the products position by position |
| Selection.RankedSorts | src/energy_agent/retrieval/dedup.py:22 | ranking sorts by descending score and permutes |
| Selection.RankedKeepsTies | src/energy_agent/retrieval/dedup.py:22 | candidates with equal scores keep their order |
| SelectionExact.SomeAreTaken | src/energy_agent/retrieval/dedup.py:25-44 | there is a set of positions as the next two rows ask for |
| SelectionExact.GreedyTakesExactly | src/energy_agent/retrieval/dedup.py:25-44 | a position is taken if and only if the floor, the size, the cap of its source, the identities and the similarities of those taken before it allow it; only one set of positions is so |
| SelectionExact.SelectionIsExact | src/energy_agent/retrieval/dedup.py:22-63 | the taken candidates are the result, unless they are two or more of one type and one of another type could enter: then the best such one, the first among equals, replaces the lowest |
| SelectionSoundness.SelectionIsSound | src/energy_agent/retrieval/dedup.py:22-63 | on mixed sources the result is sorted, drawn from the candidates, free of repeated identities, above the floor and within a positive limit |
| SelectionSoundness.CapsHoldUnlessTheSwapIgnoresOne | src/energy_agent/retrieval/dedup.py:45-62 | every cap holds after the swap if and only if the item swapped in has a cap of at least one |
| SelectionSoundness.CapsHoldExactlyForTheseLimits | src/energy_agent/retrieval/dedup.py:13-63 | the limits that keep every cap on all inputs: both caps are at least one, or neither is, or `top_k` is one |
| SelectionSoundness.ASwapCanBreakACap | src/energy_agent/retrieval/dedup.py:45-62 | an input whose result exceeds a cap |
| SelectionSoundness.KeptItemsAreDiverse | src/energy_agent/retrieval/dedup.py:35-40 | two items that the swap did not bring in are within the similarity threshold |
| SelectionSoundness.NothingIsPassedOver | src/energy_agent/retrieval/dedup.py:25-44 | with room left and no swap, each rejected qualifying candidate is blocked by an identity, a cap or a similar selected item |
| SelectionSoundness.SizeLimitNeedsAPositiveTopK | src/energy_agent/retrieval/dedup.py:41-44 | the result respects `top_k` if and only if it is positive, or zero with nothing admissible |
| SelectionSoundness.NonPositiveTopKDoesNotLimit | src/energy_agent/retrieval/dedup.py:41-44 | a `top_k` below one selects as one larger than the input does |
| SelectionOptimality.SelectionDominates | src/energy_agent/retrieval/dedup.py:22-44 | the i-th selected score is at least the i-th best of any choice within the floor, the caps and the limit |
| SelectionOptimality.SelectionIsOptimal | src/energy_agent/retrieval/dedup.py:22-44 | the selection is such a choice, with the greatest total score |
| SelectionOptimality.OneTypeIsNeverSwapped | src/energy_agent/retrieval/dedup.py:45-62 | candidates of one source type are never swapped, so both optimality theorems apply to them |
| SelectionLoop.DeduplicateAndDiversify | src/energy_agent/retrieval/dedup.py:13-63 | the loop over list, set and count table, and the swap, compute the specified selection |
| ModuleCycles.ImportGraph | scripts/check_module_boundaries.py:195-208 | exactly the edges between different logical modules that a checked file imports |
| ModuleCycles.EdgesAreImports | scripts/check_module_boundaries.py:195-208 | an edge means that some checked file of the one module imports the other one, and the two differ |
| ModuleCycles.CycleFinder.Visit | scripts/check_module_boundaries.py:212-218 | adds the least rotation of every simple cycle that begins with the path, and nothing else; terminates |
| ModuleCycles.LogicalModuleCycles | scripts/check_module_boundaries.py:195-223 | the list is strictly ordered, holds exactly the simple cycles that start with their least module, and is empty if and only if no walk returns to its start |
| ModuleCycles.EveryCycleIsListedOnce | scripts/check_module_boundaries.py:212-223 | exactly one entry of the list is a rotation of any given cycle |
| ModuleCycles.CyclesCrossBoundaries | scripts/check_module_boundaries.py:195-208 | every step of a cycle is an import of one logical module by another, so a cycle has at least two |
| ModuleGraph.LeastRotationStartsLeast | scripts/check_module_boundaries.py:215-217 | the least rotation is the one that starts with the least module |
| ModuleGraph.ClosedWalksContainCycles | scripts/check_module_boundaries.py:195-223 | a closed walk contains a simple cycle |
| SseFraming.SeenExactlyWhenSplitFree | frontend/lib/api/sse.ts:30 | normalising chunk by chunk is normalising the whole if and only if no cut falls inside a line end |
| SseFraming.FramesAppend | frontend/lib/api/sse.ts:31-32 | frames found early are the first frames of the longer text |
| SseParser.SSEParser.Push | frontend/lib/api/sse.ts:29-52 | the reply and the new buffer and number, also when a frame throws |
| SseParser.FrameIsExact | frontend/lib/api/sse.ts:33-50 | what a frame of any lines delivers: nothing, an error or one event, from its last event line, its joined data lines and the last number |
| SseParser.ChunkingDoesNotMatter | frontend/lib/api/sse.ts:29-52 | any chunking that cuts no line end gives the events, buffer and number of one push, or the same error after the same number |
| SseParser.PushLeavesUnbroken | frontend/lib/api/sse.ts:29-32 | no push leaves a complete frame in the buffer |
| SseParser.ACutInsideALineEndCanLoseAnEvent | frontend/lib/api/sse.ts:30-32 | chunks whose text holds an event that the parser does not deliver |
| SseRoundTrip.QueueDiagnosisEventEmitter.Emit | src/energy_agent/agent/events.py:31-49 | appends the event with the next number unless closed |
| SseRoundTrip.HeartbeatsAreIgnored | frontend/lib/api/sse.ts:36-44 | a frame that is one comment line delivers nothing and never throws |
| SseRoundTrip.AnyChunkingIsReadBack | src/energy_agent/api/diagnosis.py:70-74 | any chunking of a printed stream delivers its known events as long as their numbers grow |
| SseRoundTrip.QueuedEventsAreReadBack | frontend/lib/api/sse.ts:25-55 | any chunking of the printed form of events numbered from one gives back exactly those events, without error and with an empty buffer |
| SseRoundTrip.AcceptedExactlyWhenNumbersGrow | frontend/lib/api/sse.ts:45-49 | a stream is accepted to its end if and only if the numbers of its known events grow strictly |
| AlarmQuery.KeysetResumes | src/energy_agent/catalog/repository.py:197-208 | what lies after the cursor of the k-th row is exactly what follows that row |
| AlarmPaging.Alarms | src/energy_agent/catalog/service.py:96-128 | the batch loop terminates with the page that filtering and then slicing gives, for every limit |
| AlarmPaging.PagesListEverything | src/energy_agent/catalog/service.py:121-128 | following the cursors lists every match exactly as filtering does, if and only if the limit is positive or nothing matches |
| AlarmPaging.ListingIsComplete | src/energy_agent/catalog/service.py:19-40 | what follows a cursor is exactly the alarms of the table after it that pass the filter field by field, once each, with the template that their device type and name route to, newest first and by id within a moment |
| AlarmPaging.PageIsExact | src/energy_agent/catalog/service.py:119-128 | a page is the first items after the cursor, as many as the limit allows; the next cursor names its last one; more is announced if and only if the limit is below their number |
| AlarmPaging.MoreMeansMore | src/energy_agent/catalog/service.py:120-128 | more is announced exactly when a match lies beyond the page, unless the limit is negative and nothing matches |
| Utf8.DecodesEncoded | src/energy_agent/catalog/cursors.py:8-20 | decoding inverts encoding on every text |
| Utf8.DecodesOnlyEncodings | src/energy_agent/catalog/cursors.py:12-20 | the decoder is strict: it accepts exactly the encodings of texts |
| Utf8.KnownCharacters | src/energy_agent/catalog/cursors.py:8-9 | one character of each encoded length, as RFC 3629 gives it |
| Cursors.CursorRoundTrip | src/energy_agent/catalog/cursors.py:8-23 | every non-empty text comes back from its cursor, whatever its length; the empty one has no cursor |
| Cursors.LettersAreTheAlphabet | src/energy_agent/catalog/cursors.py:8-9 | the letters are those of the URL-safe alphabet, in its order |
| Cursors.KnownVectors | src/energy_agent/catalog/cursors.py:8-9 | test vectors of section 10 of RFC 4648, one for each number of padding characters |
| Cursors.PaddingIsRestored | src/energy_agent/catalog/cursors.py:9-18 | the padding that was stripped is the padding that is added |
| Cursors.LengthOneIsRejected | src/energy_agent/catalog/cursors.py:15-23 | a cursor of length one modulo four is invalid |
| Cursors.PairRoundTrip | src/energy_agent/catalog/repository.py:187-196 | time and id are recovered even when the id contains the separator |
| Cursors.CursorsAreDistinct | src/energy_agent/catalog/cursors.py:8-9 | different texts have different cursors |
| BatchDrainer.EvaluationBatchDrainer.Process | src/energy_agent/evaluation/drain_index_queue.py:101-116 | bisection leaves the state of handling the messages one by one, in order, with at most 2n - 1 handler calls |
| BatchDrainer.EvaluationBatchDrainer.Fail | src/energy_agent/evaluation/drain_index_queue.py:118-143 | a failed message is failed or requeued, republished once and acknowledged |
| BatchDrainer.EveryMessageEndsOnce | src/energy_agent/evaluation/drain_index_queue.py:101-143 | completed, dead and retried messages add up to the batch, and the queues grow by exactly those numbers |
| BatchDrainer.AgreesWithConsumerUnlessStale | src/energy_agent/evaluation/drain_index_queue.py:118-124 | a message ends as in the consumer if and only if its event is not stale |
| CircuitBreakers.CircuitBreaker.Allow | src/energy_agent/reliability/circuit_breaker.py:37-50 | admission and the new state |
| CircuitBreakers.CircuitBreaker.RecordFailure | src/energy_agent/reliability/circuit_breaker.py:59-71 | the new state after a failure that counts or does not |
| CircuitBreakers.CircuitBreaker.RecordSuccess | src/energy_agent/reliability/circuit_breaker.py:52-57 | back to the state of a new breaker |
| CircuitBreakers.ConsistentExactlyForPositiveThresholds | src/energy_agent/reliability/circuit_breaker.py:37-71 | CLOSED if and only if the failures are below the threshold, and a probe only in HALF_OPEN, in every state, exactly for positive thresholds |
| CircuitBreakers.StateIsHistory | src/energy_agent/reliability/circuit_breaker.py:37-71 | the whole state after any run: the failures are those that counted since the last success; CLOSED below the threshold; otherwise open since the last of them, or HALF_OPEN once a call came in after the recovery time, with a probe out while a call was the last event |
| CircuitBreakers.AdmissionIsHistory | src/energy_agent/reliability/circuit_breaker.py:37-50 | so which calls pass depends on nothing but the failures since the last success and the calls since the last failure |
| CircuitBreakers.ConsecutiveProbesAreApart | src/energy_agent/reliability/circuit_breaker.py:37-50 | after a trip, calls that pass are at least the recovery time apart |
| CircuitBreakers.AdmissionBound | src/energy_agent/reliability/circuit_breaker.py:37-71 | at most floor(T / recovery time) calls pass within T of a trip |
| CircuitBreakers.WhatReleasesTheProbe | src/energy_agent/reliability/circuit_breaker.py:52-62 | the next call passes at once if and only if the probe ends in a success or a failure that does not count |
| CircuitBreakers.RecoveryIsOffered | src/energy_agent/reliability/circuit_breaker.py:40-50 | an open breaker lets a call pass if and only if the recovery time is over |
| CircuitBreakers.UncountedFailuresBreakTheBound | src/energy_agent/reliability/circuit_breaker.py:59-62 | for every k, a run with k admitted calls at one moment |
| Scoring.NormalizationKeepsOrder | src/energy_agent/retrieval/scoring.py:22-28 | normalising keeps every comparison and ends in the unit interval |
| Scoring.NormalizationStretches | src/energy_agent/retrieval/scoring.py:22-28 | the extremes become 0 and 1 unless all values are equal, and what equal values become |
| Scoring.NormalizationKeepsProportions | src/energy_agent/retrieval/scoring.py:22-28 | proportions between differences stay as they were |
| Scoring.RetrievalIsTheMean | src/energy_agent/retrieval/scoring.py:31-45 | the score times the available weight is the sum of the available channels, each with the weight of its name |
| Scoring.EachScoreHasItsWeight | src/energy_agent/retrieval/scoring.py:48-62 | a change of one score changes the final score by the weight of its name times the change |
| Scoring.RetrievalIsBetween | src/energy_agent/retrieval/scoring.py:31-45 | the score lies between any bounds of the available channels if and only if some weight is available or zero lies between them |
| CandidateScoring.ClampNeverActs | src/energy_agent/retrieval/scoring.py:104-117 | relevance is in the unit interval without the clamp |
| CandidateScoring.FullRelevance | src/energy_agent/retrieval/scoring.py:104-117 | relevance is full if and only if anchors are given, all of them match and every symptom term occurs |
| CandidateScoring.RelevanceIsExact | src/energy_agent/retrieval/scoring.py:104-117 | the low constant if and only if an anchor differs that has fewer than three given ones before it, otherwise the blend of the matching share of the given anchors and the occurring share of the terms |
| CandidateScoring.ManualTable | src/energy_agent/retrieval/scoring.py:65-91 | reliability, verification and freshness of a manual, for missing and present metadata |
| CandidateScoring.OtherTable | src/energy_agent/retrieval/scoring.py:65-79 | reliability and verification of tickets, cases and graph results |
| CandidateScoring.FreshnessInDays | src/energy_agent/retrieval/scoring.py:82-101 | the months of the source as bounds of 91, 182 and 365 whole days |
| CandidateScoring.FinalIsTheWeightedSum | src/energy_agent/retrieval/scoring.py:120-152 | which derived score is stored under which name and enters the final score with which weight |
| CandidateScoring.WhichMismatchCounts | src/energy_agent/retrieval/scoring.py:106-109 | a wrong manufacturer disqualifies exactly when fewer than three anchors are given before it |
| CandidateScoring.DerivedScoresAreUnit | src/energy_agent/retrieval/scoring.py:120-152 | with convex weights every derived score is in the unit interval |
| CandidateScoring.FinalIsMonotone | src/energy_agent/retrieval/scoring.py:31-62 | raising an available channel never lowers the final score |
| CandidateScoring.DefaultWeightsAreConvex | src/energy_agent/retrieval/scoring.py:7-19 | the default weights are non-negative and sum to one, so the bounds hold for them |
| Merge.MergeCandidates | src/energy_agent/retrieval/merge.py:5-29 | the two loops compute the merged dictionary in order of first insertion, cut at the limit |
| Merge.EachIdentityOnce | src/energy_agent/retrieval/merge.py:13-29 | every identity of either list appears exactly once, and no other |
| Merge.OrderOfFirstAppearance | src/energy_agent/retrieval/merge.py:13-29 | merged results come in the order in which their identities first appear, keyword results first |
| Merge.EntriesAreExact | src/energy_agent/retrieval/merge.py:14-28 | every merged result, also for repeated identities: the last keyword result or else the first vector result, with the last vector score and the last embedding among the vector results |
| Merge.ChannelScoresKeepOrder | src/energy_agent/retrieval/merge.py:11-12 | each list is normalised by its own channel, a missing score as zero |
| Merge.ChannelsOfKeywordResults | src/energy_agent/retrieval/merge.py:14-28 | a keyword result carries its normalised keyword score, and a vector score exactly as the vector list or the result itself gives |
| Merge.ChannelsAreExact | src/energy_agent/retrieval/merge.py:11-29 | lists that carry only their own channel merge into results with a score, in the unit interval, for exactly the channels they occur in |
| Merge.ChannelsOfVectorResults | src/energy_agent/retrieval/merge.py:16-28 | a vector result not among the keyword results carries its normalised vector score and is otherwise unchanged |

## Left out

- Handlers of manuals, tickets and template graphs, and the batch handlers: their tables are not modelled, so their outcomes are free in the protocol.
- Finer interleavings inside one case handler, supersession in sync reindex and in the case batch handler: the code does not check or supersede there.
- The review of a diagnosis that creates a case, listing, and history of cases: no state of their own beyond the draft that is created.
- A revision with `submit_for_review`: it is the revision followed by the submission, both of which are modelled.
- IndexAttempts.SettledIsFinal: needs deliveries of one job that do not overlap and acknowledgements that do not raise; the runs in `index_scenarios.dfy` show why.
- IndexDelivery.NoJobIsLost: needs workers that have lost their delivery to be through with their message before they stop; `JobsAreLostOnlyByStranding` is the exact condition.
- IndexRuntime.IndexRepository.Fail: a final failure also marks the case, ticket or document as FAILED in the same transaction; for cases this is `MarkBroken` in `case_queue.dfy`, for the others it is not modelled.
- BatchDrainer.EvaluationBatchDrainer.Process: a batch is taken to succeed exactly when each of its members alone would, what a batch that raises has already done to the index is not modelled, and neither is `drain`, which fills the batches.
- ModuleCycles.LogicalModuleCycles: reading and parsing source files and the rules for path names are inputs here.
- Cursors.CursorRoundTrip: how interpreters treat superfluous padding differs; the model rejects it.
- SseParser.SSEParser.Push: byte-level decoding of UTF-8 happens before the parser; the console warning about unknown events is erased.
- AlarmPaging.Alarms: the table does not change between batches.
- Selection.CosineAboveComparesTheQuotient: square roots are not computed; the comparison with the threshold is stated without them.
- Merge.ChannelsOfKeywordResults: a score that a result already carries for the other channel is kept, as in the code.
- Error codes and messages, timestamps, audit records, metrics, tracing and logging: erased, except that an audit call inside indexing and tombstoning may fail.
- HTTP routes, settings, user interface, provider clients and the diagnosis graph: not part of this model.
- Floating-point rounding and hashing: reals and injective functions instead.
- The site and device listings of the catalogue: simpler forms of the alarm query.
