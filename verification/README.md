# The workflow engine, modelled and proved in Dafny

The repository drives software work through workflows: an event-sourced
aggregate decides, a DAG of personas does the work, and a concurrent dispatcher
runs them. This project models the engine in `internal/engine` with the two
components it leans on (the event store and the NDJSON stream splitter) and
proves what the engine's own comments promise, over every log, every run and
every interleaving.

| file | models |
|---|---|
| `Events.dfy` | envelopes, payloads and workflow definitions |
| `Finite.dfy` | two facts about finite sets |
| `WorkflowGraph.dfy` | downstream search, retry invalidation, the graph rewrites |
| `Aggregate.dfy` | the aggregate: `Apply` as a class and as a fold, every decision |
| `Replay.dfy` | what a replayed state means, read off the log |
| `EngineStep.dfy` | one load-track-decide-append step, and runs of steps with foreign appends |
| `DecisionExact.dfy` | what every event makes the engine publish and store, exactly, in terms of the log |
| `EngineSafety.dfy` | completion, stale completions, gates, feedback, escalation |
| `GateLiveness.dfy` | exactly which feedback gates can wedge a workflow |
| `FailureAndResume.dfy` | what a failure does and what a resume undoes |
| `LoopBound.dfy` | the bound on feedback and retry loops |
| `EventStore.dfy` | the versioned log with optimistic appends, the result persister |
| `Engine.dfy` | the engine object, the workflow throttle, the watchdog sweep |
| `SlotSafety.dfy` | which workflows hold a slot of the throttle |
| `JoinCheck.dfy` | the join scan and its declarative meaning, the fingerprint and what is missing |
| `FairDispatcher.dfy`, `FairAdmission.dfy` | the fair-share controller, and its guarantees in every interleaving |
| `DispatchQueue.dfy` | the per-key priority queue as a refinement of an arrival list |
| `Drain.dfy`, `DrainSafety.dfy`, `DrainBound.dfy` | pause controller, drain loops, their guarantees in every interleaving, and exactly when a pause bounds executions |
| `StreamWriter.dfy` | the stream splitter and its independence of chunking |

Code that the repository writes as loops over fields is a class here, proved
against specification functions; the lemmas are about those functions.
Concurrency is a state machine whose steps are the critical sections, and a
queue lock that is held across calls to the pause controller is held across
steps. What the environment decides is an argument: for each event the engine
handles, a `Weather` gives the rate-limit switch, the faults of the database, the
writers between the load and the append, and the identities drawn for new
events. Which workflows have gone silent, and whether a context is cancelled when
its sleeper wakes, are arguments too. The order in which a map is iterated is a
ghost result (`Choice.pick`, the `order` of a sweep).

Where the code and its documentation disagree, the model follows the code:

- `FailureKindProgressTimeout` is documented among the kinds that are retried
  automatically (`internal/event/payload.go:509-514`), but the retry test does
  not accept it (`internal/engine/failure_classify.go:150-159`).
- `atOrUnderFairShare` is strict: a correlation that holds exactly its share is
  not under it (`internal/engine/fair_dispatcher.go:204-218`).
- `isCategoryReviewer` omits `pr-correctness`, so a failure of that reviewer is
  not absorbed (`internal/engine/aggregate.go:992-1003`).
- `persistAndPublish` publishes the events even when all three attempts to store
  them failed (`internal/engine/result_persister.go:24-56`).
- A batch that repeats the identity of a stored event is reported as a version
  conflict, because the primary key's violation reads the same as the version
  constraint's (`internal/eventstore/sqlite.go:69-81`,
  `internal/eventstore/sqlite.go:174-177`).
- The counter of automatic retries skips the empty persona name
  (`internal/engine/aggregate.go:182-187`), so the loop bound fails for a
  definition that requires a handler without a name, and only then
  (`LoopBound.LoopsAreBoundedIff`).

## Model

| member | source | states |
|---|---|---|
| Aggregate.FingerprintIgnoresOrder | internal/engine/aggregate.go:767-788 | re-ordering a verdict's issues does not change what the fingerprint hashes |
| Aggregate.WorkflowAggregate.VerdictFingerprint | internal/engine/aggregate.go:774-788 | the collecting loop yields the summary with the bag of issue descriptions |
| Aggregate.WorkflowAggregate.ClearGatesOnto | internal/engine/aggregate.go:197-202 | the deletion loop leaves exactly the gates that wait for someone else |
| Aggregate.WorkflowAggregate.Invalidate | internal/engine/aggregate.go:173-181 | the nested deletion loops drop exactly the invalidated completions and every gate that names an invalidated persona on either side |
| Aggregate.WorkflowAggregate.RecordFeedback | internal/engine/aggregate.go:229-241 | counts the round, takes back both completions, and gates the source on the target |
| Aggregate.WorkflowAggregate.RecordVerdict | internal/engine/aggregate.go:252-273 | a failure replaces the pair's fingerprint and the target's cached verdict, anything else clears them |
| Aggregate.WorkflowAggregate.Apply | internal/engine/aggregate.go:128-283 | the in-place update of all seventeen fields is one step of the fold whose meaning the Replay lemmas give |
| Aggregate.WorkflowAggregate.DecideWorkflowResumed | internal/engine/aggregate.go:820-902 | the decision on a resume, and the raised iteration limit it leaves on the object |
| Aggregate.WorkflowAggregate.DecideNow | internal/engine/aggregate.go:309-334 | dispatches to every decision, with the retry set computed by the graph search; what each decision is, DecisionExact and FailureAndResume say in terms of the log |
| WorkflowGraph.BuildDependents | internal/engine/workflow_def.go:182-210 | the reverse adjacency lists hold exactly the graph's edges |
| WorkflowGraph.DownstreamOf | internal/engine/workflow_def.go:182-210 | the BFS terminates on every graph, cyclic or not, and returns exactly the reflexive-transitive dependents |
| WorkflowGraph.PersonasToInvalidateFor | internal/engine/workflow_def.go:149-177 | the dependents of the phase, and of every barrier member when it is one |
| WorkflowGraph.InvalidatedIsLeastClosed | internal/engine/workflow_def.go:149-177 | the set is the least that holds the phase, the whole barrier when the phase is a synchronous reviewer, and is closed under dependents |
| WorkflowGraph.RewireLoop | internal/engine/workflow_def.go:525-545 | a dependent of the removed handler inherits its predecessors, without duplicates |
| WorkflowGraph.WithoutHandler | internal/engine/workflow_def.go:503-551 | the loops over the definition compute the contracted graph |
| WorkflowGraph.HandlerGone | internal/engine/workflow_def.go:503-551 | the required list and the nodes lose exactly the handler, a node that named it has no duplicates, any other stays as it was |
| WorkflowGraph.RemoveHandlerKeepsOrder | internal/engine/workflow_def.go:503-551 | for all other x and y, x precedes y after the rewrite if and only if it did before |
| WorkflowGraph.RemoveHandlerKeepsAcyclic | internal/engine/workflow_def.go:503-551 | the rewrite keeps an acyclic graph acyclic |
| WorkflowGraph.RemoveHandlerDownstream | internal/engine/workflow_def.go:503-551 | the dependents of every other node are the old ones without the removed handler |
| WorkflowGraph.WithStaleReferenceSweep | internal/engine/workflow_def.go:562-585 | adds the sweep node, or returns the definition unchanged |
| WorkflowGraph.SweepAdded | internal/engine/workflow_def.go:562-585 | which edges and which required personas the sweep adds, edge by edge |
| WorkflowGraph.SweepRoundTrip | internal/engine/workflow_def.go:562-585 | for every definition that takes the sweep: removing it again restores the required list if and only if the sweep was not listed there, and the precedence of all other nodes if and only if pr-jira-context already preceded pr-consolidator and every node that named the sweep |
| Replay.CompletedIffDone | internal/engine/aggregate.go:128-242 | after any replay a persona is complete iff some completion of it has no later invalidation |
| Replay.StatusIffLast | internal/engine/aggregate.go:131-188 | for each status: the replayed status is that one iff the last of the events requested, started, resumed, retried, completed, failed, cancelled and paused is one that puts it |
| Replay.LoadStatus | internal/engine/engine.go:719-789 | the same of a loaded aggregate, for each status |
| Replay.PreAttachedIsFirst | internal/engine/engine.go:752-767 | the definition attached before the replay is the one the first request names |
| Replay.PendingIffGated | internal/engine/aggregate.go:166-241 | a gate stands iff the source's last feedback named the target and nothing released it since |
| Replay.CountersCount | internal/engine/aggregate.go:182-232 | the feedback and retry counters count the events of the log |
| Replay.FingerprintIffLastFailure | internal/engine/aggregate.go:243-273 | a pair's stored fingerprint is that of its last recorded verdict, if that failed |
| Replay.LoadMeaning | internal/engine/engine.go:719-789 | of a loaded aggregate, the completions, the running status, the gates, both counters, the fingerprints and the version, as facts about the log |
| Replay.LoadRest | internal/engine/engine.go:719-789 | the rest of what the decisions read: the definition and its iteration limit, what the last pause left for a resume, the cached verdicts and the skips, as facts about the log |
| Replay.CachedIffLastFails | internal/engine/aggregate.go:261-273 | the cached verdict on a persona is the last one recorded on it, if that failed |
| EngineStep.RetryClears | internal/engine/aggregate.go:166-188 | a retry at the end of any log leaves nothing it invalidates complete or gated, and every other completion and gate unchanged |
| EngineStep.VersionsAgree | internal/engine/engine.go:589-692 | the versions stamped on tracking, decision and mirror events are those the append assigns |
| EngineStep.RunWellStamped | internal/engine/engine.go:589-692 | every run leaves the versions 1..n |
| EngineStep.ReplayVersionIsLength | internal/engine/aggregate.go:128-129 | the replayed version is the length of the log, in every run |
| EngineStep.LoadSnoc | internal/engine/engine.go:769-786 | loading a log with one more tracked completion or retry is applying it to the loaded state, though the definition is attached on both sides of the replay |
| DecisionExact.VerdictExact | internal/engine/aggregate.go:630-741 | the whole outcome of a verdict, in terms of the log: nothing unless it failed a required persona of a running workflow, else the pause, the failure, or the feedback with its target, source, round, issues, summary and diagnostics |
| DecisionExact.FingerprintIff | internal/engine/aggregate.go:774-788 | two verdicts have equal fingerprints iff they have the same summary and the same bag of issue descriptions |
| DecisionExact.PairsToldApart | internal/engine/aggregate.go:252-260 | the joined key tells two pairs apart when no source name holds a bar |
| DecisionExact.RequestExact | internal/engine/aggregate.go:336-379 | a request starts the workflow the log names if nothing else happened to it, and fails it if the definition is unknown |
| DecisionExact.HintExact | internal/engine/aggregate.go:905-950 | a hint on a running workflow is approved iff it is confident enough and names no blocker, and pauses otherwise |
| DecisionExact.HintRejectedExact | internal/engine/aggregate.go:953-990 | a rejected hint skips its persona or fails the workflow, if that is running or paused |
| DecisionExact.OtherExact | internal/engine/aggregate.go:790-801 | an exceeded budget fails the workflow at any status, and an event without a decision publishes nothing |
| DecisionExact.ResumeExact | internal/engine/aggregate.go:820-902 | a resume retries what the last pause asked to retry, else sends back whom it asked to send back, else a persona that used up its rounds, with the verdict that stands on it |
| DecisionExact.LimitRaisedJustEnough | internal/engine/aggregate.go:820-902 | a resume raises the limit to the round it sends back if that exceeds it, and never otherwise |
| DecisionExact.PausedStaysQuiet | internal/engine/aggregate.go:630-633 | between a pause and the next start, resume or retry no verdict, completion or failure makes the engine publish anything |
| DecisionExact.Addressed | internal/engine/engine.go:607-683 | all that a step stores belongs to the aggregate and carries the correlation it answers, and all it publishes is stored |
| DecisionExact.TrackedExact | internal/engine/engine.go:603-615 | a completion from elsewhere leaves its tracking copy iff the persona is not done and no gate on work that is not done holds it back |
| DecisionExact.FailureTrackedExact | internal/engine/engine.go:639-651 | a failure from elsewhere leaves its tracking copy iff the persona is required and the workflow runs |
| DecisionExact.StoredExact | internal/engine/engine.go:595-692 | a step stores the tracking copy, then what it publishes, then the copy of a verdict rendered elsewhere, and nothing else |
| DecisionExact.CompletionCounts | internal/engine/aggregate.go:393-416 | the completion a persona's completion leads to counts the absorbed reviewers |
| DecisionExact.RoutingExact | internal/engine/engine.go:707-717 | which events are handled on the aggregate of their correlation, constructor by constructor |
| EngineSafety.CompletionExact | internal/engine/engine.go:603-657 | a persona completion makes the engine publish WorkflowCompleted, and nothing else, iff the workflow runs and every required persona is done in the extended log |
| EngineSafety.TrackedMeansAnswered | internal/engine/aggregate.go:289-292 | a completion is credited only if the last feedback of its persona was answered |
| EngineSafety.StaleNeverCredited | internal/engine/engine.go:603-615 | in every engine-built log, between a persona's last feedback and its tracked completion lies a completion of the target or a retry invalidating one of the two |
| EngineSafety.GatesCannotWedge | internal/engine/aggregate.go:229-241 | if every feedback sent required work back to someone delivered before its source, delivering the required completions in that order completes the workflow no later than the last one |
| EngineSafety.UpstreamFeedbackCannotWedge | internal/engine/aggregate.go:229-241 | so it is when all feedback went upstream in the graph and the order is topological |
| EngineSafety.FeedbackExact | internal/engine/aggregate.go:630-741 | a verdict sends work back iff a stated condition on the preceding log holds; the verdict itself is not part of that log |
| EngineSafety.RepeatedVerdictEscalates | internal/engine/aggregate.go:676-686 | of two successive equal failing verdicts on a target that had a round of feedback, whatever runs between, the second never sends work back |
| GateLiveness.CompletableIffNotWedged | internal/engine/aggregate.go:289-292 | some persona completions that are routed to a running workflow complete it iff no required persona lies in a set of gates that wait only for one another |
| GateLiveness.SelfFeedbackWedges | internal/engine/aggregate.go:229-241 | feedback that names its own source can never be completed by persona completions |
| FailureAndResume.FailureExact | internal/engine/aggregate.go:418-496 | exactly what a failed persona causes, in terms of the log: one automatic retry, a rate-limit pause, failure, or absorption, after which the failed reviewer counts as done and is counted as skipped; an idle timeout is retried, and so is a wall timeout of the one backend without an idle watchdog |
| FailureAndResume.AbsorbedReviewers | internal/engine/aggregate.go:992-1003 | a partial review absorbs the failures of the reviewers the pr-review workflow lists, pr-correctness excepted, and of the optional sweep, and of nobody else |
| FailureAndResume.LoadKeepsPending | internal/engine/aggregate.go:150-164 | nothing but another pause or request changes what a resume will do, across loads |
| FailureAndResume.ResumeResendsFeedback | internal/engine/aggregate.go:820-902 | after an escalation, whatever undisturbed events follow, a resume sends the same target back to work for the same source |
| FailureAndResume.ResumeRetriesFailure | internal/engine/aggregate.go:820-902 | after a rate-limit pause a resume retries the failed persona and invalidates exactly its dependents |
| LoopBound.LoopsAreBounded | internal/engine/aggregate.go:510-542 | over every run the engine emits at most required times MaxIterations, plus one per handler, plus one per processed resume, feedback and retry events |
| LoopBound.NamelessRunEmits | internal/engine/aggregate.go:182-187 | with a nameless required handler there are runs, all of whose events are routed to the workflow, with any number of automatic retries |
| LoopBound.LoopsAreBoundedIff | internal/engine/aggregate.go:510-542 | the bound holds for every run of a definition over events routed to the workflow iff no required handler of its graph is nameless |
| EventStore.SQLiteStore.Append | internal/eventstore/sqlite.go:127-184 | stores the whole batch iff the expected version is the current one and its events are distinct and new, else changes nothing |
| EventStore.SQLiteStore.InsertAll | internal/eventstore/sqlite.go:159-181 | the row-by-row inserts succeed iff the batch's identities are distinct and unused |
| EventStore.SQLiteStore.Load | internal/eventstore/sqlite.go:186-191 | an aggregate's events in ascending version order; LogExact says which rows these are |
| EventStore.SQLiteStore.LoadByCorrelation | internal/eventstore/sqlite.go:200-205 | a correlation's events across aggregates, in insertion order |
| EventStore.ChainExact | internal/eventstore/sqlite.go:200-205 | the chain of a correlation is exactly its rows, each once, in insertion order |
| EventStore.LogExact | internal/eventstore/sqlite.go:186-191 | the log of an aggregate is exactly its rows, each once, in insertion order |
| EventStore.WritersKeepGapFree | internal/eventstore/sqlite.go:127-184 | under any interleaving of writers every aggregate's versions stay exactly 1..n, no event is stored twice, and the rows and each log only grow |
| EventStore.AcceptedMeansUnchanged | internal/eventstore/sqlite.go:127-184 | an append at the version read earlier succeeds iff nobody wrote to that aggregate in between and its events are new, and then extends the log that was read |
| EventStore.StoredOnce | internal/eventstore/sqlite.go:69-81 | once a batch is stored, whatever is written next, any batch that repeats one of its events changes nothing, for any aggregate at any version |
| EventStore.NoVersionViolation | internal/eventstore/sqlite.go:159-181 | the inserts never meet the constraint on aggregate and version once the version check passed |
| EventStore.NoUniqueViolation | internal/eventstore/sqlite.go:69-81 | a batch at the current version meets a unique constraint iff it repeats a stored event or one of its own |
| EventStore.ResultPersister.Attempt | internal/engine/result_persister.go:29-47 | one attempt stores the batch iff the append meets no fault, the log still has the length that was read, and the events are new |
| EventStore.ResultPersister.Persist | internal/engine/result_persister.go:29-47 | the retry loop stores the batch in the first of three attempts that can, and in no other |
| EventStore.FirstLandingIs | internal/engine/result_persister.go:29-47 | the attempt named is the first whose append meets no fault, an unchanged length and new events, and none is named iff no attempt does |
| EventStore.ResultPersister.PersistAndPublish | internal/engine/result_persister.go:24-56 | exactly the last stamped batch is published once, stored or not |
| EventStore.ResultPersister.RestampLoop | internal/engine/result_persister.go:36-41 | the in-place restamping gives the batch the next versions |
| Engine.WorkflowThrottle.ShouldQueue | internal/engine/throttle.go:49-54 | whether the running set is at the limit |
| Engine.WorkflowThrottle.Dequeue | internal/engine/throttle.go:81-102 | the oldest parked request, which leaves the queue |
| Engine.WorkflowThrottle.RemoveQueued | internal/engine/throttle.go:172-199 | takes exactly the first parked request of the aggregate out |
| Engine.Engine.LoadAggregate | internal/engine/engine.go:719-789 | attach, replay and re-attach compute the loaded state of the aggregate's log |
| Engine.Engine.Compute | internal/engine/engine.go:595-684 | the in-memory part of a step computes exactly the step function's output at the version of the log it read; on a resume the legacy scan stopped at an exhausted persona if there is one |
| Engine.Engine.TryProcessDecision | internal/engine/engine.go:589-701 | the step succeeds iff the load does and there is nothing to store or the append meets no fault, an unchanged log and new events; the store is then exactly the old rows, the other writers' and the step's |
| Engine.Engine.PublishAll | internal/engine/engine.go:532-550 | every decided event is published, and the running set follows; SlotSafety says which workflows it then holds |
| Engine.Engine.HandleNow | internal/engine/engine.go:523-550 | one event: the step and the publication of what it decided, with the exact running set |
| Engine.Engine.ProcessDecision | internal/engine/engine.go:502-559 | a request at capacity is parked and nothing else happens; otherwise the event and then parked requests are handled in queue order, the store, the running set and the published events are exactly what those steps make of them, the running set never passes its limit, and a queue left non-empty means no free slot |
| Engine.Engine.DrainThrottleQueue | internal/engine/engine.go:563-584 | starts parked requests in order until full or empty, with the same exact effects; the mutual recursion ends on the queue length |
| Engine.RunningStepBounded | internal/engine/engine.go:513-540 | handling one event keeps the running set within its limit, because only a request starts a workflow and it is handled only while a slot is free |
| SlotSafety.PublishedMeaning | internal/engine/engine.go:532-550 | after events are published a workflow is in the running set iff one of them started it and none completed or failed it since, or none did at all and it was there before |
| SlotSafety.RunningMeaning | internal/engine/engine.go:513-550 | the same over any trace of handled events, cancellations included |
| SlotSafety.ReclaimsIff | internal/engine/engine.go:443-490 | a stalled slot is reclaimed iff neither access to the database fails, the last lifecycle event says running, nobody wrote to the log since, and the failure is new |
| SlotSafety.SweepMeaning | internal/engine/engine.go:422-490 | a sweep frees exactly the slots whose stalled failure it publishes, publishes nothing else, at most one failure per candidate, and stores each |
| Engine.Engine.ReclaimStalledSlot | internal/engine/engine.go:443-490 | the slot is freed and the failure published iff the log says running and the failure could be appended to that log; otherwise both stay as they were |
| Engine.Engine.SweepCandidates | internal/engine/engine.go:427-431 | each silent workflow that holds a slot is tried exactly once, and the effects are those of the reclaims in that order |
| Engine.OrderIsAll | internal/engine/engine.go:427-431 | an iteration order holds every candidate exactly once |
| Engine.Engine.RunWatchdogSweep | internal/engine/engine.go:422-436 | which slots are freed and what is published, candidate by candidate, and then exactly what draining the queue does; no parked request is left beside a free slot |
| JoinCheck.ScanChain | internal/engine/workflow_resolver.go:299-391 | the one-pass loop with its four mutable variables is the fold that the following lemmas characterise |
| JoinCheck.CheckJoinCondition | internal/engine/workflow_resolver.go:281-433 | store error, missing predecessors in order, or satisfied with the recorded events; JoinExact, MissingExact and FingerprintExact say which |
| JoinCheck.RetriggerMeaning | internal/engine/workflow_resolver.go:339-346 | a retrigger target is set iff the last feedback named it and it has not completed since |
| JoinCheck.PendingMeaning | internal/engine/workflow_resolver.go:314-389 | a persona is pending iff the last feedback that invalidated it was not answered by its target |
| JoinCheck.LatestMeaning | internal/engine/workflow_resolver.go:316-391 | the recorded event of a persona is its last fresh completion (or absorbed failure) not invalidated since |
| JoinCheck.VerdictMeaning | internal/engine/workflow_resolver.go:353-368 | a verdict is tracked iff it is the persona's last, not invalidated, and the persona began at most one further round |
| JoinCheck.JoinExact | internal/engine/workflow_resolver.go:281-433 | the join is satisfied iff every predecessor is done and none blocks it, in declarative terms, for any chain of events |
| JoinCheck.FingerprintExact | internal/engine/workflow_resolver.go:393-432 | in the fingerprint of a satisfied join each event occurs as often as predecessors are done at it |
| JoinCheck.SameFingerprintIff | internal/engine/workflow_resolver.go:425-432 | two chains that satisfy the join have equal fingerprints iff the same number of predecessors is done at each event |
| JoinCheck.MissingExact | internal/engine/workflow_resolver.go:393-424 | what an unsatisfied join lists: in the order of the predecessors, those never done as absent, and those done but blocked as awaiting feedback |
| JoinCheck.StrictlyDownstreamIff | internal/engine/workflow_resolver.go:369-388 | feedback invalidates exactly the nodes its target precedes in the graph, the target itself excepted |
| JoinCheck.JoinIsFresh | internal/engine/workflow_resolver.go:299-391 | after the last feedback that invalidated a predecessor of a satisfied join, its target completed, and after that the predecessor |
| JoinCheck.SingleTargetExact | internal/engine/workflow_resolver.go:316-391 | with one feedback target, the recorded event of a dependent is its last completion, provided it follows a completion of the target after the last feedback; for others it is the last completion |
| FairDispatcher.Dispatcher.AtOrUnderFairShare | internal/engine/fair_dispatcher.go:204-218 | the share computed from the in-flight map |
| FairDispatcher.Dispatcher.RemoveWaiter | internal/engine/fair_dispatcher.go:184-191 | takes out the waiter with this identity and keeps the order of the others |
| FairDispatcher.Dispatcher.AdmitNext | internal/engine/fair_dispatcher.go:144-167 | the two passes compute the admission rule |
| FairDispatcher.Dispatcher.Release | internal/engine/fair_dispatcher.go:127-136 | frees the slot and admits by the rule |
| FairDispatcher.Dispatcher.BeginAcquire | internal/engine/fair_dispatcher.go:74-90 | grants at once, or joins the end of the list |
| FairDispatcher.Dispatcher.Woken | internal/engine/fair_dispatcher.go:102-123 | an admission wins over a simultaneous cancellation |
| FairAdmission.ReachableIsSafe | internal/engine/fair_dispatcher.go:74-191 | in every interleaving the total equals the sum of the in-flight counts and the outstanding grants and is at most the cap, a cancelled caller holds nothing, and a listed waiter means someone holds a slot |
| FairAdmission.ReleaseAdmitsOne | internal/engine/fair_dispatcher.go:127-167 | a release with waiters listed admits exactly one: the oldest under its share, else the oldest |
| FairAdmission.AdmissionSurvivesCancel | internal/engine/fair_dispatcher.go:102-123 | a wake-up never loses or leaks a slot, cancelled or not |
| FairAdmission.BoundedOvertaking | internal/engine/fair_dispatcher.go:144-167 | a waiter at index k that is under share at each release is admitted within k + 1 releases, whatever else interleaves |
| FairAdmission.OverShareYields | internal/engine/fair_dispatcher.go:144-167 | a waiter at or over its share is admitted only if no listed waiter is under its own |
| FairAdmission.ShareIsFair | internal/engine/fair_dispatcher.go:204-218 | the cap is split among the holders and the asker: each share is as large as possible without exceeding the cap in sum, at least one slot, and the same for all holders and for all newcomers |
| FairAdmission.FastPathStaysInShare | internal/engine/fair_dispatcher.go:79-84 | an immediate grant keeps the correlation within its share and the total within the cap |
| FairAdmission.AloneMeansFastPath | internal/engine/fair_dispatcher.go:35-37 | a correlation that is alone never waits while a slot is free |
| FairAdmission.StepKeepsInv | internal/engine/fair_dispatcher.go:74-191 | every critical section keeps the accounting exact, every waiting caller listed or admitted, and the cap |
| DispatchQueue.Queue.Push | internal/engine/dispatch_queues.go:24-35 | the shifting insertion puts the item before the first less urgent one |
| DispatchQueue.Queue.Pop | internal/engine/dispatch_queues.go:38-45 | takes the first item, or none |
| DispatchQueue.Queues.GetOrCreate | internal/engine/dispatch_queues.go:60-69 | the same queue object for the same key on every call |
| DispatchQueue.QueueRefinesArrivals | internal/engine/dispatch_queues.go:24-45 | for any interleaving of pushes and pops the queue hands out what an arrival list would, earliest of the most urgent first, and holds the stable sort of what that list holds |
| DispatchQueue.PopRefines | internal/engine/dispatch_queues.go:38-45 | the head of the stable sort is the earliest of the most urgent items, and the rest is the stable sort of the rest |
| DispatchQueue.StableSortUnique | internal/engine/dispatch_queues.go:24-45 | there is only one stable sort, so the arrivals fix the order in which the queue drains |
| Drain.PauseController.Pause | internal/engine/pause_controller.go:40-44 | adds the correlation and changes nothing blocked |
| Drain.PauseController.AddBlocked | internal/engine/pause_controller.go:33-37 | appends to the blocked list of its correlation |
| Drain.PauseController.Resume | internal/engine/pause_controller.go:47-54 | hands out the blocked list and clears it |
| Drain.PauseController.MarkCancelled | internal/engine/pause_controller.go:58-63 | pauses for good and discards the blocked list |
| Drain.KeyedQueue.Enqueue | internal/engine/persona_runner.go:750-762 | pushes by priority, and asks for a worker iff none is draining |
| Drain.KeyedQueue.NextEntry | internal/engine/persona_runner.go:779-799 | moves the whole queue to the blocked list when paused, else takes the first entry or ends the drain |
| Drain.BlockingAppends | internal/engine/persona_runner.go:782-788 | the moved queue arrives in the blocked list in queue order |
| DrainSafety.StepKeepsDrained | internal/engine/persona_runner.go:746-803 | every step of every actor keeps: one worker per key, locks held by their workers, a non-empty queue is being drained |
| DrainSafety.StepConserves | internal/engine/persona_runner.go:746-803 | every step keeps each received entry in exactly one place |
| DrainSafety.ReachableIsSafe | internal/engine/persona_runner.go:746-803 | in every interleaving of both loops: at most one execution per key, no non-empty queue without a live worker, each entry in exactly one place, each handed out at most once |
| DrainSafety.PauseBound | internal/engine/persona_runner.go:779-791 | while a correlation stays paused and no hint worker drains the key, it begins at most one further execution, and only if its worker had passed its check and holds a non-empty queue; once the worker is gone all its other entries are blocked or were discarded |
| DrainBound.HintDrainsForever | internal/engine/persona_runner.go:1309-1327 | a worker of the hint loop lets its key begin any number of executions without anything touching the pause state |
| DrainBound.HintDrainIsReachable | internal/engine/persona_runner.go:1298-1329 | one approved hint followed by a pause reaches such a worker on a paused correlation |
| DrainBound.PauseBoundsIff | internal/engine/persona_runner.go:779-791 | over all continuations without a resume or a new hint worker, the executions of a key of a paused correlation are bounded iff no hint worker drains it (other than one about to end on an empty queue) |
| StreamWriter.Writer.Write | internal/backend/stream.go:65-91 | handles every complete line and keeps the rest; a failing sink leaves the unread lines buffered; what handling does, ChunkingIsInvisible says by position |
| StreamWriter.Writer.Close | internal/backend/stream.go:95-105 | handles the unterminated rest and empties the buffer |
| StreamWriter.FeedConcat | internal/backend/stream.go:65-91 | feeding two parts one after the other is feeding their concatenation |
| StreamWriter.StreamedIsPieces | internal/backend/stream.go:54-105 | for every way to cut a stream into writes, the run equals one pass over its pieces |
| StreamWriter.PiecesSplit | internal/backend/stream.go:69-77 | the pieces hold no line terminator and give the stream back when rejoined by it |
| StreamWriter.ChunkingIsInvisible | internal/backend/stream.go:54-105 | for every way to cut a stream into writes, every stateful extractor and every trimming that treats the line terminator as white space: there are parser states, texts and stop reasons, one per non-empty trimmed line, each made from the state before it, and the run ends in the last state, has written the texts in their order, and reports the last reason that was given; they are the same for every cut |

## Left out

- Engine.Engine.ProcessDecision: the throttle is always present with a positive limit; without one the engine parks nothing, which only removes behaviour.
- Engine.Engine.LoadAggregate: always replays the full log; no code of the repository writes snapshots.
- Engine.Engine.RunWatchdogSweep: the time without activity is not modelled; which workflows are silent is an argument of the sweep.
- Aggregate.WorkflowAggregate.Apply: prompts, tickets, reasons, causation ids and timestamps are not part of the state, and the invalidated personas of a retry are a set.
- WorkflowGraph.DownstreamOf: returns a set, since map iteration leaves the order of the source's slice open and no caller depends on it.
- JoinCheck.CheckJoinCondition: an event is identified by its position in the chain, where it occurs once, and the fingerprint is their multiset instead of a sorted, joined string.
- Aggregate.FingerprintIgnoresOrder: the fingerprint is the summary with the multiset of descriptions, instead of a SHA-256 digest over a sorted encoding, so digest collisions and separators inside descriptions are not modelled.
- FairDispatcher.Dispatcher.BeginAcquire: the wait loop is cut at its waits; whether a cancelled sleeper is ever woken is not modelled, because the broadcast is made without the lock.
- DrainSafety.ReachableIsSafe: a resume that races with a drain worker between its pause check and its last move may leave entries blocked until the next resume; no claim is made that they are handed out.
- Drain.KeyedQueue.NextEntry: the contract is that of one uninterrupted critical section; interleavings of pause, resume and cancel inside it are covered by the state machine.
- EventStore.ResultPersister.PersistAndPublish: delivery by the bus is not modelled, only the sequence of published events.
- StreamWriter.ChunkingIsInvisible: the sink does not fail; the trimming of white space is a parameter, so no table of Unicode white space is modelled.
- Engine.WorkflowThrottle.Dequeue: the durable queue rows and recovery after a crash are not modelled.
- Payload encoding and decoding, the legacy phase field, and environment overrides of iteration limits: values are datatypes.
- The review-consolidator handler: its feedback enters as appended events.
- Executing handlers: command-line backends, git, Jira, Confluence, GitHub, gRPC, MCP and the user interfaces carry no property of the engine.
- Round-robin dispatch, hook registry, correlation caches, upcasting and tag indexing: they would only add easy members.
