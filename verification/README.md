# Restitch: a verified model of the gateway and of Studio

Restitch composes REST calls. A composition is a graph of steps that the
gateway plans into waves and runs concurrently; Studio, the control plane, lets
people edit compositions, publishes them as numbered artifact versions that
gateways poll for, and collects the gateways' telemetry. This project models
the parts of both that have to be right under concurrency, or under every
possible input, and proves what they promise.

| module | what it models |
|---|---|
| `DependencyGraph` | what it means for steps to be runnable wave by wave: longest chains, cycles, reachability |
| `Planner` | the gateway's planner, Kahn's algorithm by waves, and its cycle report |
| `GraphEditor` | the editor's own planner and its worklist search; both planners held against each other |
| `GraphEdits` | drawing and removing edges in the step graph, with the references the templates imply |
| `Execution`, `WaveMachine`, `Executor` | a recursive evaluator of compositions, the goroutines of a wave as interleaved atomic steps, and `Execute` as a class |
| `Versions`, `Drafts`, `Poller` | numbered versions under racing publishers, drafts under compare-and-swap, and the gateway that polls by conditional GET (sections 13.1.2 and 15.4.5 of RFC 9110) |
| `RequestKey`, `StepCache`, `StepDelivery`, `Sharing` | which requests are the same, the sharded cache, how a step comes by its response, and when sharing responses changes nothing |
| `Accumulator`, `Histogram`, `Usage`, `RequestSampler` | telemetry from the request to the stored row and the percentile, and the sampler of single requests |
| `Retry` | the retry loop of an upstream call |
| `EnvScan`, `Artifact`, `Templates`, `ResponseBody` | the `${VAR}` scanner, assembling and splitting an artifact, templates, and response bodies |
| `Wrappers`, `Strings`, `Sorting` | Option and Result, white space, sorted sequences without duplicates |

Code that updates state is modelled by methods, loops and classes; each is
proved equal to a function of its inputs or of the old state, and what the
source promises is then proved of that function. Protocols with several
participants are labelled transition systems: a `Next` relation whose steps are
single lock sections or single SQL statements, and theorems over every run.

## What the code does not promise after all

Several natural claims about the code are false. The model keeps the code as it
is, gives the input that shows it, and proves the exact condition.

- Retry: the total sleep can exceed (sends - 1) times the longest wait, because
  a wait may lead to no request (`Retry.WaitWithoutRequest`). Waits outnumber
  sends - 1 exactly when the loop comes to an attempt that is to be retried and
  either the context ends in its wait or no body can be had after it, every
  attempt before having been retried in full (`Retry.WaitsInVain`,
  `Retry.InVainIff`, `Retry.SleepBound`); otherwise the bound holds. The returned
  response has already been drained exactly when a retry was abandoned
  (`Retry.ReturnedIsUndrained`), which `Retry.AbandonedIff` decides from the
  answers, the body and the context.
- Drafts: deleting and creating a resource again, or replacing the draft by one
  without it, restarts its revisions, so that a save from before the delete can
  commit (`Drafts.RecreationDefeatsTheCheck`). Which saves commit is stated
  exactly by `Drafts.SaveCommitsExactly`.
- Usage: two windows that open in one minute share a key and the later row
  replaces the earlier one (`Usage.SameMinuteReplaces`). This happens when a late
  tick opens a window just after a minute has begun and the next tick is on time;
  `Usage.SameMinuteRun` is a run in which an acknowledged bucket is lost so. In
  every run, a bucket that reaches the store stays in it iff it is the last one for
  its key in its push and no later push brings another one and no sweep passes it
  (`Usage.StaysIff`). A composition with the empty name would share the key of the
  global bucket; the keys of a flush differ exactly when there is none
  (`Usage.FlushesAreDistinct`).
- Request keys: with two spellings of one header name the hashed bytes can depend
  on map order (`RequestKey.SpellingsDefeatTheKey`). They do not exactly when all
  spellings of a name carry the same values (`RequestKey.KeyIsStableIff`). In the
  gateway this input does not arise: every header of an outgoing request is
  written with `Header.Set` (internal/composition/step.go:122-144 and 281-286,
  and the strategies under internal/auth), which stores canonical names.
- Cache: the age of an entry counts from when it was stored, and storing can come
  after receiving: time may pass before the sender stores, and a caller that
  joined a flight stores its copy whenever it gets to. In
  `StepDelivery.JoinerServesLate` a response that arrived at 0 with a time to live
  of 5 is served at 105. A hit is at most its time to live plus the delay of
  storing old (`StepDelivery.HitIsFresh`), and an entry that has not expired can be
  served older than its time to live iff it was not stored at the clock reading
  of its receipt (`StepDelivery.ServedLateIff`).
- Cacheability: only the first line of a header counts, so a `no-store` on a second
  Cache-Control line is ignored (`StepDelivery.LaterLinesIgnored`); of the first line
  every comma-separated part counts and nothing else (`StepDelivery.CacheableIff`).
- Sharing: a joiner takes over how its leader ended. That may not be how it would
  have ended itself, even with equal error rules: the leader sends within its own
  timeout and request context, which the key does not hold, so a leader that times
  out or whose client goes away fails a joiner that would have succeeded
  (`Sharing.LeaderFailureSpreads`). With different rules it shows the leader's
  replacement body (`Sharing.ReplacementSpreads`). A cache hit reads the stored bytes
  again and shows JSON `null` as the text `null`, where the sender shows nil, without
  any rules (`Sharing.NullBecomesText`, `StepDelivery.HitIsSameIff`). Two executions
  of one key end as by their own requests under every schedule and configuration iff
  a failure is only ever taken over by one that fails, what may be shared by one that
  gets the same, and what may be stored by one that gets what a hit makes of it
  (`Sharing.AlwaysOwnIff`).
- Settings: a settings resource without keys leaves nothing in the artifact and
  is the only thing the round trip loses (`Artifact.SplitLosesOnlyEmptySettings`).
- Sampling: successes recorded out of the order of their minutes restart the
  minute's count (`RequestSampler.OutOfOrderForgets`). A minute admits at most its
  cap each time the sampler comes to it (`RequestSampler.AdmissionsPerVisit`), and
  can reach that each time, so the cap holds exactly for minutes that do not come
  back (`RequestSampler.CapHoldsIffNotBack`).
- Overlapping pushes of samples: at shutdown the last push (cmd/restitch/run.go:321)
  may start while the loop's still waits for its answer. Then a sample can be sent a
  third time, and one that is delivered can count as dropped
  (`RequestSampler.OverlapDefeatsTheBooks`); without overlap the books are right
  (`RequestSampler.SamplesAreAccounted`).
- Execution: a step whose upstream is unknown, or that is not found, reports its
  error without writing an entry, unlike every other failing step; a missing
  entry reads as nil, so the steps after it are skipped all the same.
- Templates: `CompileTemplate` trims the text before it looks for the
  delimiters, but a template with white space around its one expression is not
  single, for the white space is a literal (`Templates.SingleIffHole`).

Two further lemmas mark where a theorem ends, on inputs that the program does not
produce. A quantile whose rank rounds to 0 reports the first bound whatever the data
(`Histogram.TargetZeroIgnoresData`, and `Histogram.TargetInRange` for when), but the
one caller asks for the 0.95 quantile of at least one value
(internal/studio/usage.go:236), whose rank is at least 1. And a read with a clock that
went back could tell that a sweep has taken an entry (`StepCache.BackwardClockDiffers`),
but Go compares the monotonic readings of `time.Now`, which do not go back.

## Model

| member | source | states |
|---|---|---|
| DependencyGraph.LayersPartition | internal/composition/dag.go:77-104 | every step that can run lies in exactly one wave |
| DependencyGraph.LayerIsLongestChain | internal/composition/dag.go:77-104 | a step's wave index is the length of its longest dependency chain |
| DependencyGraph.BlockedIffReachesCycle | internal/composition/dag.go:106-114 | on a closed graph a step never runs iff it reaches a cycle through its dependencies |
| DependencyGraph.AcyclicIffAllRun | internal/composition/dag.go:106-114 | every step runs iff the graph has no cycle |
| Planner.CountEdges | internal/composition/dag.go:60-75 | in-degrees count dependency entries, and the edges are the exact inverse of the dependencies, repetitions included |
| Planner.BuildExecutionPlan | internal/composition/dag.go:59-117 | on a closed graph terminates with a plan iff the graph is acyclic, each step once and in the wave of its layer; otherwise reports exactly the steps that reach a cycle, sorted |
| Planner.BuildDAG | internal/composition/dag.go:29-57 | refuses exactly the graphs with a dependency that is no step, naming such a step and dependency; otherwise as the plan |
| Planner.PlanOrdersDependencies | internal/composition/dag.go:59-117 | a plan runs every step exactly once and after everything it waits for |
| GraphEditor.DependsOnMapIs | studio/src/lib/dag.ts:11-15 | the drawn graph has exactly the drawn names and is closed; a name stands for its last step and waits for exactly those of that step's dependencies that are drawn |
| GraphEditor.DependsOnTransitively | studio/src/lib/dag.ts:17-30 | the worklist search terminates and decides reflexive-transitive reachability |
| GraphEditor.ComputeWaves | studio/src/lib/dag.ts:32-47 | terminates with the layers of the drawn graph, and with all steps that never run together in one last wave |
| GraphEditor.PlannersAgree | studio/src/lib/dag.ts:36-47 | for distinct names and an acyclic graph, editor and gateway have the same number of waves and equal waves as sets |
| GraphEditor.PlannersAgreeOnCycles | studio/src/lib/dag.ts:36-47 | for a cyclic graph the editor's last wave is the set of steps in the gateway's cycle error |
| GraphEdits.UniqueSorted | internal/composition/stepdeps.go:68-79 | the names not skipped, each once, in order |
| GraphEdits.MergeDependencies | internal/composition/deps.go:102-121 | each explicit or inferred dependency once, and nothing else |
| GraphEdits.StepGraph.Connect | studio/src/features/resources/step-graph.tsx:142-159 | for well-formed steps: an edge that can be drawn is appended to that one step's list and nothing else changes; an unknown step, itself, a present edge or one that would close a cycle changes nothing and sets the message that belongs to it |
| GraphEdits.StepGraph.Disconnect | studio/src/features/resources/step-graph.tsx:161-169 | for well-formed steps: exactly the named edges are gone from the lists; names, other fields, other edges and steps that no pair names are as before, and no empty list is left |
| GraphEdits.DroppedInside | studio/src/features/resources/step-graph.tsx:165 | a removed name goes wherever it stands in the list, and the others keep their order and number |
| GraphEdits.ConnectLinks | studio/src/features/resources/step-graph.tsx:142-159 | connecting links the two steps iff both exist, differ, are not linked yet and close no cycle |
| GraphEdits.DisconnectUnlinks | studio/src/features/resources/step-graph.tsx:161-169 | any list of pairs, unknown steps and absent edges included, takes out those edges and nothing else |
| GraphEdits.RuntimeIsGateway | studio/src/features/resources/step-graph.tsx:125 | with current references, what the editor takes a step to wait for is what the gateway makes it wait for |
| GraphEdits.ConnectKeepsAccepted | studio/src/features/resources/step-graph.tsx:142-159 | connecting steps that the gateway accepts gives steps that it accepts |
| GraphEdits.DisconnectKeepsAccepted | studio/src/features/resources/step-graph.tsx:161-169 | so does disconnecting any number of pairs |
| GraphEdits.EditsKeepAccepted | studio/src/features/resources/step-graph.tsx:142-169 | any sequence of edits, with references reported anew before each, from accepted steps leads to accepted steps |
| Execution.EvaluateUnfolds | internal/composition/executor.go:204-222 | the evaluator's outcome of a step is a function of its dependencies' results alone |
| Execution.SkippedIffDependencyNil | internal/composition/executor.go:204-213 | a step is skipped iff the entry of one of its direct dependencies is nil |
| Execution.NilIffAncestorFails | internal/composition/executor.go:428-435 | an entry is nil iff the step itself or a step it transitively waits for fails by itself |
| Execution.RequiredFailureIff | internal/composition/executor.go:350-354 | a step's error aborts the run iff the step is not optional and fails by itself: its entry is nil and no direct dependency's is |
| Execution.ErrorIffNilOrMatched | internal/composition/executor.go:394-417 | a step contributes an error iff its entry is nil or its response matched an error rule |
| WaveMachine.PlanMakesPlanned | internal/composition/executor.go:92-112 | every plan the planner returns meets what the executor's theorems assume of a plan |
| WaveMachine.ActKeepsInv | internal/composition/executor.go:204-383 | one atomic step of any goroutine keeps: settled entries equal the evaluator's, errors are those of the finished steps, each once |
| WaveMachine.ScheduleHasInv | internal/composition/executor.go:114-164 | every state of every interleaving over all waves keeps that invariant |
| WaveMachine.ScheduleRefinesEvaluator | internal/composition/executor.go:114-171 | a run that returns has exactly the evaluator's results map and errors; one that aborts names a required failure of the earliest wave holding one, with no later wave started |
| WaveMachine.ScheduleIrrelevant | internal/composition/executor.go:114-171 | two schedules of one composition both abort in the same wave, or both return the same results and the same set of errors |
| WaveMachine.StepsAreBounded | internal/composition/executor.go:114-164 | the number of atomic steps of any schedule is bounded in advance |
| WaveMachine.SchedulesEnd | internal/composition/executor.go:114-171 | a schedule without verdict can always take a step: none deadlocks, and with the bound each ends |
| Executor.BuildErrorsArray | internal/composition/errors.go:82-102 | one detail for each error in order, with its message, skipped exactly for a failed dependency |
| Executor.DetailsAreComplete | internal/composition/errors.go:82-102 | the details name every step with an error once, and no other step |
| Executor.Execute.Goroutine | internal/composition/executor.go:174-426 | one lock section of a goroutine is the atomic step of the machine; a request is sent with the results map as it was when its environment was built, and its response itself becomes the entry, nil on failure |
| Executor.Execute.EndOfWave | internal/composition/executor.go:146-164 | after the wave's goroutines: the errors join the others, then abort, next wave or return |
| Executor.Execute.Run | internal/composition/executor.go:92-172 | whatever the scheduler chooses, read off the results map: a step whose dependencies all have entries and whose upstream is known has its own request's response as entry, nil if that failed, the request sent with exactly its dependencies' entries; one with a nil dependency is nil; details and partial flag tell of exactly the degraded steps; no required step failed. An abort names a required step of the earliest failing wave and how its own request failed |
| Executor.ScheduleResultsAreSent | internal/composition/executor.go:204-383 | the same for every interleaving: the entries are what the requests returned, each sent with the entries of its dependencies |
| Executor.SettledIsExplained | internal/composition/executor.go:338-383 | the evaluator's outcome of a step is what its request returns for its dependencies' entries; it has an error iff its entry is nil, missing or matched |
| Executor.ErrorIsExplained | internal/composition/errors.go:66-102 | the message and status of a detail, by how the step ended: timeout, upstream error, error rule matched, or skipped with dependency_failed |
| Executor.RequiredIsExplained | internal/composition/executor.go:338-354 | the cause an abort names: an unknown step, a required step without upstream, or a required step's own request that failed like that |
| Versions.NumbersAreContiguous | internal/studio/publish.go:248-268 | in every interleaving of publishers an environment's numbers are exactly 1..n |
| Versions.RowsNeverChange | internal/studio/publish.go:248-268 | a row, once inserted, is never changed or removed |
| Versions.OneRowPerSuccess | internal/studio/publish.go:248-268 | every row belongs to exactly one successful call and holds its document |
| Versions.ConflictMeansThreeOthers | internal/studio/publish.go:248-268 | a call that ends in a 409 has seen at least three rows appear that other calls own |
| Versions.RollbackRepublishes | internal/studio/publish.go:405-434 | rolling back to version n publishes, under a higher number, the YAML version n still has |
| Versions.VersionTable.InsertIfAbsent | internal/studio/publish.go:252-262 | one row more iff the key was free, nothing else changed |
| Versions.VersionTable.WriteVersion | internal/studio/publish.go:245-268 | with arbitrary publishers between its statements: success adds one row of its own with the document and the returned number, a conflict adds none and at least three others were published |
| Drafts.RevisionNamesDiffer | internal/studio/publish.go:357-403 | the map key kind/name of a resource determines kind and name |
| Drafts.DraftTable.SaveResource | internal/studio/draft.go:332-361 | at base 0 inserts when absent, otherwise replaces iff the base is the current revision; the row is then the body with the next revision and all other rows are as before; otherwise nothing changes and the error says exists, missing or stale |
| Drafts.DraftTable.DeleteResource | internal/studio/draft.go:269-288 | removes that one row iff the base is its revision, otherwise changes nothing and says missing or stale |
| Drafts.DraftTable.ReplaceDraft | internal/studio/publish.go:357-403 | succeeds iff no two resources have one kind and name, else changes nothing; then the environment holds exactly the resources given, each with its own body and its old revision, or 0, plus one; other environments keep their rows |
| Drafts.ReplacedIs | internal/studio/publish.go:384-402 | the same of the specification, for every list and table |
| Drafts.RevisionCountsWrites | internal/studio/draft.go:332-361 | while a resource stays present its revision grows by exactly the number of writes to it |
| Drafts.RevisionSinceCreation | internal/studio/draft.go:332-361 | the revision is the number of writes since the resource was last absent |
| Drafts.SaveCommitsIffUnchanged | internal/studio/draft.go:332-361 | while present, a save from the revision loaded at one time commits later iff no write happened between |
| Drafts.OneSavePerBase | internal/studio/draft.go:332-361 | of two saves with one base at most one commits: committed saves form a chain |
| Drafts.SaveCommitsExactly | internal/studio/draft.go:332-361 | a save commits iff its base is the number of writes since the resource was last absent |
| Drafts.RecreationDefeatsTheCheck | internal/studio/draft.go:339-344 | after delete and create a save based on the old revision 1 commits |
| Poller.ETagInjective | internal/studio/gatewayapi.go:251-266 | entity tags of different version numbers differ |
| Poller.PollLoop.Reload | cmd/restitch/run.go:200-257 | accepted iff the artifact loads and has the hash of what runs or compiles; then the pipeline's hash is the artifact's, and it is the very pipeline before if the hashes agree; otherwise unchanged |
| Poller.PollLoop.Poll | internal/hotreload/poller.go:78-162 | one pass: pipeline, tag and number move together, exactly when an artifact of a size that is read is accepted; the error type by reply and stage, and the count of errors in a row |
| Poller.GatewayRunsWhatItNames | internal/hotreload/poller.go:104-140 | in every run the tag and the number name one version whose YAML was accepted and whose hash is the running pipeline's |
| Poller.AppliedVersionNeverDecreases | internal/hotreload/poller.go:104-140 | in every run of publish, rollback, poll and reload steps the applied version never goes down |
| Poller.NotModifiedIffNewest | internal/studio/gatewayapi.go:251-277 | a 304 is answered iff the gateway runs the newest version at that moment |
| Poller.RejectedChangesNothing | internal/hotreload/poller.go:104-140 | a pass moves pipeline, tag and number to the version of the reply iff the reply is an artifact that is accepted, and else leaves all three alone |
| Poller.FailedStagesOnlyCount | internal/hotreload/poller.go:104-140 | in every run a pass over an artifact that does not load, or is new and does not compile, records the reload error, counts one more, and changes nothing else |
| Poller.WhatRunsWasAccepted | cmd/restitch/run.go:200-257 | in every run the version that runs was brought by a pass that loaded it, and the YAML that runs by a pass that loaded and compiled it |
| Poller.VersionsStepsPublish | internal/studio/publish.go:248-268 | every step of the version protocol is one the poller's runs allow |
| RequestKey.FieldThenInjective | internal/upstream/coalesce.go:100-109 | a length-prefixed field determines itself and what follows it |
| RequestKey.EncodedInjective | internal/upstream/coalesce.go:57-98 | equal bytes mean equal method, URL, header entries, body and authorization |
| RequestKey.WriteEntries | internal/upstream/coalesce.go:71-85 | appends exactly the encodings of the header entries, in order |
| RequestKey.Key | internal/upstream/coalesce.go:51-98 | fails iff the body cannot be read, else returns bytes that hash this request |
| RequestKey.SameKeyIffSameRequest | internal/upstream/coalesce.go:51-98 | for headers without two spellings of a name: equal bytes iff same method, URL, headers outside the per-request set with value order, body and authorization; so independent of map order |
| RequestKey.CanonicalHeadersAreMaps | internal/upstream/coalesce.go:40-49 | for canonical names, same headers means equal maps outside the per-request names |
| RequestKey.CanonicalIff | internal/upstream/coalesce.go:62-70 | two header names count as one iff they differ in case only |
| RequestKey.PerRequestNames | internal/upstream/coalesce.go:40-49 | the names that do not count are x-request-id, x-correlation-id, traceparent, tracestate and baggage, in any case, and no others |
| RequestKey.KeyIsStableIff | internal/upstream/coalesce.go:62-85 | all orders of visiting the header map give the same bytes iff the spellings of each name carry the same values |
| RequestKey.SpellingsDefeatTheKey | internal/upstream/coalesce.go:71-85 | one request with two spellings of a header name can hash to two different byte strings |
| StepCache.Cache.Get | internal/upstream/cache.go:71-81 | the unexpired entry of the key's shard, or a miss |
| StepCache.Cache.Set | internal/upstream/cache.go:83-89 | the entry replaces the key's in its shard, nothing else changes |
| StepCache.Cache.SweepShard | internal/upstream/cache.go:104-115 | removes exactly the expired entries of one shard |
| StepCache.SweepsAreInvisible | internal/upstream/cache.go:104-115 | from any state that represents a plain map, every sequence of operations with any sweeps gives the same answers as that map |
| StepCache.GetAnswersLastSet | internal/upstream/cache.go:71-115 | whatever was set, read and swept before: a Get answers what the last Set of its key stored iff no more than its time to live has passed since, and nothing if there was none |
| StepCache.CacheIsPlainMap | internal/upstream/cache.go:63-115 | under a monotone clock the sharded, swept cache is observationally one unswept map with expiry |
| StepCache.BackwardClockDiffers | internal/upstream/cache.go:104-115 | with a clock that goes back the two differ |
| StepDelivery.IsCacheable | internal/composition/executor.go:445-463 | true iff there is no Set-Cookie and no private or no-store part in Cache-Control |
| StepDelivery.CacheableIff | internal/composition/executor.go:449-463 | cacheable iff no cookie is set and no comma-separated part of the first Cache-Control line is private or no-store |
| StepDelivery.ForbidsIff | internal/composition/executor.go:456-460 | a part forbids iff, without the spaces around it, it is private or no-store in any case |
| StepDelivery.ForbiddingParts | internal/composition/executor.go:456-460 | so do no-store, NO-STORE and Private between spaces |
| StepDelivery.OtherParts | internal/composition/executor.go:456-460 | and public, no-cache and private=x do not |
| StepDelivery.ListsForbid | internal/composition/executor.go:456-460 | max-age=60, no-store and private,max-age=60 forbid |
| StepDelivery.DirectiveAnywhereForbids | internal/composition/executor.go:449-463 | a forbidding directive counts alone, first, last or between others |
| StepDelivery.LaterLinesIgnored | internal/composition/executor.go:456-461 | later lines of Cache-Control change nothing, even a no-store |
| StepDelivery.ServedWasReceived | internal/composition/executor.go:256-334 | in every run, a response from a flight was received for an equal key and passes isCacheable; one from the cache is what a hit reads from a response received for an equal key that passes it, is below 500 and unmatched by error rules |
| StepDelivery.HitIsSameIff | internal/composition/executor.go:262-271 | a hit shows an unmatched response as its sender did iff it was not JSON null, which becomes text |
| StepDelivery.HitIsFresh | internal/composition/executor.go:256-299 | in every run a hit serves a response that arrived under its key, no longer ago than its time to live and the delay of storing it |
| StepDelivery.ServedLateIff | internal/composition/executor.go:368-379 | in every reachable state, an unexpired entry can be served older since its receipt than its time to live iff it was not stored at the clock reading of its receipt |
| StepDelivery.LateIffStoredLate | internal/composition/executor.go:368-379 | a cache fill makes an entry that can be served late iff the clock has moved since the receipt and the time to live is not negative |
| StepDelivery.JoinerServesLate | internal/composition/executor.go:308-379 | a run in which a joiner stores late and a response with time to live 5 is served at age 105 |
| Sharing.CompatibleEndsOwn | internal/composition/executor.go:256-379 | in any run, executions of one key whose own ends, replies, timeouts and error rules included, are compatible all end as by sending their own requests |
| Sharing.EqualRulesEndOwn | internal/composition/executor.go:256-379 | so do executions that for each key have equal error rules and equal replies, failures included, when no reply that may be stored is JSON null |
| Sharing.AlwaysOwnIff | internal/composition/executor.go:256-379 | two executions of a key end as by their own requests under every schedule and configuration iff each may take over the other's end: a failure only by one that fails (with `exact`, for the same reason), what may be shared only by one that gets the same, what may be stored only by one that gets what a hit reads |
| Sharing.LeaderFailureSpreads | internal/composition/executor.go:304-334 | a leader whose own request fails, by its timeout or its context, fails a joiner whose own would not |
| Sharing.ReplacementSpreads | internal/composition/step.go:180-194 | for one reply and rules with different replacement bodies the joiner can end with the leader's |
| Sharing.NullBecomesText | internal/composition/executor.go:262-265 | for equal replies of JSON null without rules a hit does not end as an own request |
| Accumulator.RecordBucket | internal/admin/accumulator.go:74-97 | the bucket then counts the records so far and this one |
| Accumulator.ToBucket | internal/admin/accumulator.go:118-156 | the flushed bucket reports its records: requests, errors, partials, steps, latency histogram |
| Accumulator.Accumulator.Record | internal/admin/accumulator.go:60-72 | the record joins the window, globally and for its composition |
| Accumulator.Accumulator.Flush | internal/admin/accumulator.go:99-116 | one global bucket and one for each composition recorded, stamped with the minute the window opened, reporting the whole window; then an empty window |
| Accumulator.FlushConserves | internal/admin/accumulator.go:99-116 | the requests of the composition buckets add up to the global bucket's, which is the number of records |
| Histogram.ComputeLatencyBuckets | internal/admin/accumulator.go:158-174 | the counts are the histogram of the latencies: each in the first bucket whose bound holds it |
| Histogram.HistogramsAdd | internal/studio/usage.go:200-206 | the sum of two histograms is the histogram of all latencies together |
| Histogram.Merge | internal/studio/usage.go:197-206 | merging any number of instances' rows gives the histogram of all their latencies |
| Histogram.HistogramPercentile | internal/studio/usage.go:276-298 | 0 for no data; for any latencies that the buckets count and the k-th smallest of them, k being total times p rounded half up, the first bound that is not below it, or the last bound; the first bound when k is 0 or less |
| Histogram.ReachedIsRight | internal/studio/usage.go:284-298 | the same of the bucket at which the loop stops |
| Histogram.PercentileIsRight | internal/studio/usage.go:276-298 | that bucket is the one holding the k-th smallest latency, which the reported bound is not below unless it overflows |
| Histogram.KthSmallestExists | internal/studio/usage.go:276-298 | for 1 <= k <= n there is a k-th smallest latency |
| Histogram.TargetInRange | internal/studio/usage.go:284-286 | k lies in 1..n iff total times p is at least one half |
| Histogram.TargetZeroIgnoresData | internal/studio/usage.go:284-298 | with k = 0 the first bound is reported whatever the data |
| Usage.UsageStore.StoreUsage | internal/studio/usage.go:59-109 | afterwards there is a row for every key that had one or has a bucket with requests in the push, but those of the environment before the cutoff; it is the last such bucket, else the old row; breaker states replace the instance's when the push carries any |
| Usage.UsagePusher.Push | internal/hotreload/usage.go:79-96 | sends the leftover and the new flush; on success nothing is pending, on failure the old leftover is counted dropped and the flush is pending |
| Usage.FlushesAreDistinct | internal/admin/accumulator.go:99-116 | the buckets of a flush have different keys iff no record has the empty composition name |
| Usage.DeliveryIsAccounted | internal/hotreload/usage.go:81-96 | in every run each flushed bucket is acknowledged, counted dropped or pending, and was sent at most twice for each time it was flushed, which is once when keys differ |
| Usage.DistinctWindowsDistinctKeys | internal/admin/accumulator.go:99-116 | an instance whose windows open in different minutes never flushes two buckets with one key |
| Usage.StoredRowIsTheBucket | internal/studio/usage.go:66-84 | over lost, repeated and late pushes every stored row is a bucket its source flushed under its key, and the only one when the source's keys differ |
| Usage.AcknowledgedIsStored | internal/studio/usage.go:59-109 | when its source's keys differ, an acknowledged bucket stays stored, unchanged, until some retention cutoff has passed its minute, even if cutoffs go back |
| Usage.StaysIff | internal/studio/usage.go:59-109 | in every run a bucket that reaches the store stays iff it is the last non-empty one for its key in its push, no later push brings another one for the key, and no sweep passes its minute |
| Usage.SameMinuteReplaces | internal/studio/usage.go:66-84 | of two buckets with one minute and composition only the later is left |
| Usage.SameMinuteRun | internal/admin/accumulator.go:99-116 | a run in which two windows share a minute and the first bucket, acknowledged, is not stored although nothing was swept |
| RequestSampler.Sampler.Record | internal/hotreload/requests.go:63-81 | the state after one request: a status of 500 or more or a partial response is always sampled and not capped; a success starts its minute or counts in it, up to 60; a sample is queued, or counted dropped when 1000 are |
| RequestSampler.Sampler.TakeBatch | internal/hotreload/requests.go:89-99 | a push takes the queue and sends it behind what the last one left; an empty batch is not sent |
| RequestSampler.Sampler.Settle | internal/hotreload/requests.go:100-111 | after a failed push the older samples are counted dropped and the new ones pending; after a good one nothing is pending |
| RequestSampler.SamplesAreAccounted | internal/hotreload/requests.go:63-111 | with records arriving during pushes but pushes one at a time, each admitted sample is queued, pending, in flight, acknowledged or counted dropped, none is sent more than twice, and a batch is bounded |
| RequestSampler.OverlapDefeatsTheBooks | internal/hotreload/requests.go:89-111 | a run with an overlapping push in which one sample is sent three times, and is both delivered and counted dropped |
| RequestSampler.AdmissionsPerVisit | internal/hotreload/requests.go:67-75 | a minute admits at most its cap of successes each time the sampler's minute becomes it, and failures are never capped |
| RequestSampler.SuccessesAreCapped | internal/hotreload/requests.go:67-75 | a minute that does not come back admits at most its cap |
| RequestSampler.InOrderComesOnce | internal/hotreload/requests.go:68-71 | with successes in the order of their minutes no minute comes back |
| RequestSampler.CapHoldsIffNotBack | internal/hotreload/requests.go:67-75 | among all runs in which a minute comes a given number of times the cap is a bound iff that number is at most one |
| RequestSampler.OutOfOrderForgets | internal/hotreload/requests.go:68-71 | a success of another minute in between restarts the minute's count |
| Retry.RoundTrip | internal/upstream/retry.go:86-154 | a method outside GET, HEAD, OPTIONS, PUT and DELETE is sent once unless configured otherwise; else requests, waits, drains and ending follow the specification of the loop; it settles iff the result has a status to drop or not to retry, and every earlier response had one to retry |
| Retry.DefaultsAre | internal/upstream/retry.go:51-65 | the defaults, and that what is configured is kept |
| Retry.HeaderDecides | internal/upstream/retry.go:183-196 | a number in Retry-After is the wait in seconds, clamped to 0 and MaxBackoff |
| Retry.DelayDoubles | internal/upstream/retry.go:206-220 | without jitter the wait starts at the interval and doubles up to MaxBackoff, for at most twenty doublings |
| Retry.JitterIsSmall | internal/upstream/retry.go:206-220 | with jitter it is within a fifth of that, and never above MaxBackoff |
| Retry.EachWait | internal/upstream/retry.go:176-204 | each wait has the length meant for its attempt, and the context ends in none but the last of a run that it cuts short |
| Retry.ResendsHaveBodies | internal/upstream/retry.go:97-113 | every request sent again has its body, and an abandoned run lacked the next one's |
| Retry.Loop | internal/upstream/retry.go:100-154 | always returns from inside the loop, with the outcome of its last request |
| Retry.SendsBounded | internal/upstream/retry.go:86-154 | at least one and at most MaxAttempts requests, every one before the last with an outcome to retry |
| Retry.WaitsCounted | internal/upstream/retry.go:176-220 | there is one wait for each request after the first, and at most one more; each within 0 and MaxBackoff, even with Retry-After (section 10.2.3 of RFC 9110) |
| Retry.SleepBound | internal/upstream/retry.go:86-220 | the total sleep is within sends * MaxBackoff always, and within (sends - 1) * MaxBackoff unless the loop waits in vain, which is when there are as many waits as sends |
| Retry.InVainIff | internal/upstream/retry.go:86-154 | the loop is cut short or abandoned iff it comes, by attempts each retried, waited for and resendable, to one that is retried and whose wait the context ends or no body follows |
| Retry.CutIff | internal/upstream/retry.go:176-204 | cut short iff it so comes to a wait in which the context ends |
| Retry.WaitWithoutRequest | internal/upstream/retry.go:97-113 | a read-once body: one request and a wait of positive length |
| Retry.EarlierDrained | internal/upstream/retry.go:222-227 | every response before the last request is drained |
| Retry.ReturnedIsUndrained | internal/upstream/retry.go:86-154 | the returned response is drained only when a retry was abandoned |
| Retry.AbandonedIff | internal/upstream/retry.go:97-113 | abandoned iff it so comes to a retry whose body cannot be had |
| Retry.RewindableNeverAbandoned | internal/upstream/retry.go:97-113 | with no body, or one that GetBody always gives back, nothing is abandoned and the returned response is undrained |
| Retry.ReadOnceAbandonedIff | internal/upstream/retry.go:97-113 | a read-once body is abandoned iff its first outcome asks for a retry that would be made |
| EnvScan.Scan | internal/gwconfig/env.go:101-153 | the loop over the index computes the left-to-right scan, result and visited references alike |
| EnvScan.ScanIsRender | internal/gwconfig/env.go:101-153 | a scan is a parse into segments, which no replacement influences, rendered in order; it fails iff the parse or a replacement does |
| EnvScan.UndoesDoubling | internal/gwconfig/env.go:103-112 | scanning a string with every dollar doubled gives the string back |
| EnvScan.ParseIff | internal/gwconfig/env.go:101-153 | parsing is the inverse of writing: a text parses to the segments whose written form it is, the name ending at the first colon and the reference at the first closing brace, and fails iff it is no written form |
| EnvScan.FaultsAreReported | internal/gwconfig/env.go:113-150 | after text that expands: a dollar at the end, a bare dollar, an unclosed reference and a variable that is missing or empty are each reported as such, whatever follows |
| EnvScan.DefaultStandsIn | internal/gwconfig/env.go:64-78 | a default is written for a variable that is missing or empty, and the value for any other |
| EnvScan.ParseConcat | internal/gwconfig/env.go:103-153 | after a prefix that parses, parsing distributes over concatenation |
| EnvScan.ExpandConcat | internal/gwconfig/env.go:64-78 | after a prefix that expands, so does expansion |
| EnvScan.ValuesAreVerbatim | internal/gwconfig/env.go:64-78 | an inserted value is not scanned again: it stands in the output as it is |
| EnvScan.ExpandWith | internal/gwconfig/env.go:64-78 | the expansion of the specification |
| EnvScan.References | internal/gwconfig/env.go:90-99 | fails iff the text does not parse, else lists its references in order |
| EnvScan.ExpandsIff | internal/gwconfig/env.go:64-99 | expansion succeeds iff the syntax check does and every listed reference has a default or a non-empty value |
| EnvScan.StudioAgreesOnSyntax | internal/gwconfig/env.go:64-99 | Studio's expansion with a placeholder succeeds iff the text parses, and so on every text the gateway expands |
| Artifact.AssembleArtifact | internal/studio/publish.go:60-90 | the loops build the document of the specification, empty sections left out |
| Artifact.DocumentHolds | internal/studio/publish.go:60-90 | every resource of the draft stands in the document: under upstreams or compositions by its name, as auth or rate_limit, or its settings at the top level |
| Artifact.SplitArtifact | internal/studio/publish.go:311-355 | in any order of the map: succeeds iff sections are mappings of mappings and singletons mappings, and returns each resource of the document once |
| Artifact.SplitOfAssembled | internal/studio/publish.go:63-90 | splitting an assembled draft gives back its resources, all but a settings resource that holds nothing |
| Artifact.SplitLosesOnlyEmptySettings | internal/studio/publish.go:312-355 | so nothing is lost iff no settings resource is empty |
| Artifact.AssembledOfSplit | internal/studio/publish.go:312-355 | assembling a document's resources in any order gives the document without empty upstreams and compositions |
| Templates.ParseIff | internal/composition/template.go:109-155 | reading is the inverse of writing: pieces are read from a text iff they are well formed and written out give the text |
| Templates.UnreadableIffDangling | internal/composition/template.go:126-131 | a text cannot be read iff some opening has no closing anywhere after it |
| Templates.ParseSegments | internal/composition/template.go:109-155 | the loop returns the trimmed expressions and literals in order, and fails iff the text cannot be read or an expression does not compile |
| Templates.SegmentsAre | internal/composition/template.go:116-151 | the segments are the pieces of the text in order, literals as they stand and expressions without the spaces around them |
| Templates.DepsAreTheStepsRead | internal/composition/template.go:60-70 | a template's dependencies are exactly the steps its expressions read, each once |
| Templates.SingleIffHole | internal/composition/template.go:72-86 | one expression and no text in literals means that the text is one expression with nothing around it |
| Templates.CompileTemplate | internal/composition/template.go:53-94 | the compiled template: the segments of the text, as dependencies exactly the steps its expressions read, and single iff the text is one expression between its delimiters with nothing around it |
| Templates.EvalString | internal/composition/template.go:157-198 | one part for each segment in order: a literal as it is, a value as it shows, escaped for a path or a query or as JSON by mode; None iff an expression errs or has no JSON where that is asked for |
| Templates.EvalValue | internal/composition/template.go:200-220 | of a single template the expression's own value, otherwise the text |
| Templates.TemplateErrsIff | internal/composition/template.go:157-220 | evaluation errs iff one of the expressions does, single or not |
| Templates.FilledOfSum | internal/composition/template.go:167-198 | rendering distributes over concatenation of segments |
| ResponseBody.CompileBodyNode | internal/composition/parser.go:428-465 | compiles exactly the bodies all of whose templates compile, to the tree of the same shape |
| ResponseBody.CompilationFailsIff | internal/composition/parser.go:428-465 | a body fails to compile iff a template at some path of it does |
| ResponseBody.EvaluateBodyNode | internal/composition/response.go:74-121 | the recursion with its loops over maps and lists computes the evaluation of the tree |
| ResponseBody.FillingIs | internal/composition/response.go:74-93 | a template gives its value or text; when it errs and a step it reads failed, nil if it is single and the empty string if not; otherwise an error |
| ResponseBody.HasFailedDep | internal/composition/response.go:123-131 | whether one of the dependencies failed |
| ResponseBody.CompiledIsSound | internal/composition/parser.go:428-465 | every compiled tree meets what evaluation asks of single templates |
| ResponseBody.TemplateFreeIsItself | internal/composition/response.go:74-121 | a body without templates, of any depth, compiles and evaluates to itself |
| ResponseBody.EvaluatedAt | internal/composition/response.go:74-121 | at every path the result holds what the part of the body at that path evaluates to |
| ResponseBody.EvaluationErrsIff | internal/composition/response.go:82-131 | evaluation errs iff some template of the body errs and none of the steps it reads failed |
| ResponseBody.BuildResponse | internal/composition/response.go:29-72 | the status template's number, else the fixed status, else 200; the evaluated body; the step errors under _errors iff there are some and the body is an object; an error iff the status gives no number or the body errs |
| ResponseBody.StatusIsNotNilSafe | internal/composition/response.go:40-55 | a status template that errs fails the response even where a body template would be excused by a failed step |

## Left out

- HTTP transport, TLS, servers, shutdown, metrics, tracing, logging and step timings: input and output, not decisions.
- The expression language, JSON and YAML notation, URL escaping, SHA-256 and singleflight: parameters of the model. Expressions compile or not and evaluate to a value or an error, YAML is a notation for maps, the hash has no collisions, and singleflight has one leader for each key whose result the others share.
- The circuit breaker, rate limiting, authentication, roles and redaction: library code around a thin wrapper.
- Expressions that name a step dynamically, and steps that share a request key with incompatible ends of their own: the executor's theorems assume that what a step gets depends only on the entries of the steps it waits for (`WaveMachine.LocalSend`). `Sharing.AlwaysOwnIff` says exactly which steps keep to that when responses are shared.
- Goroutines: each section under the mutex is one atomic step; data races inside a section are outside the model.
- Contexts and cancellation in Execute: an aborted wave still waits for its goroutines, so no result depends on when they stop.
- Database isolation: one SQL statement, and the whole of replaceDraft and of storeUsage, is atomic. The two reads of latestVersion are one, since a row never changes.
- Validation before a save or a publish (checkResource, validateArtifact): it only refuses; what it guarantees is a hypothesis of the artifact round trip (`Artifact.GoodDraft`).
- serveArtifact's answer for one immutable version, and the manual poll trigger: they do not touch the gateway's state.
- Durations and latencies are mathematical integers or reals: overflow and floating-point rounding are not modelled.
- Accumulator.ToBucket: percentiles and means of a bucket are rounded numbers and not part of its contract; the histogram is.
- The per-upstream totals of the usage page: easy sums beside the histogram.
- RequestSampler.SamplesAreAccounted: assumes that pushes do not overlap, as those of the loop; `RequestSampler.OverlapDefeatsTheBooks` shows that it has to.
- Usage.UsagePusher.Push: one push at a time; the push at shutdown may overlap the loop's and change its pending buckets without a lock.
- Drafts.DraftTable.SaveResource: answers with the row as its write left it. The source reads the row again in a second statement, so its answer may already be a later save's, or say that the resource is missing.
- StepDelivery.IsCacheable: lower case is that of ASCII.
- Accumulator buckets and header maps are values that methods replace, so aliasing of one bucket by two compositions is not expressible.
- ResponseBody.BuildResponse: returns a new body with _errors. The source writes into the map it has evaluated, which for a body that is a lone expression such as a step's body is the step's own map; joiners of a flight share that map, so one request's errors can show in another's response.
- The library's sort is modelled by insertion into a sorted sequence: same result, another algorithm.
- Error texts: an error carries what caused it, not its wording.
- The React interface, apart from the edits and pure functions of the step graph.
