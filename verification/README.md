# AgentABI: a verified model

AgentABI decides whether a change to an agent component is safe to release. It diffs component
schemas, walks the dependency graph, records agent runs, replays them against a candidate version,
compares the replays, scores the risk and publishes a check on the pull request. This project models
those engines in Dafny and proves what they promise.

| part | files |
|---|---|
| Schema compatibility: normalizer, differ, verdict tables, TOOL and SCHEMA analyzers | `SchemaModel`, `SchemaRules`, `SchemaDiff`, `SchemaDiffFacts`, `SchemaNormalizer`, `SchemaSemantics`, `SchemaSoundness`, `SchemaFlowGuard`, `SchemaFlowExactness`, `SchemaExactness`, `SchemaVerdicts`, `SchemaReordering`, `SchemaDuality`, `SchemaLocations`, `SchemaBreakage`, `CompatibilityAnalyzer` |
| Blast radius: bounded breadth-first search | `BlastRadius`, `BlastRadiusExactness`, `BlastRadiusStability` |
| Recording: one trajectory row, many sessions | `TrajectoryStore`, `TrajectoryRuns` |
| Replay: planner, executor, concurrent callers, the whole pipeline | `ReplayModel`, `ReplayPlanner`, `ReplayExecution`, `ReplayRuns`, `ReplayPipeline` |
| Comparison: aligner, value differ, summary | `Alignment`, `AlignmentFacts`, `AlignmentRun`, `AlignmentTheorems`, `AlignmentOrder`, `AlignmentSymmetry`, `ValueDiff`, `ValueDiffFacts`, `ValueDiffLocations`, `ValueDiffExactness`, `ValueDiffDuality`, `Differential`, `DifferentialFacts` |
| Gates: risk engine and its end-to-end consequences, rate limiter, pull-request analysis, message consumer | `Risk`, `ReleaseGate`, `RateLimit`, `PullRequestAnalysis`, `KafkaConsumer` |
| Orders, sorting, counting, JSON values | `Ordering`, `JsonValues`, `Options` |

How the parts are stated:

- Code that loops or updates state is a method or a class here, proved equal to a reference function;
  the theorems are about that function.
- Schemas have a meaning. A value *conforms* to a schema by the type, enum, required and bound keywords
  of JSON Schema Validation draft 2020-12 (sections 6.1 to 6.5) and by `properties` and `items`
  (section 10.3 of JSON Schema Core). A schema *emits* the conforming values that carry only declared
  keys and *accepts* the conforming ones with unknown keys ignored.
- Concurrency is interleaving: each database statement is one step of one session, a conditional UPDATE
  is atomic, and the row lock it takes is held until commit or rollback. Runs are arbitrary lists of
  moves, so a statement over runs covers every schedule and every crash.
- The event hash is injective on the fields it covers; generated identifiers never repeat.

Where the code and its own descriptions disagree, the model follows the code:

- `backend/app/compatibility/rules.py:29-34` calls NEUTRAL never the more lenient reading; see
  `SchemaRules.NeutralIsStrictestExactly`.
- A COMPATIBLE verdict alone does not make values flow: an `enum`, a `type` or an undeclared `required`
  name that only the consumer has is not held against it. `SchemaFlowExactness.TypeGap`,
  `RequiredGap` and `EnumGap` are failing inputs; `SchemaFlowExactness.CompatibleFlowsExactly` says exactly
  when values do flow.
- `backend/app/services/trajectory_recorder.py:348-362` does not make an append idempotent when it loses
  the insert race; see `TrajectoryRuns.RaceLoserRejected`, `IdenticalRaceRejected` and, for the exact
  condition, `RetryReturnsExactly`.
- `backend/app/replay/planner.py:11-16` describes pairing with the next response in sequence; the code
  pairs by string invocation id only; see `ReplayPlanner.NextResponseIsNotPaired`.
- `backend/app/core/rate_limit.py:75` truncates, so on a fractional clock the hint can end inside the
  current window; see `RateLimit.HintFallsShort` and, for the exact condition, `RateLimit.RetryLands`.
- `backend/app/risk/models.py:80-83` describes the latency evidence as the largest positive delta; the
  code takes the largest delta of either sign (`ReleaseGate.FasterRunIsRead`). `ReleaseGate.MaxLatencyExactly`
  says when they differ and
  `ReleaseGate.LatencyRuleUnaffected` that no decision depends on it.
- A crash between `backend/app/services/github_pr_analysis_service.py:407` and `:409` leaves a COMPLETED
  row whose check is never published (`PullRequestAnalysis.SomeVerdictIsLost`);
  `PullRequestAnalysis.VerdictLostExactly` shows that nothing else does.
- The value differ does not tell equal-valued booleans, integers and floats apart under a sensitive key;
  see `ValueDiffExactness.DiffDecidesEqualityExactly`.
- A message that exhausts its attempts is committed even when its dead letter could not be published; see
  `KafkaConsumer.KafkaEventConsumer.ProcessOne`.

## Model

| member | source | states |
|---|---|---|
| SchemaDiff.DiffSchemas | backend/app/compatibility/diff.py:90-165 | The recursive differ, run with its growing change lists, returns exactly the change list of the reference definition `DiffAt`, depth bound and opaque (boolean) schemas included. |
| SchemaDiff.NodeChanges | backend/app/compatibility/diff.py:129-156 | The own changes of a node: type, nullability, enum, constraints, in that order. |
| SchemaDiff.EnumChanges | backend/app/compatibility/diff.py:269-300 | Removed values, added values and the one-sided narrowing, over the enums as sets. |
| SchemaDiff.ConstraintChanges | backend/app/compatibility/diff.py:303-328 | One change per constraint key whose values differ, with the direction of tightening. |
| SchemaDiff.PropertyChanges | backend/app/compatibility/diff.py:168-220 | Added, removed and shared properties in name order, requiredness flips, recursion into shared ones. |
| SchemaDiff.ItemChanges | backend/app/compatibility/diff.py:223-266 | Items added or removed, or the nested changes with the item node's own TYPE_CHANGED relabelled. |
| SchemaRules.DeriveStatus | backend/app/compatibility/rules.py:196-204 | COMPATIBLE exactly when every change is compatible, BREAKING exactly when some change is breaking. |
| SchemaRules.NeutralIsStrictestExactly | backend/app/compatibility/rules.py:27-178 | The comment that NEUTRAL is never more lenient than a known direction holds for three types of the directional table, for the two generic types (one verdict for all directions) and for constraint changes of unknown direction; in every other case some direction is strictly harsher. |
| SchemaRules.SeverityExactly | backend/app/compatibility/rules.py:27-178 | How severity follows classification in every direction: breaking is HIGH, and CRITICAL only for a required field added to an input; which warnings and which compatible changes are LOW. |
| SchemaNormalizer.CollapseDuplicates | backend/app/compatibility/schema_normalizer.py:62-69 | The seen-list loop keeps every value once, in the order of first occurrence. |
| SchemaNormalizer.DedupeInOrder | backend/app/compatibility/schema_normalizer.py:62-69 | Every beginning of the list is held, as a set, by a beginning of the result. |
| SchemaNormalizer.NormalizedFits | backend/app/compatibility/schema_normalizer.py:28-73 | A schema that normalizes has every node at depth 64 or less. |
| SchemaNormalizer.NormalizeKeepsMeaning | backend/app/compatibility/schema_normalizer.py:40-73 | A JSON value conforms to a schema if and only if it conforms to the normalized schema, with unknown keys allowed or not. |
| SchemaLocations.DepthExactly | backend/app/compatibility/schema_normalizer.py:28-73 | Normalization fails if and only if some route of properties and items leads to a value nested deeper than 64. |
| SchemaSemantics.FlowsSound | backend/app/compatibility/diff.py:90-165 | Structural flow between two schemas implies that every value the first emits the second accepts, at any nesting. |
| SchemaSoundness.CompatibleFlows | backend/app/compatibility/rules.py:35-72 | A diff with only COMPATIBLE changes implies structural flow from producer to consumer, for INPUT and OUTPUT at once, under keyword-presence guards a caller can check. |
| SchemaFlowExactness.GuardedValueFlows | backend/app/compatibility/rules.py:35-72 | For every producer and any bounds: under a compatible diff and the guard on kinds, enums and required names at the nodes whose values travel, every emitted value is accepted. |
| SchemaFlowGuard.EmittedIsPossible | backend/app/compatibility/diff.py:129-266 | Whatever a producer emits, its keywords show it: the kind is sent, and an object holds only names with room and leaves out only names the ranges let it omit. |
| SchemaFlowExactness.CompatibleFlowsExactly | backend/app/compatibility/diff.py:129-220 | For every producer whose bounds are ranges of numbers, lengths or counts, whatever its types, enums, required names and nesting, a compatible diff keeps every value flowing if and only if that guard holds. |
| SchemaFlowExactness.TypeGap | backend/app/compatibility/diff.py:129-138 | A failing input: a type only the consumer has yields no change at all in either direction, and shuts out a boolean. |
| SchemaFlowExactness.RequiredGap | backend/app/compatibility/diff.py:168-220 | A failing input: a required name the consumer does not declare yields no change, and shuts out the empty object. |
| SchemaFlowExactness.EnumGap | backend/app/compatibility/diff.py:269-300 | A failing input: an enum only the consumer has yields compatible changes only, and shuts out a boolean. |
| SchemaFlowExactness.UntypedProducerExact | backend/app/compatibility/diff.py:129-220 | For producers untyped and unbounded throughout, the empty schema and its nestings, the structural guard is exact too. |
| SchemaExactness.DiffExact | backend/app/compatibility/diff.py:105-165 | For schemas within the depth bound the diff is empty if and only if they agree on every modelled keyword at every depth. |
| SchemaExactness.NothingTruncated | backend/app/compatibility/diff.py:111-119 | For schemas within the depth bound no reported change is the truncation change: that branch is unreachable. |
| SchemaVerdicts.DiffWellClassified | backend/app/compatibility/rules.py:129-178 | Every reported change, relabelled ones included, carries the verdict of the tables for its final type and direction. |
| SchemaVerdicts.NeutralStatus | backend/app/compatibility/rules.py:38-71 | A NEUTRAL diff rolls up to COMPATIBLE if and only if the schemas agree. |
| SchemaVerdicts.CriticalExactly | backend/app/compatibility/rules.py:42-45 | A diff holds a CRITICAL change if and only if its direction is INPUT and some node both schemas share gains a required declared property. |
| SchemaReordering.ReorderingIsNoChange | backend/app/compatibility/schema_normalizer.py:44-69 | Permuting or repeating entries of `required`, `type` and `enum` lists at any depth yields no change in any direction. |
| SchemaDuality.DirectionOnlyDecidesVerdicts | backend/app/compatibility/diff.py:168-328 | The list of types, paths, values and evidence does not depend on the direction; only verdicts do. |
| SchemaDuality.SwapDuality | backend/app/compatibility/diff.py:168-328 | Diffing the other way round gives, as a multiset, the mirrored changes: added/removed, nullable/non-nullable, tightened/loosened and old/new exchanged, the one-sided ENUM_NARROWED apart. |
| SchemaDuality.NarrowingIsOneSided | backend/app/compatibility/diff.py:290-300 | ENUM_NARROWED is the only change without a mirror. |
| SchemaDuality.ChangesSitBelow | backend/app/compatibility/diff.py:240-266 | Changes of a subtree sit at its path or strictly below, and those at the path are the node's own, so item relabelling touches only the item node's TYPE_CHANGED. |
| SchemaLocations.FindingsAreLocated | backend/app/compatibility/diff.py:90-328 | The location theorem: a diff reports a finding (type, path, old value, new value, evidence) if and only if some shared route spells that path, `".properties." + name` and `"[]"` hop by hop, and the two subschemas there show that very difference, the old value being the baseline's. |
| SchemaBreakage.ReadingsNormalized | backend/app/compatibility/diff.py:65-87 | The type the differ compares on a normalized node is the published type without "null", in ascending order; and it reads as nullable exactly when the published node has "null" beside another type or a truthy `nullable`. |
| SchemaBreakage.DiffBreaksExactly | backend/app/compatibility/rules.py:27-178 | The diff of two documents holds a breaking change if and only if, at some subschema both published documents share, they break: another type, `items` on one side only, differing opaque schemas; for INPUT also a lost nullability, a lost enum value, a property that becomes required; for OUTPUT an optional property that disappears. Likewise for potentially breaking changes, direction by direction. |
| CompatibilityAnalyzer.AnalyzeTool | backend/app/compatibility/analyzer.py:59-87 | The TOOL analyzer with its growing list gives the sorted, rolled-up scan of both schemas and the description; no scan when normalization fails. |
| CompatibilityAnalyzer.AnalyzeSchema | backend/app/compatibility/analyzer.py:42-56 | The SCHEMA analyzer likewise, in the NEUTRAL direction with the format. |
| CompatibilityAnalyzer.ToolStatusExactly | backend/app/compatibility/analyzer.py:59-87 | The status of a tool scan, read off the two published tools: BREAKING if and only if a subschema both input schemas share breaks for callers or one both output schemas share breaks for consumers; COMPATIBLE if and only if nothing breaks and nothing warns. |
| CompatibilityAnalyzer.ToolFindingsExactly | backend/app/compatibility/analyzer.py:59-87 | A tool scan lists exactly the located differences of its input and its output schemas, and the description's. |
| CompatibilityAnalyzer.SchemaStatusExactly | backend/app/compatibility/analyzer.py:42-56 | The status of a schema scan, read off the two published definitions and the format. |
| CompatibilityAnalyzer.SortChanges | backend/app/compatibility/diff.py:387-391 | Sorting permutes the changes into the order of path, change type, classification. |
| CompatibilityAnalyzer.ScanOrder | backend/app/compatibility/diff.py:387-391 | The order of a scan spelled out: by path, character by character; on one path by the alphabet of the type names; then breaking before compatible before potentially breaking. |
| CompatibilityAnalyzer.CompatibleToolIsSafe | backend/app/compatibility/analyzer.py:21-87 | A COMPATIBLE tool scan is safe at once for callers (old inputs still accepted) and for consumers (new outputs still accepted). |
| CompatibilityAnalyzer.CompatibleToolExactly | backend/app/compatibility/analyzer.py:59-87 | When the producing schemas are bounded by ranges only, a COMPATIBLE tool scan is safe for callers if and only if the input guard holds, and for consumers if and only if the output guard holds. |
| CompatibilityAnalyzer.CriticalToolExactly | backend/app/compatibility/analyzer.py:59-87 | A tool scan has a CRITICAL change if and only if some node shared by the two raw input schemas gains a required declared property. |
| CompatibilityAnalyzer.CompatibleSchemaExactly | backend/app/compatibility/analyzer.py:42-56 | A schema scan is COMPATIBLE if and only if the normalized schemas agree and the format is unchanged. |
| BlastRadius.Compute | backend/app/services/blast_radius.py:61-130 | Depth validation, missing root, and a queue search equal to the reference search, with direct entries and type buckets. |
| BlastRadius.Expand | backend/app/services/blast_radius.py:96-115 | The inner loop over dependents in ascending id order, skipping visited ones. |
| BlastRadius.GroupByType | backend/app/services/blast_radius.py:118-121 | The dictionary of lists holds exactly the entries of each occurring type, order kept. |
| BlastRadiusExactness.EntriesAreShortest | backend/app/services/blast_radius.py:78-115 | Every entry is a dependent other than the root at its true shortest distance within the bound, with a real chain of that length as its path, on any finite graph, cycles and parallel edges included. |
| BlastRadiusExactness.EntriesAreComplete | backend/app/services/blast_radius.py:78-115 | A component is listed if and only if it is not the root and some chain within the bound leads to it. |
| BlastRadiusExactness.EntriesAreDistinct | backend/app/services/blast_radius.py:82-115 | No component is listed twice and entries come in order of distance. |
| BlastRadiusExactness.DirectExactly | backend/app/services/blast_radius.py:117 | A listed entry counts as direct if and only if the root has an edge to it. |
| BlastRadiusExactness.EntriesNameEdges | backend/app/services/blast_radius.py:100-114 | An entry shows the type, name and slug of an edge leading to it from its predecessor on its path. |
| BlastRadiusStability.DeeperExtends | backend/app/services/blast_radius.py:87-91 | The entries for one depth bound are a prefix of those for any larger bound. |
| BlastRadiusStability.ListOrderDoesNotMatter | backend/app/services/blast_radius.py:92-97 | Permuting the repository's edge lists changes nothing. |
| BlastRadiusStability.BucketsPartition | backend/app/services/blast_radius.py:117-129 | The type buckets partition the entries, multiplicities included. |
| TrajectoryStore.Recorder.AllocateSequence | backend/app/repositories/trajectory_repository.py:147-173 | The conditional counter update: a running row gives the next number and takes the lock, any other row gives nothing. |
| TrajectoryStore.Recorder.TransitionStatus | backend/app/repositories/trajectory_repository.py:175-195 | The conditional status update applies exactly when the row still has the expected status. |
| TrajectoryStore.Recorder.AddEvent | backend/alembic/versions/0004_trajectories.py:219-237 | Inserting fails exactly when a unique index of the events table is violated. |
| TrajectoryStore.Recorder.AppendEvent | backend/app/services/trajectory_recorder.py:235-363 | An undisturbed append: unknown parent, duplicate returned or rejected, terminal refusal, or one new event with the next number; the row stays consistent. |
| TrajectoryStore.AppendAloneExactly | backend/app/services/trajectory_recorder.py:271-363 | How an undisturbed append ends, in terms of the recorded events: refused as UnknownParent if and only if a parent is named and no recorded event has its id, returned or rejected by external id and content, refused on a closed trajectory, recorded otherwise, with every field of the new event. |
| TrajectoryStore.Recorder.Finish | backend/app/services/trajectory_recorder.py:413-447 | An undisturbed completion or failure succeeds exactly from RUNNING and changes only the status. |
| TrajectoryStore.NothingViolated | backend/app/services/trajectory_recorder.py:348-352 | With a number just allocated, the only index an insert can violate is the external identifier's. |
| TrajectoryStore.Ancestors | backend/app/services/trajectory_recorder.py:271-276 | Parent links lead to strictly smaller sequence numbers, so an ancestor walk ends after fewer steps than the event's number. |
| TrajectoryRuns.RunKeepsInv | backend/app/services/trajectory_recorder.py:235-437 | Over every interleaving of appenders, completers and crashes the invariant holds, committed events only grow at the end, and a terminal trajectory never changes again. |
| TrajectoryRuns.EveryRunIsSound | backend/app/services/trajectory_recorder.py:235-363 | In every reachable state sequence numbers are exactly 1..next_sequence, external identifiers unique, parents earlier, digests right, and every answer given is true of the committed row. |
| TrajectoryRuns.ParentCheckExactly | backend/app/services/trajectory_recorder.py:271-276 | The parent check refuses a call if and only if a parent is named and no event committed at that statement carries its id. |
| TrajectoryRuns.UnknownParentExactly | backend/app/services/trajectory_recorder.py:271-276 | Over every interleaving: a call ends as UnknownParent if and only if, when it checked, a parent was named and no committed event carried its id. |
| TrajectoryRuns.RetryFindsEarlierEvent | backend/app/services/trajectory_recorder.py:296-310 | A retry of a committed event never waits, writes or consumes a number; after two of its statements it returns that very event if the content agrees and is rejected otherwise, whatever the others do. |
| TrajectoryRuns.PastCheckNeverReturns | backend/app/services/trajectory_recorder.py:312-363 | Once past its duplicate check a call never gets the earlier event back, identical or not. |
| TrajectoryRuns.RetryReturnsExactly | backend/app/services/trajectory_recorder.py:296-363 | A call about to check ends by returning an earlier event if and only if one with its external identifier and content is committed at that moment. |
| TrajectoryRuns.RaceLoserRejected | backend/app/services/trajectory_recorder.py:348-362 | In every reachable state, whoever has lost the insert race is answered that its data conflicts, because it compares a hash built with its own number. |
| TrajectoryRuns.IdenticalRaceRejected | backend/app/services/trajectory_recorder.py:296-363 | A failing schedule: an identical append recorded between another call's duplicate check and its insert gets that call rejected. |
| TrajectoryRuns.AloneIsARun | backend/app/services/trajectory_recorder.py:235-363 | The uninterrupted append is one of the interleaved runs. |
| TrajectoryRuns.CloseIsARun | backend/app/services/trajectory_recorder.py:413-447 | So is the uninterrupted completion or failure. |
| ReplayPlanner.BuildReplayPlan | backend/app/replay/planner.py:49-110 | The scan with its set of substituted invocation ids gives the plan defined event by event, and an error exactly when nothing invokes the replaced version. |
| ReplayPlanner.ClassifyEvent | backend/app/replay/planner.py:60-89 | One iteration: the event's classification and the updated id set. |
| ReplayPlanner.PlanCovers | backend/app/replay/planner.py:56-104 | One step per event, in sequence order, each naming its own event. |
| ReplayPlanner.PlanIgnoresInsertionOrder | backend/app/replay/planner.py:56 | Handing the same events over in another order gives the same plan. |
| ReplayPlanner.StepKinds | backend/app/replay/planner.py:60-89 | A step is executed exactly when it invokes the replaced version and skipped exactly when it answers, by string invocation id, an earlier substituted invocation; which version runs it follows. |
| ReplayPlanner.PlanStepExactly | backend/app/replay/planner.py:58-103 | What a plan does with each event, type by type, an earlier invocation sharing its id spelled out; each step keeps its event's number, type, component, input and output. |
| ReplayPlanner.NextResponseIsNotPaired | backend/app/replay/planner.py:70-76 | Against the module description, for tool, MCP and API events in any trajectory: the next response to a substituted request is skipped exactly when its string invocation id is that of some substituted invocation before it. |
| ReplayPlanner.SomeNextResponseIsReused | backend/app/replay/planner.py:11-16 | For every protocol, a next response without a string invocation id stays reused evidence. |
| ReplayExecution.RunPlan | backend/app/services/replay_service.py:273-364 | The executor loop with its early exits records everything up to the first stop and ends with the status and result of the reference conclusion; every substituted step recorded shows its own executor's answer. |
| ReplayExecution.ReplayRun.Execute | backend/app/services/replay_service.py:258-366 | Only a PENDING run executes; its row becomes the conclusion of its plan, any other row is untouched. |
| ReplayExecution.ReplayRun.TransitionStatus | backend/app/repositories/replay_repository.py:129-159 | The conditional update applies exactly when the row has the expected status. |
| ReplayExecution.ConclusionConcludes | backend/app/services/replay_service.py:273-364 | A concluded run records a prefix of the plan in order, only its last step can be FAILED, and it is COMPLETED if and only if the whole plan is recorded and nothing failed. |
| ReplayExecution.ConclusionShowsAttempts | backend/app/services/replay_service.py:321-340 | Every substituted step recorded shows its own executor's output, error and duration, and is EXECUTED if and only if the executor reported it executed; the step of the first stop is kept if and only if its executor answered. |
| ReplayExecution.StoredPlanIsSorted | backend/app/services/replay_service.py:274 | Sorting a stored plan again before executing it changes nothing. |
| ReplayRuns.EveryRunConcludes | backend/app/services/replay_service.py:258-366 | For every plan, executor behaviour, number of concurrent callers, interleaving and crash: a committed run is untouched or concluded, never RUNNING; over the whole history at most one caller took it out of PENDING, and only that caller was told it executed the run. |
| ReplayRuns.StepsShowSuppliedAnswers | backend/app/services/replay_service.py:321-340 | Over every interleaving and crash: all substituted steps of the committed run show answers that moves of one single caller supplied, field by field. |
| ReplayRuns.TerminalAbsorbs | backend/app/replay/transitions.py:8-21 | A COMPLETED or FAILED run never changes, over any continuation. |
| ReplayRuns.ExecutionIsARun | backend/app/services/replay_service.py:258-366 | What the executor leaves when it runs alone is committed by one of the interleaved runs. |
| ReplayPipeline.CompletedReplaysAlign | backend/app/services/replay_service.py:117-155 | End to end: two COMPLETED replays of one COMPLETED trajectory, created at any two moments and run under any interleaving, align one to one by source event with nothing added or removed. |
| ReplayPipeline.SomePipelineCompletes | backend/app/services/replay_service.py:117-366 | The end-to-end statement is not empty: any invocation of the replaced version, tool, MCP or API, has a history that records it and completes its replay. |
| AlignmentRun.Index | backend/app/differential/alignment.py:89-97 | First-seen-wins index of steps by key. |
| AlignmentRun.GroupByComponent | backend/app/differential/alignment.py:100-108 | Steps grouped by non-null component in sequence order. |
| AlignmentRun.KeyPass | backend/app/differential/alignment.py:47-65 | A pass by key: the pairs, and the dictionaries after deleting them; no deletion meets a missing key. |
| AlignmentRun.ComponentPass | backend/app/differential/alignment.py:67-78 | The component pass with its zipped groups, likewise. |
| AlignmentRun.ReportUnmatched | backend/app/differential/alignment.py:80-84 | The leftovers of both sides, in order. |
| AlignmentRun.AlignSteps | backend/app/differential/alignment.py:42-86 | The four passes and the sort give the reference alignment. |
| AlignmentTheorems.AlignmentPartitions | backend/app/differential/alignment.py:42-86 | Every baseline step and every candidate step occurs in exactly one pair. |
| AlignmentTheorems.AlignmentJustified | backend/app/differential/alignment.py:47-84 | Every pair is justified by its method: joined steps share the key, an unmatched pair has exactly one side, no pair is empty. |
| AlignmentTheorems.AlignmentSorted | backend/app/differential/alignment.py:31-39 | Pairs come sorted by the sort key: baseline sequence first, then candidate-only ones. |
| AlignmentTheorems.AlignmentInReportOrder | backend/app/differential/alignment.py:31-39 | That order spelled out: a pair with a baseline step comes before one without, by its sequence number, and the candidate-only ones follow by theirs. |
| AlignmentTheorems.AlignmentIsMaximal | backend/app/differential/alignment.py:42-86 | No two leftovers share a non-null component, nor, with unique keys per side, an event or a sequence number. |
| AlignmentOrder.ComponentPairsInOrder | backend/app/differential/alignment.py:67-78 | Two pairs of one component never cross: the earlier baseline step goes with the earlier candidate step. |
| AlignmentOrder.LeftoversComeLater | backend/app/differential/alignment.py:67-84 | What stays over of a component is never earlier than what was paired of it, on either side. |
| AlignmentSymmetry.SameEventsAlignOneToOne | backend/app/differential/alignment.py:47-55 | Runs over the same unique source events align one to one. |
| AlignmentSymmetry.SelfAlignment | backend/app/differential/alignment.py:47-55 | A run compared with itself pairs every step with itself. |
| AlignmentSymmetry.AlignmentSwaps | backend/app/differential/alignment.py:42-86 | Swapping the runs mirrors the pairs as a multiset. |
| ValueDiff.DiffValues | backend/app/differential/value_diff.py:18-47 | The recursive comparison gives the reference difference list. |
| ValueDiff.DiffDict | backend/app/differential/value_diff.py:50-76 | Removed, added and shared keys in order; sensitive keys compared but not descended into. |
| ValueDiff.DiffList | backend/app/differential/value_diff.py:79-90 | Common positions, then the surplus of either list. |
| ValueDiffLocations.DifferenceExactly | backend/app/differential/value_diff.py:18-116 | The location theorem: a difference is reported at a path if and only if the two values found there, or the absence of one of them, make it due: FieldRemoved exactly where the baseline has a value and the candidate none between containers compared member by member, FieldAdded the other way round, TypeDiffers, and a value difference, redacted exactly under a sensitive key; nothing below a sensitive key or deeper than 64. |
| ValueDiffFacts.DiffComplete | backend/app/differential/value_diff.py:18-90 | With one side nested at most 64 deep, no difference is reported if and only if the values are the same, missing keys and nulls kept apart, sensitive keys compared by plain equality. |
| ValueDiffFacts.SameIsEqual | backend/app/differential/value_diff.py:27-47 | Without sensitive keys that sameness is equality of JSON values, scalar types included. |
| ValueDiffExactness.DiffDecidesEqualityExactly | backend/app/differential/value_diff.py:18-90 | For a value nested at most 64 deep, an empty difference list means equality, whatever the other value, if and only if under its sensitive keys sit no boolean, no integral float and no integer that some float or boolean equals. |
| ValueDiffFacts.SensitiveNumberGap | backend/app/differential/value_diff.py:64-75 | A failing input: under a sensitive key an integer may become the equal float unnoticed. |
| ValueDiffFacts.SelfDiffEmpty | backend/app/differential/value_diff.py:18-90 | A value never differs from itself, at any nesting. |
| ValueDiffDuality.DiffMirrors | backend/app/differential/value_diff.py:18-90 | Swapping the sides reports the same differences, each as often, with added and removed exchanged. |
| ValueDiffDuality.DiffSymmetric | backend/app/differential/value_diff.py:18-90 | The same, one difference at a time. |
| Differential.ComparePair | backend/app/differential/analyzer.py:41-101 | One record per pair, with its types in detection order. |
| Differential.Summarize | backend/app/differential/analyzer.py:165-202 | The counting loop gives the counts of matched, added, removed, changed, failing, resolved, output-changed and schema-changed records. |
| Differential.Analyze | backend/app/differential/analyzer.py:28-38 | Align, compare, summarize. |
| DifferentialFacts.Conservation | backend/app/differential/analyzer.py:165-202 | matched + removed = baseline steps and matched + added = candidate steps. |
| DifferentialFacts.CountersAreOrdered | backend/app/differential/analyzer.py:165-202 | schema changes <= changed outputs <= changed <= matched; failures new and resolved are changes. |
| DifferentialFacts.NewFailuresExactly | backend/app/differential/analyzer.py:104-134 | The failure counter counts exactly the aligned pairs that go from no error to an error. |
| DifferentialFacts.TypesMembers | backend/app/differential/analyzer.py:63-101 | Exactly when a matched pair carries each difference type. |
| DifferentialFacts.FieldsExactly | backend/app/differential/analyzer.py:63-101 | The field differences of a matched pair are exactly the ones due between the two inputs and between the two outputs. |
| DifferentialFacts.SchemaChangesExactly | backend/app/differential/analyzer.py:165-202 | The schema-change counter counts the matched pairs whose output at some route has another type, loses a value or gains one. |
| DifferentialFacts.ErrorTypesExactly | backend/app/differential/analyzer.py:104-134 | A matched pair is reported as introducing, resolving or changing an error exactly by which sides have one, and by their categories when both do; the record says on which sides an error stands. |
| DifferentialFacts.LatencyExactly | backend/app/differential/analyzer.py:150-162 | A latency difference keeps both durations; its delta is positive if and only if the candidate was slower, and its percentage is of the baseline's duration. |
| DifferentialFacts.SelfAnalysis | backend/app/differential/analyzer.py:28-202 | A run compared with itself: everything matched, nothing reported, all counters of change zero. |
| DifferentialFacts.SummarySwaps | backend/app/differential/analyzer.py:28-202 | Swapping the runs exchanges added with removed and new with resolved failures and keeps the rest. |
| Risk.Evaluate | backend/app/risk/engine.py:45-87 | The loop over categories: triggered rules in order, contributions, capped sum; its score equals the closed form, its decision and hard block follow. |
| Risk.RulesWorthEvidence | backend/app/risk/rules.py:30-180 | The rules that fire in a category are worth exactly the points of the evidence in it. |
| Risk.HardBlocksFire | backend/app/risk/rules.py:198-253 | A hard-block rule fires exactly when there is a CRITICAL change or a new failure. |
| Risk.RiskIsMonotone | backend/app/risk/engine.py:35-87 | Enlarging any evidence field, no signal least, never lowers the score, lifts a hard block or softens PASS < WARN < BLOCK; scores stay in 0..100. |
| Risk.CapsThatBind | backend/app/risk/rules.py:187-193 | Only the differential cap can bind, exactly when a removed required step, a schema change and an introduced error come together. |
| Risk.RulesExactly | backend/app/risk/rules.py:30-253 | The rules an assessment lists: each of the ten if and only if its own evidence is there, thresholds spelled out, in the order of the rule set. |
| Risk.ContributionsExactly | backend/app/risk/rules.py:187-193 | The five contributions in order, each the worth of its evidence under its own cap. |
| Risk.NoEvidencePasses | backend/app/risk/engine.py:45-53 | The score is 0 exactly when no scoring evidence is present. |
| Risk.DecisionBands | backend/app/risk/engine.py:35-42 | A hard block decides alone; otherwise scores up to 29 pass, 30 to 69 warn, 70 and more block. |
| ReleaseGate.HardBlockExactly | backend/app/services/risk_service.py:220-280 | End to end: an assessment is hard-blocked, hence BLOCK, if and only if some shared input-schema node gains a required declared property or some aligned pair goes from no error to an error. |
| ReleaseGate.FlagsMeanSteps | backend/app/services/risk_service.py:246-261 | What the report flags mean step by step, and that the error flag agrees with the failure counter. |
| ReleaseGate.LatencyRuleExactly | backend/app/risk/rules.py:154-165 | End to end: the latency rule fires if and only if some aligned pair is timed on both sides, with a positive baseline duration, and the candidate took at least half as long again. |
| ReleaseGate.ReleaseScoreExactly | backend/app/services/risk_service.py:220-280 | End to end: the score of a release from its published tools, the aligned pairs of its two replays and its blast radius alone, rule by rule with every number. |
| ReleaseGate.MaxLatencyExactly | backend/app/services/risk_service.py:258-261 | The collected delta differs from the largest positive one exactly when deltas were measured and none is positive. |
| ReleaseGate.FasterRunIsRead | backend/app/services/risk_service.py:258-261 | A failing input: a run that only got faster gives a negative delta where the description has none. |
| ReleaseGate.LatencyRuleUnaffected | backend/app/risk/rules.py:154-165 | The latency rule fires alike on either. |
| ReleaseGate.SelfComparisonAddsNothing | backend/app/services/risk_service.py:238-280 | Comparing a run with itself leaves the assessment of the scan alone. |
| ReleaseGate.SameTrajectoryRemovesNothing | backend/app/services/risk_service.py:246-251 | Over every history, completed replays of one trajectory never trigger the removed-step rule. |
| ReleaseGate.PullRequestScore | backend/app/risk/rules.py:30-100 | Without replay evidence a breaking scan scores 30 to 50 and any other at most 20, so only a hard block reaches BLOCK. |
| ReleaseGate.CheckConclusionExactly | backend/app/services/github_pr_analysis_service.py:471-505 | End to end: every completed check of a pull request carries its commit and reads FAILURE exactly when the shared input schema gains a required declared property, else NEUTRAL exactly when some subschema the published tools share breaks, else SUCCESS. |
| RateLimit.RedisRateLimiter.Eval | backend/app/core/rate_limit.py:40-46 | INCR, and EXPIRE on creation only; an expired key counts as absent. |
| RateLimit.RedisRateLimiter.Check | backend/app/core/rate_limit.py:87-105 | The result computed from the script's counter. |
| RateLimit.RedisRateLimiter.Serve | backend/app/core/rate_limit.py:87-105 | Serving any trace on one clock answers every request as plain counting within its window does: the k-th request of a window is allowed if and only if k <= limit. |
| RateLimit.KeysNeverCollide | backend/app/core/rate_limit.py:61-69 | With bucket names free of colons, equal keys mean equal bucket, identity and window, whatever characters the identity holds. |
| RateLimit.CountersCount | backend/app/core/rate_limit.py:40-46 | After any trace a window's counter equals the plain count; it never expires before its window ends and always before the next one does. |
| RateLimit.WindowLimit | backend/app/core/rate_limit.py:87-105 | A window lets through exactly the first `limit` of its requests. |
| RateLimit.SpanLimit | backend/app/core/rate_limit.py:87-105 | Any half-open span as long as a window lets through at most twice the limit. |
| RateLimit.RetryLands | backend/app/core/rate_limit.py:72-75 | Waiting `retry_after` reaches the next window if and only if the clock shows a whole second or less than one is left; on a whole second it lands on the very start, and it never overshoots by a second. |
| RateLimit.HintFallsShort | backend/app/core/rate_limit.py:72-75 | A failing input: half a second into a one-minute window the hint of 59 seconds ends inside the same window. |
| PullRequestAnalysis.AnalysisService.PublishInProgress | backend/app/services/github_pr_analysis_service.py:447-469 | Best effort: a refusal changes nothing, success records the check id. |
| PullRequestAnalysis.AnalysisService.PublishResult | backend/app/services/github_pr_analysis_service.py:471-544 | Updates or creates the completed check for the row's own commit and decision, or records the publish failure. |
| PullRequestAnalysis.AnalysisService.RunAnalysis | backend/app/services/github_pr_analysis_service.py:312-410 | One undisturbed delivery: stale or finished rows untouched, a failed publish only republished, otherwise evidence before publication. |
| PullRequestAnalysis.EveryRunIsHonest | backend/app/services/github_pr_analysis_service.py:312-544 | Over every history of deliveries, refusals and crashes: the verdict is set exactly in COMPLETED and PUBLISH_FAILED, and every completed check carries the row's commit and that verdict's conclusion. |
| PullRequestAnalysis.EvidenceIsWrittenOnce | backend/app/services/github_pr_analysis_service.py:376-407 | Evidence and decision stay as first written, and a failed pipeline stays failed. |
| PullRequestAnalysis.RestIsFinal | backend/app/services/github_pr_analysis_service.py:335-340 | A finished row at rest is never touched again. |
| PullRequestAnalysis.VerdictLostExactly | backend/app/services/github_pr_analysis_service.py:381-410 | Over every history of deliveries, answers, crashes and redeliveries: a row that comes to rest COMPLETED has not told GitHub its verdict if and only if some crash hit it between committing COMPLETED and publishing. |
| PullRequestAnalysis.LostExactly | backend/app/services/github_pr_analysis_service.py:312-410 | The same from a new row. |
| PullRequestAnalysis.SomeVerdictIsLost | backend/app/services/github_pr_analysis_service.py:370-410 | A failing history from a new row: deliver, no announcement, evidence, crash. |
| PullRequestAnalysis.RestsOnlyTold | backend/app/services/github_pr_analysis_service.py:404-410 | In particular nothing is lost without a crash. |
| PullRequestAnalysis.CrashLosesVerdict | backend/app/services/github_pr_analysis_service.py:335-363 | After that crash no redelivery publishes the verdict; after one from PUBLISH_FAILED a redelivery does. |
| PullRequestAnalysis.DeliveryIsARun | backend/app/services/github_pr_analysis_service.py:312-410 | The undisturbed delivery is one of the crash-prone system's runs. |
| PullRequestAnalysis.DeliveryTells | backend/app/services/github_pr_analysis_service.py:376-544 | What GitHub hears of a delivery that publishes: last the completed check for the row's commit, with the verdict's conclusion, under the id the row keeps. |
| PullRequestAnalysis.RedeliveryRecovers | backend/app/services/github_pr_analysis_service.py:312-410 | Whatever deliveries and crashes came before: a row at rest that is neither COMPLETED nor FAILED is brought to COMPLETED, its verdict told, by one more delivery that GitHub and the pipeline answer. |
| KafkaConsumer.KafkaEventConsumer.ProcessOne | backend/app/kafka/consumer.py:85-126 | A normal return commits the offset exactly once, after at most four handler attempts; an escaping exception commits nothing. A returned message is neither handled nor dead-lettered exactly when it was not handled and the topic is absent or its publish failed. |
| KafkaConsumer.KafkaEventConsumer.ToDeadLetters | backend/app/kafka/consumer.py:244-265 | Without a topic nothing is written, and a failing publish is swallowed. |
| KafkaConsumer.KafkaEventConsumer.DispatchWithRetry | backend/app/kafka/consumer.py:128-242 | The retry loop: attempts, commits and dead letters as decided by the first non-transient attempt and the publish outcome. |
| KafkaConsumer.AttemptsMade | backend/app/kafka/consumer.py:40 | A message gets at most four handler attempts, and at least one if well formed. |
| KafkaConsumer.DeadLetteredExactly | backend/app/kafka/consumer.py:128-242 | For a returned message no dead letter is due if and only if an attempt handled it after only transient failures. |
| KafkaConsumer.RetriesExactly | backend/app/kafka/consumer.py:128-242 | How a message ends: after up to three transient failures the next attempt decides, a fourth gives up, and a malformed message is never attempted; attempts made and dead letter in each case. |

## Left out

- SchemaFlowExactness.CompatibleFlowsExactly: for a producer with `pattern`, `multipleOf`, or `uniqueItems` where more than one item is demanded only one half holds (`GuardedValueFlows`): the first two have no fixed meaning here, and the third needs the number of distinct values a schema leaves.
- SchemaSoundness.CompatibleFlows: the structural guard is sufficient; the exact one is `FlowGuard`.
- BlastRadiusStability.ListOrderDoesNotMatter: assumes that a component is described alike on every edge leading to it, since an entry copies the description of the edge that reached it first.
- SchemaLocations.FindingsAreLocated: says which findings are reported, not how often; two routes spell one path when a property name itself holds `.properties.` or `[]`.
- SchemaDuality.SwapDuality: compares verdict-free changes as multisets, ENUM_NARROWED set aside because only narrowing is reported.
- RateLimit.RedisRateLimiter.Serve: key, counter and retry hint read one clock at one instant; a delay between building a key and running the script is not modelled.
- TrajectoryStore.NothingViolated: foreign-key failures of an insert are not modelled; they roll back like a crash.
- Tuple-form `items`, `properties` that are not an object, and a keyword given as an explicit null (taken as absent).
- Python's `True == 1` between enum or constraint values, and integer bounds beyond 2^53, where `float()` is inexact; bounds are exact reals here.
- `pattern` and `multipleOf` are an arbitrary reading of the value, fixed for both schemas.
- Enum values of one node are listed by kind and value where the code sorts by `str()`; the final sort by path, type and classification leaves such ties alone, so the order of equal-typed enum changes is not the code's.
- Change messages, displayed old and new values of value differences, and their redaction.
- The non-schema analyzers (model, prompt, API, MCP, policy, agent, workflow): flat comparisons.
- The sensitive-key test and the sanitized error category are parameters.
- `start_trajectory` and `create_replay` idempotency keys, component resolution, payload limits and sanitizing: they happen before the modelled steps.
- How the analysis handler turns service errors into handled, transient and permanent outcomes: the outcome of each attempt is arbitrary.
- The dependency graph is fixed during one search.
- Projects and tenants, HTTP routes, authentication, SQL and Cypher text, metrics, tracing, logging, LLM explanations and the frontend.
- Deleting evidence rows of a pull-request analysis; one worker at a time handles a row.
- The wording of checks, audit records and result events; exceptions GitHub clients raise outside the three handled kinds act as crashes.
- Rounding of floating-point latency percentages: they are exact reals.
