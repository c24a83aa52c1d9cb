# PantaETL: pipeline graphs, runs, workers and data formats

PantaETL stores pipelines as graphs of Source, Transform and Export components, queues runs of them in PostgreSQL,
and executes each run by workers that share nothing but the tables. This project models that core in Dafny and proves
what the system promises about it. It has three parts.

**Pipeline graphs.** Three checks over a graph are written apart from each other: `validatePipelineGraph` on saving
(worklist reachability and a depth-first search), `checkPipelineExecutable` on enabling (a walk that remembers where it
has been) and `_linear_plan` in the worker (a walk that does not). Each is an imperative method proved against a
description by paths and permutations, and the descriptions are proved to agree. Duplication of a pipeline and the
wizard's draft-to-graph conversion rest on the same descriptions.

**Runs and jobs.** `Protocol` is a transition system. Its state is the shared rows and where each worker stands; each
transaction or guarded UPDATE is one step, and any number of schedulers, workers, editors and collectors take steps in
any order. `ProtocolInvariant` states one inductive invariant, the `ProtocolSteps` and `ProtocolScheduler` files prove that
all twenty-six kinds of step keep it, and `ProtocolTheorems` draws the conclusions. `RunEnds` brings the two parts
together: which runs can still end, given the graph they are over; `FailedRuns` what a run that fails leaves of its steps.
`CheckpointSafety`, `Retention` and `Schedules` add the
checkpoint memory of the workers, the collectors and the schedule claims to the same system. `Refinement` relates the
rows of one pipeline to the in-memory state machine, step by step and over whole executions. `Scenarios` holds executions
from the empty system that reach the surprising places. `Database`, `RunQueue`, `Workers` and `CheckpointWorkers` are the
code that runs on the rows: classes and loops that update tables in place, each proved to take exactly the steps of the
transition system.

**Data formats.** `Flatten` is the document flattener and `Columns` the theory of its column names, `Framing` the chunked
encrypted file.

## How to read it

| File | Content |
|---|---|
| `Wrappers.dfy`, `Graphs.dfy`, `Topology.dfy` | Option and Result; steps, edges, paths; the edge indexes |
| `SaveValidation.dfy` | the save-time check |
| `Chains.dfy`, `Following.dfy`, `ExecutionPlan.dfy`, `ExecutableCheck.dfy`, `ExecutableReport.dfy`, `PlanAgreement.dfy` | linear chains, walks without memory, the worker's plan, the enable-time check, its report entry by entry, and the agreement of the checks |
| `Duplicate.dfy`, `Builder.dfy`, `BuilderEdits.dfy` | copies under new identities; the wizard's drafts; what each edit, saving and loading do to the slots |
| `Protocol.dfy` | rows, workers, and every step on them |
| `ProtocolInvariant.dfy`, `ProtocolRows.dfy`, `ProtocolSteps.dfy`, `ProtocolScheduler.dfy` | the invariant and its preservation |
| `ProtocolFrames.dfy`, `ProtocolTheorems.dfy` | what the kinds of steps leave alone; what follows from the invariant |
| `RunEnds.dfy`, `FailedRuns.dfy`, `Scenarios.dfy` | which runs can end; what failure leaves of the steps; executions that show the surprising cases |
| `Checkpoints.dfy`, `CheckpointSafety.dfy`, `CheckpointWorker.dfy` | checkpoint objects; which values become durable; the objects in step with the system |
| `Retention.dfy`, `Schedules.dfy` | collectors; schedule claims |
| `StateMachine.dfy`, `Refinement.dfy` | the in-memory queue and its simulation by the rows |
| `Database.dfy`, `Selection.dfy`, `RunQueue.dfy`, `Worker.dfy` | the SQL statements, ordered selections, the scheduler's transactions and the worker's attempt as code |
| `Flatten.dfy`, `Columns.dfy`, `Framing.dfy` | the document flattener, its column names, and the encrypted file |

`dafny verify dfyconfig.toml` checks the whole project.

## What the code does where one might expect otherwise

- The execution model (docs/architecture/execution-model.md) has checkpoints committed before success is recorded. The
  code records success first and commits the checkpoint in a later transaction (workers/python/execution.py:409-411). The
  model follows the code.
- "Enabled" does not imply "executable": an update writes the requested state without the enable-time check
  (packages/database/src/pipelines/update.ts:89-99). `EnabledButNeverEnds` is an execution through such an update and one
  run, after which the run stays queued and the pipeline locked in every continuation. In general a job's plan can be
  loaded exactly when the graph is structurally executable (`PlanLoadsExactly`).
- Runs over executable graphs can be lost too. A live active run can still end exactly when its graph is executable and a
  job of it is queued, or in the hands of a worker that remembers it and does not fail its last attempt with no component
  at hand, or a worker is just ending or cancelling the run; otherwise it stays queued or running for ever and locks its
  pipeline (`RunsThatCanEnd`). Nobody looks for a job whose row names a worker that has forgotten it: when a process ends
  with a job in hand its run never ends (`CrashLosesRun`, `ClaimedThenLost`), nor does a cancelled one when the process
  ends before the run is ended (`CancelledThenLost`). The last failing attempt ends only the job; the worker goes on to end
  the run exactly when a component was at hand, and exactly then the run can still end (`LastFailure`). So a run that was
  started and whose last attempt then raised before the first component stays running for ever (`StartedThenLost`).
- A run that fails can leave one of its steps running for ever. A retry goes through the components from the first one and
  leaves the steps that an earlier attempt has finished as they are. When its last attempt raises at such a step, failing
  the run finds nothing to fail there, and the step at which an earlier attempt stopped further on keeps its state.
  `RunsOnExactly` is the exact condition: a step of the failed run runs on exactly when one was running and the step at
  hand had already succeeded. `FailedButStepRuns` is an execution with two attempts that ends like this.
- `checkPipelineExecutable` does not look behind the Export. On every graph with unique steps and edges between them,
  what it accepts has a plan exactly when no edge leaves an Export (`PlanExactly`). It accepts a cycle closed from the
  Export to the Source, where `_linear_plan` never returns (`CheckAloneAcceptsCycle`, `WalkEndsExactly`), and without any
  cycle a Transform behind the Export, where `_linear_plan` raises (`CheckAloneAcceptsTail`). Graphs accepted on saving
  have no such edge (`SavedExportsEnd`), so on stored graphs the two checks agree (`ChecksAgree`).
- Waiting runs are promoted by scheduled time, runs without one last, and not by creation. The state machine is a plain
  FIFO queue, so creating a run is `enqueuePipelineRun` exactly when every run that waits on comes before the new one
  (`CreateIsEnqueue`). For a manual request made after all waiting runs it always is (`ManualRunsQueue`); a scheduled run
  created behind a waiting manual one overtakes it (`CreationOvertakes`). A worker
  starts a queued run whose cancellation was already requested, which the state machine refuses (`StartIsStart`,
  `StartAfterCancellation`).
- Save validation compares edges by the text `from:to`. On identifiers with a colon two edges can share it
  and a sound graph is refused (`KeysCanCollide`); on contract identifiers (UUIDs) save validation is the same with edges
  for keys (`ContractGraphsByEdges`).
- Releasing a job does not give back its attempt, and a succeeded job row keeps its claim time, so that row could not be
  read as a claim (`ClaimsAreReadable`); no queue statement returns one (`ReturnedRowsAreReadable`).
- Setting the values of a Transform that is not there, and removing one, mark the draft as edited, although
  the comment on the former calls it a no-op (apps/web/src/components/pipeline/pipeline-builder-draft.ts:134-144).
- Columns of a document can conflict although no key contains the separator: with the separator `..`, the keys `a.` above
  `b` and `a` above `.b` make one column (`ConflictingColumns`). They cannot when no key contains the separator and none
  contains the beginning of one across its end (`SeparableNeverConflicts`).
- An encrypted file that is cut exactly between two frames is accepted and reads as the beginning of the data (`CutFiles`).
- After an object field that stands for no value, the flattener returns no row and does not look for column conflicts
  among the later fields; errors inside those fields are still raised. `FieldsCombine` is the exact condition.

## Model

| member | source | states |
|---|---|---|
| Topologies.AddEdge | packages/pipeline/src/topology.ts:45-58 | an edge is appended to the list of one end and no other list changes |
| Topologies.BuildPipelineTopology | packages/pipeline/src/topology.ts:23-42 | for every identifier the indexes hold exactly the edges that leave it and enter it, in list order; of two steps with one identifier the later is found |
| Topologies.EdgesInTurn | packages/pipeline/src/topology.ts:28-39 | one more edge comes behind the edges at its ends and changes no other list |
| SaveValidation.ValidatePipelineGraph | packages/database/src/pipelines/create.ts:127-208 | accepts exactly the graphs with unique steps, unique non-loop edges between steps, no edge into a Source or out of an Export, both kinds present, every step on a Source-to-Export path and no cycle anywhere; each rejection names a rule that is broken |
| SaveValidation.AssertGraphConnects | packages/database/src/pipelines/create.ts:211-228 | the two worklists accept exactly when every step lies on a path from a Source to an Export |
| SaveValidation.VisitGraph | packages/database/src/pipelines/create.ts:231-249 | the worklist ends, and has visited exactly what is reachable from the initial steps |
| SaveValidation.AssertNoCycle | packages/database/src/pipelines/create.ts:252-269 | the depth-first search ends; a negative answer means that a cycle can be reached from the step, a positive one that everything it met is finished and on no cycle |
| SaveValidation.SearchFromSources | packages/database/src/pipelines/create.ts:225-228 | although it starts from Sources only, the search decides whether the graph has any cycle |
| SaveValidation.CheckEdges | packages/database/src/pipelines/create.ts:145-172 | edges are accepted exactly when all refer to steps, none is a loop, their keys differ and they flow forward; an error explains the graph |
| SaveValidation.CheckEnds | packages/database/src/pipelines/create.ts:181-191 | once edges flow forward, the checks for edges into a Source or out of an Export can no longer fail |
| SaveValidation.CheckDegrees | packages/database/src/pipelines/create.ts:193-205 | every Source has an output, every Export an input and every Transform both |
| SaveValidation.DegreesFollow | packages/database/src/pipelines/create.ts:193-205 | the degree rules follow from the path rule, so they exclude no graph of their own |
| SaveValidation.KeysAreEdges | packages/database/src/pipelines/create.ts:154-159 | on contract identifiers, edge keys are distinct exactly when the edges are |
| SaveValidation.KeysCanCollide | packages/database/src/pipelines/create.ts:154-159 | a graph that meets every rule with its edges told apart, and is refused as having a duplicate edge |
| SaveValidation.ContractGraphsByEdges | packages/database/src/pipelines/create.ts:127-208 | on contract identifiers save validation is exactly its rules with edges compared as edges |
| ExecutionPlan.LinearPlan | workers/python/execution.py:568-611 | on every call that returns, succeeds exactly when the components are one chain of Source, Transforms and Export led by the claimed Source, and returns that chain; the errors tell apart a missing Source, edges that share an end or lead nowhere, and a walk of the wrong shape |
| ExecutionPlan.WalkPlan | workers/python/execution.py:595-601 | the unguarded walk ends when the Source is on no cycle, and returns distinct components along the edges up to one without an outgoing edge |
| ExecutionPlan.IndexTargets | workers/python/execution.py:579-592 | the outgoing map is built exactly when all edges join known components and no two share an end |
| ExecutionPlan.WalkEndsExactly | workers/python/execution.py:579-601 | once the edges have been indexed, the unguarded walk returns exactly when the Source is on no cycle |
| Following.EndsExactly | workers/python/execution.py:595-601 | a loop that follows next steps without memory returns exactly when it cannot run into a cycle |
| Chains.ChainIsUnique | workers/python/execution.py:595-611 | components and edges determine the chain order |
| Chains.WalkIsChain | workers/python/execution.py:595-601 | any walk from the head of a chain that cannot be continued is the whole chain |
| ExecutableCheck.CheckPipelineExecutable | packages/pipeline/src/executable-validation.ts:56-111 | each structural violation is reported exactly when it holds of the graph, and none at all exactly when the graph is one Source-led walk with accepted components; the report lists the counts, then the steps in list order, then the disconnected steps and the clashes along the walk |
| ExecutableCheck.ReportIsUnique | packages/pipeline/src/executable-validation.ts:56-111 | graph and catalog determine the report |
| ExecutableCheck.WalkLinearChain | packages/pipeline/src/executable-validation.ts:173-188 | the walk follows only edges until there is none, several, or one back into the walk |
| ExecutableCheck.WalkIsUnique | packages/pipeline/src/executable-validation.ts:173-188 | a graph and a start determine that walk |
| ExecutableCheck.ConnectivityViolations | packages/pipeline/src/executable-validation.ts:126-170 | the steps off the walk are the disconnected ones, and neighbours on it are reported exactly when incompatible |
| ExecutableCheck.StepViolations | packages/pipeline/src/executable-validation.ts:80-103 | branching is reported exactly for steps with more than one edge on a side, and component faults exactly as the catalog finds them |
| ExecutableCheck.NothingToReport | packages/pipeline/src/executable-validation.ts:65-86 | no structural violation is reported exactly when there is one Source, one Export, no branching and no step off the walk |
| ExecutableReport.ReportIsInPhases | packages/pipeline/src/executable-validation.ts:56-111 | the report goes through its phases in order: counts, steps, steps off the walk, clashes |
| ExecutableReport.CountsInTurn | packages/pipeline/src/executable-validation.ts:68-78 | wrong numbers of Sources and of Exports make exactly one entry each, the Sources first |
| ExecutableReport.StepsInTurn | packages/pipeline/src/executable-validation.ts:80-103 | each step adds its branching and then its faults to the entries of the steps before it |
| ExecutableReport.FaultsAreKeys | packages/pipeline/src/executable-validation.ts:88-102 | a component that is not installed is one fault; otherwise there is one for each key the catalog finds, in its order |
| ExecutableReport.OffInTurn | packages/pipeline/src/executable-validation.ts:136-140 | each step off the walk is one entry, in list order, and no other step is |
| ExecutableReport.ClashesInTurn | packages/pipeline/src/executable-validation.ts:142-167 | neighbours on the walk that cannot pass data on are one entry each, in walk order and from upstream to downstream |
| ExecutableReport.KeysTellComponentsApart | packages/pipeline/src/executable-validation.ts:227-230 | unless a version contains an at sign, one key stands for one type and version |
| PlanAgreement.ChecksAgree | workers/python/execution.py:568-611 | on every saved graph the worker's plan exists exactly when the enable-time check finds no structural violation, and both walk in one order |
| PlanAgreement.PlanExactly | packages/pipeline/src/executable-validation.ts:126-188 | on every graph with unique steps and edges between them the worker has a plan exactly when the enable-time check finds no structural violation and no edge leaves an Export |
| PlanAgreement.SavedExportsEnd | packages/database/src/pipelines/create.ts:169-171 | on a saved graph no edge leaves an Export |
| PlanAgreement.CheckAloneAcceptsCycle | packages/pipeline/src/executable-validation.ts:126-188 | a graph with a cycle through its Source that the enable-time check accepts and that never has a plan |
| PlanAgreement.CheckAloneAcceptsTail | packages/pipeline/src/executable-validation.ts:126-188 | an acyclic graph with a Transform behind its Export that it accepts and that never has a plan |
| PlanAgreement.ChainIsSaved | packages/database/src/pipelines/create.ts:127-208 | every chain on contract identifiers passes save validation |
| PlanAgreement.ChainIsExecutable | packages/pipeline/src/executable-validation.ts:56-111 | and the enable-time check |
| Duplicate.BuildDuplicateCreateRequest | packages/database/src/pipelines/duplicate.ts:66-113 | succeeds exactly when every edge end has a new identity; then steps are copied in order under new identities without credential bindings, edges follow the renaming and all triggers are disabled |
| Duplicate.RemapEdges | packages/database/src/pipelines/duplicate.ts:82-99 | an edge whose end is absent, or was given an empty identity, is an error; every other list of edges is renamed |
| Duplicate.CopySteps | packages/database/src/pipelines/duplicate.ts:71-77 | one new identity for each step, in order, with the map from old to new |
| Duplicate.LastStepNames | packages/database/src/pipelines/duplicate.ts:71-77 | a source identity is renamed to the identity its last step was given |
| Duplicate.DuplicateIsAccepted | packages/database/src/pipelines/duplicate.ts:52-61 | with fresh distinct identities a saved pipeline is always copied, the copy passes save validation, and one is structurally executable exactly when the other is |
| Duplicate.DuplicateHasSameViolations | packages/database/src/pipelines/duplicate.ts:66-89 | each structural violation holds of the graph exactly when its renaming holds of the copy |
| Duplicate.RejectedStaysRejected | packages/database/src/pipelines/duplicate.ts:66-89 | on contract identifiers a copy is accepted exactly when the original is |
| Builder.OrderStepsByEdges | apps/web/src/components/pipeline/pipeline-builder-persistence.ts:38-55 | the unguarded walk ends on every graph where it does not run into a cycle, follows the edges from the first step that has no incoming one and meets no step twice |
| Builder.AcyclicReturns | apps/web/src/components/pipeline/pipeline-builder-persistence.ts:38-55 | on a graph without a cycle, as every saved one, it does not |
| Builder.OrderIsChain | apps/web/src/components/pipeline/pipeline-builder-persistence.ts:38-55 | however the lists of a chain are permuted, the walk gives back the chain |
| Builder.CreateDraftFromPipeline | apps/web/src/components/pipeline/pipeline-builder-persistence.ts:63-89 | there is no draft exactly when some component cannot be resolved; otherwise the draft holds the ordered selections by kind |
| Builder.FindsListed | apps/web/src/components/pipeline/pipeline-builder-persistence.ts:92-98 | a component that is listed under a key of its own is the one that is found |
| Builder.DraftRoundTrip | apps/web/src/components/pipeline/pipeline-builder-graph.ts:17-34 | a draft that was saved, its steps and edges permuted at will, is loaded as it was, except for the dirty flag and the stored name |
| Builder.CompleteIsSavable | apps/web/src/components/pipeline/pipeline-builder-graph.ts:31-34 | the derived graph passes save validation exactly when Source and Export are chosen |
| Builder.EditedIsOk | apps/web/src/components/pipeline/pipeline-builder-draft.ts:38-167 | after any sequence of wizard edits, from nothing or from a loaded pipeline, the slots have distinct identifiers and hold components of their kinds |
| Builder.LoadedIsOk | apps/web/src/components/pipeline/pipeline-builder-persistence.ts:63-89 | whatever order and mixture of components is loaded, the draft has distinct identifiers and components of the slots' kinds |
| Builder.TrimTwice | apps/web/src/components/pipeline/pipeline-builder-persistence.ts:20-35 | the saved name is trimmed once and for all |
| Builder.WizardRoundTrip | apps/web/src/components/pipeline/pipeline-builder-persistence.ts:20-89 | any complete draft that edits can arrive at can be saved, comes back with its name trimmed, and is saved again by the same request |
| Builder.MoveIsUndone | apps/web/src/components/pipeline/pipeline-builder-draft.ts:147-167 | moving a Transform and moving it back restores the order |
| BuilderEdits.SourceIsChosen | apps/web/src/components/pipeline/pipeline-builder-draft.ts:67-86 | choosing a Source keeps its values and bindings when type and version are the same and clears them otherwise, keeps the identity of a filled slot, and touches nothing else |
| BuilderEdits.ExportIsChosen | apps/web/src/components/pipeline/pipeline-builder-draft.ts:67-101 | the same for the Export |
| BuilderEdits.ValuesAreSet | apps/web/src/components/pipeline/pipeline-builder-draft.ts:89-107 | new values replace those of a filled slot and nothing else; without the slot the draft is as it was, not even edited |
| BuilderEdits.SlotsAreLeft | apps/web/src/components/pipeline/pipeline-builder-draft.ts:43-122 | renaming and saving touch no slot, and saving clears the dirty flag |
| BuilderEdits.TransformIsAdded | apps/web/src/components/pipeline/pipeline-builder-draft.ts:125-132 | a new Transform comes behind all others, with nothing configured |
| BuilderEdits.TransformValuesAreSet | apps/web/src/components/pipeline/pipeline-builder-draft.ts:135-139 | exactly the named Transform gets the values; an unknown name changes no Transform |
| BuilderEdits.TransformIsRemoved | apps/web/src/components/pipeline/pipeline-builder-draft.ts:142-144 | exactly the named Transform goes and the others keep their order; an unknown name removes none |
| BuilderEdits.TransformIsMoved | apps/web/src/components/pipeline/pipeline-builder-draft.ts:147-167 | a Transform changes places with its neighbour, and at the end of the list, or when it is not there, the draft is as it was |
| BuilderEdits.TrimmedInside | apps/web/src/components/pipeline/pipeline-builder-persistence.ts:20-35 | the saved name is the name without what is blank in front and behind, and itself neither begins nor ends with a blank |
| BuilderEdits.BlankCodes | apps/web/src/components/pipeline/pipeline-builder-persistence.ts:25 | what counts as blank when the name is trimmed, by character codes |
| BuilderEdits.StepsInOrder | apps/web/src/components/pipeline/pipeline-builder-graph.ts:6-23 | Source, Transforms and Export become steps in this order, each with the kind, type, version, values and bindings of its slot |
| BuilderEdits.EdgesInOrder | apps/web/src/components/pipeline/pipeline-builder-graph.ts:26-34 | each step is linked to the next and there is no other edge |
| BuilderEdits.FirstListed | apps/web/src/components/pipeline/pipeline-builder-persistence.ts:92-98 | the first listed component of the step's type and version is found, and none exactly when there is none |
| BuilderEdits.SlotsAreFilled | apps/web/src/components/pipeline/pipeline-builder-persistence.ts:82-88 | Source and Export of a loaded draft are the first selections of their kinds, and the draft is not edited |
| BuilderEdits.TransformsAreLoaded | apps/web/src/components/pipeline/pipeline-builder-persistence.ts:82-88 | the Transforms of a loaded draft are those among the selections, in their order |
| BuilderEdits.LastEdgeCounts | apps/web/src/components/pipeline/pipeline-builder-persistence.ts:41-42 | of several edges from one step the walk follows the last |
| ProtocolTheorems.NextKeepsInv | apps/scheduler/src/run-queue.ts:92-326 | every step of every actor keeps the invariant of runs, rows, jobs, plans and workers |
| ProtocolTheorems.SerialisedExecution | apps/scheduler/src/run-queue.ts:237-278 | in every reachable state a pipeline has at most one active run whatever its state, and every queued or running job belongs to that run, which has not ended |
| ProtocolTheorems.PromotionStartsTheOnlyRun | apps/scheduler/src/run-queue.ts:193-234 | promotion, which never looks for a live run, leaves no active run but the one it starts |
| ProtocolTheorems.BacklogIsBacked | apps/scheduler/src/run-queue.ts:113-131 | whenever a run waits, its pipeline has an active run |
| ProtocolTheorems.PromotionDrains | apps/scheduler/src/run-queue.ts:258-278 | a promotion takes one waiting run off the backlog and leaves the others: it is scheduled if any waiting run is, for no later time than any; among equal times it was created first, and among those it has the least identity |
| ProtocolTheorems.CreationStartsOrWaits | apps/scheduler/src/run-queue.ts:92-163 | a new run is active exactly when no run of its pipeline is queued or running, and afterwards the pipeline has an active run that has not ended |
| ProtocolTheorems.JobsAreCreatedOnce | apps/scheduler/src/run-queue.ts:281-326 | a waiting run has no jobs; an active one has exactly one for each Source; no run has two for one component |
| ProtocolTheorems.GraphIsFrozen | packages/database/src/pipelines/update.ts:84-109 | while a run is queued or running, no step changes its pipeline's graph or disables it |
| ProtocolTheorems.OneStepPerComponent | apps/scheduler/src/run-queue.ts:281-303 | an activated live run has exactly one step for each component |
| ProtocolTheorems.SamePlanEveryAttempt | workers/python/execution.py:130-154 | every attempt of a run loads the plan of its first attempt |
| ProtocolTheorems.StepsHaveShape | workers/python/execution.py:640-681 | along the plan of every run come succeeded steps, at most one running or failed, then queued ones |
| ProtocolTheorems.FinishNeverRejected | workers/python/execution.py:260-276 | the guards of the finishing transaction never reject the worker that did the steps |
| ProtocolTheorems.AttemptConverges | workers/python/execution.py:357-409 | from whatever earlier attempts left, the worker by its own steps alone brings all steps and the run to success when every component returns |
| ProtocolTheorems.OnCourseGoesOn | workers/python/execution.py:349-409 | a worker in its attempt is never blocked: its next statement always applies, and before it goes idle its run is done |
| ProtocolTheorems.StaysOnCourse | workers/python/execution.py:349-409 | whatever anybody else does next, an attempt that is not broken off stays on course or ends with its run done |
| ProtocolTheorems.AttemptIsNotLost | workers/python/execution.py:349-409 | over any interleaving, an attempt that is not broken off is still on course or its run is done |
| RunEnds.PlanLoadsExactly | workers/python/execution.py:130-154 | in every reachable state a job of a live active run has a plan exactly when the graph is structurally executable |
| RunEnds.StartedRunsArePlanned | workers/python/execution.py:156-179 | a run leaves the queued state only with a plan, and what it is over is executable while it lives |
| RunEnds.RunsThatCanEnd | workers/python/execution.py:475-496 | a live active run can still end exactly when its graph is executable and a job of it is queued or in the hands of a worker that does not fail it in vain, or a worker is ending or cancelling it; otherwise it stays as it is and blocks its pipeline |
| RunEnds.StuckNeverEnds | apps/scheduler/src/run-queue.ts:193-255 | any other live active run stays queued or running in every continuation, its pipeline locked and never promoted |
| RunEnds.UnexecutableRunsNeverEnd | packages/database/src/pipelines/update.ts:84-99 | a run over a graph that is not executable stays queued for ever |
| RunEnds.CrashLosesRun | workers/python/job_queue.py:66-85 | a worker whose process ends with a job in hand takes the run with it: it never ends in any continuation |
| RunEnds.LastFailure | workers/python/execution.py:475-496 | the last failing attempt ends only its job; the worker goes on to end the run exactly when a component was at hand, and exactly then the run can still end |
| FailedRuns.FailureEndsItsStep | workers/python/execution.py:673-681 | failing a run fails the step at hand unless that has succeeded, changes no other step row, no job and no other run, and ends the run unless it has ended |
| FailedRuns.RunsOnExactly | workers/python/execution.py:288-300 | a failed run leaves a step running exactly when one was running and the step at hand had already succeeded |
| FailedRuns.LastRaise | workers/python/execution.py:475-496 | a component that raises in the last attempt brings job and run to failure, and its step unless that succeeded in an earlier attempt |
| FailedRuns.LastRaiseAfter | workers/python/execution.py:205-230 | when recording a success raises in the last attempt, job and run fail and every step stays as it is |
| FailedRuns.LastFinishRaises | workers/python/execution.py:409-415 | when the finishing transaction raises in the last attempt, job and run fail although all steps have succeeded |
| FailedRuns.SettledStepsStay | workers/python/execution.py:640-681 | whatever happens later, the steps of a run that has ended, and that no worker is still about to end, stay as they are |
| Scenarios.EnabledButNeverEnds | packages/database/src/pipelines/update.ts:84-99 | an execution through an update that enables a graph the enable action refuses, after which the run never ends |
| Scenarios.StartedThenLost | workers/python/execution.py:156-179 | an execution in which the run is started, recording that raises in the only attempt, and the run stays running for ever with nobody at work |
| Scenarios.ClaimedThenLost | workers/python/job_queue.py:66-85 | an execution in which the process of the claiming worker ends, and the run stays queued for ever behind a job called running |
| Scenarios.CancelledThenLost | workers/python/cancellation.py:107-116 | an execution in which the process ends between cancelling the job and ending the run, which stays running for ever |
| Scenarios.FailedButStepRuns | workers/python/execution.py:349-415 | an execution with two attempts, the second of which does not come as far as the first: run and job have failed, and a step stays running for ever |
| Scenarios.CreationOvertakes | apps/scheduler/src/run-queue.ts:258-271 | a reachable state in which creating a run is not enqueueing it |
| Scenarios.StartAfterCancellation | workers/python/execution.py:635-638 | a reachable state in which a worker starts a run that the state machine refuses to start |
| ProtocolTheorems.EndedRunsStay | workers/python/execution.py:635-681 | an ended run keeps its final state under every step, and no run row disappears |
| ProtocolTheorems.ClaimsAreReadable | workers/python/job_queue.py:327-338 | a row's claim is unreadable exactly when the job succeeded, and empty exactly when it is queued, failed or cancelled |
| ProtocolTheorems.ReturnedRowsAreReadable | workers/python/job_queue.py:66-169 | every row a queue statement returns has a readable claim |
| ProtocolTheorems.AttemptsAreBounded | workers/python/job_queue.py:66-127 | attempts never exceed max(retryMaxAttempts, 1) plus the number of releases, and the completion time is set exactly on ended jobs |
| ProtocolTheorems.RetryWaits | workers/python/job_queue.py:106-127 | a failed job can be claimed again exactly while it has attempts left, by anybody, and from the end of its delay on |
| ProtocolTheorems.ReleasedIsDue | workers/python/job_queue.py:94-104 | a released job can be claimed from the time of the release on, whatever its delay and attempts |
| ProtocolScheduler.CreateRunKeeps | apps/scheduler/src/run-queue.ts:92-163 | creating a run keeps the invariant, in all three of its branches |
| ProtocolScheduler.PromoteKeeps | apps/scheduler/src/run-queue.ts:193-278 | promoting keeps it |
| ProtocolScheduler.UpdatePipelineKeeps | packages/database/src/pipelines/update.ts:68-109 | replacing a graph under the edit lock keeps it, whatever state is written |
| ProtocolScheduler.SetPipelineStateKeeps | packages/database/src/pipelines/actions.ts:147-212 | enabling and disabling keep it |
| ProtocolSteps.FinishIsAccepted | workers/python/execution.py:260-276 | a worker past its last step owns the job, its run is running and all steps of the run have succeeded |
| Checkpoints.Store.CommitIfRunSucceeded | workers/python/checkpoints.py:59-82 | the value becomes durable exactly when the run belongs to the candidate's pipeline and has ended in success |
| Checkpoints.LastTakenStays | workers/python/checkpoints.py:199-205 | of the candidates committed under one Source the last one taken stays |
| Checkpoints.UntakenStays | workers/python/checkpoints.py:59-82 | where no candidate is taken, what was stored stays, or nothing |
| CheckpointWorkers.CheckpointWorker.CreateLifecycle | workers/python/checkpoints.py:189-197 | is the creating step of the system: the new lifecycle is kept with the run and is bound to the Source of the job |
| CheckpointWorkers.CheckpointWorker.Propose | workers/python/checkpoints.py:155-163 | is the proposing step of the system: one candidate of the attempt in hand is replaced, and nothing else that is held |
| CheckpointWorkers.CheckpointWorker.CommitAfterRunSuccess | workers/python/checkpoints.py:199-205 | is one popping step followed by a commit for each candidate of the run, in order |
| CheckpointWorkers.CheckpointWorker.DiscardRun | workers/python/checkpoints.py:207-210 | is what a failing attempt does to the memory in the system |
| CheckpointWorkers.CheckpointWorker.StoredIsFromSuccess | workers/python/checkpoints.py:59-82 | whatever the store of a coordinator in step with the system holds was proposed in the attempt in which its run succeeded |
| Checkpoints.SourceCheckpointLifecycle.CommitAfterRunSuccess | workers/python/checkpoints.py:165-169 | commits the held candidate, if there is one, under the store's guard |
| Checkpoints.RunCheckpointCoordinator.CreateLifecycle | workers/python/checkpoints.py:189-197 | appends an empty lifecycle to those of the run and to no other run's |
| Checkpoints.RunCheckpointCoordinator.CommitAfterRunSuccess | workers/python/checkpoints.py:199-205 | forgets the run's lifecycles, commits their candidates in order and tells whether any was accepted |
| Checkpoints.RunCheckpointCoordinator.DiscardRun | workers/python/checkpoints.py:207-210 | forgets the run's lifecycles and empties every one of them |
| CheckpointSafety.OnlySuccessIsDurable | workers/python/checkpoints.py:139-210 | every durable value was proposed in the very attempt in which the job of its run and Source succeeded; nothing from a failed attempt is stored, whatever later attempts do on whichever worker |
| CheckpointSafety.SuccessIsDurable | workers/python/checkpoints.py:165-205 | the store refuses nothing that a worker commits after its run's success: each value becomes durable under its Source and no other entry changes |
| Retention.LiveDataIsKept | packages/database/src/retention.ts:43-62 | no file and no row of a run that has not ended is ever missing |
| Retention.CollectorsRemoveEndedData | apps/garbage-collector/src/cleanup.ts:129-149 | whatever a pass removes, however old its list, belongs to an ended run |
| Retention.RemovalsAreReportedOnce | packages/database/src/retention.ts:172-187 | a dataset row is gone exactly when one pass, and only one, has reported removing it |
| Retention.RowsGoWhenExpired | packages/database/src/retention.ts:172-187 | a row goes exactly when a pass comes to it after its expiry; only rows of ended runs expire, and no other row goes |
| Retention.EndedRunsExpire | workers/python/execution.py:288-310 | failing a run and finishing one mark all its rows as expired now and no other row |
| Retention.CancelledRunsExpireOnce | workers/python/cancellation.py:48-53 | marking the rows of a cancelled run keeps an expiry that is there |
| Retention.ExpiredDataCanGo | apps/garbage-collector/src/cleanup.ts:129-149 | expired data can be removed at once, file and row, by a pass of its own |
| Schedules.OccurrencesAreClaimedInTurn | apps/scheduler/src/schedule-claims.ts:29-113 | over any interleaving of passes a trigger's claimed occurrences are the consecutive ones from its first, without gap or repeat |
| Schedules.EachClaimMakesOneRun | apps/scheduler/src/schedule-claims.ts:94-98 | each claim made exactly one run for its occurrence, none before it was due, which names its trigger as long as that exists; runs with a scheduled time come from nowhere else |
| Schedules.ClaimSucceedsClaim | apps/scheduler/src/schedule-claims.ts:29-93 | the first claim of a trigger is for its first occurrence, and each other one for the occurrence after that of the claim before |
| Schedules.TriggerStandsNext | apps/scheduler/src/schedule-claims.ts:76-93 | a trigger stands at its first occurrence until that is claimed, and then at the one after the last claimed |
| Refinement.RowsRefineStateMachine | packages/pipeline/src/state-machine.ts:53-155 | every step on the rows is, for each pipeline, the transition of the state machine that it means, or none |
| Refinement.ExecutionsRefine | packages/pipeline/src/state-machine.ts:53-155 | a whole aligned execution is a run of the state machine with stuttering |
| Refinement.EveryPipelineStands | packages/pipeline/src/state-machine.ts:14-24 | in every state that meets the invariant each pipeline stands for a state of the state machine |
| Refinement.CreateIsEnqueue | packages/pipeline/src/state-machine.ts:67-89 | creating a run, also behind an ended run that nobody has released, is enqueueing it exactly when every run that waits on comes before it |
| Refinement.ManualRunsQueue | apps/scheduler/src/run-queue.ts:258-271 | a manual request made later than every waiting run is always enqueueing: manual runs queue first in, first out |
| Refinement.ScheduledRunsQueue | apps/scheduler/src/run-queue.ts:258-271 | a request for a time of its own comes last exactly when all that wait on are scheduled, for earlier times |
| StateMachine.RefusedExactly | packages/pipeline/src/state-machine.ts:53-155 | when each transition is refused: editing exactly with an active run, starting exactly unless it is queued without a request to cancel, completing exactly without an active run or with a state that is not final, and so on |
| StateMachine.TransitionsKeepSound | packages/pipeline/src/state-machine.ts:53-155 | no transition lets a run wait at an idle pipeline or holds a run twice |
| StateMachine.RunsTakeTurns | packages/pipeline/src/state-machine.ts:67-155 | runs enqueued behind an active one become active one after the other in that order, and then the pipeline is idle |
| Refinement.StartIsStart | packages/pipeline/src/state-machine.ts:101-113 | starting the run row is starting the active run, except when cancellation was requested before, which only the rows allow |
| Refinement.CancelIsCancel | packages/pipeline/src/state-machine.ts:116-131 | requesting cancellation of the active run is the same request on the state machine |
| Refinement.EditIsSetState | packages/pipeline/src/state-machine.ts:53-60 | a pipeline can be edited exactly when its state machine is idle |
| Refinement.PromoteIsStutter | apps/scheduler/src/run-queue.ts:193-234 | promotion changes nothing for the state machine, which has already moved on |
| Refinement.LineIsUnique | apps/scheduler/src/run-queue.ts:258-271 | the rows determine the order of the runs of a pipeline |
| Database.Tables.ClaimNext | workers/python/job_queue.py:66-85 | claims the due job that has been available longest, or nothing when no job is due; its row names worker and time and counts the attempt |
| Database.Tables.Fail | workers/python/job_queue.py:106-127 | while attempts remain the owner's job is requeued and due again once its delay is over, otherwise it ends as failed; the row is given column by column |
| Database.Tables.CancelIfRequested | workers/python/job_queue.py:141-156 | cancels the owner's running job exactly when its run requested it |
| Database.Tables.CancelPendingForRun | workers/python/job_queue.py:158-169 | cancels all queued jobs of the run and no others |
| Database.Tables.FinalizeCancelledRun | workers/python/job_queue.py:171-183 | ends the run exactly when it is running, cancelled on request and no job of it is queued or running |
| Database.Tables.FinishSuccess | workers/python/execution.py:260-276 | job and run succeed together, or nothing changes |
| Database.Tables.FinishFailure | workers/python/execution.py:288-300 | a queued or running step becomes failed, and likewise the run; every other row stays as it is |
| RunQueue.FindOldestWaiting | apps/scheduler/src/run-queue.ts:263-270 | finds the waiting run of the pipeline that no other comes before: by scheduled time, none last, then creation, then identity; none exactly when none waits |
| RunQueue.FindActiveRun | apps/scheduler/src/run-queue.ts:237-255 | returns an active run that has not ended, or none exactly when there is none |
| RunQueue.CreateInitialSourceJobs | apps/scheduler/src/run-queue.ts:281-326 | inserts one queued step per component in order and one queued job per Source, due at once with the retry columns asked for, or fails without a Source |
| RunQueue.CreatePipelineRunInTransaction | apps/scheduler/src/run-queue.ts:92-163 | fails exactly on unknown and not enabled pipelines and where a run would become active without a Source, leaving the tables alone; otherwise takes the creating step of the protocol: the new row and who is active afterwards are given column by column |
| RunQueue.PromoteQueuedPipelineRuns | apps/scheduler/src/run-queue.ts:193-234 | selects the active runs that have ended, those completed first, as many as the limit allows; each iteration releases one pipeline and activates the waiting run that no other comes before, with its steps and jobs; a failure leaves the tables alone |
| RunQueue.ReportedInOrder | apps/scheduler/src/run-queue.ts:211-233 | the report has one entry for each run activated, in the order of the pass, and none where nobody waited |
| RunQueue.ClaimDueSchedules | apps/scheduler/src/schedule-claims.ts:40-113 | selects the enabled triggers of enabled pipelines due longest, as many as the limit allows; each claimed one moves on by one occurrence and has a run for the occurrence it stood at, the other triggers stay; a failure leaves all rows alone |
| Selection.SelectFirst | apps/scheduler/src/run-queue.ts:203-209 | the selected rows are candidates by column and then identity, and any candidate left out comes later than all of them and only for the limit |
| Selection.SelectionIsUnique | apps/scheduler/src/schedule-claims.ts:50-73 | candidates, order and limit determine the selected rows |
| Workers.Worker.RunOnce | workers/python/execution.py:335-416 | one call is a run of the protocol's steps: it claims the job due longest, succeeds when every component returns, requeues the job or ends job and run when one does not, failing the step of the first such component unless it had succeeded before, and leaves run and steps alone when there is no plan |
| Workers.Worker.RunComponents | workers/python/execution.py:349-409 | components run in plan order; all steps and the run succeed exactly when all components return |
| Workers.Worker.FinishSuccess | workers/python/execution.py:260-276 | the finishing transaction goes through whenever the loop reaches it |
| Workers.Worker.HandleFailure | workers/python/execution.py:475-496 | the job is requeued or ended; the run fails with it exactly when a component was at work, and then the step of that component too unless it had succeeded |
| Workers.Worker.LoadPlan | workers/python/execution.py:130-154 | finds the plan of the claimed job's run if there is one, and otherwise changes nothing |
| Workers.Worker.RaiseIfRequested | workers/python/cancellation.py:99-127 | raises exactly when cancellation was requested; then the job and all queued jobs of the run are cancelled, and the run has ended unless another of its jobs still runs |
| Workers.Worker.Heartbeat | workers/python/job_queue.py:87-92 | the row comes back readable as this worker's claim, made when it was made and alive now; nobody else can renew it |
| Workers.Worker.Release | workers/python/job_queue.py:94-104 | the job in hand goes back: the worker is idle and the job can be claimed at once by anybody; the row comes back without a claim, the attempt stays counted and within its bound |
| Flatten.FlattenDocument | workers/python/components/transforms/document.py:124-144 | succeeds exactly when the record path leads to an object or an array of objects that are all clean, with the rows of all their choices in order; each error says what is wrong. What a column is called is `Columns.ColumnLies` |
| Flatten.RecordsAre | workers/python/components/transforms/document.py:127-139 | an object is the only record, an array of nothing but objects holds them in order, and anything else holds none |
| Flatten.RefusedValues | workers/python/components/transforms/document.py:162-196 | an empty key and an array directly in an exploded one are refused wherever they stand; an array kept as text is not looked into |
| Flatten.FlattenObject | workers/python/components/transforms/document.py:157-173 | succeeds exactly on clean objects, with one row for each choice in order; an error blames something that is wrong with the object |
| Flatten.FlattenValue | workers/python/components/transforms/document.py:176-186 | the same for a value below a column |
| Flatten.ExplodeArray | workers/python/components/transforms/document.py:189-201 | the same for an array whose elements become rows |
| Flatten.CombineFragments | workers/python/components/transforms/document.py:168-173 | the rows of the fields combine exactly when no combined row repeats a column, up to a field without rows |
| Flatten.MergeProduct | workers/python/components/transforms/document.py:172-173 | all pairs merge exactly when none shares a column, in lexicographic order |
| Flatten.MergeKeepsBoth | workers/python/components/transforms/document.py:204-209 | a merge fails exactly when a value would be overwritten, and otherwise keeps both sides whole |
| Flatten.TextModeIsOneRow | workers/python/components/transforms/document.py:157-186 | with arrays as text a record flattens exactly when no key is empty and all joined leaf paths differ, into one row from path to leaf |
| Flatten.ExplodedRows | workers/python/components/transforms/document.py:157-201 | exploded rows are exactly the choices of one element per array, with distinct columns, as many as the product over fields and sum over elements |
| Flatten.ExpandIsEveryChoice | workers/python/components/transforms/document.py:157-201 | a value is among the expansions exactly when it is the original with each array replaced by one of its elements |
| Flatten.LastFieldVariesFastest | workers/python/components/transforms/document.py:168-173 | the choices of an object stand in lexicographic order |
| Flatten.ItemsInOrder | workers/python/components/transforms/document.py:189-201 | the choices of an array are those of its elements in the order of the elements |
| Columns.ColumnLies | workers/python/components/transforms/document.py:165 | a column is its keys in order with the separator between any two of them, by position, and nothing else |
| Columns.ColumnsTellPathsApart | workers/python/components/transforms/document.py:165 | over keys that the separator occurs in neither inside nor across an end, different paths have different columns |
| Columns.SeparableNeverConflicts | workers/python/components/transforms/document.py:157-209 | no two columns of a value with such keys conflict, in both array modes |
| Columns.ConflictingColumns | workers/python/components/transforms/document.py:204-209 | records that conflict because a key contains the separator, or only because two keys do across their ends |
| Columns.NestedColumns | workers/python/components/transforms/document.py:157-186 | the row of a leaf below two keys and another beside it: column names and cells written out |
| Flatten.ExplodeCounts | workers/python/components/transforms/document.py:157-201 | the number of rows: scalar one, object the product, array the sum |
| Flatten.ResolveRecordPath | workers/python/components/transforms/document.py:147-154 | finds what stands below the document along object keys, never through an array |
| Flatten.BelowInTurn | workers/python/components/transforms/document.py:147-154 | a record path is followed key by key: a longer path leads on from where a shorter one led |
| Framing.EncryptFile | workers/python/storage.py:372-382 | the file is the header and one frame for each chunk, or an error when a token's length does not fit |
| Framing.DecryptPayload | workers/python/storage.py:384-402 | reads a payload as what it holds, in both formats, and rejects everything else |
| Framing.RoundTrip | workers/python/storage.py:372-402 | data of every length comes back from its file |
| Framing.AcceptedIsFile | workers/python/storage.py:384-402 | a chunked payload is accepted exactly when it is the header and whole frames of non-empty decryptable tokens, which are unique |
| Framing.RejectedBehindFrames | workers/python/storage.py:392-402 | behind whole frames, less than four bytes, a length of zero or one beyond the end make the payload invalid |
| Framing.RejectedForToken | workers/python/storage.py:400-402 | a token that does not decrypt makes the payload invalid |
| Framing.CutFiles | workers/python/storage.py:390-402 | a file cut behind its header is accepted exactly when the cut falls between two frames, and then reads as a beginning of the data |
| Framing.ParseUndoesFrames | workers/python/storage.py:381-382 | parsing gives back the tokens that were framed |
| Framing.BigEndianIsUnique | workers/python/storage.py:381-395 | four length bytes and the number they stand for determine each other |
| Framing.BigEndianIsOrdered | workers/python/storage.py:381-395 | a smaller number is smaller at the first byte where the two differ: the most significant byte comes first |
| Framing.BigEndianPlaces | workers/python/storage.py:381-395 | a number below 256 is written in the last byte, and each byte further left counts 256 times as much |
| Framing.FrameLies | workers/python/storage.py:379-382 | where in the file each frame lies: behind the frames before it, four bytes of length and then the token |
| Framing.ChunkLies | workers/python/storage.py:379 | every chunk is 1048576 bytes from its place in the data, except the last one, which has what is left |
| Framing.HeaderText | workers/python/storage.py:26 | the header is the text PantaETLEncryptedChunksV1 and a line end |

## Left out

- HTTP routes, sessions, API tokens, health checks, schema conversion and the user interface: plumbing around the core.
- Components over Polars, PyArrow, psycopg and spreadsheets: what they do is defined in libraries that are not part of this model.
- Component configuration and family rules inside the executable check: kept as the catalog's own functions, so that the violations they cause are reported but not derived.
- Cron expressions and time zones: one successor function, strictly later only where that is assumed.
- Fernet: one encrypting function that may depend on when it is called and one partial decrypting function; that they invert each other is an assumption of the round trip only.
- JSON text: the compact text of an array is kept as the array it stands for. Checkpoint values are opaque.
- Row locks and deadlocks: each transaction is one atomic step, since both writers of the run queue lock the pipeline row. `FOR UPDATE SKIP LOCKED` lets a step of the transition system claim any due job; `Database.Tables.ClaimNext` claims the first when nothing is locked.
- Foreign keys as the database enforces them: the model deletes pipelines only when no run refers to them, and the rows of a run are never deleted. It lets an update replace the components of a pipeline while ended runs still have step rows for them, which the database refuses (packages/database/src/schema/execution.ts:68-70).
- Identities: run steps and jobs are named by their position in the table; run, pipeline and trigger identities are integers.
- `deleteExpiredRun`, run-log and artifact expiry and staged uploads: not steps of this model. Deleting an expired run removes its jobs and steps before testing its guards, which would break the invariant of active runs.
- Requesting cancellation and the first due time of a trigger: no code here writes them, so they are steps of the environment. `raise_if_requested` is meant for the components, which are not part of this model; a worker at a step may call it at any time.
- The `release` and `heartbeat` statements exist without a caller: a worker that is stopped first lets the attempt in hand finish. The model lets only the worker with the job in hand release it, and forgets its memory of the job with it; no result about runs that can end rests on a release.
- Retry settings: the columns a job is inserted with are a parameter; the tables default them to one attempt without delay.
- Dataset files and their rows are recorded in one step, although the worker writes the file first; a file without a row is not tracked.
- Operational events, log expiry and completion timestamps of runs and steps.
- Completion times of runs and the rows that other transactions hold locked are parameters of the two scheduler passes, and the identities of new runs a list.
- Workers.Worker.RunOnce: other actors stand still while it runs; what interleaving can do is the transition system's matter. Committing checkpoints and removing files are in `CheckpointSafety` and `Retention`, not in this method.
- ExecutionPlan.LinearPlan: demands, where the checks before the walk pass, a Source on no cycle, because exactly then the walk returns (`WalkEndsExactly`); stored graphs meet it.
- Builder.OrderStepsByEdges: demands that the walk does not run into a cycle, because exactly then it returns (`Following.EndsExactly`); stored graphs meet it (`AcyclicReturns`).
- Builder.CreateDraftFromPipeline: demands the same, as it begins with that walk.
