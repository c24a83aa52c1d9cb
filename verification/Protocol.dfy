/**
 * The rows the scheduler, the workers and the editors share, and every transaction on them as one step.
 *
 * Row identities of run steps and jobs are positions in their tables. Two parts of a system are history and
 * not rows: the number of releases of a job, and the plan a run was last loaded with.
 */
module Protocol {
  import opened Wrappers
  import opened Graphs
  import opened SaveValidation
  import opened Chains
  import opened ExecutionPlan
  import opened ExecutableCheck

  /** Lifecycle of runs, run steps and jobs. Job rows have no CompletedWithWarnings. */
  datatype State = Queued | Running | Succeeded | CompletedWithWarnings | Failed | Cancelled {
    predicate Live() { Queued? || Running? }
  }

  datatype PipelineState = Draft | Enabled | Disabled

  datatype Pipeline = Pipeline(state: PipelineState, graph: Graph)

  datatype Run = Run(pipeline: int, state: State, isActive: bool, scheduledFor: Option<int>, createdAt: int,
                     trigger: Option<int>, cancelRequested: bool)
  {
    predicate Waiting() { state.Queued? && !isActive }
  }

  datatype RunStep = RunStep(run: int, component: Id, state: State)

  datatype Job = Job(pipeline: int, run: int, step: nat, component: Id, state: State, attempt: nat,
                     maxAttempts: int, delay: int, availableAt: int, worker: Option<int>, claimedAt: Option<int>,
                     heartbeatAt: Option<int>, completedAt: Option<int>, releases: nat)

  datatype Db = Db(pipelines: map<int, Pipeline>, runs: map<int, Run>, steps: seq<RunStep>, jobs: seq<Job>)

  // ---------- Waiting runs and their order ----------

  /** Scheduled runs first by time, then runs without a schedule; ties by creation and identity. */
  predicate Before(a: Run, aId: int, b: Run, bId: int) {
    if a.scheduledFor != b.scheduledFor then
      a.scheduledFor.Some? && (b.scheduledFor.None? || a.scheduledFor.value < b.scheduledFor.value)
    else if a.createdAt != b.createdAt then a.createdAt < b.createdAt
    else aId < bId
  }

  predicate WaitsFor(runs: map<int, Run>, p: int, r: int) {
    r in runs && runs[r].pipeline == p && runs[r].Waiting()
  }

  ghost predicate Oldest(runs: map<int, Run>, p: int, oldest: Option<int>) {
    match oldest
    case None => forall x :: !WaitsFor(runs, p, x)
    case Some(r) => WaitsFor(runs, p, r) && forall x :: WaitsFor(runs, p, x) && x != r ==> Before(runs[r], r, runs[x], x)
  }

  /** The run that blocks later work of the same pipeline. */
  predicate ActiveLive(runs: map<int, Run>, p: int, r: int) {
    r in runs && runs[r].pipeline == p && runs[r].isActive && runs[r].state.Live()
  }

  ghost predicate HasActive(runs: map<int, Run>, p: int) {
    exists r :: ActiveLive(runs, p, r)
  }

  /** Any queued or running run, active or waiting, locks editing. */
  ghost predicate Editable(runs: map<int, Run>, p: int) {
    forall r :: r in runs && runs[r].pipeline == p ==> !runs[r].state.Live()
  }

  // ---------- Scheduler transactions ----------

  function ReleaseTerminal(runs: map<int, Run>, p: int): (released: map<int, Run>)
    ensures released.Keys == runs.Keys
  {
    map r | r in runs ::
      if runs[r].pipeline == p && runs[r].isActive && !runs[r].state.Live() then runs[r].(isActive := false) else runs[r]
  }

  function StepRows(r: int, components: seq<Step>): (rows: seq<RunStep>)
    ensures |rows| == |components|
    ensures forall i :: 0 <= i < |rows| ==> rows[i] == RunStep(r, components[i].id, Queued)
  {
    seq(|components|, i requires 0 <= i < |components| => RunStep(r, components[i].id, Queued))
  }

  function SourceJob(p: int, r: int, row: nat, component: Id, retry: Retry, now: int): Job {
    Job(p, r, row, component, Queued, 0, retry.maxAttempts, retry.delay, now, None, None, None, None, 0)
  }

  /** The retry columns a job row is inserted with; the tables default them to one attempt without delay. */
  datatype Retry = Retry(maxAttempts: int, delay: int)

  function SourceJobs(p: int, r: int, components: seq<Step>, base: nat, retry: Retry, now: int): seq<Job> {
    if components == [] then []
    else
      var last := |components| - 1;
      SourceJobs(p, r, components[..last], base, retry, now)
      + (if components[last].kind.Source? then [SourceJob(p, r, base + last, components[last].id, retry, now)] else [])
  }

  /** One run step per component and one queued job per Source. */
  function AddRows(db: Db, p: int, r: int, retry: Retry, now: int): Db
    requires p in db.pipelines
  {
    var components := db.pipelines[p].graph.steps;
    db.(steps := db.steps + StepRows(r, components),
        jobs := db.jobs + SourceJobs(p, r, components, |db.steps|, retry, now))
  }

  function Activate(db: Db, p: int, r: int, retry: Retry, now: int): Db
    requires p in db.pipelines && r in db.runs
  {
    AddRows(db.(runs := db.runs[r := db.runs[r].(isActive := true)]), p, r, retry, now)
  }

  datatype RunRequest = RunRequest(pipeline: int, scheduledFor: Option<int>, trigger: Option<int>)

  function NewRun(request: RunRequest, isActive: bool, now: int): Run {
    Run(request.pipeline, Queued, isActive, request.scheduledFor, now, request.trigger, false)
  }

  /** Which waiting run the transaction has to promote before it inserts the new one. */
  ghost predicate PromotionDue(runs: map<int, Run>, p: int, promoted: Option<int>) {
    if HasActive(runs, p) then promoted == None else Oldest(runs, p, promoted)
  }

  ghost predicate CanCreateRun(db: Db, request: RunRequest, r: int, promoted: Option<int>) {
    && request.pipeline in db.pipelines
    && db.pipelines[request.pipeline].state.Enabled?
    && r !in db.runs
    && PromotionDue(ReleaseTerminal(db.runs, request.pipeline), request.pipeline, promoted)
  }

  ghost function CreateRun(db: Db, request: RunRequest, r: int, promoted: Option<int>, retry: Retry, now: int): Db
    requires CanCreateRun(db, request, r, promoted)
  {
    var p := request.pipeline;
    var released := db.(runs := ReleaseTerminal(db.runs, p));
    if HasActive(released.runs, p) then
      released.(runs := released.runs[r := NewRun(request, false, now)])
    else match promoted
      case Some(o) =>
        var promotedDb := Activate(released, p, o, retry, now);
        promotedDb.(runs := promotedDb.runs[r := NewRun(request, false, now)])
      case None =>
        AddRows(released.(runs := released.runs[r := NewRun(request, true, now)]), p, r, retry, now)
  }

  /** One pass over a pipeline whose active run has ended. It looks only for waiting runs, never for a live one. */
  ghost predicate CanPromote(db: Db, p: int, promoted: Option<int>) {
    && p in db.pipelines
    && (exists r :: r in db.runs && db.runs[r].pipeline == p && db.runs[r].isActive && !db.runs[r].state.Live())
    && Oldest(ReleaseTerminal(db.runs, p), p, promoted)
  }

  ghost function Promote(db: Db, p: int, promoted: Option<int>, retry: Retry, now: int): Db
    requires CanPromote(db, p, promoted)
  {
    var released := db.(runs := ReleaseTerminal(db.runs, p));
    match promoted
    case Some(o) => Activate(released, p, o, retry, now)
    case None => released
  }

  // ---------- Worker queue statements ----------

  function ClaimJob(job: Job, w: int, now: int): Job {
    job.(state := Running, worker := Some(w), claimedAt := Some(now), heartbeatAt := Some(now), attempt := job.attempt + 1)
  }

  function HeartbeatJob(job: Job, now: int): Job {
    job.(heartbeatAt := Some(now))
  }

  function ReleaseJob(job: Job, now: int): Job {
    job.(state := Queued, availableAt := now, worker := None, claimedAt := None, heartbeatAt := None,
         releases := job.releases + 1)
  }

  function FailOrRequeueJob(job: Job, now: int): Job {
    if job.attempt < job.maxAttempts then
      job.(state := Queued, availableAt := now + job.delay, worker := None, claimedAt := None, heartbeatAt := None,
           completedAt := None)
    else
      job.(state := Failed, worker := None, claimedAt := None, heartbeatAt := None, completedAt := Some(now))
  }

  function CancelRunningJob(job: Job, now: int): Job {
    job.(state := Cancelled, worker := None, claimedAt := None, heartbeatAt := None, completedAt := Some(now))
  }

  function CancelQueuedJob(job: Job, now: int): Job {
    job.(state := Cancelled, completedAt := Some(now))
  }

  /** The claim time is left behind on purpose: the statement does not clear it. */
  function SucceedJob(job: Job, now: int): Job {
    job.(state := Succeeded, completedAt := Some(now), worker := None, heartbeatAt := None)
  }

  predicate Owned(db: Db, w: int, j: nat) {
    j < |db.jobs| && db.jobs[j].state.Running? && db.jobs[j].worker == Some(w)
  }

  function SetJob(db: Db, j: nat, job: Job): Db
    requires j < |db.jobs|
  {
    db.(jobs := db.jobs[j := job])
  }

  // ---------- Run and step statements ----------

  function SetRunState(db: Db, r: int, state: State): Db
    requires r in db.runs
  {
    db.(runs := db.runs[r := db.runs[r].(state := state)])
  }

  function SetStepState(db: Db, row: nat, state: State): Db
    requires row < |db.steps|
  {
    db.(steps := db.steps[row := db.steps[row].(state := state)])
  }

  /** UPDATE runs ... WHERE state = 'queued'. */
  function StartRunById(db: Db, r: int): Db {
    if r in db.runs && db.runs[r].state.Queued? then SetRunState(db, r, Running) else db
  }

  function StartStepById(db: Db, row: nat): Db {
    if row < |db.steps| && db.steps[row].state.Queued? then SetStepState(db, row, Running) else db
  }

  function SucceedStepById(db: Db, row: nat): Db {
    if row < |db.steps| && db.steps[row].state.Running? then SetStepState(db, row, Succeeded) else db
  }

  function FailStepById(db: Db, row: nat): Db {
    if row < |db.steps| && db.steps[row].state.Live() then SetStepState(db, row, Failed) else db
  }

  function FailRunById(db: Db, r: int): Db {
    if r in db.runs && db.runs[r].state.Live() then SetRunState(db, r, Failed) else db
  }

  ghost predicate AllStepsSucceeded(db: Db, r: int) {
    forall i :: 0 <= i < |db.steps| && db.steps[i].run == r ==> db.steps[i].state.Succeeded?
  }

  /** Both row counts of the finishing transaction are one. */
  ghost predicate FinishAccepted(db: Db, w: int, j: nat) {
    && Owned(db, w, j)
    && db.jobs[j].run in db.runs
    && db.runs[db.jobs[j].run].state.Running?
    && AllStepsSucceeded(db, db.jobs[j].run)
  }

  ghost predicate NoLiveJobs(db: Db, r: int) {
    forall j :: 0 <= j < |db.jobs| && db.jobs[j].run == r ==> !db.jobs[j].state.Live()
  }

  function CancelPending(jobs: seq<Job>, r: int, now: int): (after: seq<Job>)
    ensures |after| == |jobs|
    ensures forall j :: 0 <= j < |jobs| ==>
              after[j] == if jobs[j].run == r && jobs[j].state.Queued? then CancelQueuedJob(jobs[j], now) else jobs[j]
  {
    seq(|jobs|, j requires 0 <= j < |jobs| =>
      if jobs[j].run == r && jobs[j].state.Queued? then CancelQueuedJob(jobs[j], now) else jobs[j])
  }

  /** UPDATE jobs ... of a run whose cancellation was requested. */
  function CancelPendingForRun(db: Db, r: int, now: int): Db {
    if r in db.runs && db.runs[r].cancelRequested then db.(jobs := CancelPending(db.jobs, r, now)) else db
  }

  ghost predicate CanFinalize(db: Db, r: int) {
    r in db.runs && db.runs[r].state.Running? && db.runs[r].cancelRequested && NoLiveJobs(db, r)
  }

  /** UPDATE runs ... of a running run, cancelled on request, that has no queued or running job. */
  ghost function FinalizeRun(db: Db, r: int): Db {
    if CanFinalize(db, r) then SetRunState(db, r, Cancelled) else db
  }

  // ---------- Loading a plan ----------

  function KindOf(steps: seq<Step>, id: Id): Kind {
    if steps == [] then Transform else if steps[0].id == id then steps[0].kind else KindOf(steps[1..], id)
  }

  /** The components of the pipeline joined to the steps of the run, by step row. */
  function Join(g: Graph, steps: seq<RunStep>, r: int): seq<PlanNode> {
    if steps == [] then []
    else
      var last := |steps| - 1;
      Join(g, steps[..last], r)
      + (if steps[last].run == r && steps[last].component in StepIds(g.steps)
         then [PlanNode(steps[last].component, KindOf(g.steps, steps[last].component), last)] else [])
  }

  ghost predicate LoadsPlan(db: Db, j: nat, plan: seq<PlanNode>) {
    && j < |db.jobs|
    && db.jobs[j].pipeline in db.pipelines
    && var g := db.pipelines[db.jobs[j].pipeline].graph;
       IsPlan(Join(g, db.steps, db.jobs[j].run), g.edges, db.jobs[j].component, plan)
  }

  // ---------- Workers ----------

  /** Where a worker stands in its handling of one job. */
  datatype Phase =
    | Idle
    | Claimed(job: nat)
    | Planned(job: nat, plan: seq<PlanNode>)
    | AtStep(job: nat, plan: seq<PlanNode>, k: nat, started: bool)
    | Finishing(job: nat, plan: seq<PlanNode>)
    | Settling(job: nat, plan: seq<PlanNode>)
    | Cancelling(job: nat, plan: seq<PlanNode>, k: nat)
    | Finalizing(job: nat, plan: seq<PlanNode>, k: nat)
    | Failing(job: nat, current: Option<(seq<PlanNode>, nat)>)
    | FailingRun(job: nat, plan: seq<PlanNode>, k: nat)
    | AfterFailure(job: nat)

  datatype Sys = Sys(db: Db, workers: map<int, Phase>, plans: map<int, seq<PlanNode>>) {
    function PhaseOf(w: int): Phase {
      if w in workers then workers[w] else Idle
    }

    function At(w: int, phase: Phase): Sys {
      this.(workers := workers[w := phase])
    }
  }

  datatype Action =
    | ACreatePipeline(p: int, g: Graph)
    | ADeletePipeline(p: int)
    | AUpdatePipeline(p: int, g: Graph, ps: PipelineState)
    | ASetPipelineState(p: int, ps: PipelineState)
    | ACreateRun(request: RunRequest, r: int, promoted: Option<int>, retry: Retry, now: int)
    | APromote(p: int, promoted: Option<int>, retry: Retry, now: int)
    | ARequestCancellation(r: int)
    | ADropTrigger(t: int)
    | AClaim(w: int, j: nat, now: int)
    | AHeartbeat(w: int, j: nat, now: int)
    | ARelease(w: int, j: nat, now: int)
    | ALoadPlan(w: int, plan: seq<PlanNode>)
    | AStartRun(w: int)
    | AStartStep(w: int)
    | ASucceedStep(w: int)
    | AFinishSuccess(w: int, now: int)
    | AFinishRejected(w: int)
    | ARaise(w: int)
    | ARaiseAfter(w: int)
    | AQueueFail(w: int, now: int)
    | AFinishFailure(w: int)
    | ACancelOwned(w: int, now: int)
    | ADone(w: int)
    | ACrash(w: int)
    | ACancelPending(w: int, now: int)
    | AFinalizeCancelled(w: int)

  /** What the worker has in hand when an exception reaches the end of run_once. */
  function CurrentOf(phase: Phase): Option<(seq<PlanNode>, nat)> {
    match phase
    case AtStep(_, plan, k, _) => Some((plan, k))
    case Finishing(_, plan) => if plan == [] then None else Some((plan, |plan| - 1))
    case Cancelling(_, plan, k) => Some((plan, k))
    case Finalizing(_, plan, k) => Some((plan, k))
    case _ => None
  }

  /** The worker a step belongs to. */
  function Actor(a: Action): Option<int> {
    match a
    case AClaim(w, _, _) => Some(w)
    case ARelease(w, _, _) => Some(w)
    case ALoadPlan(w, _) => Some(w)
    case AStartRun(w) => Some(w)
    case AStartStep(w) => Some(w)
    case ASucceedStep(w) => Some(w)
    case AFinishSuccess(w, _) => Some(w)
    case AFinishRejected(w) => Some(w)
    case ARaise(w) => Some(w)
    case ARaiseAfter(w) => Some(w)
    case AQueueFail(w, _) => Some(w)
    case AFinishFailure(w) => Some(w)
    case ACancelOwned(w, _) => Some(w)
    case ACancelPending(w, _) => Some(w)
    case AFinalizeCancelled(w) => Some(w)
    case ADone(w) => Some(w)
    case ACrash(w) => Some(w)
    case _ => None
  }

  /** The worker has the job in hand and has not failed it. */
  predicate WorksOn(phase: Phase, j: nat) {
    (phase.Claimed? || phase.Planned? || phase.AtStep? || phase.Finishing?) && phase.job == j
  }

  /** Starting the run, or marking a step succeeded, is committed before the exception; `current` is as it was. */
  function CurrentBefore(phase: Phase): Option<(seq<PlanNode>, nat)>
    requires phase.AtStep?
  {
    if phase.k == 0 then None else Some((phase.plan, phase.k - 1))
  }

  /** Deleting a trigger empties the reference its runs have to it. */
  function DropTrigger(runs: map<int, Run>, t: int): (after: map<int, Run>)
    ensures after.Keys == runs.Keys
  {
    map r | r in runs :: if runs[r].trigger == Some(t) then runs[r].(trigger := None) else runs[r]
  }

  ghost predicate Allowed(s: Sys, a: Action) {
    var db := s.db;
    match a
    case ACreatePipeline(p, g) => p !in db.pipelines && SaveValid(g)
    case ADeletePipeline(p) => p in db.pipelines && forall r :: r in db.runs ==> db.runs[r].pipeline != p
    case AUpdatePipeline(p, g, ps) => p in db.pipelines && Editable(db.runs, p) && SaveValid(g)
    case ASetPipelineState(p, ps) =>
      p in db.pipelines && Editable(db.runs, p) && (ps.Enabled? ==> StructurallyExecutable(db.pipelines[p].graph))
    case ACreateRun(request, r, promoted, _, _) => CanCreateRun(db, request, r, promoted)
    case APromote(p, promoted, _, _) => CanPromote(db, p, promoted)
    case ARequestCancellation(r) =>
      r in db.runs && db.runs[r].isActive && db.runs[r].state.Live() && !db.runs[r].cancelRequested
    case ADropTrigger(t) => true
    case AClaim(w, j, now) =>
      s.PhaseOf(w).Idle? && j < |db.jobs| && db.jobs[j].state.Queued? && db.jobs[j].availableAt <= now
    case AHeartbeat(w, j, _) => Owned(db, w, j)
    case ARelease(w, j, _) => WorksOn(s.PhaseOf(w), j) && Owned(db, w, j)
    case ALoadPlan(w, plan) => s.PhaseOf(w).Claimed? && LoadsPlan(db, s.PhaseOf(w).job, plan)
    case AStartRun(w) => s.PhaseOf(w).Planned? && s.PhaseOf(w).job < |db.jobs|
    case AStartStep(w) =>
      s.PhaseOf(w).AtStep? && !s.PhaseOf(w).started && s.PhaseOf(w).k < |s.PhaseOf(w).plan|
    case ASucceedStep(w) =>
      s.PhaseOf(w).AtStep? && s.PhaseOf(w).started && s.PhaseOf(w).k < |s.PhaseOf(w).plan|
    case AFinishSuccess(w, _) => s.PhaseOf(w).Finishing? && FinishAccepted(db, w, s.PhaseOf(w).job)
    case AFinishRejected(w) => s.PhaseOf(w).Finishing? && !FinishAccepted(db, w, s.PhaseOf(w).job)
    case ARaise(w) =>
      s.PhaseOf(w).Claimed? || s.PhaseOf(w).Planned? || s.PhaseOf(w).AtStep? || s.PhaseOf(w).Finishing?
      || s.PhaseOf(w).Settling? || s.PhaseOf(w).Cancelling? || s.PhaseOf(w).Finalizing?
    case ARaiseAfter(w) => s.PhaseOf(w).AtStep? && !s.PhaseOf(w).started
    case AQueueFail(w, _) => s.PhaseOf(w).Failing?
    case AFinishFailure(w) =>
      s.PhaseOf(w).FailingRun? && s.PhaseOf(w).job < |db.jobs| && s.PhaseOf(w).k < |s.PhaseOf(w).plan|
    case ACancelOwned(w, _) =>
      && s.PhaseOf(w).AtStep? && s.PhaseOf(w).k < |s.PhaseOf(w).plan|
      && Owned(db, w, s.PhaseOf(w).job) && db.jobs[s.PhaseOf(w).job].run in db.runs
      && db.runs[db.jobs[s.PhaseOf(w).job].run].cancelRequested
    case ADone(w) => s.PhaseOf(w).Settling? || s.PhaseOf(w).AfterFailure?
    case ACrash(w) => true
    case ACancelPending(w, _) => s.PhaseOf(w).Cancelling? && s.PhaseOf(w).job < |db.jobs|
    case AFinalizeCancelled(w) => s.PhaseOf(w).Finalizing? && s.PhaseOf(w).job < |db.jobs|
  }

  ghost function Next(s: Sys, a: Action): Sys
    requires Allowed(s, a)
  {
    var db := s.db;
    match a
    case ACreatePipeline(p, g) => s.(db := db.(pipelines := db.pipelines[p := Pipeline(Draft, g)]))
    case ADeletePipeline(p) => s.(db := db.(pipelines := db.pipelines - {p}))
    case AUpdatePipeline(p, g, ps) => s.(db := db.(pipelines := db.pipelines[p := Pipeline(ps, g)]))
    case ASetPipelineState(p, ps) => s.(db := db.(pipelines := db.pipelines[p := db.pipelines[p].(state := ps)]))
    case ACreateRun(request, r, promoted, retry, now) => s.(db := CreateRun(db, request, r, promoted, retry, now))
    case APromote(p, promoted, retry, now) => s.(db := Promote(db, p, promoted, retry, now))
    case ARequestCancellation(r) => s.(db := db.(runs := db.runs[r := db.runs[r].(cancelRequested := true)]))
    case ADropTrigger(t) => s.(db := db.(runs := DropTrigger(db.runs, t)))
    case AClaim(w, j, now) => s.(db := SetJob(db, j, ClaimJob(db.jobs[j], w, now))).At(w, Claimed(j))
    case AHeartbeat(w, j, now) => s.(db := SetJob(db, j, HeartbeatJob(db.jobs[j], now)))
    case ARelease(w, j, now) => s.(db := SetJob(db, j, ReleaseJob(db.jobs[j], now))).At(w, Idle)
    case ALoadPlan(w, plan) =>
      var j := s.PhaseOf(w).job;
      s.(plans := s.plans[db.jobs[j].run := plan]).At(w, Planned(j, plan))
    case AStartRun(w) =>
      var phase := s.PhaseOf(w);
      s.(db := StartRunById(db, db.jobs[phase.job].run)).At(w, AtStep(phase.job, phase.plan, 0, false))
    case AStartStep(w) =>
      var phase := s.PhaseOf(w);
      s.(db := StartStepById(db, phase.plan[phase.k].row)).At(w, phase.(started := true))
    case ASucceedStep(w) =>
      var phase := s.PhaseOf(w);
      s.(db := SucceedStepById(db, phase.plan[phase.k].row))
       .At(w, if phase.k + 1 < |phase.plan| then AtStep(phase.job, phase.plan, phase.k + 1, false)
              else Finishing(phase.job, phase.plan))
    case AFinishSuccess(w, now) =>
      var phase := s.PhaseOf(w);
      s.(db := SetRunState(SetJob(db, phase.job, SucceedJob(db.jobs[phase.job], now)), db.jobs[phase.job].run, Succeeded))
       .At(w, Settling(phase.job, phase.plan))
    case AFinishRejected(w) => s.At(w, Failing(s.PhaseOf(w).job, CurrentOf(s.PhaseOf(w))))
    case ARaise(w) => s.At(w, Failing(s.PhaseOf(w).job, CurrentOf(s.PhaseOf(w))))
    case ARaiseAfter(w) => s.At(w, Failing(s.PhaseOf(w).job, CurrentBefore(s.PhaseOf(w))))
    case AQueueFail(w, now) =>
      var phase := s.PhaseOf(w);
      if Owned(db, w, phase.job) then
        var failed := FailOrRequeueJob(db.jobs[phase.job], now);
        s.(db := SetJob(db, phase.job, failed))
         .At(w, if failed.state.Failed? && phase.current.Some?
                then FailingRun(phase.job, phase.current.value.0, phase.current.value.1) else Idle)
      else s.At(w, Idle)
    case AFinishFailure(w) =>
      var phase := s.PhaseOf(w);
      s.(db := FailRunById(FailStepById(db, phase.plan[phase.k].row), db.jobs[phase.job].run))
       .At(w, AfterFailure(phase.job))
    case ACancelOwned(w, now) =>
      var phase := s.PhaseOf(w);
      s.(db := SetJob(db, phase.job, CancelRunningJob(db.jobs[phase.job], now)))
       .At(w, Cancelling(phase.job, phase.plan, phase.k))
    case ADone(w) => s.At(w, Idle)
    case ACrash(w) => s.At(w, Idle)
    case ACancelPending(w, now) =>
      var phase := s.PhaseOf(w);
      s.(db := CancelPendingForRun(db, db.jobs[phase.job].run, now)).At(w, Finalizing(phase.job, phase.plan, phase.k))
    case AFinalizeCancelled(w) =>
      var phase := s.PhaseOf(w);
      s.(db := FinalizeRun(db, db.jobs[phase.job].run)).At(w, Failing(phase.job, CurrentOf(phase)))
  }

  const Empty := Sys(Db(map[], map[], [], []), map[], map[])

  /** A run of the whole system: every state follows from the one before by an allowed step. */
  ghost predicate Execution(states: seq<Sys>, actions: seq<Action>) {
    && |states| == |actions| + 1
    && states[0] == Empty
    && forall i :: 0 <= i < |actions| ==> Allowed(states[i], actions[i]) && states[i + 1] == Next(states[i], actions[i])
  }

  ghost predicate Reachable(s: Sys) {
    exists states, actions :: Execution(states, actions) && states[|states| - 1] == s
  }
}
