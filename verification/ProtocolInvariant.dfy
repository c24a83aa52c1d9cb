/** What holds in every reachable state of the shared rows and the workers. */
module ProtocolInvariant {
  import opened Wrappers
  import opened Graphs
  import opened SaveValidation
  import opened Chains
  import opened ExecutionPlan
  import opened Protocol

  // ---------- Runs ----------

  ghost predicate OneActive(runs: map<int, Run>) {
    forall a, b :: a in runs && b in runs && runs[a].isActive && runs[b].isActive && runs[a].pipeline == runs[b].pipeline
                   ==> a == b
  }

  ghost predicate ActiveRunOf(runs: map<int, Run>, p: int, r: int) {
    r in runs && runs[r].pipeline == p && runs[r].isActive
  }

  /** A waiting run has an active one ahead of it. */
  ghost predicate WaitingIsBacked(runs: map<int, Run>) {
    forall a :: a in runs && runs[a].Waiting() ==> exists b :: ActiveRunOf(runs, runs[a].pipeline, b)
  }

  ghost predicate RunningIsActive(runs: map<int, Run>) {
    forall a :: a in runs && runs[a].state.Running? ==> runs[a].isActive
  }

  ghost predicate WaitingIsUntouched(runs: map<int, Run>) {
    forall a :: a in runs && runs[a].Waiting() ==> !runs[a].cancelRequested
  }

  /** Work that has not ended keeps its pipeline in place and enabled. */
  ghost predicate LiveKeepsPipeline(db: Db) {
    forall a :: a in db.runs && db.runs[a].state.Live() ==>
      db.runs[a].pipeline in db.pipelines && db.pipelines[db.runs[a].pipeline].state.Enabled?
  }

  ghost predicate RunsInv(db: Db) {
    && OneActive(db.runs)
    && WaitingIsBacked(db.runs)
    && RunningIsActive(db.runs)
    && WaitingIsUntouched(db.runs)
    && LiveKeepsPipeline(db)
  }

  /** Every stored graph has passed save validation. */
  ghost predicate GraphsSaved(db: Db) {
    forall p {:trigger db.pipelines[p]} :: p in db.pipelines ==> SaveValid(db.pipelines[p].graph)
  }

  // ---------- Step and job rows ----------

  ghost predicate HasRow(steps: seq<RunStep>, r: int, component: Id) {
    exists i :: 0 <= i < |steps| && steps[i].run == r && steps[i].component == component
  }

  ghost predicate HasJob(jobs: seq<Job>, r: int, component: Id) {
    exists j :: 0 <= j < |jobs| && jobs[j].run == r && jobs[j].component == component
  }

  /** Rows belong to activated runs, one per component. */
  ghost predicate StepRowsInv(db: Db) {
    && (forall i :: 0 <= i < |db.steps| ==> db.steps[i].run in db.runs && !db.runs[db.steps[i].run].Waiting())
    && (forall i, j :: 0 <= i < j < |db.steps| && db.steps[i].run == db.steps[j].run ==>
          db.steps[i].component != db.steps[j].component)
  }

  /** Jobs belong to a step of their run, one per step. */
  ghost predicate JobKeysInv(db: Db) {
    && (forall j :: 0 <= j < |db.jobs| ==>
          && db.jobs[j].run in db.runs
          && db.jobs[j].pipeline == db.runs[db.jobs[j].run].pipeline
          && db.jobs[j].step < |db.steps|
          && db.steps[db.jobs[j].step].run == db.jobs[j].run
          && db.steps[db.jobs[j].step].component == db.jobs[j].component)
    && (forall i, j :: 0 <= i < j < |db.jobs| ==> db.jobs[i].step != db.jobs[j].step)
  }

  ghost predicate ActiveGraph(db: Db, r: int, g: Graph) {
    r in db.runs && db.runs[r].isActive && db.runs[r].state.Live()
    && db.runs[r].pipeline in db.pipelines && db.pipelines[db.runs[r].pipeline].graph == g
  }

  /** While a run is live its rows are those of its pipeline's components, and its jobs those of the Sources. */
  ghost predicate RowsMatchGraph(db: Db, r: int, g: Graph) {
    && (forall i :: 0 <= i < |db.steps| && db.steps[i].run == r ==> db.steps[i].component in StepIds(g.steps))
    && (forall c :: c in g.steps ==> HasRow(db.steps, r, c.id))
    && (forall j :: 0 <= j < |db.jobs| && db.jobs[j].run == r ==> KindOf(g.steps, db.jobs[j].component).Source?)
    && (forall c :: c in g.steps && c.kind.Source? ==> HasJob(db.jobs, r, c.id))
  }

  ghost predicate LiveRowsInv(db: Db) {
    forall r, g :: ActiveGraph(db, r, g) ==> RowsMatchGraph(db, r, g)
  }

  /** Queued and running jobs belong to the active run of their pipeline while that run has not ended. */
  ghost predicate LiveJobsInv(db: Db) {
    forall j :: 0 <= j < |db.jobs| && db.jobs[j].state.Live() ==>
      db.jobs[j].run in db.runs && db.runs[db.jobs[j].run].isActive && db.runs[db.jobs[j].run].state.Live()
  }

  // ---------- One job row ----------

  function Max(a: int, b: int): int { if a > b then a else b }

  ghost predicate JobRowInv(job: Job) {
    && (job.state.Running? ==> job.worker.Some? && job.claimedAt.Some? && job.heartbeatAt.Some?)
    && (!job.state.Running? ==> job.worker.None? && job.heartbeatAt.None?)
    && (!job.state.Running? && !job.state.Succeeded? ==> job.claimedAt.None?)
    && (job.state.Succeeded? ==> job.claimedAt.Some?)
    && (job.completedAt.Some? <==> !job.state.Live())
    && !job.state.CompletedWithWarnings?
    && job.attempt <= Max(job.maxAttempts, 1) + job.releases
    && (job.state.Queued? ==> job.attempt < Max(job.maxAttempts, 1) + job.releases)
  }

  ghost predicate JobRowsInv(db: Db) {
    forall j :: 0 <= j < |db.jobs| ==> JobRowInv(db.jobs[j])
  }

  // ---------- Plans ----------

  ghost predicate PlanRows(db: Db, r: int, plan: seq<PlanNode>) {
    && plan != []
    && (forall k :: 0 <= k < |plan| ==>
          plan[k].row < |db.steps| && db.steps[plan[k].row].run == r && db.steps[plan[k].row].component == plan[k].id)
    && (forall k, m :: 0 <= k < m < |plan| ==> plan[k].row != plan[m].row)
    && (forall i :: 0 <= i < |db.steps| && db.steps[i].run == r ==> exists k :: 0 <= k < |plan| && plan[k].row == i)
  }

  ghost predicate OneJob(db: Db, r: int) {
    forall a, b :: 0 <= a < |db.jobs| && 0 <= b < |db.jobs| && db.jobs[a].run == r && db.jobs[b].run == r ==> a == b
  }

  /** Along the plan: succeeded steps, then at most one running or failed step, then queued steps. */
  ghost predicate Progress(steps: seq<RunStep>, plan: seq<PlanNode>)
    requires forall k :: 0 <= k < |plan| ==> plan[k].row < |steps|
  {
    forall k, m :: 0 <= k < m < |plan| && !steps[plan[m].row].state.Queued? ==> steps[plan[k].row].state.Succeeded?
  }

  ghost predicate PlanIsCurrent(db: Db, r: int, plan: seq<PlanNode>) {
    forall g :: ActiveGraph(db, r, g) ==> IsChain(Join(g, db.steps, r), g.edges, plan)
  }

  ghost predicate PlanInv(db: Db, r: int, plan: seq<PlanNode>) {
    && r in db.runs && !db.runs[r].Waiting()
    && PlanRows(db, r, plan)
    && OneJob(db, r)
    && Progress(db.steps, plan)
  }

  ghost predicate PlansInv(s: Sys) {
    forall r :: r in s.plans ==> PlanInv(s.db, r, s.plans[r])
  }

  ghost predicate PlansCurrent(s: Sys) {
    forall r :: r in s.plans ==> PlanIsCurrent(s.db, r, s.plans[r])
  }

  /** A step fails only with its run; a run succeeds only with all its steps; no step is cancelled. */
  ghost predicate StepStatesInv(db: Db) {
    && (forall i :: 0 <= i < |db.steps| ==> db.steps[i].run in db.runs)
    && (forall i :: 0 <= i < |db.steps| ==> !db.steps[i].state.Cancelled? && !db.steps[i].state.CompletedWithWarnings?)
    && (forall i :: 0 <= i < |db.steps| && db.steps[i].state.Failed? ==> !db.runs[db.steps[i].run].state.Live())
    && (forall i :: 0 <= i < |db.steps| && db.runs[db.steps[i].run].state.Succeeded? ==> db.steps[i].state.Succeeded?)
  }

  /** No step starts before a plan has been loaded for its run. */
  ghost predicate UnplannedInv(s: Sys) {
    forall i :: 0 <= i < |s.db.steps| && s.db.steps[i].run !in s.plans ==> s.db.steps[i].state.Queued?
  }

  // ---------- Workers ----------

  ghost predicate Holds(s: Sys, j: nat, plan: seq<PlanNode>) {
    && j < |s.db.jobs| && s.db.jobs[j].run in s.db.runs
    && s.db.jobs[j].run in s.plans && s.plans[s.db.jobs[j].run] == plan
  }

  ghost predicate StateAt(db: Db, plan: seq<PlanNode>, k: nat, states: set<State>) {
    k < |plan| && plan[k].row < |db.steps| && db.steps[plan[k].row].state in states
  }

  ghost predicate DoneBefore(db: Db, plan: seq<PlanNode>, n: nat) {
    n <= |plan| && forall k :: 0 <= k < n ==> plan[k].row < |db.steps| && db.steps[plan[k].row].state.Succeeded?
  }

  ghost predicate RunOfIs(db: Db, j: nat, state: State) {
    j < |db.jobs| && db.jobs[j].run in db.runs && db.runs[db.jobs[j].run].state == state
  }

  /** The job was cancelled on request while its run was running. */
  ghost predicate CancelledJob(db: Db, j: nat) {
    && j < |db.jobs| && db.jobs[j].state.Cancelled? && db.jobs[j].run in db.runs
    && !db.runs[db.jobs[j].run].state.Queued? && db.runs[db.jobs[j].run].cancelRequested
  }

  ghost predicate WorkerOk(s: Sys, w: int, phase: Phase) {
    match phase
    case Idle => true
    case Claimed(j) => Owned(s.db, w, j)
    case Planned(j, plan) => Owned(s.db, w, j) && Holds(s, j, plan)
    case AtStep(j, plan, k, started) =>
      && Owned(s.db, w, j) && Holds(s, j, plan) && RunOfIs(s.db, j, Running)
      && k < |plan| && DoneBefore(s.db, plan, k) && (started ==> StateAt(s.db, plan, k, {Running, Succeeded}))
    case Finishing(j, plan) =>
      Owned(s.db, w, j) && Holds(s, j, plan) && RunOfIs(s.db, j, Running) && plan != [] && DoneBefore(s.db, plan, |plan|)
    case Settling(j, plan) => RunOfIs(s.db, j, Succeeded) && s.db.jobs[j].state.Succeeded?
    case Cancelling(j, plan, k) => Holds(s, j, plan) && k < |plan| && DoneBefore(s.db, plan, k) && CancelledJob(s.db, j)
    case Finalizing(j, plan, k) => Holds(s, j, plan) && k < |plan| && DoneBefore(s.db, plan, k) && CancelledJob(s.db, j)
    case Failing(j, current) =>
      && j < |s.db.jobs| && (Owned(s.db, w, j) || !s.db.jobs[j].state.Live())
      && (current.Some? ==>
            && Holds(s, j, current.value.0) && current.value.1 < |current.value.0|
            && DoneBefore(s.db, current.value.0, current.value.1)
            && (Owned(s.db, w, j) ==> RunOfIs(s.db, j, Running)))
    case FailingRun(j, plan, k) =>
      Holds(s, j, plan) && s.db.jobs[j].state.Failed? && k < |plan| && DoneBefore(s.db, plan, k)
    case AfterFailure(j) =>
      j < |s.db.jobs| && s.db.jobs[j].run in s.db.runs && !s.db.runs[s.db.jobs[j].run].state.Live()
  }

  ghost predicate WorkersInv(s: Sys) {
    forall w :: w in s.workers ==> WorkerOk(s, w, s.workers[w])
  }

  ghost predicate Inv(s: Sys) {
    && RunsInv(s.db)
    && GraphsSaved(s.db)
    && StepRowsInv(s.db)
    && JobKeysInv(s.db)
    && LiveRowsInv(s.db)
    && LiveJobsInv(s.db)
    && JobRowsInv(s.db)
    && StepStatesInv(s.db)
    && PlansInv(s)
    && PlansCurrent(s)
    && UnplannedInv(s)
    && WorkersInv(s)
  }
}
