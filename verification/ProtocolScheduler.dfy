/** Every transaction of the editors and of the scheduler keeps the invariant. */
module ProtocolScheduler {
  import opened Wrappers
  import opened Graphs
  import opened SaveValidation
  import opened Chains
  import opened ExecutionPlan
  import opened Protocol
  import opened ProtocolInvariant

  // ---------- Editors ----------

  /** A pipeline without live runs may be given any saved graph and any state. */
  lemma EditKeeps(s: Sys, p: int, pipeline: Pipeline)
    requires Inv(s) && Editable(s.db.runs, p) && SaveValid(pipeline.graph)
    ensures Inv(s.(db := s.db.(pipelines := s.db.pipelines[p := pipeline])))
  {
    var s' := s.(db := s.db.(pipelines := s.db.pipelines[p := pipeline]));
    EditKeepsGraphs(s.db, p, pipeline);
    PipelinesChanged(s, s');
  }

  lemma EditKeepsGraphs(db: Db, p: int, pipeline: Pipeline)
    requires GraphsSaved(db) && SaveValid(pipeline.graph)
    ensures GraphsSaved(db.(pipelines := db.pipelines[p := pipeline]))
  {
  }

  ghost predicate PipelinesOnly(s: Sys, s': Sys) {
    && s' == s.(db := s.db.(pipelines := s'.db.pipelines))
    && forall r :: r in s.db.runs && s.db.runs[r].state.Live() ==>
         var p := s.db.runs[r].pipeline;
         p in s'.db.pipelines && (p in s.db.pipelines ==> s'.db.pipelines[p] == s.db.pipelines[p])
  }

  lemma PipelinesKeepGraph(s: Sys, s': Sys, r: int, g: Graph)
    requires RunsInv(s.db) && PipelinesOnly(s, s') && ActiveGraph(s'.db, r, g)
    ensures ActiveGraph(s.db, r, g)
  {
  }

  lemma PipelinesKeepRows(s: Sys, s': Sys)
    requires RunsInv(s.db) && PipelinesOnly(s, s') && LiveRowsInv(s.db) && PlansCurrent(s)
    ensures LiveRowsInv(s'.db) && PlansCurrent(s')
  {
    forall r, g | ActiveGraph(s'.db, r, g) ensures RowsMatchGraph(s'.db, r, g) {
      PipelinesKeepGraph(s, s', r, g);
    }
    forall r, g | r in s'.plans && ActiveGraph(s'.db, r, g)
      ensures IsChain(Join(g, s'.db.steps, r), g.edges, s'.plans[r])
    {
      PipelinesKeepGraph(s, s', r, g);
      assert PlanIsCurrent(s.db, r, s.plans[r]);
    }
  }

  lemma PipelinesKeepWorkers(s: Sys, s': Sys)
    requires PipelinesOnly(s, s') && WorkersInv(s) && PlansInv(s)
    ensures WorkersInv(s') && PlansInv(s')
  {
    forall w | w in s'.workers ensures WorkerOk(s', w, s'.workers[w]) {
      assert WorkerOk(s, w, s.workers[w]);
    }
    forall r | r in s'.plans ensures PlanInv(s'.db, r, s'.plans[r]) {
      assert PlanInv(s.db, r, s.plans[r]);
    }
  }

  lemma PipelinesChanged(s: Sys, s': Sys)
    requires Inv(s) && PipelinesOnly(s, s') && GraphsSaved(s'.db) && LiveKeepsPipeline(s'.db)
    ensures Inv(s')
  {
    PipelinesKeepRows(s, s');
    PipelinesKeepWorkers(s, s');
  }

  lemma CreatePipelineKeeps(s: Sys, p: int, g: Graph)
    requires Inv(s) && Allowed(s, ACreatePipeline(p, g))
    ensures Inv(Next(s, ACreatePipeline(p, g)))
  {
    EditKeeps(s, p, Pipeline(Draft, g));
  }

  lemma UpdatePipelineKeeps(s: Sys, p: int, g: Graph, ps: PipelineState)
    requires Inv(s) && Allowed(s, AUpdatePipeline(p, g, ps))
    ensures Inv(Next(s, AUpdatePipeline(p, g, ps)))
  {
    EditKeeps(s, p, Pipeline(ps, g));
  }

  lemma SetPipelineStateKeeps(s: Sys, p: int, ps: PipelineState)
    requires Inv(s) && Allowed(s, ASetPipelineState(p, ps))
    ensures Inv(Next(s, ASetPipelineState(p, ps)))
  {
    assert SaveValid(s.db.pipelines[p].graph);
    EditKeeps(s, p, s.db.pipelines[p].(state := ps));
  }

  lemma DeletePipelineKeeps(s: Sys, p: int)
    requires Inv(s) && Allowed(s, ADeletePipeline(p))
    ensures Inv(Next(s, ADeletePipeline(p)))
  {
    var s' := Next(s, ADeletePipeline(p));
    DeleteKeepsGraphs(s.db, p);
    PipelinesChanged(s, s');
  }

  lemma DeleteKeepsGraphs(db: Db, p: int)
    requires GraphsSaved(db)
    ensures GraphsSaved(db.(pipelines := db.pipelines - {p}))
  {
  }

  // ---------- The parts of a scheduler transaction ----------

  ghost predicate RunsCore(db: Db) {
    OneActive(db.runs) && RunningIsActive(db.runs) && WaitingIsUntouched(db.runs) && LiveKeepsPipeline(db)
  }

  /** The invariant without the promise that waiting runs have an active one ahead, which holds only at the end. */
  ghost predicate Core(s: Sys) {
    && RunsCore(s.db)
    && GraphsSaved(s.db)
    && StepRowsInv(s.db)
    && JobKeysInv(s.db)
    && LiveRowsInv(s.db)
    && LiveJobsInv(s.db)
    && JobRowsInv(s.db)
    && StepStatesInv(s.db)
    && PlansInv(s)
    && PlansCurrent(s)
    && UnplannedInv(s)
    && WorkersInv(s)
  }

  lemma CoreIsInv(s: Sys)
    ensures Inv(s) <==> Core(s) && WaitingIsBacked(s.db.runs)
  {
  }

  /** Runs are added or change only their activity; rows and pipelines stay. */
  ghost predicate ActivityOnly(db: Db, db': Db) {
    && db' == db.(runs := db'.runs)
    && db.runs.Keys <= db'.runs.Keys
    && forall r :: r in db.runs ==>
         && db'.runs[r] == db.runs[r].(isActive := db'.runs[r].isActive)
         && (db.runs[r].state.Live() ==> db'.runs[r].isActive == db.runs[r].isActive)
  }

  lemma ActivityKeepsWorkers(s: Sys, s': Sys)
    requires WorkersInv(s) && ActivityOnly(s.db, s'.db) && s' == s.(db := s'.db)
    ensures WorkersInv(s')
  {
    forall w | w in s'.workers ensures WorkerOk(s', w, s'.workers[w]) {
      assert WorkerOk(s, w, s.workers[w]);
    }
  }

  lemma ActivityKeepsPlans(s: Sys, s': Sys)
    requires PlansInv(s) && PlansCurrent(s) && ActivityOnly(s.db, s'.db) && s' == s.(db := s'.db)
    ensures PlansInv(s') && PlansCurrent(s')
  {
    forall r | r in s'.plans ensures PlanInv(s'.db, r, s'.plans[r]) && PlanIsCurrent(s'.db, r, s'.plans[r]) {
      assert PlanInv(s.db, r, s.plans[r]) && PlanIsCurrent(s.db, r, s.plans[r]);
      forall g | ActiveGraph(s'.db, r, g) ensures IsChain(Join(g, s'.db.steps, r), g.edges, s'.plans[r]) {
        assert ActiveGraph(s.db, r, g);
      }
    }
  }

  /** New runs have no rows yet. */
  ghost predicate NewRunsWait(db: Db, db': Db) {
    forall r :: r in db'.runs && r !in db.runs ==> db'.runs[r].Waiting()
  }

  lemma ActivityKeepsRows(db: Db, db': Db)
    requires ActivityOnly(db, db') && NewRunsWait(db, db')
    requires StepRowsInv(db) && JobKeysInv(db) && LiveJobsInv(db) && StepStatesInv(db)
    ensures StepRowsInv(db') && JobKeysInv(db') && LiveJobsInv(db') && StepStatesInv(db')
  {
  }

  lemma ActivityKeepsLiveRows(db: Db, db': Db)
    requires ActivityOnly(db, db') && NewRunsWait(db, db') && LiveRowsInv(db)
    ensures LiveRowsInv(db')
  {
    forall r, g | ActiveGraph(db', r, g) ensures RowsMatchGraph(db', r, g) {
      assert ActiveGraph(db, r, g);
    }
  }

  lemma ActivityKeepsCore(s: Sys, s': Sys)
    requires Core(s) && ActivityOnly(s.db, s'.db) && NewRunsWait(s.db, s'.db) && s' == s.(db := s'.db)
    requires RunsCore(s'.db)
    ensures Core(s')
  {
    ActivityKeepsWorkers(s, s');
    ActivityKeepsPlans(s, s');
    ActivityKeepsRows(s.db, s'.db);
    ActivityKeepsLiveRows(s.db, s'.db);
    assert GraphsSaved(s'.db) by { GraphsUnchanged(s.db, s'.db); }
  }

  lemma GraphsUnchanged(db: Db, db': Db)
    requires GraphsSaved(db) && db'.pipelines == db.pipelines
    ensures GraphsSaved(db')
  {
  }

  lemma ReleaseKeepsCore(s: Sys, p: int)
    requires Core(s)
    ensures Core(s.(db := s.db.(runs := ReleaseTerminal(s.db.runs, p))))
  {
    ActivityKeepsCore(s, s.(db := s.db.(runs := ReleaseTerminal(s.db.runs, p))));
  }

  lemma InsertKeepsCore(s: Sys, r: int, run: Run)
    requires Core(s) && r !in s.db.runs && run.Waiting() && !run.cancelRequested
    requires run.pipeline in s.db.pipelines && s.db.pipelines[run.pipeline].state.Enabled?
    ensures Core(s.(db := s.db.(runs := s.db.runs[r := run])))
  {
    ActivityKeepsCore(s, s.(db := s.db.(runs := s.db.runs[r := run])));
  }

  // ---------- Activating a run ----------

  lemma {:induction false} KindOfStep(steps: seq<Step>, i: nat)
    requires UniqueIds(steps) && i < |steps|
    ensures KindOf(steps, steps[i].id) == steps[i].kind
  {
    if i > 0 {
      KindOfStep(steps[1..], i - 1);
    }
  }

  ghost predicate JobFor(job: Job, p: int, r: int, components: seq<Step>, base: nat, retry: Retry, now: int, i: int) {
    0 <= i < |components| && components[i].kind.Source? && job == SourceJob(p, r, base + i, components[i].id, retry, now)
  }

  /** One job for each Source, in component order. */
  ghost predicate JobsFor(jobs: seq<Job>, p: int, r: int, components: seq<Step>, base: nat, retry: Retry, now: int) {
    && (forall j :: 0 <= j < |jobs| ==> JobFor(jobs[j], p, r, components, base, retry, now, jobs[j].step - base))
    && (forall j, k :: 0 <= j < k < |jobs| ==> jobs[j].step < jobs[k].step)
    && (forall i :: 0 <= i < |components| && components[i].kind.Source? ==> HasJob(jobs, r, components[i].id))
  }

  lemma {:induction false} SourceJobsAre(p: int, r: int, components: seq<Step>, base: nat, retry: Retry, now: int)
    ensures JobsFor(SourceJobs(p, r, components, base, retry, now), p, r, components, base, retry, now)
  {
    if components != [] {
      var last := |components| - 1;
      SourceJobsAre(p, r, components[..last], base, retry, now);
      var more := if components[last].kind.Source?
                  then [SourceJob(p, r, base + last, components[last].id, retry, now)] else [];
      OneMoreComponent(SourceJobs(p, r, components[..last], base, retry, now), more, p, r, components, base, retry, now);
    }
  }

  lemma JobKept(fewer: seq<Job>, more: seq<Job>, r: int, id: Id)
    requires HasJob(fewer, r, id)
    ensures HasJob(fewer + more, r, id)
  {
    var j :| 0 <= j < |fewer| && fewer[j].run == r && fewer[j].component == id;
    assert (fewer + more)[j] == fewer[j];
  }

  lemma OneMoreComponent(fewer: seq<Job>, more: seq<Job>, p: int, r: int, components: seq<Step>, base: nat,
                         retry: Retry, now: int)
    requires components != [] && JobsFor(fewer, p, r, components[..|components| - 1], base, retry, now)
    requires var last := |components| - 1;
             more == if components[last].kind.Source?
                     then [SourceJob(p, r, base + last, components[last].id, retry, now)] else []
    ensures JobsFor(fewer + more, p, r, components, base, retry, now)
  {
    var last := |components| - 1;
    var jobs := fewer + more;
    forall j | 0 <= j < |jobs| ensures JobFor(jobs[j], p, r, components, base, retry, now, jobs[j].step - base) {
      if j < |fewer| {
        assert JobFor(fewer[j], p, r, components[..last], base, retry, now, fewer[j].step - base);
      }
    }
    forall j, k | 0 <= j < k < |jobs| ensures jobs[j].step < jobs[k].step {
      assert JobFor(fewer[j], p, r, components[..last], base, retry, now, fewer[j].step - base);
    }
    forall i | 0 <= i < |components| && components[i].kind.Source? ensures HasJob(jobs, r, components[i].id) {
      JobAmong(fewer, more, r, components, i);
    }
  }

  lemma JobAmong(fewer: seq<Job>, more: seq<Job>, r: int, components: seq<Step>, i: nat)
    requires i < |components| && components[i].kind.Source?
    requires i < |components| - 1 ==> HasJob(fewer, r, components[..|components| - 1][i].id)
    requires i == |components| - 1 ==> |more| == 1 && more[0].run == r && more[0].component == components[i].id
    ensures HasJob(fewer + more, r, components[i].id)
  {
    if i < |components| - 1 {
      JobKept(fewer, more, r, components[i].id);
    } else {
      assert (fewer + more)[|fewer|] == more[0];
    }
  }

  lemma {:induction false} JoinIgnoresOtherRows(g: Graph, steps: seq<RunStep>, more: seq<RunStep>, r: int)
    requires forall i :: 0 <= i < |more| ==> more[i].run != r
    ensures Join(g, steps + more, r) == Join(g, steps, r)
    decreases |more|
  {
    if more == [] {
      assert steps + more == steps;
    } else {
      var last := |more| - 1;
      JoinIgnoresOtherRows(g, steps, more[..last], r);
      assert (steps + more)[..|steps + more| - 1] == steps + more[..last];
    }
  }

  /** No row yet belongs to a waiting run. */
  lemma WaitingHasNoRows(db: Db, r: int)
    requires StepRowsInv(db) && JobKeysInv(db) && r in db.runs && db.runs[r].Waiting()
    ensures forall i :: 0 <= i < |db.steps| ==> db.steps[i].run != r
    ensures forall j :: 0 <= j < |db.jobs| ==> db.jobs[j].run != r
  {
  }

  /** The tables after a run is activated: new rows at the end, all of them for that run. */
  ghost predicate Activated(db: Db, db': Db, p: int, r: int) {
    && p in db.pipelines && r in db.runs && db.runs[r].Waiting() && db.runs[r].pipeline == p
    && (exists retry, now :: db' == Activate(db, p, r, retry, now))
    && (forall i :: 0 <= i < |db.steps| ==> db.steps[i].run != r)
    && (forall j :: 0 <= j < |db.jobs| ==> db.jobs[j].run != r)
    && UniqueIds(db.pipelines[p].graph.steps)
  }

  lemma ActivateStepRows(db: Db, db': Db, p: int, r: int)
    requires Activated(db, db', p, r) && StepRowsInv(db) && StepStatesInv(db)
    ensures StepRowsInv(db') && StepStatesInv(db')
  {
    var steps, components := db.steps, db.pipelines[p].graph.steps;
    forall i, j | 0 <= i < j < |db'.steps| && db'.steps[i].run == db'.steps[j].run
      ensures db'.steps[i].component != db'.steps[j].component
    {
      if i >= |steps| {
        assert components[i - |steps|].id != components[j - |steps|].id;
      }
    }
  }

  lemma NewRows(db: Db, db': Db, p: int, r: int) returns (jobs: seq<Job>, retry: Retry, now: int)
    requires Activated(db, db', p, r)
    ensures db'.jobs == db.jobs + jobs && db'.steps == db.steps + StepRows(r, db.pipelines[p].graph.steps)
    ensures JobsFor(jobs, p, r, db.pipelines[p].graph.steps, |db.steps|, retry, now)
  {
    retry, now :| db' == Activate(db, p, r, retry, now);
    jobs := SourceJobs(p, r, db.pipelines[p].graph.steps, |db.steps|, retry, now);
    SourceJobsAre(p, r, db.pipelines[p].graph.steps, |db.steps|, retry, now);
  }

  /** What a new job row looks like. */
  ghost predicate NewJob(db: Db, db': Db, p: int, r: int, job: Job)
    requires p in db.pipelines
  {
    && |db.steps| <= job.step < |db'.steps| && job.pipeline == p && job.run == r
    && db'.steps[job.step].run == r && db'.steps[job.step].component == job.component
    && KindOf(db.pipelines[p].graph.steps, job.component).Source?
    && job.state.Queued? && JobRowInv(job)
  }

  lemma OldJobs(db: Db, db': Db, p: int, r: int)
    requires Activated(db, db', p, r)
    ensures |db'.jobs| >= |db.jobs| && forall j :: 0 <= j < |db.jobs| ==> db'.jobs[j] == db.jobs[j]
  {
    var jobs, retry, now := NewRows(db, db', p, r);
  }

  lemma NewJobAt(db: Db, db': Db, p: int, r: int, j: nat)
    requires Activated(db, db', p, r) && |db.jobs| <= j < |db'.jobs|
    ensures NewJob(db, db', p, r, db'.jobs[j])
  {
    var jobs, retry, now := NewRows(db, db', p, r);
    NewJobLooks(db, db', p, r, jobs[j - |db.jobs|], retry, now);
  }

  lemma NewJobs(db: Db, db': Db, p: int, r: int)
    requires Activated(db, db', p, r)
    ensures |db'.jobs| >= |db.jobs| && forall j :: 0 <= j < |db.jobs| ==> db'.jobs[j] == db.jobs[j]
    ensures forall j :: |db.jobs| <= j < |db'.jobs| ==> NewJob(db, db', p, r, db'.jobs[j])
  {
    OldJobs(db, db', p, r);
    forall j | |db.jobs| <= j < |db'.jobs| ensures NewJob(db, db', p, r, db'.jobs[j]) {
      NewJobAt(db, db', p, r, j);
    }
  }

  lemma NewJobsInOrder(db: Db, db': Db, p: int, r: int)
    requires Activated(db, db', p, r)
    ensures forall j, k :: |db.jobs| <= j < k < |db'.jobs| ==> db'.jobs[j].step < db'.jobs[k].step
  {
    var jobs, retry, now := NewRows(db, db', p, r);
    forall j, k | |db.jobs| <= j < k < |db'.jobs| ensures db'.jobs[j].step < db'.jobs[k].step {
      assert jobs[j - |db.jobs|].step < jobs[k - |db.jobs|].step;
    }
  }

  lemma NewJobLooks(db: Db, db': Db, p: int, r: int, job: Job, retry: Retry, now: int)
    requires p in db.pipelines && UniqueIds(db.pipelines[p].graph.steps)
    requires db'.steps == db.steps + StepRows(r, db.pipelines[p].graph.steps)
    requires JobFor(job, p, r, db.pipelines[p].graph.steps, |db.steps|, retry, now, job.step - |db.steps|)
    ensures NewJob(db, db', p, r, job)
  {
    KindOfStep(db.pipelines[p].graph.steps, job.step - |db.steps|);
  }

  lemma NewJobForSource(db: Db, db': Db, p: int, r: int, c: Step)
    requires Activated(db, db', p, r) && c in db.pipelines[p].graph.steps && c.kind.Source?
    ensures HasJob(db'.jobs, r, c.id)
  {
    var jobs, retry, now := NewRows(db, db', p, r);
    var components := db.pipelines[p].graph.steps;
    var i :| 0 <= i < |components| && components[i] == c;
    assert HasJob(jobs, r, components[i].id);
    JobStillThere(db.jobs, jobs, r, components[i].id);
  }

  lemma JobStillThere(before: seq<Job>, jobs: seq<Job>, r: int, id: Id)
    requires HasJob(jobs, r, id)
    ensures HasJob(before + jobs, r, id)
  {
    var j :| 0 <= j < |jobs| && jobs[j].run == r && jobs[j].component == id;
    assert (before + jobs)[|before| + j] == jobs[j];
  }

  lemma ActivateJobRows(db: Db, db': Db, p: int, r: int)
    requires Activated(db, db', p, r) && JobKeysInv(db) && LiveJobsInv(db) && JobRowsInv(db)
    ensures JobKeysInv(db') && LiveJobsInv(db') && JobRowsInv(db')
  {
    NewJobs(db, db', p, r);
    NewJobsInOrder(db, db', p, r);
  }

  lemma ActivateLiveRows(db: Db, db': Db, p: int, r: int)
    requires Activated(db, db', p, r) && LiveRowsInv(db)
    ensures LiveRowsInv(db')
  {
    NewJobs(db, db', p, r);
    forall x, g | ActiveGraph(db', x, g) ensures RowsMatchGraph(db', x, g) {
      if x == r {
        ActivatedRows(db, db', p, r);
      } else {
        assert ActiveGraph(db, x, g);
        OtherRowsKept(db, db', p, r, x, g);
      }
    }
  }

  lemma ActivatedRows(db: Db, db': Db, p: int, r: int)
    requires Activated(db, db', p, r)
    ensures RowsMatchGraph(db', r, db.pipelines[p].graph)
  {
    NewJobs(db, db', p, r);
    var g := db.pipelines[p].graph;
    forall i | 0 <= i < |db'.steps| && db'.steps[i].run == r ensures db'.steps[i].component in StepIds(g.steps) {
      assert g.steps[i - |db.steps|] in g.steps;
    }
    forall c | c in g.steps ensures HasRow(db'.steps, r, c.id) {
      var i :| 0 <= i < |g.steps| && g.steps[i] == c;
      assert db'.steps[|db.steps| + i].component == c.id;
    }
    forall j | 0 <= j < |db'.jobs| && db'.jobs[j].run == r ensures KindOf(g.steps, db'.jobs[j].component).Source? {
    }
    forall c | c in g.steps && c.kind.Source? ensures HasJob(db'.jobs, r, c.id) {
      NewJobForSource(db, db', p, r, c);
    }
  }

  lemma OtherRowsKept(db: Db, db': Db, p: int, r: int, x: int, g: Graph)
    requires Activated(db, db', p, r) && x != r && RowsMatchGraph(db, x, g)
    ensures RowsMatchGraph(db', x, g)
  {
    NewJobs(db, db', p, r);
    forall c | c in g.steps ensures HasRow(db'.steps, x, c.id) {
      var i :| 0 <= i < |db.steps| && db.steps[i].run == x && db.steps[i].component == c.id;
      assert db'.steps[i] == db.steps[i];
    }
    forall c | c in g.steps && c.kind.Source? ensures HasJob(db'.jobs, x, c.id) {
      var j :| 0 <= j < |db.jobs| && db.jobs[j].run == x && db.jobs[j].component == c.id;
      assert db'.jobs[j] == db.jobs[j];
    }
  }

  lemma ActivatePlan(db: Db, db': Db, p: int, r: int, x: int, plan: seq<PlanNode>)
    requires Activated(db, db', p, r) && PlanInv(db, x, plan) && PlanIsCurrent(db, x, plan)
    ensures PlanInv(db', x, plan) && PlanIsCurrent(db', x, plan)
  {
    NewJobs(db, db', p, r);
    assert PlanRows(db', x, plan) by {
      forall i | 0 <= i < |db'.steps| && db'.steps[i].run == x ensures exists k :: 0 <= k < |plan| && plan[k].row == i {
        assert db.steps[i].run == x;
      }
    }
    var more := db'.steps[|db.steps|..];
    assert db'.steps == db.steps + more;
    forall g | ActiveGraph(db', x, g) ensures IsChain(Join(g, db'.steps, x), g.edges, plan) {
      assert ActiveGraph(db, x, g);
      JoinIgnoresOtherRows(g, db.steps, more, x);
    }
  }

  lemma ActivateWorker(s: Sys, s': Sys, p: int, r: int, w: int, phase: Phase)
    requires Activated(s.db, s'.db, p, r) && s' == s.(db := s'.db) && WorkerOk(s, w, phase)
    requires JobKeysInv(s.db)
    ensures WorkerOk(s', w, phase)
  {
    NewJobs(s.db, s'.db, p, r);
  }

  lemma ActivateRuns(db: Db, db': Db, p: int, r: int)
    requires Activated(db, db', p, r) && RunsCore(db) && !AnyActive(db.runs, p)
    ensures RunsCore(db')
  {
    forall a, b | a in db'.runs && b in db'.runs && db'.runs[a].isActive && db'.runs[b].isActive
                  && db'.runs[a].pipeline == db'.runs[b].pipeline
      ensures a == b
    {
      assert !ActiveRunOf(db.runs, p, a) && !ActiveRunOf(db.runs, p, b);
    }
  }

  ghost predicate AnyActive(runs: map<int, Run>, p: int) {
    exists r :: ActiveRunOf(runs, p, r)
  }

  lemma ActivateKeepsCore(s: Sys, p: int, r: int, retry: Retry, now: int)
    requires Core(s) && p in s.db.pipelines && r in s.db.runs && s.db.runs[r].Waiting() && s.db.runs[r].pipeline == p
    requires !AnyActive(s.db.runs, p)
    ensures Core(s.(db := Activate(s.db, p, r, retry, now)))
  {
    var s' := s.(db := Activate(s.db, p, r, retry, now));
    WaitingHasNoRows(s.db, r);
    GraphIdsUnique(s.db, p);
    assert Activated(s.db, s'.db, p, r);
    ActivateRuns(s.db, s'.db, p, r);
    ActivateStepRows(s.db, s'.db, p, r);
    ActivateJobRows(s.db, s'.db, p, r);
    ActivateLiveRows(s.db, s'.db, p, r);
    GraphsUnchanged(s.db, s'.db);
    ActivateKeepsRest(s, s', p, r);
  }

  lemma GraphIdsUnique(db: Db, p: int)
    requires GraphsSaved(db) && p in db.pipelines
    ensures UniqueIds(db.pipelines[p].graph.steps)
  {
    assert SaveValid(db.pipelines[p].graph);
  }

  lemma ActivateKeepsRest(s: Sys, s': Sys, p: int, r: int)
    requires Activated(s.db, s'.db, p, r) && s' == s.(db := s'.db)
    requires PlansInv(s) && PlansCurrent(s) && UnplannedInv(s) && WorkersInv(s) && JobKeysInv(s.db)
    ensures PlansInv(s') && PlansCurrent(s') && UnplannedInv(s') && WorkersInv(s')
  {
    forall x | x in s'.plans ensures PlanInv(s'.db, x, s'.plans[x]) && PlanIsCurrent(s'.db, x, s'.plans[x]) {
      assert PlanInv(s.db, x, s.plans[x]) && PlanIsCurrent(s.db, x, s.plans[x]);
      ActivatePlan(s.db, s'.db, p, r, x, s.plans[x]);
    }
    forall w | w in s'.workers ensures WorkerOk(s', w, s'.workers[w]) {
      ActivateWorker(s, s', p, r, w, s.workers[w]);
    }
  }

  // ---------- The transactions ----------

  /** Releasing an ended run leaves no active run of the pipeline unless one is live. */
  lemma NoneActive(runs: map<int, Run>, p: int)
    requires !HasActive(ReleaseTerminal(runs, p), p)
    ensures !AnyActive(ReleaseTerminal(runs, p), p)
  {
    var released := ReleaseTerminal(runs, p);
    forall r ensures !ActiveRunOf(released, p, r) {
      assert !ActiveLive(released, p, r);
    }
  }

  /** Work of other pipelines is left alone. */
  lemma BackedElsewhere(runs: map<int, Run>, runs': map<int, Run>, p: int)
    requires WaitingIsBacked(runs) && runs.Keys <= runs'.Keys
    requires forall r :: r in runs && runs[r].pipeline != p ==> runs'[r] == runs[r]
    requires forall r :: r in runs' && r !in runs ==> runs'[r].pipeline == p
    requires forall r :: r in runs && runs[r].pipeline == p ==> runs'[r].pipeline == p
    requires (forall r :: !WaitsFor(runs', p, r)) || AnyActive(runs', p)
    ensures WaitingIsBacked(runs')
  {
    forall a | a in runs' && runs'[a].Waiting() ensures exists b :: ActiveRunOf(runs', runs'[a].pipeline, b) {
      if runs'[a].pipeline == p {
        assert WaitsFor(runs', p, a);
      } else {
        var b :| ActiveRunOf(runs, runs[a].pipeline, b);
        assert ActiveRunOf(runs', runs'[a].pipeline, b);
      }
    }
  }

  lemma PromoteKeeps(s: Sys, p: int, promoted: Option<int>, retry: Retry, now: int)
    requires Inv(s) && Allowed(s, APromote(p, promoted, retry, now))
    ensures Inv(Next(s, APromote(p, promoted, retry, now)))
  {
    CoreIsInv(s);
    var released := s.(db := s.db.(runs := ReleaseTerminal(s.db.runs, p)));
    var s' := Next(s, APromote(p, promoted, retry, now));
    ReleaseKeepsCore(s, p);
    PromotionFindsNoneActive(s.db, p);
    match promoted {
      case Some(o) =>
        ActivateKeepsCore(released, p, o, retry, now);
        assert ActiveRunOf(s'.db.runs, p, o);
      case None =>
    }
    BackedElsewhere(s.db.runs, s'.db.runs, p);
    CoreIsInv(s');
  }

  /** Promotion does not look for a live run, and does not need to: the ended run was the only active one. */
  lemma PromotionFindsNoneActive(db: Db, p: int)
    requires OneActive(db.runs)
    requires exists r :: r in db.runs && db.runs[r].pipeline == p && db.runs[r].isActive && !db.runs[r].state.Live()
    ensures !AnyActive(ReleaseTerminal(db.runs, p), p)
  {
  }

  lemma CreateRunKeeps(s: Sys, request: RunRequest, r: int, promoted: Option<int>, retry: Retry, now: int)
    requires Inv(s) && Allowed(s, ACreateRun(request, r, promoted, retry, now))
    ensures Inv(Next(s, ACreateRun(request, r, promoted, retry, now)))
  {
    CoreIsInv(s);
    var p := request.pipeline;
    var released := s.(db := s.db.(runs := ReleaseTerminal(s.db.runs, p)));
    var s' := Next(s, ACreateRun(request, r, promoted, retry, now));
    ReleaseKeepsCore(s, p);
    if HasActive(released.db.runs, p) {
      CreateBehindActive(released, request, r, now, s');
    } else {
      NoneActive(s.db.runs, p);
      CreateWithoutActive(released, request, r, promoted, retry, now, s');
    }
    CreateLeavesOthers(s.db, request, r, promoted, retry, now);
    BackedElsewhere(s.db.runs, s'.db.runs, p);
    CoreIsInv(s');
  }

  /** The runs of other pipelines are left alone, and those of the pipeline stay its own. */
  lemma CreateLeavesOthers(db: Db, request: RunRequest, r: int, promoted: Option<int>, retry: Retry, now: int)
    requires CanCreateRun(db, request, r, promoted)
    ensures var runs' := CreateRun(db, request, r, promoted, retry, now).runs;
            && db.runs.Keys <= runs'.Keys
            && (forall x :: x in db.runs && db.runs[x].pipeline != request.pipeline ==> runs'[x] == db.runs[x])
            && (forall x :: x in runs' && x !in db.runs ==> runs'[x].pipeline == request.pipeline)
            && (forall x :: x in db.runs && db.runs[x].pipeline == request.pipeline ==>
                  runs'[x].pipeline == request.pipeline)
  {
  }

  lemma CreateBehindActive(released: Sys, request: RunRequest, r: int, now: int, s': Sys)
    requires Core(released) && HasActive(released.db.runs, request.pipeline) && r !in released.db.runs
    requires request.pipeline in released.db.pipelines && released.db.pipelines[request.pipeline].state.Enabled?
    requires s' == released.(db := released.db.(runs := released.db.runs[r := NewRun(request, false, now)]))
    ensures Core(s') && AnyActive(s'.db.runs, request.pipeline)
  {
    InsertKeepsCore(released, r, NewRun(request, false, now));
    var a :| ActiveLive(released.db.runs, request.pipeline, a);
    assert ActiveRunOf(s'.db.runs, request.pipeline, a);
  }

  lemma CreateWithoutActive(released: Sys, request: RunRequest, r: int, promoted: Option<int>, retry: Retry, now: int,
                            s': Sys)
    requires Core(released) && !AnyActive(released.db.runs, request.pipeline)
    requires request.pipeline in released.db.pipelines && released.db.pipelines[request.pipeline].state.Enabled?
    requires r !in released.db.runs && Oldest(released.db.runs, request.pipeline, promoted)
    requires s' == released.(db := match promoted
      case Some(o) =>
        var promotedDb := Activate(released.db, request.pipeline, o, retry, now);
        promotedDb.(runs := promotedDb.runs[r := NewRun(request, false, now)])
      case None =>
        AddRows(released.db.(runs := released.db.runs[r := NewRun(request, true, now)]), request.pipeline, r, retry, now))
    ensures Core(s') && AnyActive(s'.db.runs, request.pipeline)
  {
    var p := request.pipeline;
    match promoted {
      case Some(o) =>
        ActivateKeepsCore(released, p, o, retry, now);
        var activated := released.(db := Activate(released.db, p, o, retry, now));
        InsertKeepsCore(activated, r, NewRun(request, false, now));
        assert ActiveRunOf(s'.db.runs, p, o);
      case None =>
        InsertKeepsCore(released, r, NewRun(request, false, now));
        var inserted := released.(db := released.db.(runs := released.db.runs[r := NewRun(request, false, now)]));
        InsertedIsInactive(released.db.runs, p, r, NewRun(request, false, now));
        ActivateKeepsCore(inserted, p, r, retry, now);
        assert inserted.db.runs[r := inserted.db.runs[r].(isActive := true)]
            == released.db.runs[r := NewRun(request, true, now)];
        assert s' == inserted.(db := Activate(inserted.db, p, r, retry, now));
        assert ActiveRunOf(s'.db.runs, p, r);
    }
  }

  lemma InsertedIsInactive(runs: map<int, Run>, p: int, r: int, run: Run)
    requires !AnyActive(runs, p) && r !in runs && !run.isActive
    ensures !AnyActive(runs[r := run], p)
  {
    var inserted := runs[r := run];
    forall x ensures !ActiveRunOf(inserted, p, x) {
      assert !ActiveRunOf(runs, p, x);
    }
  }
}
