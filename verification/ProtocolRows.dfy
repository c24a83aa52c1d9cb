/** Steps that only rewrite the status of existing rows keep the shape of the tables. */
module ProtocolRows {
  import opened Wrappers
  import opened Graphs
  import opened SaveValidation
  import opened Chains
  import opened ExecutionPlan
  import opened Protocol
  import opened ProtocolInvariant

  /** A run row may start while active, end, or be asked to cancel while active; nothing brings it back. */
  ghost predicate RunMoved(a: Run, b: Run) {
    && b == a.(state := b.state, cancelRequested := b.cancelRequested, trigger := b.trigger)
    && (b.cancelRequested ==> a.cancelRequested || a.isActive)
    && (a.cancelRequested ==> b.cancelRequested)
    && (|| b.state == a.state
        || (a.state.Queued? && b.state.Running? && a.isActive)
        || (a.state.Live() && !b.state.Live()))
  }

  ghost predicate SameStepKeys(steps: seq<RunStep>, steps': seq<RunStep>) {
    |steps'| == |steps|
    && forall i :: 0 <= i < |steps| ==> steps'[i].run == steps[i].run && steps'[i].component == steps[i].component
  }

  ghost predicate SameJobKeys(jobs: seq<Job>, jobs': seq<Job>) {
    |jobs'| == |jobs|
    && forall j :: 0 <= j < |jobs| ==>
         && jobs'[j].pipeline == jobs[j].pipeline && jobs'[j].run == jobs[j].run
         && jobs'[j].step == jobs[j].step && jobs'[j].component == jobs[j].component
  }

  ghost predicate RunsMoved(runs: map<int, Run>, runs': map<int, Run>) {
    runs'.Keys == runs.Keys && forall r :: r in runs ==> RunMoved(runs[r], runs'[r])
  }

  ghost predicate RowsOnly(db: Db, db': Db) {
    && db'.pipelines == db.pipelines
    && RunsMoved(db.runs, db'.runs)
    && SameStepKeys(db.steps, db'.steps)
    && SameJobKeys(db.jobs, db'.jobs)
  }

  lemma RowsKeepRuns(db: Db, db': Db)
    requires RowsOnly(db, db') && RunsInv(db)
    ensures RunsInv(db')
  {
    forall a | a in db'.runs && db'.runs[a].Waiting()
      ensures exists b :: ActiveRunOf(db'.runs, db'.runs[a].pipeline, b)
    {
      assert db.runs[a].Waiting();
      var b :| ActiveRunOf(db.runs, db.runs[a].pipeline, b);
      assert ActiveRunOf(db'.runs, db'.runs[a].pipeline, b);
    }
  }

  lemma RowsKeepKeys(db: Db, db': Db)
    requires RowsOnly(db, db') && StepRowsInv(db) && JobKeysInv(db)
    ensures StepRowsInv(db') && JobKeysInv(db')
  {
  }

  lemma RowsKeepLiveRows(db: Db, db': Db)
    requires RowsOnly(db, db') && LiveRowsInv(db)
    ensures LiveRowsInv(db')
  {
    forall r, g | ActiveGraph(db', r, g) ensures RowsMatchGraph(db', r, g) {
      assert ActiveGraph(db, r, g);
      RowsMatchKept(db, db', r, g);
    }
  }

  lemma RowsMatchKept(db: Db, db': Db, r: int, g: Graph)
    requires SameStepKeys(db.steps, db'.steps) && SameJobKeys(db.jobs, db'.jobs) && RowsMatchGraph(db, r, g)
    ensures RowsMatchGraph(db', r, g)
  {
    forall c | c in g.steps ensures HasRow(db'.steps, r, c.id) {
      var i :| 0 <= i < |db.steps| && db.steps[i].run == r && db.steps[i].component == c.id;
      assert db'.steps[i].run == r;
    }
    forall c | c in g.steps && c.kind.Source? ensures HasJob(db'.jobs, r, c.id) {
      var j :| 0 <= j < |db.jobs| && db.jobs[j].run == r && db.jobs[j].component == c.id;
      assert db'.jobs[j].run == r;
    }
  }

  lemma {:induction false} JoinIgnoresStates(g: Graph, steps: seq<RunStep>, steps': seq<RunStep>, r: int)
    requires SameStepKeys(steps, steps')
    ensures Join(g, steps', r) == Join(g, steps, r)
    decreases |steps|
  {
    if steps != [] {
      JoinIgnoresStates(g, steps[..|steps| - 1], steps'[..|steps'| - 1], r);
    }
  }

  lemma RowsKeepCurrent(db: Db, db': Db, r: int, plan: seq<PlanNode>)
    requires RowsOnly(db, db') && PlanIsCurrent(db, r, plan)
    ensures PlanIsCurrent(db', r, plan)
  {
    forall g | ActiveGraph(db', r, g) ensures IsChain(Join(g, db'.steps, r), g.edges, plan) {
      assert ActiveGraph(db, r, g);
      JoinIgnoresStates(g, db.steps, db'.steps, r);
    }
  }

  lemma RowsKeepPlan(db: Db, db': Db, r: int, plan: seq<PlanNode>)
    requires RowsOnly(db, db') && PlanInv(db, r, plan)
    requires forall k :: 0 <= k < |plan| ==> plan[k].row < |db'.steps|
    requires Progress(db'.steps, plan)
    ensures PlanInv(db', r, plan)
  {
    assert PlanRows(db', r, plan) by {
      forall i | 0 <= i < |db'.steps| && db'.steps[i].run == r ensures exists k :: 0 <= k < |plan| && plan[k].row == i {
        assert db.steps[i].run == r;
      }
    }
  }

  // ---------- Workers that are not acting ----------

  /** Whatever one worker does, the others keep what they rely on. */
  ghost predicate OthersKept(s: Sys, s': Sys, w: int) {
    && SameStepKeys(s.db.steps, s'.db.steps) && SameJobKeys(s.db.jobs, s'.db.jobs)
    && RunsMoved(s.db.runs, s'.db.runs)
    && (forall x: int, j: nat :: x != w && Owned(s.db, x, j) ==> Owned(s'.db, x, j))
    && (forall j :: 0 <= j < |s.db.jobs| && !s.db.jobs[j].state.Live() ==> s'.db.jobs[j].state == s.db.jobs[j].state)
    && (forall i :: 0 <= i < |s.db.steps| && s.db.steps[i].state.Succeeded? ==> s'.db.steps[i].state.Succeeded?)
    && (forall r :: r in s.plans ==> r in s'.plans && s'.plans[r] == s.plans[r])
    && (forall x: int, j: nat :: x != w && Owned(s.db, x, j) && s.db.jobs[j].run in s.plans && RunOfIs(s.db, j, Running) ==>
          RunOfIs(s'.db, j, Running) && RunningRowsKept(s.db, s'.db, s.db.jobs[j].run))
  }

  ghost predicate RunningRowsKept(db: Db, db': Db, r: int) {
    && |db'.steps| == |db.steps|
    && forall i :: 0 <= i < |db.steps| && db.steps[i].run == r && db.steps[i].state.Running? ==>
         db'.steps[i].state.Running? || db'.steps[i].state.Succeeded?
  }

  lemma OtherOk(s: Sys, s': Sys, w: int, x: int, phase: Phase)
    requires OthersKept(s, s', w) && x != w && WorkerOk(s, x, phase) && PlansInv(s)
    ensures WorkerOk(s', x, phase)
  {
    if phase.AtStep? && phase.started {
      assert PlanInv(s.db, s.db.jobs[phase.job].run, phase.plan);
      assert s.db.steps[phase.plan[phase.k].row].run == s.db.jobs[phase.job].run;
    }
    if phase.Settling? {
      assert s'.db.jobs[phase.job].state == s.db.jobs[phase.job].state;
    }
    if phase.Cancelling? || phase.Finalizing? {
      assert s'.db.jobs[phase.job].state == s.db.jobs[phase.job].state;
    }
    if phase.Failing? && !Owned(s.db, x, phase.job) {
      assert s'.db.jobs[phase.job].state == s.db.jobs[phase.job].state;
    }
  }

  lemma WorkersAfter(s: Sys, s': Sys, w: int, phase: Phase)
    requires OthersKept(s, s', w) && WorkersInv(s) && PlansInv(s)
    requires s'.workers == s.workers[w := phase] && WorkerOk(s', w, phase)
    ensures WorkersInv(s')
  {
    forall x | x in s'.workers ensures WorkerOk(s', x, s'.workers[x]) {
      if x != w {
        OtherOk(s, s', w, x, s.workers[x]);
      }
    }
  }

  /** A step by no worker, or one that leaves the worker where it stands. */
  lemma WorkersUnmoved(s: Sys, s': Sys)
    requires (forall w :: OthersKept(s, s', w)) && WorkersInv(s) && PlansInv(s) && s'.workers == s.workers
    ensures WorkersInv(s')
  {
    forall x | x in s'.workers ensures WorkerOk(s', x, s'.workers[x]) {
      OtherOk(s, s', x + 1, x, s.workers[x]);
    }
  }

  // ---------- Putting the invariant back together ----------

  lemma RowsKeepInv(s: Sys, s': Sys)
    requires Inv(s) && RowsOnly(s.db, s'.db)
    requires LiveJobsInv(s'.db) && JobRowsInv(s'.db) && StepStatesInv(s'.db) && WorkersInv(s')
    requires s'.plans == s.plans && UnplannedInv(s')
    requires forall r :: r in s.plans ==> PlanInv(s.db, r, s.plans[r]) && Progress(s'.db.steps, s.plans[r])
    ensures Inv(s')
  {
    RowsKeepRuns(s.db, s'.db);
    RowsKeepKeys(s.db, s'.db);
    RowsKeepLiveRows(s.db, s'.db);
    forall r | r in s'.plans
      ensures PlanInv(s'.db, r, s'.plans[r]) && PlanIsCurrent(s'.db, r, s'.plans[r])
    {
      RowsKeepPlan(s.db, s'.db, r, s.plans[r]);
      RowsKeepCurrent(s.db, s'.db, r, s.plans[r]);
    }
  }
}
