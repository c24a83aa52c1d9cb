/** Which runs can still end: where the three checks over a graph meet the runs over it. */
module RunEnds {
  import opened Wrappers
  import opened Graphs
  import opened SaveValidation
  import opened Chains
  import opened ExecutionPlan
  import opened ExecutableCheck
  import opened PlanAgreement
  import opened Protocol
  import opened ProtocolFrames
  import opened ProtocolInvariant
  import opened ProtocolSteps
  import opened ProtocolScheduler
  import opened ProtocolTheorems

  // ---------- The rows of a run are the components of its graph ----------

  ghost predicate IsJoined(g: Graph, steps: seq<RunStep>, r: int, n: PlanNode) {
    && n.row < |steps| && steps[n.row].run == r && steps[n.row].component == n.id
    && n.id in StepIds(g.steps) && n.kind == KindOf(g.steps, n.id)
  }

  lemma {:induction false} JoinMembers(g: Graph, steps: seq<RunStep>, r: int, n: PlanNode)
    ensures n in Join(g, steps, r) <==> IsJoined(g, steps, r, n)
    decreases |steps|
  {
    if steps != [] {
      JoinMembers(g, steps[..|steps| - 1], r, n);
    }
  }

  lemma {:induction false} JoinIsDistinct(g: Graph, steps: seq<RunStep>, r: int)
    ensures Chains.Distinct(Join(g, steps, r))
    decreases |steps|
  {
    if steps != [] {
      var last := |steps| - 1;
      JoinIsDistinct(g, steps[..last], r);
      forall n | n in Join(g, steps[..last], r) ensures n.row < last {
        JoinMembers(g, steps[..last], r, n);
      }
    }
  }

  ghost function RowOf(steps: seq<RunStep>, r: int, id: Id): (row: nat)
    requires HasRow(steps, r, id)
    ensures row < |steps| && steps[row].run == r && steps[row].component == id
  {
    var row: nat :| row < |steps| && steps[row].run == r && steps[row].component == id;
    row
  }

  ghost function RowsOf(g: Graph, steps: seq<RunStep>, r: int): (rows: map<Id, nat>)
    requires forall id :: id in StepIds(g.steps) ==> HasRow(steps, r, id)
    ensures rows.Keys == StepIds(g.steps)
    ensures forall id :: id in rows ==> rows[id] < |steps| && steps[rows[id]].run == r && steps[rows[id]].component == id
  {
    map id | id in StepIds(g.steps) :: RowOf(steps, r, id)
  }

  lemma KindsAgree(g: Graph, s: Step)
    requires UniqueIds(g.steps) && s in g.steps
    ensures KindOf(g.steps, s.id) == s.kind
  {
    var i :| 0 <= i < |g.steps| && g.steps[i] == s;
    KindOfStep(g.steps, i);
  }

  lemma JoinIsNodes(g: Graph, steps: seq<RunStep>, r: int, rows: map<Id, nat>, n: PlanNode)
    requires UniqueIds(g.steps) && rows.Keys == StepIds(g.steps)
    requires forall id :: id in rows ==> rows[id] < |steps| && steps[rows[id]].run == r && steps[rows[id]].component == id
    requires forall i, j :: 0 <= i < j < |steps| && steps[i].run == steps[j].run ==> steps[i].component != steps[j].component
    ensures n in Join(g, steps, r) <==> n in NodesOf(g.steps, rows)
  {
    JoinMembers(g, steps, r, n);
    if n in Join(g, steps, r) {
      var s :| s in g.steps && s.id == n.id;
      KindsAgree(g, s);
      var i :| 0 <= i < |g.steps| && g.steps[i] == s;
      assert NodesOf(g.steps, rows)[i] == n;
    }
    if n in NodesOf(g.steps, rows) {
      var i :| 0 <= i < |g.steps| && NodesOf(g.steps, rows)[i] == n;
      assert g.steps[i] in g.steps && g.steps[i].id in StepIds(g.steps);
      KindsAgree(g, g.steps[i]);
    }
  }

  lemma NodesAreDistinct(g: Graph, rows: map<Id, nat>)
    requires UniqueIds(g.steps) && StepIds(g.steps) <= rows.Keys
    ensures Chains.Distinct(NodesOf(g.steps, rows))
  {
    forall i, j | 0 <= i < j < |g.steps| ensures NodesOf(g.steps, rows)[i] != NodesOf(g.steps, rows)[j] {
      assert g.steps[i].id != g.steps[j].id;
    }
  }

  /** What the plan is built from is the graph's components, one each. */
  lemma RunJoinsGraph(db: Db, r: int, g: Graph) returns (rows: map<Id, nat>)
    requires UniqueIds(g.steps) && StepRowsInv(db) && RowsMatchGraph(db, r, g)
    ensures Joins(g, rows, Join(g, db.steps, r))
  {
    forall id | id in StepIds(g.steps) ensures HasRow(db.steps, r, id) {
      var c :| c in g.steps && c.id == id;
    }
    rows := RowsOf(g, db.steps, r);
    JoinIsDistinct(g, db.steps, r);
    NodesAreDistinct(g, rows);
    forall n ensures n in Join(g, db.steps, r) <==> n in NodesOf(g.steps, rows) {
      JoinIsNodes(g, db.steps, r, rows, n);
    }
    SameMembers(Join(g, db.steps, r), NodesOf(g.steps, rows));
  }

  /** What is known of the graph and the rows of an activated live run. */
  lemma LiveRunFits(s: Sys, r: int, g: Graph)
    requires Reachable(s) && ActiveGraph(s.db, r, g)
    ensures SaveValid(g) && StepRowsInv(s.db) && JobKeysInv(s.db) && RowsMatchGraph(s.db, r, g)
  {
    ReachableIsSound(s);
  }

  lemma JobIsAtSource(db: Db, j: nat, g: Graph) returns (source: Step)
    requires JobKeysInv(db) && j < |db.jobs| && RowsMatchGraph(db, db.jobs[j].run, g) && UniqueIds(g.steps)
    ensures source in g.steps && source.kind.Source? && source.id == db.jobs[j].component
  {
    assert db.steps[db.jobs[j].step].component in StepIds(g.steps);
    source :| source in g.steps && source.id == db.jobs[j].component;
    KindsAgree(g, source);
  }

  /** A job's plan can be loaded exactly when the enable-time check would find no structural violation. */
  lemma PlanLoadsExactly(s: Sys, j: nat, g: Graph)
    requires Reachable(s) && j < |s.db.jobs| && ActiveGraph(s.db, s.db.jobs[j].run, g)
    ensures (exists plan :: LoadsPlan(s.db, j, plan)) <==> StructurallyExecutable(g)
  {
    var r := s.db.jobs[j].run;
    LiveRunFits(s, r, g);
    var rows := RunJoinsGraph(s.db, r, g);
    var source := JobIsAtSource(s.db, j, g);
    ChecksAgree(g, rows, Join(g, s.db.steps, r), source);
    PlansOfJob(s.db, j, g);
  }

  lemma PlansOfJob(db: Db, j: nat, g: Graph)
    requires j < |db.jobs| && db.jobs[j].pipeline in db.pipelines && db.pipelines[db.jobs[j].pipeline].graph == g
    ensures (exists plan :: LoadsPlan(db, j, plan)) <==> HasPlan(Join(g, db.steps, db.jobs[j].run), g.edges, db.jobs[j].component)
  {
    if HasPlan(Join(g, db.steps, db.jobs[j].run), g.edges, db.jobs[j].component) {
      var plan :| IsPlan(Join(g, db.steps, db.jobs[j].run), g.edges, db.jobs[j].component, plan);
      assert LoadsPlan(db, j, plan);
    }
  }

  // ---------- Only planned runs start ----------

  /** A run whose plan was never loaded is still queued. */
  ghost predicate UnstartedInv(s: Sys) {
    forall r :: r in s.db.runs && r !in s.plans ==> s.db.runs[r].state.Queued?
  }

  /** A queued run leaves that state only with a plan. */
  lemma QueuedLeavesPlanned(s: Sys, a: Action, r: int)
    requires Inv(s) && Allowed(s, a) && r in s.db.runs && s.db.runs[r].state.Queued?
    requires r in Next(s, a).db.runs && !Next(s, a).db.runs[r].state.Queued?
    ensures r in s.plans && (a.AStartRun? || a.AFinishFailure?)
    ensures s.PhaseOf(a.w).Planned? || s.PhaseOf(a.w).FailingRun?
    ensures s.PhaseOf(a.w).job < |s.db.jobs| && s.db.jobs[s.PhaseOf(a.w).job].run == r
  {
    if a.ACreateRun? {
      CreateKeepsStates(s.db, a.request, a.r, a.promoted, a.retry, a.now, r);
    } else if a.APromote? {
      PromoteKeepsStates(s.db, a.p, a.promoted, a.retry, a.now, r);
    } else {
      RunLeavesQueue(s, a, r);
      assert WorkerOk(s, a.w, s.workers[a.w]);
    }
  }

  lemma RunLeavesQueue(s: Sys, a: Action, r: int)
    requires Allowed(s, a) && !a.ACreateRun? && !a.APromote? && r in s.db.runs && s.db.runs[r].state.Queued?
    requires r in Next(s, a).db.runs && !Next(s, a).db.runs[r].state.Queued?
    ensures a.AStartRun? || a.AFinishFailure?
    ensures s.PhaseOf(a.w).job < |s.db.jobs| && s.db.jobs[s.PhaseOf(a.w).job].run == r
    ensures a.w in s.workers && (s.workers[a.w].Planned? || s.workers[a.w].FailingRun?)
  {
    RunRowMoves(s, a, r);
  }

  lemma NewRunsAreQueued(s: Sys, a: Action, r: int)
    requires Allowed(s, a) && r !in s.db.runs && r in Next(s, a).db.runs
    ensures Next(s, a).db.runs[r].state.Queued?
  {
    if EditsPipelines(a) {
      EditsLeaveRows(s, a);
    } else if !ScheduledBy(a) && !WritesRuns(a) {
      RunsLeft(s, a);
    }
  }

  lemma UnstartedKeeps(s: Sys, a: Action)
    requires Inv(s) && UnstartedInv(s) && Allowed(s, a)
    ensures UnstartedInv(Next(s, a))
  {
    var s' := Next(s, a);
    PlansAreKept(s, a);
    forall r | r in s'.db.runs && r !in s'.plans ensures s'.db.runs[r].state.Queued? {
      if r !in s.db.runs {
        NewRunsAreQueued(s, a, r);
      } else if !s'.db.runs[r].state.Queued? {
        QueuedLeavesPlanned(s, a, r);
      }
    }
  }

  lemma {:induction false} ExecutionKeepsUnstarted(states: seq<Sys>, actions: seq<Action>, n: nat)
    requires Execution(states, actions) && n < |states|
    ensures UnstartedInv(states[n])
  {
    if n > 0 {
      ExecutionKeepsUnstarted(states, actions, n - 1);
      ExecutionKeepsInv(states, actions, n - 1);
      UnstartedKeeps(states[n - 1], actions[n - 1]);
      assert states[n - 1 + 1] == Next(states[n - 1], actions[n - 1]);
    }
  }

  /** Runs that have started have a plan, and while they are live the graph they have is executable. */
  lemma StartedRunsArePlanned(s: Sys, r: int)
    requires Reachable(s) && r in s.db.runs
    ensures !s.db.runs[r].state.Queued? ==> r in s.plans
    ensures forall g :: ActiveGraph(s.db, r, g) && r in s.plans ==> StructurallyExecutable(g)
  {
    var states, actions :| Execution(states, actions) && states[|states| - 1] == s;
    ExecutionKeepsUnstarted(states, actions, |states| - 1);
    forall g | ActiveGraph(s.db, r, g) && r in s.plans ensures StructurallyExecutable(g) {
      PlannedIsExecutable(s, r, g);
    }
  }

  lemma PlannedIsExecutable(s: Sys, r: int, g: Graph)
    requires Reachable(s) && ActiveGraph(s.db, r, g) && r in s.plans
    ensures StructurallyExecutable(g)
  {
    LiveRunFits(s, r, g);
    var rows := RunJoinsGraph(s.db, r, g);
    PlanIsOfGraph(s, r, g);
    PlanIsExecutable(g, rows, s.plans[r]);
  }

  lemma PlanIsOfGraph(s: Sys, r: int, g: Graph)
    requires Reachable(s) && ActiveGraph(s.db, r, g) && r in s.plans
    ensures IsChain(Join(g, s.db.steps, r), g.edges, s.plans[r])
  {
    ReachableIsSound(s);
    assert PlanIsCurrent(s.db, r, s.plans[r]);
  }

  // ---------- What a run needs to end ----------

  /** A worker stands somewhere in its handling of a job of the run. */
  ghost predicate OnJobOf(s: Sys, w: int, r: int) {
    var phase := s.PhaseOf(w);
    !phase.Idle? && phase.job < |s.db.jobs| && s.db.jobs[phase.job].run == r
  }

  /** A worker has ended a job of the run and is about to end the run. */
  ghost predicate EndingBy(s: Sys, w: int, r: int) {
    s.PhaseOf(w).FailingRun? && OnJobOf(s, w, r)
  }

  /** A worker has cancelled its job of the run and has not yet tried to end the run. */
  ghost predicate CancellingBy(s: Sys, w: int, r: int) {
    (s.PhaseOf(w).Cancelling? || s.PhaseOf(w).Finalizing?) && OnJobOf(s, w, r)
  }

  /** The attempt has failed, it was the last one, and no component was at hand. */
  ghost predicate FailsInVain(s: Sys, w: int) {
    var phase := s.PhaseOf(w);
    && phase.Failing? && phase.current.None?
    && phase.job < |s.db.jobs| && s.db.jobs[phase.job].attempt >= s.db.jobs[phase.job].maxAttempts
  }

  /** A worker that remembers a job of the run owns it, and can still do something for the run. */
  ghost predicate WorkedBy(s: Sys, w: int, r: int) {
    OnJobOf(s, w, r) && Owned(s.db, w, s.PhaseOf(w).job) && !FailsInVain(s, w)
  }

  ghost predicate QueuedWork(db: Db, r: int) {
    exists j :: 0 <= j < |db.jobs| && db.jobs[j].run == r && db.jobs[j].state.Queued?
  }

  /**
   * What a live active run needs to end: a graph that can be planned with a job that is queued or in hand, or a worker
   * that is ending the run. A job that only its row calls running does not count: nobody looks for it.
   */
  ghost predicate CanEnd(s: Sys, r: int, g: Graph) {
    || (StructurallyExecutable(g) && (QueuedWork(s.db, r) || exists w :: WorkedBy(s, w, r)))
    || (exists w :: EndingBy(s, w, r))
    || (exists w :: CancellingBy(s, w, r))
  }

  ghost predicate Stuck(s: Sys, r: int, g: Graph) {
    ActiveGraph(s.db, r, g) && !CanEnd(s, r, g)
  }

  // ---------- Runs that can no longer end ----------

  /** Who still remembers a job of a stuck run cannot plan it, or fails it in vain. */
  lemma StuckIsUnheld(s: Sys, r: int, g: Graph, w: int)
    requires Reachable(s) && Stuck(s, r, g) && OnJobOf(s, w, r)
    ensures var phase := s.PhaseOf(w);
            && (phase.Claimed? || phase.Failing?)
            && (phase.Claimed? ==> !StructurallyExecutable(g))
            && (phase.Failing? && Owned(s.db, w, phase.job) ==>
                  phase.current.None? && (StructurallyExecutable(g) ==> FailsInVain(s, w)))
  {
    PhasesAreSound(s, w);
    if r in s.plans {
      PlannedIsExecutable(s, r, g);
    }
    UnheldBy(s, r, g, w, s.PhaseOf(w));
  }

  lemma UnheldBy(s: Sys, r: int, g: Graph, w: int, phase: Phase)
    requires Stuck(s, r, g) && (r in s.plans ==> StructurallyExecutable(g)) && WorkerOk(s, w, phase) && phase == s.PhaseOf(w)
    requires OnJobOf(s, w, r)
    ensures phase.Claimed? || phase.Failing?
    ensures phase.Claimed? ==> !StructurallyExecutable(g)
    ensures phase.Failing? && Owned(s.db, w, phase.job) ==>
              phase.current.None? && (StructurallyExecutable(g) ==> FailsInVain(s, w))
  {
    assert !EndingBy(s, w, r) && !CancellingBy(s, w, r);
    assert StructurallyExecutable(g) ==> !WorkedBy(s, w, r);
  }

  /** The state of a run is changed only by a worker that stands at a job of it. */
  lemma StateChangedBy(s: Sys, a: Action, r: int)
    requires Allowed(s, a) && r in s.db.runs && r in Next(s, a).db.runs
    requires Next(s, a).db.runs[r].state != s.db.runs[r].state
    ensures Actor(a).Some? && OnJobOf(s, Actor(a).value, r)
    ensures var phase := s.PhaseOf(Actor(a).value);
            phase.Planned? || phase.Finishing? || phase.FailingRun? || phase.Finalizing?
  {
    if ScheduledBy(a) {
      ScheduledRow(s, a, r);
    } else if EditsPipelines(a) {
      EditsLeaveRows(s, a);
    } else if !WritesRuns(a) {
      RunsLeft(s, a);
    }
  }

  lemma StuckRowStays(s: Sys, a: Action, r: int, g: Graph)
    requires Reachable(s) && Stuck(s, r, g) && Allowed(s, a)
    ensures r in Next(s, a).db.runs && Next(s, a).db.runs[r].state == s.db.runs[r].state
  {
    EndedRunsStay(s, a, r);
    if Next(s, a).db.runs[r].state != s.db.runs[r].state {
      StateChangedBy(s, a, r);
      StuckIsUnheld(s, r, g, Actor(a).value);
    }
  }

  /** An active run stays active, with the graph it has, as long as it has not ended. */
  lemma ActiveStays(s: Sys, a: Action, r: int, g: Graph)
    requires Reachable(s) && ActiveGraph(s.db, r, g) && Allowed(s, a)
    requires r in Next(s, a).db.runs && Next(s, a).db.runs[r].state.Live()
    ensures ActiveGraph(Next(s, a).db, r, g)
  {
    PipelineOfLiveRun(s, r);
    PipelineStays(s, a, r);
    EndedRunsStay(s, a, r);
    ActiveRowStays(s, a, r);
  }

  lemma ActiveRowStays(s: Sys, a: Action, r: int)
    requires Allowed(s, a) && r in s.db.runs && s.db.runs[r].isActive && s.db.runs[r].state.Live()
    ensures r in Next(s, a).db.runs && Next(s, a).db.runs[r].isActive
  {
    if ScheduledBy(a) {
      ScheduledRow(s, a, r);
    } else {
      RunRowMoves(s, a, r);
    }
  }

  // ---------- No work comes back ----------

  /** The run whose jobs a scheduler step inserts. */
  lemma NewJobsAreOfNewlyActive(p: int, r: int, components: seq<Step>, base: nat, retry: Retry, now: int)
    ensures forall j :: 0 <= j < |SourceJobs(p, r, components, base, retry, now)| ==>
              SourceJobs(p, r, components, base, retry, now)[j].run == r
  {
  }

  lemma CreateAddsNoJob(db: Db, request: RunRequest, x: int, promoted: Option<int>, retry: Retry, now: int, r: int)
    requires CanCreateRun(db, request, x, promoted) && r in db.runs && db.runs[r].isActive && db.runs[r].state.Live()
    ensures var after := CreateRun(db, request, x, promoted, retry, now);
            forall j :: |db.jobs| <= j < |after.jobs| ==> after.jobs[j].run != r
  {
    var components := db.pipelines[request.pipeline].graph.steps;
    NewJobsAreOfNewlyActive(request.pipeline, x, components, |db.steps|, retry, now);
    if promoted.Some? {
      NewJobsAreOfNewlyActive(request.pipeline, promoted.value, components, |db.steps|, retry, now);
    }
  }

  lemma PromoteAddsNoJob(db: Db, p: int, promoted: Option<int>, retry: Retry, now: int, r: int)
    requires CanPromote(db, p, promoted) && r in db.runs && db.runs[r].isActive && db.runs[r].state.Live()
    ensures var after := Promote(db, p, promoted, retry, now);
            forall j :: |db.jobs| <= j < |after.jobs| ==> after.jobs[j].run != r
  {
    if promoted.Some? {
      NewJobsAreOfNewlyActive(p, promoted.value, db.pipelines[p].graph.steps, |db.steps|, retry, now);
    }
  }

  lemma NoNewJobs(s: Sys, a: Action, r: int)
    requires Allowed(s, a) && r in s.db.runs && s.db.runs[r].isActive && s.db.runs[r].state.Live()
    ensures forall j :: |s.db.jobs| <= j < |Next(s, a).db.jobs| ==> Next(s, a).db.jobs[j].run != r
  {
    if a.ACreateRun? {
      CreateAddsNoJob(s.db, a.request, a.r, a.promoted, a.retry, a.now, r);
    } else if a.APromote? {
      PromoteAddsNoJob(s.db, a.p, a.promoted, a.retry, a.now, r);
    } else {
      SameJobCount(s, a);
    }
  }

  lemma SameJobCount(s: Sys, a: Action)
    requires Allowed(s, a) && !ScheduledBy(a)
    ensures |Next(s, a).db.jobs| == |s.db.jobs|
  {
    if !WritesJobs(a) {
      JobsLeft(s, a);
    }
  }

  /** A job is queued again only by the worker that has it in hand. */
  lemma QueuedAgainBy(s: Sys, a: Action, j: nat)
    requires Allowed(s, a) && j < |s.db.jobs| && !s.db.jobs[j].state.Queued?
    requires j < |Next(s, a).db.jobs| && Next(s, a).db.jobs[j].state.Queued?
    ensures Actor(a).Some?
    ensures var w := Actor(a).value; var phase := s.PhaseOf(w);
            && Owned(s.db, w, j) && (WorksOn(phase, j) || (phase.Failing? && phase.job == j))
            && (phase.Failing? ==> s.db.jobs[j].attempt < s.db.jobs[j].maxAttempts)
  {
    if !WritesJobs(a) {
      OtherStepsKeepJobs(s, a, j);
    }
  }

  lemma NothingQueuedAgain(s: Sys, a: Action, r: int, g: Graph)
    requires Reachable(s) && Stuck(s, r, g) && StructurallyExecutable(g) && Allowed(s, a)
    ensures !QueuedWork(Next(s, a).db, r)
  {
    NoNewJobs(s, a, r);
    var jobs' := Next(s, a).db.jobs;
    forall j: nat | j < |jobs'| && jobs'[j].run == r ensures !jobs'[j].state.Queued? {
      JobsAfter(s, a, j);
      if jobs'[j].state.Queued? {
        QueuedAgainBy(s, a, j);
        StuckIsUnheld(s, r, g, Actor(a).value);
      }
    }
  }

  ghost predicate JobRunsKept(jobs: seq<Job>, jobs': seq<Job>) {
    forall j :: 0 <= j < |jobs| ==> j < |jobs'| && jobs'[j].run == jobs[j].run
  }

  lemma JobRunsStay(s: Sys, a: Action)
    requires Allowed(s, a)
    ensures JobRunsKept(s.db.jobs, Next(s, a).db.jobs)
  {
    var jobs' := Next(s, a).db.jobs;
    forall j | 0 <= j < |s.db.jobs| ensures j < |jobs'| && jobs'[j].run == s.db.jobs[j].run {
      JobsAfter(s, a, j);
    }
  }

  /** Only a claim makes a worker the owner of a job, and only a claim counts an attempt. */
  lemma OwnedBefore(s: Sys, a: Action, w: int, j: nat)
    requires Allowed(s, a) && j < |s.db.jobs| && Owned(Next(s, a).db, w, j) && !(a.AClaim? && a.j == j)
    ensures Owned(s.db, w, j)
    ensures Next(s, a).db.jobs[j].attempt == s.db.jobs[j].attempt
    ensures Next(s, a).db.jobs[j].maxAttempts == s.db.jobs[j].maxAttempts
  {
    if !WritesJobs(a) {
      OtherStepsKeepJobs(s, a, j);
    }
  }

  /** A worker that has a job in hand had it before, unless it has just claimed it. */
  lemma OnJobBefore(s: Sys, a: Action, w: int, r: int)
    requires Allowed(s, a) && OnJobOf(Next(s, a), w, r) && JobRunsKept(s.db.jobs, Next(s, a).db.jobs)
    requires WorkerOk(s, w, s.PhaseOf(w)) && !(a.AClaim? && a.w == w)
    ensures OnJobOf(s, w, r) && Next(s, a).PhaseOf(w).job == s.PhaseOf(w).job
    ensures Next(s, a).PhaseOf(w).Failing? && s.PhaseOf(w).Failing? ==> Next(s, a).PhaseOf(w) == s.PhaseOf(w)
  {
    if Actor(a) != Some(w) {
      PhaseStands(s, a, w);
    }
  }

  lemma NobodyComesToWork(s: Sys, a: Action, w: int, r: int, g: Graph)
    requires Reachable(s) && Stuck(s, r, g) && StructurallyExecutable(g) && Allowed(s, a)
    ensures !WorkedBy(Next(s, a), w, r)
  {
    if WorkedBy(Next(s, a), w, r) {
      JobRunsStay(s, a);
      PhasesAreSound(s, w);
      if a.AClaim? && a.w == w {
        ClaimedWasQueued(s, a, r);
      } else {
        OnJobBefore(s, a, w, r);
        OwnedUnclaimed(s, a, w, r);
        StuckIsUnheld(s, r, g, w);
        StillInVain(s, a, w);
      }
    }
  }

  lemma ClaimedWasQueued(s: Sys, a: Action, r: int)
    requires Allowed(s, a) && a.AClaim? && OnJobOf(Next(s, a), a.w, r)
    ensures QueuedWork(s.db, r)
  {
    assert s.db.jobs[a.j].run == r;
  }

  lemma OwnedUnclaimed(s: Sys, a: Action, w: int, r: int)
    requires Allowed(s, a) && OnJobOf(s, w, r) && OnJobOf(Next(s, a), w, r)
    requires Next(s, a).PhaseOf(w).job == s.PhaseOf(w).job && !(a.AClaim? && a.w == w)
    requires Owned(Next(s, a).db, w, s.PhaseOf(w).job)
    ensures var j := s.PhaseOf(w).job;
            && Owned(s.db, w, j)
            && Next(s, a).db.jobs[j].attempt == s.db.jobs[j].attempt
            && Next(s, a).db.jobs[j].maxAttempts == s.db.jobs[j].maxAttempts
  {
    assert !(a.AClaim? && a.j == s.PhaseOf(w).job);
    OwnedBefore(s, a, w, s.PhaseOf(w).job);
  }

  /** A worker that fails in vain leaves that phase only without its job. */
  lemma StillInVain(s: Sys, a: Action, w: int)
    requires Allowed(s, a) && FailsInVain(s, w) && !Next(s, a).PhaseOf(w).Idle?
    requires Next(s, a).PhaseOf(w).job == s.PhaseOf(w).job && Owned(Next(s, a).db, w, s.PhaseOf(w).job)
    requires var j := s.PhaseOf(w).job;
             && Next(s, a).db.jobs[j].attempt == s.db.jobs[j].attempt
             && Next(s, a).db.jobs[j].maxAttempts == s.db.jobs[j].maxAttempts
    ensures FailsInVain(Next(s, a), w)
  {
    if Actor(a) != Some(w) {
      PhaseStands(s, a, w);
    }
  }

  /** A worker comes to the point of ending a run only from a failure with a component at work. */
  lemma NobodyComesToEnd(s: Sys, a: Action, w: int, r: int)
    requires Allowed(s, a) && EndingBy(Next(s, a), w, r) && !EndingBy(s, w, r)
    requires JobRunsKept(s.db.jobs, Next(s, a).db.jobs)
    requires WorkerOk(s, w, s.PhaseOf(w))
    ensures w in s.workers && s.workers[w].Failing? && s.workers[w].current.Some? && Owned(s.db, w, s.workers[w].job)
    ensures OnJobOf(s, w, r)
  {
    if Actor(a) != Some(w) {
      PhaseStands(s, a, w);
    }
  }

  /** And to the point of cancelling one only from a step of its plan. */
  lemma NobodyComesToCancel(s: Sys, a: Action, w: int, r: int)
    requires Allowed(s, a) && CancellingBy(Next(s, a), w, r) && !CancellingBy(s, w, r)
    requires JobRunsKept(s.db.jobs, Next(s, a).db.jobs)
    requires WorkerOk(s, w, s.PhaseOf(w))
    ensures s.PhaseOf(w).AtStep? && OnJobOf(s, w, r)
  {
    if Actor(a) != Some(w) {
      PhaseStands(s, a, w);
    } else {
      ComesToCancelBy(s, a, w);
    }
  }

  lemma ComesToCancelBy(s: Sys, a: Action, w: int)
    requires Allowed(s, a) && Actor(a) == Some(w)
    requires Next(s, a).PhaseOf(w).Cancelling? || Next(s, a).PhaseOf(w).Finalizing?
    ensures s.PhaseOf(w).AtStep? || s.PhaseOf(w).Cancelling?
    ensures s.PhaseOf(w).job == Next(s, a).PhaseOf(w).job
  {
  }

  lemma StuckStays(s: Sys, a: Action, r: int, g: Graph)
    requires Reachable(s) && Stuck(s, r, g) && Allowed(s, a)
    ensures Stuck(Next(s, a), r, g) && Next(s, a).db.runs[r].state == s.db.runs[r].state
  {
    StuckRowStays(s, a, r, g);
    ActiveStays(s, a, r, g);
    if StructurallyExecutable(g) {
      NothingQueuedAgain(s, a, r, g);
      forall w ensures !WorkedBy(Next(s, a), w, r) {
        NobodyComesToWork(s, a, w, r, g);
      }
    }
    forall w ensures !EndingBy(Next(s, a), w, r) && !CancellingBy(Next(s, a), w, r) {
      NobodyComesToStop(s, a, w, r, g);
    }
  }

  lemma NobodyComesToStop(s: Sys, a: Action, w: int, r: int, g: Graph)
    requires Reachable(s) && Stuck(s, r, g) && Allowed(s, a)
    ensures !EndingBy(Next(s, a), w, r) && !CancellingBy(Next(s, a), w, r)
  {
    JobRunsStay(s, a);
    PhasesAreSound(s, w);
    if EndingBy(Next(s, a), w, r) {
      NobodyComesToEnd(s, a, w, r);
      StuckIsUnheld(s, r, g, w);
    }
    if CancellingBy(Next(s, a), w, r) {
      NobodyComesToCancel(s, a, w, r);
      StuckIsUnheld(s, r, g, w);
    }
  }

  // ---------- Exactly which runs can end ----------

  lemma {:induction false} StuckForever(states: seq<Sys>, actions: seq<Action>, s: Sys, t: Sys, n: nat, r: int, g: Graph)
    requires Fragment(states, actions, s, t) && Reachable(s) && Stuck(s, r, g) && n < |states|
    ensures Reachable(states[n]) && Stuck(states[n], r, g) && states[n].db.runs[r].state == s.db.runs[r].state
  {
    if n > 0 {
      StuckForever(states, actions, s, t, n - 1, r, g);
      StuckStays(states[n - 1], actions[n - 1], r, g);
      ReachableOn(states[n - 1], actions[n - 1]);
      assert states[n - 1 + 1] == Next(states[n - 1], actions[n - 1]);
    }
  }

  ghost predicate EndsIn(t: Sys, r: int) {
    r in t.db.runs && !t.db.runs[r].state.Live()
  }

  /** The run is where it was, in front of its pipeline: no edit, no promotion, and everything behind it waits. */
  ghost predicate BlocksIn(t: Sys, r: int, state: State) {
    && r in t.db.runs && t.db.runs[r].state == state && !EndsIn(t, r)
    && !Editable(t.db.runs, t.db.runs[r].pipeline)
    && forall promoted :: !CanPromote(t.db, t.db.runs[r].pipeline, promoted)
  }

  /** A stuck run stays as it is for ever, queued or running, and blocks its pipeline. */
  lemma StuckNeverEnds(s: Sys, r: int, g: Graph, t: Sys)
    requires Reachable(s) && Stuck(s, r, g) && Leads(s, t)
    ensures Stuck(t, r, g) && BlocksIn(t, r, s.db.runs[r].state)
  {
    var states, actions :| Fragment(states, actions, s, t);
    StuckForever(states, actions, s, t, |actions|, r, g);
    ReachableIsSound(t);
  }

  // ---------- The others can ----------

  lemma EndsByWorker(s: Sys, w: int, r: int)
    requires Reachable(s) && EndingBy(s, w, r)
    ensures Allowed(s, AFinishFailure(w)) && EndsIn(Next(s, AFinishFailure(w)), r)
  {
    ReachableIsSound(s);
    assert WorkerOk(s, w, s.PhaseOf(w));
  }

  /** A worker that is ending the run can do so. */
  lemma EndingCanEnd(s: Sys, w: int, r: int) returns (t: Sys)
    requires Reachable(s) && EndingBy(s, w, r)
    ensures Leads(s, t) && EndsIn(t, r)
  {
    EndsByWorker(s, w, r);
    t := Next(s, AFinishFailure(w));
    LeadsNowhere(t);
    LeadsBy(s, AFinishFailure(w), t);
  }

  /** The worker's own cancelled job was the only one of the run. */
  lemma CancelledIsLast(s: Sys, w: int, r: int, g: Graph)
    requires Reachable(s) && CancellingBy(s, w, r) && ActiveGraph(s.db, r, g)
    ensures CanFinalize(s.db, r)
  {
    PhasesAreSound(s, w);
    PlannedHasOneJob(s, r);
  }

  lemma PlannedHasOneJob(s: Sys, r: int)
    requires Reachable(s) && r in s.plans
    ensures OneJob(s.db, r)
  {
    ReachableIsSound(s);
    assert PlanInv(s.db, r, s.plans[r]);
  }

  lemma FinalizingCanEnd(s: Sys, w: int, r: int, g: Graph) returns (t: Sys)
    requires Reachable(s) && CancellingBy(s, w, r) && s.PhaseOf(w).Finalizing? && ActiveGraph(s.db, r, g)
    ensures Leads(s, t) && EndsIn(t, r)
  {
    CancelledIsLast(s, w, r, g);
    t := Next(s, AFinalizeCancelled(w));
    LeadsNowhere(t);
    LeadsBy(s, AFinalizeCancelled(w), t);
  }

  lemma CancellingCanEnd(s: Sys, w: int, r: int, g: Graph) returns (t: Sys)
    requires Reachable(s) && CancellingBy(s, w, r) && ActiveGraph(s.db, r, g)
    ensures Leads(s, t) && EndsIn(t, r)
  {
    if s.PhaseOf(w).Finalizing? {
      t := FinalizingCanEnd(s, w, r, g);
    } else {
      var pending := Next(s, ACancelPending(w, 0));
      ReachableOn(s, ACancelPending(w, 0));
      t := FinalizingCanEnd(pending, w, r, g);
      LeadsBy(s, ACancelPending(w, 0), t);
    }
  }

  lemma {:induction false} UpperBound(numbers: set<int>) returns (bound: int)
    ensures forall n :: n in numbers ==> n < bound
    decreases |numbers|
  {
    bound := 0;
    if n :| n in numbers {
      var rest := UpperBound(numbers - {n});
      bound := if n < rest then rest else n + 1;
      forall m | m in numbers ensures m < bound {
        assert m == n || m in numbers - {n};
      }
    }
  }

  lemma PlannedCanEnd(s: Sys, w: int) returns (t: Sys)
    requires Reachable(s) && s.PhaseOf(w).Planned?
    ensures s.PhaseOf(w).job < |s.db.jobs| && Leads(s, t) && EndsIn(t, s.db.jobs[s.PhaseOf(w).job].run)
  {
    PhasesAreSound(s, w);
    var started := Next(s, AStartRun(w));
    ReachableOn(s, AStartRun(w));
    t := AttemptConverges(started, w, 0);
    AloneLeads(started, t, w);
    LeadsBy(s, AStartRun(w), t);
  }

  lemma ClaimedCanEnd(s: Sys, w: int, g: Graph) returns (t: Sys)
    requires Reachable(s) && s.PhaseOf(w).Claimed? && s.PhaseOf(w).job < |s.db.jobs|
    requires ActiveGraph(s.db, s.db.jobs[s.PhaseOf(w).job].run, g) && StructurallyExecutable(g)
    ensures Leads(s, t) && EndsIn(t, s.db.jobs[s.PhaseOf(w).job].run)
  {
    var j := s.PhaseOf(w).job;
    PlanLoadsExactly(s, j, g);
    var plan :| LoadsPlan(s.db, j, plan);
    var planned := Next(s, ALoadPlan(w, plan));
    ReachableOn(s, ALoadPlan(w, plan));
    t := PlannedCanEnd(planned, w);
    LeadsBy(s, ALoadPlan(w, plan), t);
  }

  /** A new worker claims the job and brings its run to success. */
  lemma QueuedCanEnd(s: Sys, j: nat, g: Graph) returns (t: Sys)
    requires Reachable(s) && j < |s.db.jobs| && s.db.jobs[j].state.Queued?
    requires ActiveGraph(s.db, s.db.jobs[j].run, g) && StructurallyExecutable(g)
    ensures Leads(s, t) && EndsIn(t, s.db.jobs[j].run)
  {
    var w := UpperBound(s.workers.Keys);
    var claim := AClaim(w, j, s.db.jobs[j].availableAt);
    assert s.PhaseOf(w).Idle?;
    var claimed := Next(s, claim);
    ReachableOn(s, claim);
    t := ClaimedCanEnd(claimed, w, g);
    LeadsBy(s, claim, t);
  }

  /** A failing attempt requeues the job, or ends the run, unless it fails in vain. */
  lemma FailingCanEnd(s: Sys, w: int, r: int, g: Graph) returns (t: Sys)
    requires Reachable(s) && s.PhaseOf(w).Failing? && WorkedBy(s, w, r)
    requires ActiveGraph(s.db, r, g) && StructurallyExecutable(g)
    ensures Leads(s, t) && EndsIn(t, r)
  {
    var j := s.PhaseOf(w).job;
    var failed := Next(s, AQueueFail(w, 0));
    ReachableOn(s, AQueueFail(w, 0));
    if failed.db.jobs[j].state.Queued? {
      t := QueuedCanEnd(failed, j, g);
    } else {
      t := EndingCanEnd(failed, w, r);
    }
    LeadsBy(s, AQueueFail(w, 0), t);
  }

  lemma WorkedCanEnd(s: Sys, w: int, r: int, g: Graph) returns (t: Sys)
    requires Reachable(s) && WorkedBy(s, w, r) && ActiveGraph(s.db, r, g) && StructurallyExecutable(g)
    ensures Leads(s, t) && EndsIn(t, r)
  {
    PhasesAreSound(s, w);
    var phase := s.PhaseOf(w);
    if phase.Claimed? {
      t := ClaimedCanEnd(s, w, g);
    } else if phase.Planned? {
      t := PlannedCanEnd(s, w);
    } else if phase.Failing? {
      t := FailingCanEnd(s, w, r, g);
    } else {
      assert CurrentOf(phase).Some?;
      var raised := Next(s, ARaise(w));
      ReachableOn(s, ARaise(w));
      t := FailingCanEnd(raised, w, r, g);
      LeadsBy(s, ARaise(w), t);
    }
  }

  lemma CanEndEnds(s: Sys, r: int, g: Graph) returns (t: Sys)
    requires Reachable(s) && ActiveGraph(s.db, r, g) && CanEnd(s, r, g)
    ensures Leads(s, t) && EndsIn(t, r)
  {
    if w :| EndingBy(s, w, r) {
      t := EndingCanEnd(s, w, r);
    } else if w :| CancellingBy(s, w, r) {
      t := CancellingCanEnd(s, w, r, g);
    } else if w :| WorkedBy(s, w, r) {
      t := WorkedCanEnd(s, w, r, g);
    } else {
      var j :| 0 <= j < |s.db.jobs| && s.db.jobs[j].run == r && s.db.jobs[j].state.Queued?;
      t := QueuedCanEnd(s, j, g);
    }
  }

  /**
   * A live active run can still end exactly when its graph is executable and a job of it is queued or in the hands of a
   * worker that does not fail it in vain, or a worker is about to end or to cancel it. Otherwise it stays as it is
   * whatever anybody does, queued or running.
   */
  lemma RunsThatCanEnd(s: Sys, r: int, g: Graph)
    requires Reachable(s) && ActiveGraph(s.db, r, g)
    ensures (exists t :: Leads(s, t) && EndsIn(t, r)) <==> CanEnd(s, r, g)
    ensures !CanEnd(s, r, g) ==> forall t :: Leads(s, t) ==> BlocksIn(t, r, s.db.runs[r].state)
  {
    if CanEnd(s, r, g) {
      var t := CanEndEnds(s, r, g);
    } else {
      forall t | Leads(s, t) ensures BlocksIn(t, r, s.db.runs[r].state) && !EndsIn(t, r) {
        StuckNeverEnds(s, r, g, t);
      }
    }
  }

  /** In particular: a run over a graph that is not executable never ends. */
  lemma UnexecutableRunsNeverEnd(s: Sys, r: int, g: Graph, t: Sys)
    requires Reachable(s) && ActiveGraph(s.db, r, g) && !StructurallyExecutable(g) && Leads(s, t)
    ensures BlocksIn(t, r, Queued)
  {
    UnexecutableIsStuck(s, r, g);
    StuckNeverEnds(s, r, g, t);
  }

  lemma UnexecutableIsStuck(s: Sys, r: int, g: Graph)
    requires Reachable(s) && ActiveGraph(s.db, r, g) && !StructurallyExecutable(g)
    ensures Stuck(s, r, g) && s.db.runs[r].state.Queued?
  {
    StartedRunsArePlanned(s, r);
    forall w ensures !EndingBy(s, w, r) && !CancellingBy(s, w, r) {
      PhasesAreSound(s, w);
    }
  }

  // ---------- The last attempt, and the death of a worker ----------

  /** A run over an executable graph has one job: its graph has one Source. */
  lemma ExecutableHasOneJob(s: Sys, r: int, g: Graph)
    requires Reachable(s) && ActiveGraph(s.db, r, g) && StructurallyExecutable(g)
    ensures OneJob(s.db, r)
  {
    LiveRunFits(s, r, g);
    JobsAreCreatedOnce(s, r, g);
    forall a: nat, b: nat | a < |s.db.jobs| && b < |s.db.jobs| && s.db.jobs[a].run == r && s.db.jobs[b].run == r
      ensures s.db.jobs[a].component == s.db.jobs[b].component
    {
      var x := JobIsAtSource(s.db, a, g);
      var y := JobIsAtSource(s.db, b, g);
      OnlyOne(g, Source, x, y);
    }
    forall a, b | 0 <= a < |s.db.jobs| && 0 <= b < |s.db.jobs| && s.db.jobs[a].run == r && s.db.jobs[b].run == r
      ensures a == b
    {
      assert s.db.jobs[a].component == s.db.jobs[b].component;
    }
  }

  /** Nobody else is about to end or to cancel the run of a job that is still running. */
  lemma NobodyElseStops(s: Sys, w: int, j: nat, g: Graph, x: int)
    requires Reachable(s) && Owned(s.db, w, j) && ActiveGraph(s.db, s.db.jobs[j].run, g)
    ensures !EndingBy(s, x, s.db.jobs[j].run) && !CancellingBy(s, x, s.db.jobs[j].run)
  {
    if EndingBy(s, x, s.db.jobs[j].run) || CancellingBy(s, x, s.db.jobs[j].run) {
      PhasesAreSound(s, x);
      PlannedIsExecutable(s, s.db.jobs[j].run, g);
      ExecutableHasOneJob(s, s.db.jobs[j].run, g);
    }
  }

  /** Over an executable graph, a worker's running job is all the work its run has. */
  lemma NoOtherWork(s: Sys, w: int, j: nat, g: Graph, x: int)
    requires Reachable(s) && Owned(s.db, w, j) && ActiveGraph(s.db, s.db.jobs[j].run, g) && StructurallyExecutable(g)
    ensures OneJob(s.db, s.db.jobs[j].run) && !QueuedWork(s.db, s.db.jobs[j].run)
    ensures x != w ==> !WorkedBy(s, x, s.db.jobs[j].run)
  {
    ExecutableHasOneJob(s, s.db.jobs[j].run, g);
  }

  /**
   * A worker whose process ends with a job in hand takes the run with it: the row goes on naming the worker, and
   * nobody gives the job to another one.
   */
  lemma CrashLosesRun(s: Sys, w: int, g: Graph, t: Sys)
    requires Reachable(s) && !s.PhaseOf(w).Idle? && Owned(s.db, w, s.PhaseOf(w).job)
    requires ActiveGraph(s.db, s.db.jobs[s.PhaseOf(w).job].run, g) && Leads(Next(s, ACrash(w)), t)
    ensures var r := s.db.jobs[s.PhaseOf(w).job].run; BlocksIn(t, r, s.db.runs[r].state)
  {
    CrashIsStuck(s, s.At(w, Idle), w, g);
    ReachableOn(s, ACrash(w));
    StuckNeverEnds(s.At(w, Idle), s.db.jobs[s.PhaseOf(w).job].run, g, t);
  }

  lemma CrashIsStuck(s: Sys, crashed: Sys, w: int, g: Graph)
    requires Reachable(s) && !s.PhaseOf(w).Idle? && Owned(s.db, w, s.PhaseOf(w).job)
    requires ActiveGraph(s.db, s.db.jobs[s.PhaseOf(w).job].run, g) && crashed == s.At(w, Idle)
    ensures Stuck(crashed, s.db.jobs[s.PhaseOf(w).job].run, g)
  {
    var j := s.PhaseOf(w).job;
    forall x ensures !EndingBy(crashed, x, s.db.jobs[j].run) && !CancellingBy(crashed, x, s.db.jobs[j].run) {
      NobodyElseStops(s, w, j, g, x);
      assert x != w ==> crashed.PhaseOf(x) == s.PhaseOf(x);
    }
    if StructurallyExecutable(g) {
      NoOtherWork(s, w, j, g, w);
      forall x ensures !WorkedBy(crashed, x, s.db.jobs[j].run) {
        NoOtherWork(s, w, j, g, x);
        CrashedWork(s, crashed, w, x, s.db.jobs[j].run);
      }
    }
  }

  lemma CrashedWork(s: Sys, crashed: Sys, w: int, x: int, r: int)
    requires crashed == s.At(w, Idle)
    ensures WorkedBy(crashed, x, r) ==> x != w && WorkedBy(s, x, r)
  {
    assert crashed.PhaseOf(x) == if x == w then Idle else s.PhaseOf(x);
  }

  ghost predicate IsLastFailure(s: Sys, w: int, g: Graph) {
    && s.PhaseOf(w).Failing?
    && Owned(s.db, w, s.PhaseOf(w).job)
    && s.db.jobs[s.PhaseOf(w).job].attempt >= s.db.jobs[s.PhaseOf(w).job].maxAttempts
    && ActiveGraph(s.db, s.db.jobs[s.PhaseOf(w).job].run, g)
  }

  lemma LastFailureRows(s: Sys, w: int, now: int, g: Graph)
    requires Reachable(s) && IsLastFailure(s, w, g)
    ensures var t := Next(s, AQueueFail(w, now)); var r := s.db.jobs[s.PhaseOf(w).job].run;
            && t.db == s.db.(jobs := t.db.jobs) && ActiveGraph(t.db, r, g)
            && (StructurallyExecutable(g) ==> OneJob(t.db, r) && NoLiveJobs(t.db, r))
  {
    if StructurallyExecutable(g) {
      ExecutableHasOneJob(s, s.db.jobs[s.PhaseOf(w).job].run, g);
    }
  }

  lemma LastFailureWorkers(s: Sys, w: int, now: int, g: Graph, x: int)
    requires Reachable(s) && IsLastFailure(s, w, g)
    ensures var t, r := Next(s, AQueueFail(w, now)), s.db.jobs[s.PhaseOf(w).job].run;
            && (EndingBy(t, x, r) <==> x == w && s.PhaseOf(w).current.Some?)
            && !CancellingBy(t, x, r)
  {
    if x != w {
      PhaseStands(s, AQueueFail(w, now), x);
      NobodyElseStops(s, w, s.PhaseOf(w).job, g, x);
    }
  }

  /**
   * The last failing attempt ends only its job. The worker goes on to end the run exactly when a component was at
   * hand, and exactly then the run can still end. A run that was started and then lost its last attempt before the
   * first component stays running for ever.
   */
  lemma LastFailure(s: Sys, w: int, now: int, g: Graph)
    requires Reachable(s) && IsLastFailure(s, w, g)
    ensures var t := Next(s, AQueueFail(w, now)); var r := s.db.jobs[s.PhaseOf(w).job].run;
            && t.db == s.db.(jobs := t.db.jobs) && t.db.jobs[s.PhaseOf(w).job].state.Failed?
            && (EndingBy(t, w, r) <==> s.PhaseOf(w).current.Some?)
            && ((exists u :: Leads(t, u) && EndsIn(u, r)) <==> s.PhaseOf(w).current.Some?)
            && (s.PhaseOf(w).current.None? ==> forall u :: Leads(t, u) ==> BlocksIn(u, r, s.db.runs[r].state))
  {
    var t := Next(s, AQueueFail(w, now));
    var r := s.db.jobs[s.PhaseOf(w).job].run;
    LastFailureRows(s, w, now, g);
    LastFailureEnds(s, w, now, g, t, r);
    ReachableOn(s, AQueueFail(w, now));
    RunsThatCanEnd(t, r, g);
  }

  lemma LastFailureEnds(s: Sys, w: int, now: int, g: Graph, t: Sys, r: int)
    requires Reachable(s) && IsLastFailure(s, w, g) && t == Next(s, AQueueFail(w, now)) && r == s.db.jobs[s.PhaseOf(w).job].run
    requires StructurallyExecutable(g) ==> OneJob(t.db, r) && NoLiveJobs(t.db, r)
    ensures EndingBy(t, w, r) <==> s.PhaseOf(w).current.Some?
    ensures CanEnd(t, r, g) <==> s.PhaseOf(w).current.Some?
  {
    forall x ensures (EndingBy(t, x, r) <==> x == w && s.PhaseOf(w).current.Some?) && !CancellingBy(t, x, r) {
      LastFailureWorkers(s, w, now, g, x);
    }
    NoWorkLeft(t, r, g);
  }

  lemma NoWorkLeft(s: Sys, r: int, g: Graph)
    requires StructurallyExecutable(g) ==> NoLiveJobs(s.db, r)
    ensures StructurallyExecutable(g) ==> !QueuedWork(s.db, r) && forall w :: !WorkedBy(s, w, r)
  {
  }
}
