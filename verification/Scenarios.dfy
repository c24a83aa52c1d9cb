/** Executions from the empty system that reach the places where the code does not do what one might expect. */
module Scenarios {
  import opened Wrappers
  import opened Graphs
  import opened Topologies
  import opened SaveValidation
  import opened Chains
  import opened ExecutionPlan
  import opened ExecutableCheck
  import opened PlanAgreement
  import opened Protocol
  import opened ProtocolInvariant
  import opened ProtocolTheorems
  import opened RunEnds
  import opened FailedRuns
  import opened StateMachine
  import opened Refinement

  const ONE_ATTEMPT := Retry(1, 0)
  const MANUAL := RunRequest(0, None, None)

  // ---------- A first run ----------

  lemma EmptyIsReachable()
    ensures Reachable(Empty)
  {
    assert Execution([Empty], []);
  }

  /** A pipeline is created with any savable graph, and an update enables it. */
  lemma EnabledPipeline(g: Graph) returns (s: Sys)
    requires SaveValid(g)
    ensures Reachable(s) && s == Sys(Db(map[0 := Pipeline(Enabled, g)], map[], [], []), map[], map[])
  {
    EmptyIsReachable();
    var created := Next(Empty, ACreatePipeline(0, g));
    ReachableOn(Empty, ACreatePipeline(0, g));
    assert created.db.pipelines == map[0 := Pipeline(Draft, g)];
    s := Next(created, AUpdatePipeline(0, g, Enabled));
    ReachableOn(created, AUpdatePipeline(0, g, Enabled));
    assert s.db.pipelines == map[0 := Pipeline(Enabled, g)];
  }

  lemma NothingToPromote(g: Graph)
    ensures CanCreateRun(Db(map[0 := Pipeline(Enabled, g)], map[], [], []), MANUAL, 0, None)
  {
    assert ReleaseTerminal(map[], 0) == map[];
  }

  /** Its first run is active at once. */
  lemma FirstRun(g: Graph, retry: Retry) returns (s: Sys)
    requires SaveValid(g)
    ensures Reachable(s) && s.workers == map[] && s.plans == map[]
    ensures s.db.pipelines == map[0 := Pipeline(Enabled, g)] && s.db.runs == map[0 := NewRun(MANUAL, true, 0)]
    ensures s.db.jobs == SourceJobs(0, 0, g.steps, 0, retry, 0)
  {
    var before := EnabledPipeline(g);
    NothingToPromote(g);
    var a := ACreateRun(MANUAL, 0, None, retry, 0);
    s := Next(before, a);
    ReachableOn(before, a);
    assert ReleaseTerminal(map[], 0) == map[];
    assert !HasActive(map[], 0);
    assert s.db.runs == map[0 := NewRun(MANUAL, true, 0)];
  }

  // ---------- An enabled pipeline whose run never ends ----------

  /** One Source in front of two Exports. */
  ghost predicate IsFork(g: Graph, source: Step, left: Step, right: Step) {
    && source.kind.Source? && left.kind.Export? && right.kind.Export?
    && source.id != left.id && source.id != right.id && left.id != right.id
    && ContractId(source.id) && ContractId(left.id) && ContractId(right.id)
    && g == Graph([source, left, right], [Edge(source.id, left.id), Edge(source.id, right.id)])
  }

  lemma ForkPaths(g: Graph, source: Step, left: Step, right: Step)
    requires IsFork(g, source, left, right)
    ensures EveryStepOnPath(g)
  {
    var arcs := EdgeSet(g.edges);
    assert Edge(source.id, left.id) in arcs && Edge(source.id, right.id) in arcs;
    ArcReaches(arcs, source.id, left.id);
    ArcReaches(arcs, source.id, right.id);
    ReachesSelf(arcs, source.id);
    ReachesSelf(arcs, left.id);
    ReachesSelf(arcs, right.id);
    assert source in g.steps && left in g.steps && right in g.steps;
  }

  lemma ForkHasNoCycle(g: Graph, source: Step, left: Step, right: Step, v: Id)
    requires IsFork(g, source, left, right)
    ensures !ReachesPlus(EdgeSet(g.edges), v, v)
  {
    if ReachesPlus(EdgeSet(g.edges), v, v) {
      var m :| Edge(v, m) in EdgeSet(g.edges) && Reaches(EdgeSet(g.edges), m, v);
      ClosedKeepsReach(EdgeSet(g.edges), {left.id, right.id}, m, v);
    }
  }

  lemma ForkIsSaved(g: Graph, source: Step, left: Step, right: Step)
    requires IsFork(g, source, left, right)
    ensures SaveValid(g)
  {
    ForkPaths(g, source, left, right);
    forall v ensures !ReachesPlus(EdgeSet(g.edges), v, v) {
      ForkHasNoCycle(g, source, left, right, v);
    }
    KeysAreEdges(g.edges);
    assert source in g.steps && left in g.steps && right in g.steps;
  }

  lemma ForkIsNotExecutable(g: Graph, source: Step, left: Step, right: Step)
    requires IsFork(g, source, left, right)
    ensures !StructurallyExecutable(g)
  {
    assert g.steps[1..] == [left, right] && g.steps[1..][1..] == [right] && [right][1..] == [];
    assert StepsOfKind([right], Export) == [right];
    assert StepsOfKind([left, right], Export) == [left, right];
    assert StepsOfKind(g.steps, Export) == [left, right];
  }

  /** An update enables what the enable action would refuse; the run made next stays queued for ever. */
  lemma EnabledButNeverEnds() returns (s: Sys, g: Graph)
    ensures Reachable(s) && s.db.pipelines == map[0 := Pipeline(Enabled, g)] && ActiveGraph(s.db, 0, g)
    ensures SaveValid(g) && !StructurallyExecutable(g)
    ensures forall t: Sys :: 0 in t.db.pipelines && t.db.pipelines[0].graph == g ==> !Allowed(t, ASetPipelineState(0, Enabled))
    ensures forall t :: Leads(s, t) ==> BlocksIn(t, 0, Queued)
  {
    var source, left, extra := ThreeSteps();
    var right := extra.(kind := Export);
    g := Graph([source, left, right], [Edge(source.id, left.id), Edge(source.id, right.id)]);
    assert IsFork(g, source, left, right);
    ForkIsSaved(g, source, left, right);
    ForkIsNotExecutable(g, source, left, right);
    s := FirstRun(g, ONE_ATTEMPT);
    assert ActiveGraph(s.db, 0, g);
    forall t | Leads(s, t) ensures BlocksIn(t, 0, Queued) {
      UnexecutableRunsNeverEnd(s, 0, g, t);
    }
  }

  // ---------- A run that overtakes ----------

  /** Any savable and executable graph: a Source and an Export. */
  lemma PairGraph(retry: Retry) returns (g: Graph, source: Step)
    ensures SaveValid(g) && StructurallyExecutable(g) && source in g.steps && source.kind.Source?
    ensures SourceJobs(0, 0, g.steps, 0, retry, 0) == [SourceJob(0, 0, 0, source.id, retry, 0)]
  {
    var sink, extra;
    source, sink, extra := ThreeSteps();
    var steps := [source, sink];
    g := Graph(steps, Links(IdsOf(steps)));
    ChainIsSaved(steps);
    ChainIsExecutable(steps);
    assert steps[..1] == [source] && steps[..1][..0] == [];
    assert SourceJobs(0, 0, steps[..1], 0, retry, 0) == [SourceJob(0, 0, 0, source.id, retry, 0)];
  }

  /** A second run waits behind the first. */
  lemma SecondRun(g: Graph) returns (s: Sys)
    requires SaveValid(g)
    ensures Reachable(s) && s.db.pipelines == map[0 := Pipeline(Enabled, g)]
    ensures s.db.runs == map[0 := NewRun(MANUAL, true, 0), 1 := NewRun(MANUAL, false, 1)]
  {
    var first := FirstRun(g, ONE_ATTEMPT);
    assert ReleaseTerminal(first.db.runs, 0) == first.db.runs;
    assert ActiveLive(first.db.runs, 0, 0);
    var a := ACreateRun(MANUAL, 1, None, ONE_ATTEMPT, 1);
    s := Next(first, a);
    ReachableOn(first, a);
  }

  /**
   * A manual run waits; a scheduled one is created later and comes before it. The state machine would put it last,
   * so no creation like this one is enqueueing.
   */
  lemma CreationOvertakes(name: int -> Id) returns (s: Sys, request: RunRequest, m: ExecutionState)
    requires Naming(name)
    ensures Reachable(s) && request.pipeline == 0 && CanCreateRun(s.db, request, 2, None) && Represents(s.db, 0, m, name)
    ensures EnqueuePipelineRun(m, name(2)).Ok?
    ensures !Represents(CreateRun(s.db, request, 2, None, ONE_ATTEMPT, 2), 0, EnqueuePipelineRun(m, name(2)).value, name)
  {
    var g, source := PairGraph(ONE_ATTEMPT);
    s := SecondRun(g);
    request := RunRequest(0, Some(2), Some(7));
    ScheduledOvertakes(s.db, request);
    m := ReachablePipelineStands(s, 0, name);
    ReachableCreateIsEnqueue(s, request, 2, m, name);
  }

  lemma ScheduledOvertakes(db: Db, request: RunRequest)
    requires db.runs == map[0 := NewRun(MANUAL, true, 0), 1 := NewRun(MANUAL, false, 1)]
    requires 0 in db.pipelines && db.pipelines[0].state.Enabled? && request == RunRequest(0, Some(2), Some(7))
    ensures CanCreateRun(db, request, 2, None) && !WouldComeLast(db.runs, request, 2, None, 2)
  {
    assert ReleaseTerminal(db.runs, 0) == db.runs;
    assert ActiveLive(db.runs, 0, 0);
    assert WaitsFor(db.runs, 0, 1) && !Before(db.runs[1], 1, NewRun(request, false, 2), 2);
  }

  lemma ReachablePipelineStands(s: Sys, p: int, name: int -> Id) returns (m: ExecutionState)
    requires Reachable(s) && p in s.db.pipelines
    ensures Represents(s.db, p, m, name)
  {
    ReachableIsSound(s);
    m := EveryPipelineStands(s, p, name);
  }

  lemma ReachableCreateIsEnqueue(s: Sys, request: RunRequest, r: int, m: ExecutionState, name: int -> Id)
    requires Reachable(s) && Naming(name) && Represents(s.db, request.pipeline, m, name)
    requires CanCreateRun(s.db, request, r, None)
    ensures EnqueuePipelineRun(m, name(r)).Ok?
    ensures Represents(CreateRun(s.db, request, r, None, ONE_ATTEMPT, 2), request.pipeline, EnqueuePipelineRun(m, name(r)).value, name)
       <==> WouldComeLast(s.db.runs, request, r, None, 2)
  {
    ReachableIsSound(s);
    CreateIsEnqueue(s, request, r, None, ONE_ATTEMPT, 2, m, name);
  }

  // ---------- A run that starts after its cancellation ----------

  /** Worker 0 has the only job of run 0 in hand, in its first attempt. */
  ghost predicate InHand(s: Sys, g: Graph, retry: Retry) {
    && |s.db.jobs| == 1 && s.db.jobs[0].run == 0 && Owned(s.db, 0, 0)
    && s.db.jobs[0].attempt == 1 && s.db.jobs[0].maxAttempts == retry.maxAttempts && s.db.jobs[0].delay == retry.delay
    && ActiveGraph(s.db, 0, g) && s.workers.Keys == {0} && !s.PhaseOf(0).Idle? && s.PhaseOf(0).job == 0
  }

  lemma ClaimedFirst(retry: Retry) returns (s: Sys, g: Graph)
    ensures Reachable(s) && InHand(s, g, retry) && s.PhaseOf(0).Claimed? && StructurallyExecutable(g)
    ensures s.db.runs == map[0 := NewRun(MANUAL, true, 0)] && s.plans == map[]
  {
    var source;
    g, source := PairGraph(retry);
    var first := FirstRun(g, retry);
    s := ClaimOfFirst(first, g, source, retry);
  }

  lemma ClaimOfFirst(first: Sys, g: Graph, source: Step, retry: Retry) returns (s: Sys)
    requires Reachable(first) && first.workers == map[]
    requires first.db.pipelines == map[0 := Pipeline(Enabled, g)] && first.db.runs == map[0 := NewRun(MANUAL, true, 0)]
    requires first.db.jobs == [SourceJob(0, 0, 0, source.id, retry, 0)]
    ensures Reachable(s) && InHand(s, g, retry) && s.PhaseOf(0).Claimed?
    ensures s.db.runs == first.db.runs && s.plans == first.plans
  {
    s := Next(first, AClaim(0, 0, 0));
    ReachableOn(first, AClaim(0, 0, 0));
  }

  lemma ClaimedAndPlanned(retry: Retry) returns (s: Sys, g: Graph)
    ensures Reachable(s) && InHand(s, g, retry) && s.PhaseOf(0).Planned? && StructurallyExecutable(g)
    ensures s.db.runs == map[0 := NewRun(MANUAL, true, 0)]
  {
    var claimed;
    claimed, g := ClaimedFirst(retry);
    PlanLoadsExactly(claimed, 0, g);
    var plan :| LoadsPlan(claimed.db, 0, plan);
    s := Next(claimed, ALoadPlan(0, plan));
    ReachableOn(claimed, ALoadPlan(0, plan));
  }

  /** Cancellation is requested between loading the plan and starting the run: the worker starts it, the machine refuses. */
  lemma StartAfterCancellation(name: int -> Id) returns (s: Sys, m: ExecutionState)
    requires Naming(name)
    ensures Reachable(s) && Allowed(s, AStartRun(0)) && Represents(s.db, 0, m, name)
    ensures 0 in s.db.runs && s.db.runs[0].state.Queued?
    ensures 0 in Next(s, AStartRun(0)).db.runs && Next(s, AStartRun(0)).db.runs[0].state.Running?
    ensures StartActiveRun(m) == Err(CancelledBeforeStart)
  {
    var planned, g := ClaimedAndPlanned(ONE_ATTEMPT);
    s := Next(planned, ARequestCancellation(0));
    ReachableOn(planned, ARequestCancellation(0));
    ReachableIsSound(s);
    m := EveryPipelineStands(s, 0, name);
    StartIsStart(s, 0, m, name);
  }

  // ---------- Runs that are lost ----------

  lemma StartedFirst(retry: Retry) returns (s: Sys, g: Graph)
    ensures Reachable(s) && InHand(s, g, retry) && s.PhaseOf(0).AtStep? && s.PhaseOf(0).k == 0 && !s.PhaseOf(0).started
    ensures s.PhaseOf(0).plan != [] && 0 in s.db.runs && s.db.runs[0].state.Running? && s.db.runs.Keys == {0}
    ensures !s.db.runs[0].cancelRequested && StructurallyExecutable(g)
  {
    var planned;
    planned, g := ClaimedAndPlanned(retry);
    s := Next(planned, AStartRun(0));
    ReachableOn(planned, AStartRun(0));
    OnCourseGoesOn(s, 0);
  }

  lemma RaisedFirst() returns (s: Sys, g: Graph)
    ensures Reachable(s) && IsLastFailure(s, 0, g) && s.PhaseOf(0) == Failing(0, None) && s.workers.Keys == {0}
    ensures |s.db.jobs| == 1 && s.db.jobs[0].run == 0 && 0 in s.db.runs && s.db.runs[0].state.Running?
  {
    var started;
    started, g := StartedFirst(ONE_ATTEMPT);
    s := Next(started, ARaiseAfter(0));
    ReachableOn(started, ARaiseAfter(0));
  }

  /** The run is started, recording that raises, and no component is at hand: it stays running with nobody at work. */
  lemma StartedThenLost() returns (s: Sys)
    ensures Reachable(s) && 0 in s.db.runs && s.db.runs[0].state.Running? && NoLiveJobs(s.db, 0)
    ensures forall w :: s.PhaseOf(w).Idle?
    ensures forall t :: Leads(s, t) ==> BlocksIn(t, 0, Running)
  {
    var raised, g := RaisedFirst();
    s := Next(raised, AQueueFail(0, 1));
    ReachableOn(raised, AQueueFail(0, 1));
    LastFailure(raised, 0, 1, g);
  }

  /** The worker's process ends after the claim: the row goes on naming it, and the run stays queued. */
  lemma ClaimedThenLost() returns (s: Sys)
    ensures Reachable(s) && |s.db.jobs| == 1 && s.db.jobs[0].run == 0 && s.db.jobs[0].state.Running?
    ensures forall w :: s.PhaseOf(w).Idle?
    ensures forall t :: Leads(s, t) ==> BlocksIn(t, 0, Queued)
  {
    var claimed, g := ClaimedFirst(ONE_ATTEMPT);
    s := Next(claimed, ACrash(0));
    ReachableOn(claimed, ACrash(0));
    forall t | Leads(s, t) ensures BlocksIn(t, 0, Queued) {
      CrashLosesRun(claimed, 0, g, t);
    }
  }

  lemma RequestedFirst() returns (s: Sys, g: Graph)
    ensures Reachable(s) && InHand(s, g, ONE_ATTEMPT) && s.PhaseOf(0).AtStep? && s.PhaseOf(0).k < |s.PhaseOf(0).plan|
    ensures 0 in s.db.runs && s.db.runs[0].state.Running? && s.db.runs[0].cancelRequested
  {
    var started;
    started, g := StartedFirst(ONE_ATTEMPT);
    s := Next(started, ARequestCancellation(0));
    ReachableOn(started, ARequestCancellation(0));
  }

  lemma CancelledFirst() returns (s: Sys, g: Graph)
    ensures Reachable(s) && ActiveGraph(s.db, 0, g) && s.PhaseOf(0).Cancelling? && s.workers.Keys == {0}
    ensures NoLiveJobs(s.db, 0) && s.db.runs[0].state.Running? && s.db.runs[0].cancelRequested
  {
    var requested;
    requested, g := RequestedFirst();
    s := Next(requested, ACancelOwned(0, 1));
    ReachableOn(requested, ACancelOwned(0, 1));
  }

  /** The worker's process ends between cancelling its job and ending the run: the run stays running. */
  lemma CancelledThenLost() returns (s: Sys)
    ensures Reachable(s) && NoLiveJobs(s.db, 0) && forall w :: s.PhaseOf(w).Idle?
    ensures 0 in s.db.runs && s.db.runs[0].state.Running? && s.db.runs[0].cancelRequested
    ensures forall t :: Leads(s, t) ==> BlocksIn(t, 0, Running)
  {
    var cancelled, g := CancelledFirst();
    s := Next(cancelled, ACrash(0));
    ReachableOn(cancelled, ACrash(0));
    forall t | Leads(s, t) ensures BlocksIn(t, 0, Running) {
      NobodyLeft(s, 0, g);
      StuckNeverEnds(s, 0, g, t);
    }
  }

  lemma NobodyLeft(s: Sys, r: int, g: Graph)
    requires ActiveGraph(s.db, r, g) && NoLiveJobs(s.db, r) && forall w :: s.PhaseOf(w).Idle?
    ensures Stuck(s, r, g)
  {
  }

  // ---------- A failed run whose step goes on running ----------

  const TWO_ATTEMPTS := Retry(2, 0)

  /** How the first two steps of the plan of run 0 stand. */
  ghost predicate StepsStand(s: Sys, plan: seq<PlanNode>, first: State, second: State) {
    && |plan| >= 2 && plan[0].row < |s.db.steps| && plan[1].row < |s.db.steps| && plan[0].row != plan[1].row
    && s.db.steps[plan[0].row].run == 0 && s.db.steps[plan[1].row].run == 0
    && s.db.steps[plan[0].row].state == first && s.db.steps[plan[1].row].state == second
  }

  /** Only worker 0 is at work, on the only job, of run 0, in the given attempt of two. */
  ghost predicate AtWork(s: Sys, attempt: nat, phase: Phase) {
    && Reachable(s) && s.workers == map[0 := phase] && |s.db.jobs| == 1 && s.db.jobs[0].run == 0 && Owned(s.db, 0, 0)
    && s.db.jobs[0].attempt == attempt && s.db.jobs[0].maxAttempts == 2 && s.db.jobs[0].delay == 0
  }

  lemma PlansHaveTwoSteps(s: Sys, plan: seq<PlanNode>)
    requires Reachable(s) && s.plans == map[] && Allowed(s, ALoadPlan(0, plan)) && s.PhaseOf(0) == Claimed(0)
    requires |s.db.jobs| == 1 && s.db.jobs[0].run == 0
    ensures StepsStand(Next(s, ALoadPlan(0, plan)), plan, Queued, Queued)
  {
    var loaded := Next(s, ALoadPlan(0, plan));
    assert plan[0].kind.Source? && plan[|plan| - 1].kind.Export?;
    ReachableOn(s, ALoadPlan(0, plan));
    ReachableIsSound(s);
    ReachableIsSound(loaded);
    assert PlanInv(loaded.db, 0, loaded.plans[0]);
  }

  lemma PlannedForTwo() returns (s: Sys, plan: seq<PlanNode>)
    ensures AtWork(s, 1, Planned(0, plan)) && StepsStand(s, plan, Queued, Queued) && 0 in s.plans && s.plans[0] == plan
  {
    var claimed, g := ClaimedFirst(TWO_ATTEMPTS);
    PlanLoadsExactly(claimed, 0, g);
    plan :| LoadsPlan(claimed.db, 0, plan);
    s := LoadedFirst(claimed, g, plan);
  }

  lemma LoadedFirst(claimed: Sys, g: Graph, plan: seq<PlanNode>) returns (s: Sys)
    requires Reachable(claimed) && InHand(claimed, g, TWO_ATTEMPTS) && claimed.PhaseOf(0) == Claimed(0)
    requires LoadsPlan(claimed.db, 0, plan) && claimed.plans == map[]
    ensures AtWork(s, 1, Planned(0, plan)) && StepsStand(s, plan, Queued, Queued) && 0 in s.plans && s.plans[0] == plan
  {
    PlansHaveTwoSteps(claimed, plan);
    s := Next(claimed, ALoadPlan(0, plan));
    ReachableOn(claimed, ALoadPlan(0, plan));
    assert s.workers == map[0 := Planned(0, plan)];
  }

  /** A step of worker 0 that writes no job row. */
  lemma WorkGoesOn(s: Sys, attempt: nat, phase: Phase, a: Action, phase': Phase) returns (t: Sys)
    requires AtWork(s, attempt, phase) && Allowed(s, a) && Next(s, a).workers == s.workers[0 := phase']
    requires Next(s, a).db.jobs == s.db.jobs
    ensures t == Next(s, a) && AtWork(t, attempt, phase')
  {
    t := Next(s, a);
    ReachableOn(s, a);
    StillAtWork(s, t, attempt, phase, phase');
  }

  lemma StillAtWork(s: Sys, t: Sys, attempt: nat, phase: Phase, phase': Phase)
    requires AtWork(s, attempt, phase) && Reachable(t)
    requires t.workers == s.workers[0 := phase'] && t.db.jobs == s.db.jobs
    ensures AtWork(t, attempt, phase')
  {
    assert t.workers == map[0 := phase'];
  }

  lemma RunStarts(s: Sys, attempt: nat, plan: seq<PlanNode>) returns (t: Sys)
    requires AtWork(s, attempt, Planned(0, plan))
    ensures AtWork(t, attempt, AtStep(0, plan, 0, false)) && t.db.steps == s.db.steps && t.plans == s.plans
  {
    t := WorkGoesOn(s, attempt, Planned(0, plan), AStartRun(0), AtStep(0, plan, 0, false));
  }

  lemma StepStartsAt(s: Sys, attempt: nat, plan: seq<PlanNode>, k: nat) returns (t: Sys)
    requires AtWork(s, attempt, AtStep(0, plan, k, false)) && k < |plan| && plan[k].row < |s.db.steps|
    ensures AtWork(t, attempt, AtStep(0, plan, k, true)) && t.plans == s.plans
    ensures var row := plan[k].row;
            t.db.steps == if s.db.steps[row].state == Queued then s.db.steps[row := s.db.steps[row].(state := Running)]
                          else s.db.steps
  {
    t := WorkGoesOn(s, attempt, AtStep(0, plan, k, false), AStartStep(0), AtStep(0, plan, k, true));
  }

  lemma FirstStepSucceeds(s: Sys, plan: seq<PlanNode>) returns (t: Sys)
    requires AtWork(s, 1, AtStep(0, plan, 0, true)) && |plan| >= 2 && plan[0].row < |s.db.steps|
    requires s.db.steps[plan[0].row].state == Running
    ensures AtWork(t, 1, AtStep(0, plan, 1, false)) && t.plans == s.plans
    ensures t.db.steps == s.db.steps[plan[0].row := s.db.steps[plan[0].row].(state := Succeeded)]
  {
    t := WorkGoesOn(s, 1, AtStep(0, plan, 0, true), ASucceedStep(0), AtStep(0, plan, 1, false));
  }

  /** The first attempt comes to its second step. */
  lemma SecondStepAtWork() returns (s: Sys, plan: seq<PlanNode>)
    ensures AtWork(s, 1, AtStep(0, plan, 1, true)) && StepsStand(s, plan, Succeeded, Running) && 0 in s.plans && s.plans[0] == plan
  {
    s, plan := PlannedForTwo();
    s := RunStarts(s, 1, plan);
    s := StepStartsAt(s, 1, plan, 0);
    s := FirstStepSucceeds(s, plan);
    s := StepStartsAt(s, 1, plan, 1);
  }

  /** It raises there; the job is requeued, and claimed again at once. */
  lemma ClaimedAgain(s: Sys, plan: seq<PlanNode>) returns (t: Sys)
    requires AtWork(s, 1, AtStep(0, plan, 1, true))
    ensures AtWork(t, 2, Claimed(0)) && t.db.steps == s.db.steps && t.plans == s.plans
  {
    var raised := WorkGoesOn(s, 1, AtStep(0, plan, 1, true), ARaise(0), Failing(0, Some((plan, 1))));
    var requeued := Requeues(raised, plan);
    t := ClaimedOnceMore(requeued);
  }

  /** Run 0 has its only job in the queue, after one attempt of two. */
  ghost predicate InQueueAgain(s: Sys) {
    && Reachable(s) && s.workers == map[0 := Idle]
    && |s.db.jobs| == 1 && s.db.jobs[0].state == Queued && s.db.jobs[0].availableAt == 1 && s.db.jobs[0].attempt == 1
    && s.db.jobs[0].run == 0 && s.db.jobs[0].maxAttempts == 2 && s.db.jobs[0].delay == 0
  }

  lemma ClaimedOnceMore(s: Sys) returns (t: Sys)
    requires InQueueAgain(s)
    ensures AtWork(t, 2, Claimed(0)) && t.db.steps == s.db.steps && t.plans == s.plans
  {
    t := Next(s, AClaim(0, 0, 1));
    ReachableOn(s, AClaim(0, 0, 1));
    assert t.workers == map[0 := Claimed(0)];
  }

  lemma Requeues(s: Sys, plan: seq<PlanNode>) returns (t: Sys)
    requires AtWork(s, 1, Failing(0, Some((plan, 1))))
    ensures InQueueAgain(t) && t.db.steps == s.db.steps && t.plans == s.plans
  {
    t := Next(s, AQueueFail(0, 1));
    ReachableOn(s, AQueueFail(0, 1));
    assert t.workers == map[0 := Idle];
  }

  lemma LoadedAgain(s: Sys, plan: seq<PlanNode>) returns (t: Sys)
    requires AtWork(s, 2, Claimed(0)) && 0 in s.plans && s.plans[0] == plan
    ensures AtWork(t, 2, Planned(0, plan)) && t.db.steps == s.db.steps
  {
    var again := PlanAgain(s, plan);
    SamePlanEveryAttempt(s, 0, again, ALoadPlan(0, again));
    t := WorkGoesOn(s, 2, Claimed(0), ALoadPlan(0, again), Planned(0, again));
  }

  lemma PlanAgain(s: Sys, plan: seq<PlanNode>) returns (again: seq<PlanNode>)
    requires AtWork(s, 2, Claimed(0)) && 0 in s.plans && s.plans[0] == plan
    ensures Allowed(s, ALoadPlan(0, again))
  {
    ReachableIsSound(s);
    var g := s.db.pipelines[s.db.runs[0].pipeline].graph;
    assert ActiveGraph(s.db, 0, g);
    PlannedIsExecutable(s, 0, g);
    PlanLoadsExactly(s, 0, g);
    again :| LoadsPlan(s.db, 0, again);
  }

  /** In the second attempt the first component raises; its step has succeeded already, so the run fails and no step. */
  lemma SecondAttempt() returns (s: Sys, plan: seq<PlanNode>)
    ensures AtWork(s, 2, AtStep(0, plan, 0, true)) && StepsStand(s, plan, Succeeded, Running)
  {
    s, plan := SecondStepAtWork();
    s := ClaimedAgain(s, plan);
    s := LoadedAgain(s, plan);
    s := RunStarts(s, 2, plan);
    s := StepStartsAt(s, 2, plan, 0);
  }

  /**
   * Two attempts, the second of which does not come as far as the first: the run has failed, its only job too, and
   * one of its steps stays running for ever.
   */
  lemma FailedButStepRuns() returns (s: Sys, row: nat)
    ensures Reachable(s) && row < |s.db.steps| && s.db.steps[row].run == 0 && NoLiveJobs(s.db, 0)
    ensures 0 in s.db.runs && s.db.runs[0].state == Failed && s.db.steps[row].state == Running
    ensures forall t :: Leads(s, t) ==>
              row < |t.db.steps| && t.db.steps[row].state == Running && 0 in t.db.runs && t.db.runs[0].state == Failed
  {
    var before, plan := SecondAttempt();
    s := LastRaise(before, 0, 2);
    row := plan[1].row;
    FailsAlone(before, s, plan);
    forall t | Leads(s, t)
      ensures row < |t.db.steps| && t.db.steps[row].state == Running && 0 in t.db.runs && t.db.runs[0].state == Failed
    {
      SettledStepsStay(s, 0, t);
    }
  }

  lemma LedIsReachable(s: Sys, t: Sys)
    requires Reachable(s) && Leads(s, t)
    ensures Reachable(t)
  {
    var states, actions :| Fragment(states, actions, s, t);
    FragmentIsReachable(states, actions, s, t, |actions|);
  }

  lemma {:induction false} FragmentIsReachable(states: seq<Sys>, actions: seq<Action>, s: Sys, t: Sys, n: nat)
    requires Fragment(states, actions, s, t) && Reachable(s) && n < |states|
    ensures Reachable(states[n])
  {
    if n > 0 {
      FragmentIsReachable(states, actions, s, t, n - 1);
      ReachableOn(states[n - 1], actions[n - 1]);
      assert states[n - 1 + 1] == Next(states[n - 1], actions[n - 1]);
    }
  }

  lemma FailsAlone(s: Sys, t: Sys, plan: seq<PlanNode>)
    requires AtWork(s, 2, AtStep(0, plan, 0, true)) && StepsStand(s, plan, Succeeded, Running) && Leads(s, t)
    requires |t.db.jobs| == 1 && t.db.jobs[0].state == Failed && t.workers == s.workers[0 := AfterFailure(0)]
    requires StepFailed(s.db.steps, t.db.steps, plan[0].row) && RunFailed(s.db.runs, t.db.runs, 0)
    ensures Reachable(t) && Settled(t, 0) && 0 in t.db.runs && t.db.runs[0].state == Failed
    ensures StepsStand(t, plan, Succeeded, Running) && NoLiveJobs(t.db, 0)
  {
    LedIsReachable(s, t);
    PhasesAreSound(s, 0);
    assert forall w :: t.PhaseOf(w).FailingRun? ==> w == 0;
  }
}
