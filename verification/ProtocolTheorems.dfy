/** What the protocol guarantees over every run of the system. */
module ProtocolTheorems {
  import opened Wrappers
  import opened Graphs
  import opened SaveValidation
  import opened Chains
  import opened ExecutionPlan
  import opened Protocol
  import opened ProtocolFrames
  import opened ProtocolInvariant
  import opened ProtocolRows
  import opened ProtocolSteps
  import opened ProtocolScheduler

  // ---------- The invariant holds in every reachable state ----------

  lemma WorkerStepKeepsInv(s: Sys, a: Action)
    requires Inv(s) && Allowed(s, a)
    requires a.AClaim? || a.AHeartbeat? || a.ARelease? || a.ALoadPlan? || a.AStartRun? || a.AStartStep?
             || a.ASucceedStep? || a.AFinishSuccess?
    ensures Inv(Next(s, a))
  {
    match a {
      case AClaim(w, j, now) => ClaimKeeps(s, w, j, now);
      case AHeartbeat(w, j, now) => HeartbeatKeeps(s, w, j, now);
      case ARelease(w, j, now) => ReleaseKeeps(s, w, j, now);
      case ALoadPlan(w, plan) => LoadPlanKeeps(s, w, plan);
      case AStartRun(w) => StartRunKeeps(s, w);
      case AStartStep(w) => StartStepKeeps(s, w);
      case ASucceedStep(w) => SucceedStepKeeps(s, w);
      case AFinishSuccess(w, now) => FinishSuccessKeeps(s, w, now);
    }
  }

  lemma RaiseKeepsInv(s: Sys, w: int, failing: Phase)
    requires Inv(s) && failing.Failing? && WorkerOk(s, w, failing)
    ensures Inv(s.At(w, failing))
  {
    PhaseOnly(s, w, failing);
  }

  lemma ExceptionKeepsInv(s: Sys, a: Action)
    requires Inv(s) && Allowed(s, a) && (a.AFinishRejected? || a.ARaise? || a.ARaiseAfter?)
    ensures Inv(Next(s, a))
  {
    if a.ARaiseAfter? {
      RaiseAfterOk(s, a.w);
      RaiseKeepsInv(s, a.w, Failing(s.PhaseOf(a.w).job, CurrentBefore(s.PhaseOf(a.w))));
    } else {
      RaiseOk(s, a.w);
      RaiseKeepsInv(s, a.w, Failing(s.PhaseOf(a.w).job, CurrentOf(s.PhaseOf(a.w))));
    }
  }

  lemma FailureStepKeepsInv(s: Sys, a: Action)
    requires Inv(s) && Allowed(s, a)
    requires a.AQueueFail? || a.AFinishFailure? || a.ACancelOwned?
    ensures Inv(Next(s, a))
  {
    match a {
      case AQueueFail(w, now) => QueueFailKeeps(s, w, now);
      case AFinishFailure(w) => FinishFailureKeeps(s, w);
      case ACancelOwned(w, now) => CancelOwnedKeeps(s, w, now);
    }
  }

  /** A worker that is done with a job, or that ends. */
  lemma LeavingStepKeepsInv(s: Sys, a: Action)
    requires Inv(s) && Allowed(s, a) && (a.ADone? || a.ACrash?)
    ensures Inv(Next(s, a))
  {
    match a {
      case ADone(w) => PhaseOnly(s, w, Idle);
      case ACrash(w) => PhaseOnly(s, w, Idle);
    }
  }

  lemma CancellationStepKeepsInv(s: Sys, a: Action)
    requires Inv(s) && Allowed(s, a)
    requires a.ACancelPending? || a.AFinalizeCancelled? || a.ARequestCancellation? || a.ADropTrigger?
    ensures Inv(Next(s, a))
  {
    match a {
      case ACancelPending(w, now) => CancelPendingStepKeeps(s, w, now);
      case AFinalizeCancelled(w) => FinalizeStepKeeps(s, w);
      case ARequestCancellation(r) => RequestCancellationKeeps(s, r);
      case ADropTrigger(t) => DropTriggerKeeps(s, t);
    }
  }

  lemma EditorStepKeepsInv(s: Sys, a: Action)
    requires Inv(s) && Allowed(s, a)
    requires a.ACreatePipeline? || a.ADeletePipeline? || a.AUpdatePipeline? || a.ASetPipelineState?
    ensures Inv(Next(s, a))
  {
    match a {
      case ACreatePipeline(p, g) => CreatePipelineKeeps(s, p, g);
      case ADeletePipeline(p) => DeletePipelineKeeps(s, p);
      case AUpdatePipeline(p, g, ps) => UpdatePipelineKeeps(s, p, g, ps);
      case ASetPipelineState(p, ps) => SetPipelineStateKeeps(s, p, ps);
    }
  }

  lemma SchedulerStepKeepsInv(s: Sys, a: Action)
    requires Inv(s) && Allowed(s, a) && (a.ACreateRun? || a.APromote?)
    ensures Inv(Next(s, a))
  {
    match a {
      case ACreateRun(request, r, promoted, retry, now) => CreateRunKeeps(s, request, r, promoted, retry, now);
      case APromote(p, promoted, retry, now) => PromoteKeeps(s, p, promoted, retry, now);
    }
  }

  lemma NextKeepsInv(s: Sys, a: Action)
    requires Inv(s) && Allowed(s, a)
    ensures Inv(Next(s, a))
  {
    if a.ACreatePipeline? || a.ADeletePipeline? || a.AUpdatePipeline? || a.ASetPipelineState? {
      EditorStepKeepsInv(s, a);
    } else if a.ACreateRun? || a.APromote? {
      SchedulerStepKeepsInv(s, a);
    } else if a.AClaim? || a.AHeartbeat? || a.ARelease? || a.ALoadPlan? || a.AStartRun? || a.AStartStep?
              || a.ASucceedStep? || a.AFinishSuccess? {
      WorkerStepKeepsInv(s, a);
    } else if a.AFinishRejected? || a.ARaise? || a.ARaiseAfter? {
      ExceptionKeepsInv(s, a);
    } else if a.AQueueFail? || a.AFinishFailure? || a.ACancelOwned? {
      FailureStepKeepsInv(s, a);
    } else if a.ADone? || a.ACrash? {
      LeavingStepKeepsInv(s, a);
    } else {
      CancellationStepKeepsInv(s, a);
    }
  }

  lemma {:induction false} ExecutionKeepsInv(states: seq<Sys>, actions: seq<Action>, n: nat)
    requires Execution(states, actions) && n < |states|
    ensures Inv(states[n])
  {
    if n > 0 {
      ExecutionKeepsInv(states, actions, n - 1);
      NextKeepsInv(states[n - 1], actions[n - 1]);
      assert states[n - 1 + 1] == Next(states[n - 1], actions[n - 1]);
    }
  }

  lemma ReachableIsSound(s: Sys)
    requires Reachable(s)
    ensures Inv(s)
  {
    var states, actions :| Execution(states, actions) && states[|states| - 1] == s;
    ExecutionKeepsInv(states, actions, |states| - 1);
  }

  lemma ReachableOn(s: Sys, a: Action)
    requires Reachable(s) && Allowed(s, a)
    ensures Reachable(Next(s, a))
  {
    var states, actions :| Execution(states, actions) && states[|states| - 1] == s;
    var states', actions' := states + [Next(s, a)], actions + [a];
    forall i | 0 <= i < |actions'| ensures Allowed(states'[i], actions'[i]) && states'[i + 1] == Next(states'[i], actions'[i]) {
      if i < |actions| {
        assert states[i + 1] == Next(states[i], actions[i]);
      }
    }
    assert Execution(states', actions');
  }

  lemma PhasesAreSound(s: Sys, w: int)
    requires Reachable(s)
    ensures WorkerOk(s, w, s.PhaseOf(w))
  {
    ReachableIsSound(s);
  }

  lemma PhaseStands(s: Sys, a: Action, w: int)
    requires Allowed(s, a) && Actor(a) != Some(w)
    ensures Next(s, a).PhaseOf(w) == s.PhaseOf(w)
  {
  }

  // ---------- Serialised execution ----------

  /** One active run per pipeline whatever its state; queued and running jobs are that run's, while it has not ended. */
  lemma SerialisedExecution(s: Sys)
    requires Reachable(s)
    ensures forall p, a, b :: ActiveRunOf(s.db.runs, p, a) && ActiveRunOf(s.db.runs, p, b) ==> a == b
    ensures forall j :: 0 <= j < |s.db.jobs| && s.db.jobs[j].state.Live() ==>
              ActiveLive(s.db.runs, s.db.jobs[j].pipeline, s.db.jobs[j].run)
  {
    ReachableIsSound(s);
  }

  /** Promotion never finds a live run beside the one it starts, although it does not look. */
  lemma PromotionStartsTheOnlyRun(s: Sys, p: int, promoted: Option<int>, retry: Retry, now: int, x: int)
    requires Reachable(s) && Allowed(s, APromote(p, promoted, retry, now))
    requires ActiveRunOf(Next(s, APromote(p, promoted, retry, now)).db.runs, p, x)
    ensures promoted == Some(x)
  {
    ReachableIsSound(s);
    PromotionFindsNoneActive(s.db, p);
    assert !ActiveRunOf(ReleaseTerminal(s.db.runs, p), p, x);
  }

  // ---------- No lost backlog ----------

  function WaitingRuns(runs: map<int, Run>, p: int): set<int> {
    set r | r in runs && WaitsFor(runs, p, r)
  }

  /** Whenever work waits, an active run is ahead of it. */
  lemma BacklogIsBacked(s: Sys, r: int)
    requires Reachable(s) && r in s.db.runs && s.db.runs[r].Waiting()
    ensures exists b :: ActiveRunOf(s.db.runs, s.db.runs[r].pipeline, b)
  {
    ReachableIsSound(s);
  }

  /**
   * Each promotion takes one run off the backlog, so draining it ends. That run is scheduled if any waiting run is, for
   * no later time; among equal times it is the one created first, and among those the one with the least identity.
   */
  lemma PromotionDrains(s: Sys, p: int, promoted: Option<int>, retry: Retry, now: int)
    requires Reachable(s) && Allowed(s, APromote(p, promoted, retry, now))
    ensures var runs, after := s.db.runs, Next(s, APromote(p, promoted, retry, now)).db.runs;
            match promoted
            case None => WaitingRuns(runs, p) == {} == WaitingRuns(after, p)
            case Some(o) =>
              && o in WaitingRuns(runs, p)
              && (forall x :: x in WaitingRuns(runs, p) && x != o ==>
                    && (runs[o].scheduledFor.None? ==> runs[x].scheduledFor.None?)
                    && (runs[x].scheduledFor.Some? ==> runs[o].scheduledFor.value <= runs[x].scheduledFor.value)
                    && (runs[o].scheduledFor == runs[x].scheduledFor ==> runs[o].createdAt <= runs[x].createdAt)
                    && (runs[o].scheduledFor == runs[x].scheduledFor && runs[o].createdAt == runs[x].createdAt ==> o < x))
              && WaitingRuns(after, p) == WaitingRuns(runs, p) - {o}
              && |WaitingRuns(after, p)| == |WaitingRuns(runs, p)| - 1
  {
    var runs := s.db.runs;
    var released := ReleaseTerminal(runs, p);
    assert forall x :: WaitsFor(runs, p, x) <==> WaitsFor(released, p, x);
    var after := Next(s, APromote(p, promoted, retry, now)).db.runs;
    match promoted {
      case None =>
        assert WaitingRuns(runs, p) == {};
      case Some(o) =>
        assert after == released[o := released[o].(isActive := true)];
        assert WaitingRuns(after, p) == WaitingRuns(runs, p) - {o};
        forall x | x in WaitingRuns(runs, p) && x != o ensures Before(runs[o], o, runs[x], x) {
          assert WaitsFor(released, p, x);
        }
    }
  }

  /**
   * A run that is created is active exactly when no other run of its pipeline is queued or running; and afterwards
   * the pipeline has an active run that has not ended.
   */
  lemma CreationStartsOrWaits(s: Sys, request: RunRequest, r: int, promoted: Option<int>, retry: Retry, now: int)
    requires Reachable(s) && Allowed(s, ACreateRun(request, r, promoted, retry, now))
    ensures var after := Next(s, ACreateRun(request, r, promoted, retry, now)).db.runs;
            && r !in s.db.runs && r in after
            && (after[r].isActive <==> forall x :: x in s.db.runs && s.db.runs[x].pipeline == request.pipeline ==>
                                         !s.db.runs[x].state.Queued? && !s.db.runs[x].state.Running?)
            && (exists a :: a in after && after[a].pipeline == request.pipeline && after[a].isActive
                            && (after[a].state.Queued? || after[a].state.Running?))
  {
    ReachableIsSound(s);
    CreatedIsActive(s.db, request, r, promoted, retry, now);
    SomebodyIsActive(s.db, request, r, promoted, retry, now);
  }

  lemma CreatedIsActive(db: Db, request: RunRequest, r: int, promoted: Option<int>, retry: Retry, now: int)
    requires RunsInv(db) && CanCreateRun(db, request, r, promoted)
    ensures var after := CreateRun(db, request, r, promoted, retry, now).runs;
            r in after && (after[r].isActive <==> Editable(db.runs, request.pipeline))
  {
    var p := request.pipeline;
    var released := ReleaseTerminal(db.runs, p);
    if HasActive(released, p) {
      var a :| ActiveLive(released, p, a);
      assert a in db.runs && db.runs[a].pipeline == p && db.runs[a].state.Live();
    } else if promoted.Some? {
      assert WaitsFor(released, p, promoted.value);
      assert db.runs[promoted.value].state.Live();
    } else {
      forall x | x in db.runs && db.runs[x].pipeline == p ensures !db.runs[x].state.Live() {
        assert !ActiveLive(released, p, x) && !WaitsFor(released, p, x);
      }
    }
  }

  lemma SomebodyIsActive(db: Db, request: RunRequest, r: int, promoted: Option<int>, retry: Retry, now: int)
    requires CanCreateRun(db, request, r, promoted)
    ensures exists a :: ActiveLive(CreateRun(db, request, r, promoted, retry, now).runs, request.pipeline, a)
  {
    var p := request.pipeline;
    var released := ReleaseTerminal(db.runs, p);
    var after := CreateRun(db, request, r, promoted, retry, now).runs;
    if HasActive(released, p) {
      var a :| ActiveLive(released, p, a);
      assert ActiveLive(after, p, a);
    } else if promoted.Some? {
      assert ActiveLive(after, p, promoted.value);
    } else {
      assert ActiveLive(after, p, r);
    }
  }

  /** A run has no jobs while it waits and, once active, exactly one for each Source of its pipeline. */
  lemma JobsAreCreatedOnce(s: Sys, r: int, g: Graph)
    requires Reachable(s)
    ensures r in s.db.runs && s.db.runs[r].Waiting() ==> forall j :: 0 <= j < |s.db.jobs| ==> s.db.jobs[j].run != r
    ensures ActiveGraph(s.db, r, g) ==>
              && (forall c :: c in g.steps && c.kind.Source? ==> HasJob(s.db.jobs, r, c.id))
              && (forall j :: 0 <= j < |s.db.jobs| && s.db.jobs[j].run == r ==> KindOf(g.steps, s.db.jobs[j].component).Source?)
    ensures forall i, j :: 0 <= i < j < |s.db.jobs| && s.db.jobs[i].run == s.db.jobs[j].run ==>
              s.db.jobs[i].component != s.db.jobs[j].component
  {
    ReachableIsSound(s);
    if r in s.db.runs && s.db.runs[r].Waiting() {
      WaitingHasNoRows(s.db, r);
    }
    forall i, j | 0 <= i < j < |s.db.jobs| && s.db.jobs[i].run == s.db.jobs[j].run
      ensures s.db.jobs[i].component != s.db.jobs[j].component
    {
      assert s.db.jobs[i].step != s.db.jobs[j].step;
    }
  }

  // ---------- Plan stability ----------

  /** While a run is queued or running, its pipeline stays enabled with the graph it had. */
  lemma GraphIsFrozen(s: Sys, a: Action, r: int)
    requires Reachable(s) && Allowed(s, a) && r in s.db.runs && s.db.runs[r].state.Live()
    ensures var p := s.db.runs[r].pipeline;
            && p in s.db.pipelines && p in Next(s, a).db.pipelines
            && s.db.pipelines[p].state.Enabled?
            && Next(s, a).db.pipelines[p] == s.db.pipelines[p]
  {
    PipelineOfLiveRun(s, r);
    PipelineStays(s, a, r);
  }

  lemma PipelineOfLiveRun(s: Sys, r: int)
    requires Reachable(s) && r in s.db.runs && s.db.runs[r].state.Live()
    ensures s.db.runs[r].pipeline in s.db.pipelines && s.db.pipelines[s.db.runs[r].pipeline].state.Enabled?
  {
    ReachableIsSound(s);
  }

  /** The edit lock looks for queued and running runs, so it sees this one. */
  lemma PipelineStays(s: Sys, a: Action, r: int)
    requires Allowed(s, a) && r in s.db.runs && s.db.runs[r].state.Live() && s.db.runs[r].pipeline in s.db.pipelines
    ensures s.db.runs[r].pipeline in Next(s, a).db.pipelines
    ensures Next(s, a).db.pipelines[s.db.runs[r].pipeline] == s.db.pipelines[s.db.runs[r].pipeline]
  {
    if !EditsPipelines(a) {
      PipelinesLeft(s, a);
    }
  }

  /** An activated live run has one step for each component of that graph and no other. */
  lemma OneStepPerComponent(s: Sys, r: int, g: Graph)
    requires Reachable(s) && ActiveGraph(s.db, r, g)
    ensures forall c :: c in g.steps ==> HasRow(s.db.steps, r, c.id)
    ensures forall i :: 0 <= i < |s.db.steps| && s.db.steps[i].run == r ==> s.db.steps[i].component in StepIds(g.steps)
    ensures forall i, j :: 0 <= i < j < |s.db.steps| && s.db.steps[i].run == s.db.steps[j].run ==>
              s.db.steps[i].component != s.db.steps[j].component
  {
    ReachableIsSound(s);
  }

  /** Every attempt of a run is executed with the plan of its first attempt. */
  lemma SamePlanEveryAttempt(s: Sys, w: int, plan: seq<PlanNode>, a: Action)
    requires Reachable(s) && Allowed(s, ALoadPlan(w, plan)) && Allowed(s, a)
    ensures var r := s.db.jobs[s.PhaseOf(w).job].run; r in s.plans ==> s.plans[r] == plan
    ensures forall r :: r in s.plans ==> r in Next(s, a).plans && Next(s, a).plans[r] == s.plans[r]
  {
    ReachableIsSound(s);
    LoadedPlanFits(s, w, plan);
    PlansAreKept(s, a);
  }

  lemma PlansAreKept(s: Sys, a: Action)
    requires Inv(s) && Allowed(s, a)
    ensures forall r :: r in s.plans ==> r in Next(s, a).plans && Next(s, a).plans[r] == s.plans[r]
  {
    if a.ALoadPlan? {
      LoadedPlanFits(s, a.w, a.plan);
    } else {
      PlansLeft(s, a);
    }
  }

  lemma PlansLeft(s: Sys, a: Action)
    requires Allowed(s, a) && !a.ALoadPlan?
    ensures Next(s, a).plans == s.plans
  {
    if EditsPipelines(a) || ScheduledBy(a) || WritesRuns(a) {
      RowStepsKeepPlans(s, a);
    }
  }

  lemma RowStepsKeepPlans(s: Sys, a: Action)
    requires Allowed(s, a) && (EditsPipelines(a) || ScheduledBy(a) || WritesRuns(a))
    ensures Next(s, a).plans == s.plans
  {
  }

  // ---------- Retry ----------

  /** Along the plan of every run: succeeded steps, at most one running or failed step, then queued steps. */
  lemma StepsHaveShape(s: Sys, r: int)
    requires Reachable(s) && r in s.plans
    ensures exists n :: 0 <= n <= |s.plans[r]| && ShapedAt(s.db, s.plans[r], n)
  {
    ReachableIsSound(s);
    assert PlanInv(s.db, r, s.plans[r]);
    FirstUnfinished(s.db, s.plans[r], 0);
  }

  ghost predicate ShapedAt(db: Db, plan: seq<PlanNode>, n: nat) {
    && n <= |plan|
    && (forall k :: 0 <= k < |plan| ==> plan[k].row < |db.steps|)
    && (forall k :: 0 <= k < n ==> db.steps[plan[k].row].state.Succeeded?)
    && (n < |plan| ==> db.steps[plan[n].row].state in {Queued, Running, Failed})
    && (forall k :: n < k < |plan| ==> db.steps[plan[k].row].state.Queued?)
  }

  lemma {:induction false} FirstUnfinished(db: Db, plan: seq<PlanNode>, n: nat)
    requires n <= |plan| && StepStatesInv(db) && (forall k :: 0 <= k < |plan| ==> plan[k].row < |db.steps|)
    requires Progress(db.steps, plan) && forall k :: 0 <= k < n ==> db.steps[plan[k].row].state.Succeeded?
    ensures exists m :: 0 <= m <= |plan| && ShapedAt(db, plan, m)
    decreases |plan| - n
  {
    if n < |plan| && db.steps[plan[n].row].state.Succeeded? {
      FirstUnfinished(db, plan, n + 1);
    } else {
      assert ShapedAt(db, plan, n);
    }
  }

  /** The guards of the finishing transaction never reject the owning worker. */
  lemma FinishNeverRejected(s: Sys, w: int)
    requires Reachable(s)
    ensures !Allowed(s, AFinishRejected(w))
  {
    if s.PhaseOf(w).Finishing? {
      FinishIsSound(s, w);
    }
  }

  lemma FinishIsSound(s: Sys, w: int)
    requires Reachable(s) && s.PhaseOf(w).Finishing?
    ensures FinishAccepted(s.db, w, s.PhaseOf(w).job)
  {
    ReachableIsSound(s);
    FinishIsAccepted(s, w);
  }

  ghost predicate Fragment(states: seq<Sys>, actions: seq<Action>, from: Sys, to: Sys) {
    && |states| == |actions| + 1 && states[0] == from && states[|actions|] == to
    && forall i :: 0 <= i < |actions| ==> Allowed(states[i], actions[i]) && states[i + 1] == Next(states[i], actions[i])
  }

  ghost predicate Leads(from: Sys, to: Sys) {
    exists states, actions :: Fragment(states, actions, from, to)
  }

  lemma LeadsBy(from: Sys, a: Action, to: Sys)
    requires Allowed(from, a) && Leads(Next(from, a), to)
    ensures Leads(from, to)
  {
    var states, actions :| Fragment(states, actions, Next(from, a), to);
    assert Fragment([from] + states, [a] + actions, from, to);
  }

  lemma LeadsNowhere(s: Sys)
    ensures Leads(s, s)
  {
    assert Fragment([s], [], s, s);
  }

  ghost predicate RunDone(s: Sys, r: int) {
    r in s.db.runs && s.db.runs[r].state.Succeeded? && AllStepsSucceeded(s.db, r)
  }

  /** From here to there by steps of one worker alone. */
  ghost predicate LeadsAlone(from: Sys, to: Sys, w: int) {
    exists states, actions ::
      Fragment(states, actions, from, to) && forall i :: 0 <= i < |actions| ==> Actor(actions[i]) == Some(w)
  }

  lemma AloneBy(from: Sys, a: Action, to: Sys, w: int)
    requires Allowed(from, a) && Actor(a) == Some(w) && LeadsAlone(Next(from, a), to, w)
    ensures LeadsAlone(from, to, w)
  {
    var states, actions :|
      Fragment(states, actions, Next(from, a), to) && forall i :: 0 <= i < |actions| ==> Actor(actions[i]) == Some(w);
    assert Fragment([from] + states, [a] + actions, from, to);
  }

  lemma AloneNowhere(s: Sys, w: int)
    ensures LeadsAlone(s, s, w)
  {
    assert Fragment([s], [], s, s);
  }

  lemma AloneLeads(from: Sys, to: Sys, w: int)
    requires LeadsAlone(from, to, w)
    ensures Leads(from, to)
  {
  }

  lemma StepStarts(s: Sys, w: int) returns (started: Sys)
    requires Reachable(s) && Allowed(s, AStartStep(w))
    ensures started == Next(s, AStartStep(w)) && Reachable(started)
    ensures started.PhaseOf(w) == s.PhaseOf(w).(started := true) && started.db.jobs == s.db.jobs
  {
    started := Next(s, AStartStep(w));
    ReachableOn(s, AStartStep(w));
  }

  /** The worker's two statements around a component that returns. */
  lemma ComponentReturns(s: Sys, w: int) returns (stepped: Sys)
    requires Reachable(s) && s.PhaseOf(w).AtStep? && !s.PhaseOf(w).started
    ensures var phase := s.PhaseOf(w);
            && phase.k < |phase.plan| && phase.job < |s.db.jobs| && stepped.db.jobs == s.db.jobs
            && Reachable(stepped)
            && stepped.PhaseOf(w) == (if phase.k + 1 < |phase.plan| then AtStep(phase.job, phase.plan, phase.k + 1, false)
                                      else Finishing(phase.job, phase.plan))
    ensures forall to :: LeadsAlone(stepped, to, w) ==> LeadsAlone(s, to, w)
  {
    OnCourseGoesOn(s, w);
    var started := StepStarts(s, w);
    OnCourseGoesOn(started, w);
    stepped := Next(started, ASucceedStep(w));
    ReachableOn(started, ASucceedStep(w));
    forall to | LeadsAlone(stepped, to, w) ensures LeadsAlone(s, to, w) {
      AloneBy(started, ASucceedStep(w), to, w);
      AloneBy(s, AStartStep(w), to, w);
    }
  }

  /**
   * Whatever earlier attempts left behind, an attempt in which every component returns ends with all steps and
   * the run succeeded, and the worker needs nobody for it.
   */
  lemma {:induction false} AttemptConverges(s: Sys, w: int, now: int) returns (to: Sys)
    requires Reachable(s) && s.PhaseOf(w).AtStep? && !s.PhaseOf(w).started
    ensures s.PhaseOf(w).job < |s.db.jobs|
    ensures LeadsAlone(s, to, w) && RunDone(to, s.db.jobs[s.PhaseOf(w).job].run)
    decreases |s.PhaseOf(w).plan| - s.PhaseOf(w).k
  {
    var stepped := ComponentReturns(s, w);
    if stepped.PhaseOf(w).AtStep? {
      to := AttemptConverges(stepped, w, now);
    } else {
      to := FinishConverges(stepped, w, now);
    }
  }

  lemma FinishConverges(s: Sys, w: int, now: int) returns (to: Sys)
    requires Reachable(s) && s.PhaseOf(w).Finishing?
    ensures s.PhaseOf(w).job < |s.db.jobs|
    ensures LeadsAlone(s, to, w) && RunDone(to, s.db.jobs[s.PhaseOf(w).job].run)
  {
    FinishIsSound(s, w);
    to := Next(s, AFinishSuccess(w, now));
    AloneNowhere(to, w);
    AloneBy(s, AFinishSuccess(w, now), to, w);
  }

  // ---------- Under any interleaving ----------

  /** Where a worker stands between starting its first step and the end of its attempt, unless the attempt fails. */
  ghost predicate OnCourse(s: Sys, w: int, j: nat) {
    var phase := s.PhaseOf(w);
    (phase.AtStep? || phase.Finishing? || phase.Settling?) && phase.job == j
  }

  /** What breaks an attempt off: an exception, a cancellation, a release or the end of the process. */
  predicate BreaksOff(a: Action, w: int) {
    || ((a.ARaise? || a.ARaiseAfter? || a.ACrash? || a.ACancelOwned?) && a.w == w)
    || (a.ARelease? && a.w == w)
  }

  /** The worker's next step is always open to it, and before it goes idle its run is done. */
  lemma OnCourseGoesOn(s: Sys, w: int)
    requires Reachable(s) && (s.PhaseOf(w).AtStep? || s.PhaseOf(w).Finishing? || s.PhaseOf(w).Settling?)
    ensures s.PhaseOf(w).job < |s.db.jobs|
    ensures s.PhaseOf(w).AtStep? ==> s.PhaseOf(w).k < |s.PhaseOf(w).plan|
    ensures s.PhaseOf(w).AtStep? && !s.PhaseOf(w).started ==> Allowed(s, AStartStep(w))
    ensures s.PhaseOf(w).AtStep? && s.PhaseOf(w).started ==> Allowed(s, ASucceedStep(w))
    ensures s.PhaseOf(w).Finishing? ==> forall now :: Allowed(s, AFinishSuccess(w, now))
    ensures s.PhaseOf(w).Settling? ==> RunDone(s, s.db.jobs[s.PhaseOf(w).job].run)
  {
    PhasesAreSound(s, w);
    if s.PhaseOf(w).Finishing? {
      FinishIsSound(s, w);
    }
    if s.PhaseOf(w).Settling? {
      SucceededIsDone(s, s.db.jobs[s.PhaseOf(w).job].run);
    }
  }

  /** A run succeeds only with all its steps. */
  lemma SucceededIsDone(s: Sys, r: int)
    requires Reachable(s) && r in s.db.runs && s.db.runs[r].state.Succeeded?
    ensures RunDone(s, r)
  {
    ReachableIsSound(s);
  }

  /** Whatever anybody does next, the attempt stays on course, or it ends with its run done. */
  lemma StaysOnCourse(s: Sys, a: Action, w: int, j: nat)
    requires Reachable(s) && OnCourse(s, w, j) && Allowed(s, a) && !BreaksOff(a, w)
    ensures j < |s.db.jobs|
    ensures OnCourse(Next(s, a), w, j) || (a == ADone(w) && RunDone(s, s.db.jobs[j].run))
  {
    OnCourseGoesOn(s, w);
    if Actor(a) == Some(w) {
      FinishNeverRejected(s, w);
      OwnStepOnCourse(s, a, w);
    } else {
      PhaseStands(s, a, w);
    }
  }

  lemma OwnStepOnCourse(s: Sys, a: Action, w: int)
    requires Allowed(s, a) && Actor(a) == Some(w) && !BreaksOff(a, w) && !a.AFinishRejected?
    requires s.PhaseOf(w).AtStep? || s.PhaseOf(w).Finishing? || s.PhaseOf(w).Settling?
    ensures (a == ADone(w) && s.PhaseOf(w).Settling?) || OnCourse(Next(s, a), w, s.PhaseOf(w).job)
  {
  }

  lemma DoneStaysDone(s: Sys, a: Action, r: int)
    requires Reachable(s) && RunDone(s, r) && Allowed(s, a)
    ensures RunDone(Next(s, a), r)
  {
    EndedRunsStay(s, a, r);
    ReachableOn(s, a);
    SucceededIsDone(Next(s, a), r);
  }

  /** An attempt that is not broken off is still on course, or its run is done, however others interleave with it. */
  lemma {:induction false} AttemptIsNotLost(states: seq<Sys>, actions: seq<Action>, s: Sys, t: Sys, w: int, j: nat, n: nat)
    requires Fragment(states, actions, s, t) && Reachable(s) && OnCourse(s, w, j) && n < |states|
    requires forall i :: 0 <= i < |actions| ==> !BreaksOff(actions[i], w)
    ensures j < |s.db.jobs| && j < |states[n].db.jobs| && states[n].db.jobs[j].run == s.db.jobs[j].run
    ensures Reachable(states[n]) && (OnCourse(states[n], w, j) || RunDone(states[n], s.db.jobs[j].run))
  {
    if n == 0 {
      OnCourseGoesOn(s, w);
    } else {
      AttemptIsNotLost(states, actions, s, t, w, j, n - 1);
      var before, a := states[n - 1], actions[n - 1];
      assert states[n - 1 + 1] == Next(before, a);
      ReachableOn(before, a);
      JobsAfter(before, a, j);
      if OnCourse(before, w, j) {
        StaysOnCourse(before, a, w, j);
      }
      if RunDone(before, s.db.jobs[j].run) {
        DoneStaysDone(before, a, s.db.jobs[j].run);
      }
    }
  }

  // ---------- Ended runs and job rows ----------

  /** An ended run stays as it ended, and no run row disappears. */
  lemma EndedRunsStay(s: Sys, a: Action, r: int)
    requires Allowed(s, a) && r in s.db.runs
    ensures r in Next(s, a).db.runs && Next(s, a).db.runs[r].pipeline == s.db.runs[r].pipeline
    ensures !s.db.runs[r].state.Live() ==> Next(s, a).db.runs[r].state == s.db.runs[r].state
  {
    if ScheduledBy(a) {
      ScheduledRow(s, a, r);
    } else {
      RunRowMoves(s, a, r);
    }
  }

  /** A job row in progress keeps its attempt; an ended one keeps everything. */
  lemma JobsAfter(s: Sys, a: Action, j: nat)
    requires Allowed(s, a) && j < |s.db.jobs|
    ensures j < |Next(s, a).db.jobs|
    ensures var job, job' := s.db.jobs[j], Next(s, a).db.jobs[j];
            && job'.run == job.run && job'.pipeline == job.pipeline && job'.component == job.component
            && (!job.state.Queued? ==> job'.attempt == job.attempt)
            && (!job.state.Live() && !a.AFinishSuccess? ==> job' == job)
            && (job.state.Succeeded? ==> job'.state.Succeeded?)
  {
    if !WritesJobs(a) {
      OtherStepsKeepJobs(s, a, j);
    }
  }

  /** Reading the claim of a job row: all three columns, or none. */
  function ClaimFromRow(job: Job): Result<Option<(int, int, int)>, ()> {
    if job.worker.None? && job.claimedAt.None? && job.heartbeatAt.None? then Ok(None)
    else if job.worker.None? || job.claimedAt.None? || job.heartbeatAt.None? then Err(())
    else Ok(Some((job.worker.value, job.claimedAt.value, job.heartbeatAt.value)))
  }

  /** In every reachable state the claim is unreadable exactly on succeeded rows, which keep their claim time. */
  lemma ClaimsAreReadable(s: Sys, j: nat)
    requires Reachable(s) && j < |s.db.jobs|
    ensures ClaimFromRow(s.db.jobs[j]).Err? <==> s.db.jobs[j].state.Succeeded?
    ensures ClaimFromRow(s.db.jobs[j]) == Ok(None) <==> s.db.jobs[j].state in {Queued, Failed, Cancelled}
  {
    ReachableIsSound(s);
    assert JobRowInv(s.db.jobs[j]);
  }

  /** The rows the queue statements return, on the rows their guards select, are never of that kind. */
  lemma ReturnedRowsAreReadable(s: Sys, j: nat, w: int, now: int)
    requires Reachable(s) && j < |s.db.jobs|
    ensures var job := s.db.jobs[j];
            && (job.state.Queued? ==> ClaimFromRow(ClaimJob(job, w, now)).Ok? && ClaimFromRow(CancelQueuedJob(job, now)).Ok?)
            && (job.state.Running? ==>
                  && ClaimFromRow(HeartbeatJob(job, now)).Ok? && ClaimFromRow(ReleaseJob(job, now)).Ok?
                  && ClaimFromRow(FailOrRequeueJob(job, now)).Ok? && ClaimFromRow(CancelRunningJob(job, now)).Ok?
                  && ClaimFromRow(SucceedJob(job, now)).Err?)
  {
    ReachableIsSound(s);
    assert JobRowInv(s.db.jobs[j]);
  }

  /** A failed job can be claimed again exactly while it has attempts left, and by nobody before its delay is over. */
  lemma RetryWaits(s: Sys, w: int, now: int, x: int, later: int)
    requires Allowed(s, AQueueFail(w, now)) && Owned(s.db, w, s.PhaseOf(w).job)
    requires Next(s, AQueueFail(w, now)).PhaseOf(x).Idle?
    ensures var j := s.PhaseOf(w).job; var job := s.db.jobs[j];
            Allowed(Next(s, AQueueFail(w, now)), AClaim(x, j, later))
            <==> job.attempt < job.maxAttempts && now + job.delay <= later
  {
  }

  /** A released job can be claimed by anybody at once, whatever its delay and its attempts. */
  lemma ReleasedIsDue(s: Sys, w: int, j: nat, now: int, x: int, later: int)
    requires Allowed(s, ARelease(w, j, now)) && Next(s, ARelease(w, j, now)).PhaseOf(x).Idle?
    ensures Allowed(Next(s, ARelease(w, j, now)), AClaim(x, j, later)) <==> now <= later
  {
  }

  /** A job is attempted at most max(retryMaxAttempts, 1) times, plus once for each time it was released. */
  lemma AttemptsAreBounded(s: Sys, j: nat)
    requires Reachable(s) && j < |s.db.jobs|
    ensures s.db.jobs[j].attempt <= Max(s.db.jobs[j].maxAttempts, 1) + s.db.jobs[j].releases
    ensures s.db.jobs[j].completedAt.Some? <==> !s.db.jobs[j].state.Live()
  {
    ReachableIsSound(s);
    assert JobRowInv(s.db.jobs[j]);
  }
}
