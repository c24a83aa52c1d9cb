/** Every step of the workers and of cancellation keeps the invariant. */
module ProtocolSteps {
  import opened Wrappers
  import opened Graphs
  import opened SaveValidation
  import opened Chains
  import opened ExecutionPlan
  import opened Protocol
  import opened ProtocolInvariant
  import opened ProtocolRows

  // ---------- Steps on the worker's own memory ----------

  lemma PhaseOthers(s: Sys, w: int, phase: Phase)
    ensures OthersKept(s, s.At(w, phase), w)
  {
  }

  lemma PhaseOnly(s: Sys, w: int, phase: Phase)
    requires Inv(s) && WorkerOk(s, w, phase)
    ensures Inv(s.At(w, phase))
  {
    PhaseOthers(s, w, phase);
    WorkerOkIgnoresPhases(s, w, phase, phase);
    WorkersAfter(s, s.At(w, phase), w, phase);
  }

  lemma RaiseOk(s: Sys, w: int)
    requires Inv(s) && w in s.workers
    requires var phase := s.workers[w];
             phase.Claimed? || phase.Planned? || phase.AtStep? || phase.Finishing? || phase.Settling? || phase.Cancelling?
             || phase.Finalizing?
    ensures WorkerOk(s, w, Failing(s.PhaseOf(w).job, CurrentOf(s.PhaseOf(w))))
  {
    assert WorkerOk(s, w, s.workers[w]);
  }

  lemma RaiseAfterOk(s: Sys, w: int)
    requires Inv(s) && w in s.workers && s.workers[w].AtStep?
    ensures WorkerOk(s, w, Failing(s.PhaseOf(w).job, CurrentBefore(s.PhaseOf(w))))
  {
    assert WorkerOk(s, w, s.workers[w]);
  }

  // ---------- Steps on one job ----------

  /** A queue statement on a job: nothing else changes, and an ended job is left alone. */
  ghost predicate JobMoved(a: Job, b: Job) {
    && b.pipeline == a.pipeline && b.run == a.run && b.step == a.step && b.component == a.component
    && (b.state.Live() ==> a.state.Live())
    && (!a.state.Live() ==> b == a)
    && (JobRowInv(a) ==> JobRowInv(b))
  }

  ghost predicate JobsMoved(jobs: seq<Job>, jobs': seq<Job>) {
    |jobs'| == |jobs| && forall j :: 0 <= j < |jobs| ==> JobMoved(jobs[j], jobs'[j])
  }

  lemma JobsKeepInv(s: Sys, s': Sys)
    requires Inv(s) && s'.plans == s.plans && WorkersInv(s')
    requires s'.db == s.db.(jobs := s'.db.jobs) && JobsMoved(s.db.jobs, s'.db.jobs)
    ensures Inv(s')
  {
    forall j | 0 <= j < |s'.db.jobs| && s'.db.jobs[j].state.Live()
      ensures s'.db.jobs[j].run in s'.db.runs && s'.db.runs[s'.db.jobs[j].run].isActive
              && s'.db.runs[s'.db.jobs[j].run].state.Live()
    {
      assert JobMoved(s.db.jobs[j], s'.db.jobs[j]);
    }
    forall j | 0 <= j < |s'.db.jobs| ensures JobRowInv(s'.db.jobs[j]) {
      assert JobMoved(s.db.jobs[j], s'.db.jobs[j]);
    }
    RowsKeepInv(s, s');
  }

  lemma OneJobMoves(s: Sys, w: int, j: nat, job: Job, phase: Phase)
    requires Inv(s) && j < |s.db.jobs| && JobMoved(s.db.jobs[j], job)
    requires forall x :: x != w ==> !Owned(s.db, x, j)
    requires s.db.jobs[j].state.Live()
    requires WorkerOk(s.(db := SetJob(s.db, j, job)).At(w, phase), w, phase)
    ensures Inv(s.(db := SetJob(s.db, j, job)).At(w, phase))
  {
    var s' := s.(db := SetJob(s.db, j, job)).At(w, phase);
    OneJobOthers(s, w, j, job, phase);
    WorkersAfter(s, s', w, phase);
    OneJobUpdated(s.db.jobs, j, job);
    JobsKeepInv(s, s');
  }

  lemma OneJobOthers(s: Sys, w: int, j: nat, job: Job, phase: Phase)
    requires j < |s.db.jobs| && JobMoved(s.db.jobs[j], job) && s.db.jobs[j].state.Live()
    requires forall x :: x != w ==> !Owned(s.db, x, j)
    ensures OthersKept(s, s.(db := SetJob(s.db, j, job)).At(w, phase), w)
  {
  }

  lemma OneJobUpdated(jobs: seq<Job>, j: nat, job: Job)
    requires j < |jobs| && JobMoved(jobs[j], job)
    ensures JobsMoved(jobs, jobs[j := job])
  {
  }

  lemma ClaimKeeps(s: Sys, w: int, j: nat, now: int)
    requires Inv(s) && Allowed(s, AClaim(w, j, now))
    ensures Inv(Next(s, AClaim(w, j, now)))
  {
    assert JobRowInv(s.db.jobs[j]);
    OneJobMoves(s, w, j, ClaimJob(s.db.jobs[j], w, now), Claimed(j));
  }

  lemma ReleaseKeeps(s: Sys, w: int, j: nat, now: int)
    requires Inv(s) && Allowed(s, ARelease(w, j, now))
    ensures Inv(Next(s, ARelease(w, j, now)))
  {
    OneJobMoves(s, w, j, ReleaseJob(s.db.jobs[j], now), Idle);
  }

  lemma HeartbeatOthers(s: Sys, j: nat, now: int, w: int)
    requires j < |s.db.jobs|
    ensures OthersKept(s, s.(db := SetJob(s.db, j, HeartbeatJob(s.db.jobs[j], now))), w)
  {
  }

  lemma HeartbeatKeeps(s: Sys, w: int, j: nat, now: int)
    requires Inv(s) && Allowed(s, AHeartbeat(w, j, now))
    ensures Inv(Next(s, AHeartbeat(w, j, now)))
  {
    var s' := Next(s, AHeartbeat(w, j, now));
    forall x ensures OthersKept(s, s', x) {
      HeartbeatOthers(s, j, now, x);
    }
    assert WorkersInv(s') by {
      WorkersUnmoved(s, s');
    }
    assert JobsMoved(s.db.jobs, s'.db.jobs);
    JobsKeepInv(s, s');
  }

  function FailedPhase(phase: Phase, failed: Job): Phase
    requires phase.Failing?
  {
    if failed.state.Failed? && phase.current.Some?
    then FailingRun(phase.job, phase.current.value.0, phase.current.value.1) else Idle
  }

  lemma FailedOk(s: Sys, w: int, phase: Phase, failed: Job)
    requires phase.Failing? && WorkerOk(s, w, phase) && failed.run == s.db.jobs[phase.job].run
    ensures WorkerOk(s.(db := SetJob(s.db, phase.job, failed)).At(w, FailedPhase(phase, failed)), w, FailedPhase(phase, failed))
  {
  }

  lemma QueueFailKeeps(s: Sys, w: int, now: int)
    requires Inv(s) && Allowed(s, AQueueFail(w, now))
    ensures Inv(Next(s, AQueueFail(w, now)))
  {
    var phase := s.PhaseOf(w);
    assert WorkerOk(s, w, phase);
    if Owned(s.db, w, phase.job) {
      var failed := FailOrRequeueJob(s.db.jobs[phase.job], now);
      assert JobRowInv(s.db.jobs[phase.job]);
      FailedOk(s, w, phase, failed);
      OneJobMoves(s, w, phase.job, failed, FailedPhase(phase, failed));
    } else {
      PhaseOnly(s, w, Idle);
    }
  }

  lemma CancelOwnedKeeps(s: Sys, w: int, now: int)
    requires Inv(s) && Allowed(s, ACancelOwned(w, now))
    ensures Inv(Next(s, ACancelOwned(w, now)))
  {
    var phase := s.PhaseOf(w);
    assert WorkerOk(s, w, phase);
    assert JobRowInv(s.db.jobs[phase.job]);
    CancelledOk(s, w, phase, now);
    CancelledMoves(s.db.jobs[phase.job], now);
    OneJobMoves(s, w, phase.job, CancelRunningJob(s.db.jobs[phase.job], now), Cancelling(phase.job, phase.plan, phase.k));
  }

  lemma CancelledMoves(job: Job, now: int)
    requires job.state.Running?
    ensures JobMoved(job, CancelRunningJob(job, now))
  {
  }

  lemma CancelledOk(s: Sys, w: int, phase: Phase, now: int)
    requires phase.AtStep? && WorkerOk(s, w, phase) && s.db.runs[s.db.jobs[phase.job].run].cancelRequested
    ensures var after := Cancelling(phase.job, phase.plan, phase.k);
            WorkerOk(s.(db := SetJob(s.db, phase.job, CancelRunningJob(s.db.jobs[phase.job], now))).At(w, after), w, after)
  {
  }

  lemma CancelPendingKeeps(s: Sys, r: int, now: int)
    requires Inv(s)
    ensures Inv(s.(db := s.db.(jobs := CancelPending(s.db.jobs, r, now))))
  {
    var s' := s.(db := s.db.(jobs := CancelPending(s.db.jobs, r, now)));
    forall j | 0 <= j < |s.db.jobs| ensures JobMoved(s.db.jobs[j], s'.db.jobs[j]) {}
    forall w ensures OthersKept(s, s', w) {
      CancelPendingOthers(s, r, now, w);
    }
    WorkersUnmoved(s, s');
    JobsKeepInv(s, s');
  }

  lemma CancelPendingOthers(s: Sys, r: int, now: int, w: int)
    ensures OthersKept(s, s.(db := s.db.(jobs := CancelPending(s.db.jobs, r, now))), w)
  {
  }

  lemma PendingPhaseKeeps(s: Sys, w: int, phase: Phase, r: int, now: int)
    requires Inv(s) && w in s.workers && s.workers[w] == phase && phase.Cancelling?
    ensures Inv(s.(db := CancelPendingForRun(s.db, r, now)).At(w, Finalizing(phase.job, phase.plan, phase.k)))
  {
    var after := s.(db := CancelPendingForRun(s.db, r, now));
    CancelPendingKeeps(s, r, now);
    assert WorkerOk(after, w, phase);
    PhaseOnly(after, w, Finalizing(phase.job, phase.plan, phase.k));
  }

  lemma CancelPendingStepKeeps(s: Sys, w: int, now: int)
    requires Inv(s) && Allowed(s, ACancelPending(w, now))
    ensures Inv(Next(s, ACancelPending(w, now)))
  {
    PendingPhaseKeeps(s, w, s.PhaseOf(w), s.db.jobs[s.PhaseOf(w).job].run, now);
  }

  // ---------- Steps on one run ----------

  lemma StartRunOthers(s: Sys, w: int, r: int, phase: Phase)
    requires r in s.db.runs && s.db.runs[r].isActive
    ensures OthersKept(s, s.(db := StartRunById(s.db, r)).At(w, phase), w)
  {
  }

  lemma StartRunStates(db: Db, r: int)
    requires StepStatesInv(db) && LiveJobsInv(db)
    requires r in db.runs ==> db.runs[r].isActive
    ensures StepStatesInv(StartRunById(db, r)) && LiveJobsInv(StartRunById(db, r)) && RowsOnly(db, StartRunById(db, r))
  {
  }

  lemma StartRunKeeps(s: Sys, w: int)
    requires Inv(s) && Allowed(s, AStartRun(w))
    ensures Inv(Next(s, AStartRun(w)))
  {
    var phase := s.PhaseOf(w);
    assert WorkerOk(s, w, phase);
    var r := s.db.jobs[phase.job].run;
    assert PlanInv(s.db, r, phase.plan);
    var s' := Next(s, AStartRun(w));
    assert WorkersInv(s') by {
      StartRunOthers(s, w, r, AtStep(phase.job, phase.plan, 0, false));
      WorkersAfter(s, s', w, AtStep(phase.job, phase.plan, 0, false));
    }
    StartRunStates(s.db, r);
    RowsKeepInv(s, s');
  }

  lemma RequestOthers(s: Sys, r: int, w: int)
    requires r in s.db.runs && s.db.runs[r].isActive
    ensures OthersKept(s, s.(db := s.db.(runs := s.db.runs[r := s.db.runs[r].(cancelRequested := true)])), w)
  {
  }

  lemma FinalizeOthers(s: Sys, r: int, w: int)
    requires r in s.db.runs && s.db.runs[r].state.Running? && NoLiveJobs(s.db, r)
    ensures OthersKept(s, s.(db := SetRunState(s.db, r, Cancelled)), w)
  {
  }

  lemma DropTriggerOthers(s: Sys, t: int, w: int)
    ensures OthersKept(s, s.(db := s.db.(runs := DropTrigger(s.db.runs, t))), w)
  {
  }

  lemma DropTriggerKeeps(s: Sys, t: int)
    requires Inv(s)
    ensures Inv(s.(db := s.db.(runs := DropTrigger(s.db.runs, t))))
  {
    var s' := s.(db := s.db.(runs := DropTrigger(s.db.runs, t)));
    forall w ensures OthersKept(s, s', w) {
      DropTriggerOthers(s, t, w);
    }
    WorkersUnmoved(s, s');
    RowsKeepInv(s, s');
  }

  lemma RequestCancellationKeeps(s: Sys, r: int)
    requires Inv(s) && r in s.db.runs && s.db.runs[r].isActive
    ensures Inv(s.(db := s.db.(runs := s.db.runs[r := s.db.runs[r].(cancelRequested := true)])))
  {
    var s' := s.(db := s.db.(runs := s.db.runs[r := s.db.runs[r].(cancelRequested := true)]));
    forall w ensures OthersKept(s, s', w) {
      RequestOthers(s, r, w);
    }
    WorkersUnmoved(s, s');
    RowsKeepInv(s, s');
  }

  lemma FinalizeCancelledKeeps(s: Sys, r: int)
    requires Inv(s) && r in s.db.runs && s.db.runs[r].state.Running? && NoLiveJobs(s.db, r)
    ensures Inv(s.(db := SetRunState(s.db, r, Cancelled)))
  {
    var s' := s.(db := SetRunState(s.db, r, Cancelled));
    forall w ensures OthersKept(s, s', w) {
      FinalizeOthers(s, r, w);
    }
    WorkersUnmoved(s, s');
    RowsKeepInv(s, s');
  }

  lemma FinalizeStepKeeps(s: Sys, w: int)
    requires Inv(s) && Allowed(s, AFinalizeCancelled(w))
    ensures Inv(Next(s, AFinalizeCancelled(w)))
  {
    FinalizingPhaseKeeps(s, w, s.PhaseOf(w), s.db.jobs[s.PhaseOf(w).job].run);
  }

  lemma FinalizingPhaseKeeps(s: Sys, w: int, phase: Phase, r: int)
    requires Inv(s) && w in s.workers && s.workers[w] == phase && phase.Finalizing?
    ensures Inv(s.(db := FinalizeRun(s.db, r)).At(w, Failing(phase.job, CurrentOf(phase))))
  {
    var after := s.(db := FinalizeRun(s.db, r));
    if CanFinalize(s.db, r) {
      FinalizeCancelledKeeps(s, r);
    }
    assert WorkerOk(after, w, phase);
    PhaseOnly(after, w, Failing(phase.job, CurrentOf(phase)));
  }

  // ---------- Steps on one run step ----------

  /** Moving the first unfinished step of a plan on keeps the shape of every plan. */
  lemma ProgressKept(db: Db, r: int, plan: seq<PlanNode>, row: nat, state: State)
    requires PlanInv(db, r, plan) && row < |db.steps| && !state.Queued? && !db.steps[row].state.Succeeded?
    requires forall k :: 0 <= k < |plan| && plan[k].row == row ==> DoneBefore(db, plan, k)
    ensures Progress(SetStepState(db, row, state).steps, plan)
  {
    var steps' := SetStepState(db, row, state).steps;
    forall k, m | 0 <= k < m < |plan| && !steps'[plan[m].row].state.Queued?
      ensures steps'[plan[k].row].state.Succeeded?
    {
      if plan[m].row == row {
        assert DoneBefore(db, plan, m);
      } else {
        assert db.steps[plan[k].row].state.Succeeded?;
      }
    }
  }

  /** The step a worker is at is the first unfinished one of its own run's plan, and of no other. */
  lemma CurrentIsNext(s: Sys, j: nat, plan: seq<PlanNode>, k: nat, r: int)
    requires PlansInv(s) && Holds(s, j, plan) && k < |plan| && DoneBefore(s.db, plan, k) && r in s.plans
    ensures plan[k].row < |s.db.steps| && s.db.steps[plan[k].row].run == s.db.jobs[j].run
    ensures forall m :: 0 <= m < |s.plans[r]| && s.plans[r][m].row == plan[k].row ==> DoneBefore(s.db, s.plans[r], m)
  {
    assert PlanInv(s.db, s.db.jobs[j].run, plan);
    assert PlanInv(s.db, r, s.plans[r]);
    if r == s.db.jobs[j].run {
      forall m | 0 <= m < |s.plans[r]| && s.plans[r][m].row == plan[k].row ensures m == k {}
    }
  }

  lemma ProgressEverywhere(s: Sys, j: nat, plan: seq<PlanNode>, k: nat, state: State)
    requires PlansInv(s) && Holds(s, j, plan) && k < |plan| && DoneBefore(s.db, plan, k)
    requires plan[k].row < |s.db.steps| && !state.Queued? && !s.db.steps[plan[k].row].state.Succeeded?
    ensures forall r :: r in s.plans ==>
              PlanInv(s.db, r, s.plans[r]) && Progress(SetStepState(s.db, plan[k].row, state).steps, s.plans[r])
  {
    forall r | r in s.plans
      ensures PlanInv(s.db, r, s.plans[r]) && Progress(SetStepState(s.db, plan[k].row, state).steps, s.plans[r])
    {
      CurrentIsNext(s, j, plan, k, r);
      ProgressKept(s.db, r, s.plans[r], plan[k].row, state);
    }
  }

  ghost predicate StepAdvances(db: Db, row: nat, state: State) {
    && row < |db.steps| && db.steps[row].run in db.runs && db.runs[db.steps[row].run].state.Running?
    && ((db.steps[row].state.Queued? && state.Running?) || (db.steps[row].state.Running? && state.Succeeded?))
  }

  lemma StepAdvanceOthers(s: Sys, w: int, row: nat, state: State, phase: Phase)
    requires StepAdvances(s.db, row, state)
    ensures OthersKept(s, s.(db := SetStepState(s.db, row, state)).At(w, phase), w)
  {
  }

  lemma StepAdvanceStates(db: Db, row: nat, state: State)
    requires StepStatesInv(db) && StepAdvances(db, row, state)
    ensures StepStatesInv(SetStepState(db, row, state)) && RowsOnly(db, SetStepState(db, row, state))
  {
  }

  /** A step that moves on belongs to a run with a plan. */
  lemma StepAdvancePlanned(s: Sys, s': Sys, j: nat, plan: seq<PlanNode>, k: nat, state: State)
    requires PlansInv(s) && UnplannedInv(s) && Holds(s, j, plan) && k < |plan| && DoneBefore(s.db, plan, k)
    requires StepAdvances(s.db, plan[k].row, state)
    requires s'.plans == s.plans && s'.db.steps == SetStepState(s.db, plan[k].row, state).steps
    ensures UnplannedInv(s')
  {
    CurrentIsNext(s, j, plan, k, s.db.jobs[j].run);
  }

  lemma StepAdvanceWorkers(s: Sys, w: int, row: nat, state: State, phase: Phase)
    requires WorkersInv(s) && PlansInv(s) && StepAdvances(s.db, row, state)
    requires WorkerOk(s.(db := SetStepState(s.db, row, state)).At(w, phase), w, phase)
    ensures WorkersInv(s.(db := SetStepState(s.db, row, state)).At(w, phase))
  {
    StepAdvanceOthers(s, w, row, state, phase);
    WorkersAfter(s, s.(db := SetStepState(s.db, row, state)).At(w, phase), w, phase);
  }

  lemma StepAdvanceKeeps(s: Sys, w: int, j: nat, plan: seq<PlanNode>, k: nat, state: State, phase: Phase)
    requires Inv(s) && Holds(s, j, plan) && k < |plan| && DoneBefore(s.db, plan, k)
    requires StepAdvances(s.db, plan[k].row, state)
    requires WorkerOk(s.(db := SetStepState(s.db, plan[k].row, state)).At(w, phase), w, phase)
    ensures Inv(s.(db := SetStepState(s.db, plan[k].row, state)).At(w, phase))
  {
    var s' := s.(db := SetStepState(s.db, plan[k].row, state)).At(w, phase);
    ProgressEverywhere(s, j, plan, k, state);
    StepAdvanceWorkers(s, w, plan[k].row, state, phase);
    StepAdvanceStates(s.db, plan[k].row, state);
    StepAdvancePlanned(s, s', j, plan, k, state);
    RowsKeepInv(s, s');
  }

  /** At the step a worker has reached, a plan row of its running run that has not failed. */
  lemma AtStepRow(s: Sys, w: int, phase: Phase)
    requires PlansInv(s) && StepStatesInv(s.db) && phase.AtStep? && WorkerOk(s, w, phase)
    ensures var row := phase.plan[phase.k].row;
            && row < |s.db.steps| && s.db.steps[row].run == s.db.jobs[phase.job].run
            && s.db.runs[s.db.steps[row].run].state.Running?
            && s.db.steps[row].state in {Queued, Running, Succeeded}
  {
    CurrentIsNext(s, phase.job, phase.plan, phase.k, s.db.jobs[phase.job].run);
  }

  lemma StartQueuedKeeps(s: Sys, w: int, phase: Phase, row: nat)
    requires Inv(s) && phase.AtStep? && WorkerOk(s, w, phase) && phase.plan[phase.k].row == row
    requires StepAdvances(s.db, row, Running)
    ensures Inv(s.(db := SetStepState(s.db, row, Running)).At(w, phase.(started := true)))
  {
    StartedOk(s, w, phase, row);
    StepAdvanceKeeps(s, w, phase.job, phase.plan, phase.k, Running, phase.(started := true));
  }

  lemma StartedOk(s: Sys, w: int, phase: Phase, row: nat)
    requires phase.AtStep? && WorkerOk(s, w, phase) && phase.plan[phase.k].row == row < |s.db.steps|
    requires s.db.steps[row].state.Queued?
    ensures WorkerOk(s.(db := SetStepState(s.db, row, Running)).At(w, phase.(started := true)), w, phase.(started := true))
  {
  }

  lemma StartPhaseKeeps(s: Sys, w: int, phase: Phase, row: nat)
    requires Inv(s) && phase.AtStep? && WorkerOk(s, w, phase) && phase.plan[phase.k].row == row
    ensures Inv(s.(db := StartStepById(s.db, row)).At(w, phase.(started := true)))
  {
    AtStepRow(s, w, phase);
    if s.db.steps[row].state.Queued? {
      StartQueuedKeeps(s, w, phase, row);
    } else {
      PhaseOnly(s, w, phase.(started := true));
    }
  }

  lemma StartStepKeeps(s: Sys, w: int)
    requires Inv(s) && Allowed(s, AStartStep(w))
    ensures Inv(Next(s, AStartStep(w)))
  {
    var phase := s.PhaseOf(w);
    assert WorkerOk(s, w, phase);
    StartPhaseKeeps(s, w, phase, phase.plan[phase.k].row);
  }

  function AfterStep(phase: Phase): Phase
    requires phase.AtStep?
  {
    if phase.k + 1 < |phase.plan| then AtStep(phase.job, phase.plan, phase.k + 1, false)
    else Finishing(phase.job, phase.plan)
  }

  /** Once the current step has succeeded the worker may go on to the next one, or finish. */
  lemma AfterStepOk(s: Sys, w: int, phase: Phase)
    requires phase.AtStep? && WorkerOk(s, w, phase) && StateAt(s.db, phase.plan, phase.k, {Succeeded})
    ensures WorkerOk(s, w, AfterStep(phase))
  {
    assert DoneBefore(s.db, phase.plan, phase.k + 1);
  }

  lemma SucceededOk(s: Sys, w: int, phase: Phase, row: nat)
    requires phase.AtStep? && WorkerOk(s, w, phase) && phase.plan[phase.k].row == row < |s.db.steps|
    ensures WorkerOk(s.(db := SetStepState(s.db, row, Succeeded)), w, AfterStep(phase))
  {
    AfterStepOk(s.(db := SetStepState(s.db, row, Succeeded)), w, phase);
  }

  lemma WorkerOkIgnoresPhases(s: Sys, w: int, phase: Phase, phase': Phase)
    ensures WorkerOk(s.At(w, phase), w, phase') <==> WorkerOk(s, w, phase')
  {
  }

  lemma SucceedRunningKeeps(s: Sys, w: int, phase: Phase, row: nat)
    requires Inv(s) && phase.AtStep? && phase.k < |phase.plan| && phase.plan[phase.k].row == row
    requires Holds(s, phase.job, phase.plan) && DoneBefore(s.db, phase.plan, phase.k)
    requires StepAdvances(s.db, row, Succeeded)
    requires WorkerOk(s.(db := SetStepState(s.db, row, Succeeded)), w, AfterStep(phase))
    ensures Inv(s.(db := SetStepState(s.db, row, Succeeded)).At(w, AfterStep(phase)))
  {
    WorkerOkIgnoresPhases(s.(db := SetStepState(s.db, row, Succeeded)), w, AfterStep(phase), AfterStep(phase));
    StepAdvanceKeeps(s, w, phase.job, phase.plan, phase.k, Succeeded, AfterStep(phase));
  }

  lemma SucceedPhaseKeeps(s: Sys, w: int, phase: Phase, row: nat)
    requires Inv(s) && phase.AtStep? && phase.started && WorkerOk(s, w, phase) && phase.plan[phase.k].row == row
    ensures Inv(s.(db := SucceedStepById(s.db, row)).At(w, AfterStep(phase)))
  {
    AtStepRow(s, w, phase);
    if s.db.steps[row].state.Running? {
      SucceededOk(s, w, phase, row);
      SucceedRunningKeeps(s, w, phase, row);
    } else {
      AfterStepOk(s, w, phase);
      PhaseOnly(s, w, AfterStep(phase));
    }
  }

  lemma SucceedStepKeeps(s: Sys, w: int)
    requires Inv(s) && Allowed(s, ASucceedStep(w))
    ensures Inv(Next(s, ASucceedStep(w)))
  {
    var phase := s.PhaseOf(w);
    assert WorkerOk(s, w, phase);
    SucceedPhaseKeeps(s, w, phase, phase.plan[phase.k].row);
  }

  // ---------- Finishing ----------

  /** With all the plan's steps succeeded, all the run's steps are: the plan holds every row of its run. */
  lemma PlanCoversRun(db: Db, r: int, plan: seq<PlanNode>)
    requires PlanInv(db, r, plan) && DoneBefore(db, plan, |plan|)
    ensures AllStepsSucceeded(db, r)
  {
  }

  /** A worker that finished its plan is never turned away by the finishing transaction. */
  lemma FinishIsAccepted(s: Sys, w: int)
    requires Inv(s) && s.PhaseOf(w).Finishing?
    ensures FinishAccepted(s.db, w, s.PhaseOf(w).job)
  {
    var phase := s.PhaseOf(w);
    assert WorkerOk(s, w, phase);
    PlanCoversRun(s.db, s.db.jobs[phase.job].run, phase.plan);
  }

  function FinishedDb(db: Db, j: nat, now: int): Db
    requires j < |db.jobs| && db.jobs[j].run in db.runs
  {
    SetRunState(SetJob(db, j, SucceedJob(db.jobs[j], now)), db.jobs[j].run, Succeeded)
  }

  lemma FinishSuccessOthers(s: Sys, w: int, j: nat, now: int, phase: Phase)
    requires FinishAccepted(s.db, w, j) && s.db.jobs[j].run in s.plans && OneJob(s.db, s.db.jobs[j].run)
    ensures OthersKept(s, s.(db := FinishedDb(s.db, j, now)).At(w, phase), w)
  {
  }

  lemma FinishSuccessDb(s: Sys, w: int, j: nat, now: int)
    requires FinishAccepted(s.db, w, j) && OneJob(s.db, s.db.jobs[j].run)
    requires LiveJobsInv(s.db) && JobRowsInv(s.db) && StepStatesInv(s.db)
    ensures var db' := FinishedDb(s.db, j, now);
            LiveJobsInv(db') && JobRowsInv(db') && StepStatesInv(db') && RowsOnly(s.db, db')
  {
    assert JobRowInv(s.db.jobs[j]);
  }

  lemma FinishSuccessKeeps(s: Sys, w: int, now: int)
    requires Inv(s) && Allowed(s, AFinishSuccess(w, now))
    ensures Inv(Next(s, AFinishSuccess(w, now)))
  {
    var phase := s.PhaseOf(w);
    assert WorkerOk(s, w, phase);
    assert PlanInv(s.db, s.db.jobs[phase.job].run, phase.plan);
    var s' := Next(s, AFinishSuccess(w, now));
    FinishSuccessOthers(s, w, phase.job, now, Settling(phase.job, phase.plan));
    FinishSuccessDb(s, w, phase.job, now);
    WorkersAfter(s, s', w, Settling(phase.job, phase.plan));
    RowsKeepInv(s, s');
  }

  function FailedDb(db: Db, row: nat, r: int): Db {
    FailRunById(FailStepById(db, row), r)
  }

  lemma FinishFailureOthers(s: Sys, w: int, j: nat, row: nat, phase: Phase)
    requires j < |s.db.jobs| && s.db.jobs[j].state.Failed? && s.db.jobs[j].run in s.db.runs
    requires OneJob(s.db, s.db.jobs[j].run) && row < |s.db.steps| && s.db.steps[row].run == s.db.jobs[j].run
    requires !s.db.runs[s.db.jobs[j].run].state.Queued? || s.db.runs[s.db.jobs[j].run].isActive
    ensures OthersKept(s, s.(db := FailedDb(s.db, row, s.db.jobs[j].run)).At(w, phase), w)
  {
  }

  lemma FinishFailureDb(db: Db, j: nat, row: nat)
    requires j < |db.jobs| && db.jobs[j].state.Failed? && db.jobs[j].run in db.runs
    requires OneJob(db, db.jobs[j].run) && row < |db.steps| && db.steps[row].run == db.jobs[j].run
    requires LiveJobsInv(db) && JobRowsInv(db) && StepStatesInv(db)
    ensures var db' := FailedDb(db, row, db.jobs[j].run);
            LiveJobsInv(db') && JobRowsInv(db') && StepStatesInv(db') && RowsOnly(db, db')
  {
  }

  /** A worker that reached this point has a run, a plan row of it, and a failed job of its own. */
  lemma FailureAt(s: Sys, w: int, phase: Phase)
    requires Inv(s) && phase.FailingRun? && WorkerOk(s, w, phase)
    ensures var r, row := s.db.jobs[phase.job].run, phase.plan[phase.k].row;
            && r in s.plans && r in s.db.runs && OneJob(s.db, r) && !s.db.runs[r].Waiting()
            && row < |s.db.steps| && s.db.steps[row].run == r
  {
    assert PlanInv(s.db, s.db.jobs[phase.job].run, phase.plan);
    CurrentIsNext(s, phase.job, phase.plan, phase.k, s.db.jobs[phase.job].run);
  }

  lemma FinishFailureWorkers(s: Sys, w: int, phase: Phase)
    requires Inv(s) && phase.FailingRun? && WorkerOk(s, w, phase)
    ensures WorkersInv(s.(db := FailedDb(s.db, phase.plan[phase.k].row, s.db.jobs[phase.job].run))
                        .At(w, AfterFailure(phase.job)))
  {
    FailureAt(s, w, phase);
    var s' := s.(db := FailedDb(s.db, phase.plan[phase.k].row, s.db.jobs[phase.job].run)).At(w, AfterFailure(phase.job));
    FinishFailureOthers(s, w, phase.job, phase.plan[phase.k].row, AfterFailure(phase.job));
    WorkersAfter(s, s', w, AfterFailure(phase.job));
  }

  lemma FinishFailureProgress(s: Sys, w: int, phase: Phase, r: int)
    requires Inv(s) && phase.FailingRun? && WorkerOk(s, w, phase) && r in s.plans
    ensures PlanInv(s.db, r, s.plans[r])
    ensures Progress(FailedDb(s.db, phase.plan[phase.k].row, s.db.jobs[phase.job].run).steps, s.plans[r])
  {
    FailureAt(s, w, phase);
    if s.db.steps[phase.plan[phase.k].row].state.Live() {
      ProgressEverywhere(s, phase.job, phase.plan, phase.k, Failed);
    }
  }

  lemma FinishFailurePlanned(s: Sys, s': Sys, w: int, phase: Phase)
    requires Inv(s) && phase.FailingRun? && WorkerOk(s, w, phase) && s'.plans == s.plans
    requires s'.db.steps == FailStepById(s.db, phase.plan[phase.k].row).steps
    ensures UnplannedInv(s')
  {
    FailureAt(s, w, phase);
  }

  lemma FailingRunKeeps(s: Sys, w: int, phase: Phase, row: nat, r: int)
    requires Inv(s) && phase.FailingRun? && WorkerOk(s, w, phase)
    requires row == phase.plan[phase.k].row && r == s.db.jobs[phase.job].run
    ensures Inv(s.(db := FailedDb(s.db, row, r)).At(w, AfterFailure(phase.job)))
  {
    var s' := s.(db := FailedDb(s.db, row, r)).At(w, AfterFailure(phase.job));
    FailureAt(s, w, phase);
    FinishFailureDb(s.db, phase.job, row);
    FinishFailureWorkers(s, w, phase);
    forall x | x in s.plans ensures PlanInv(s.db, x, s.plans[x]) && Progress(s'.db.steps, s.plans[x]) {
      FinishFailureProgress(s, w, phase, x);
    }
    FinishFailurePlanned(s, s', w, phase);
    RowsKeepInv(s, s');
  }

  lemma FinishFailureKeeps(s: Sys, w: int)
    requires Inv(s) && Allowed(s, AFinishFailure(w))
    ensures Inv(Next(s, AFinishFailure(w)))
  {
    var phase := s.PhaseOf(w);
    assert WorkerOk(s, w, phase);
    FailingRunKeeps(s, w, phase, phase.plan[phase.k].row, s.db.jobs[phase.job].run);
  }

  // ---------- Loading ----------

  lemma {:induction false} JoinMembers(g: Graph, steps: seq<RunStep>, r: int, n: PlanNode)
    ensures n in Join(g, steps, r) <==>
              && n.row < |steps| && steps[n.row].run == r && steps[n.row].component == n.id
              && n.id in StepIds(g.steps) && n.kind == KindOf(g.steps, n.id)
    decreases |steps|
  {
    if steps != [] {
      JoinMembers(g, steps[..|steps| - 1], r, n);
    }
  }

  /** A loaded plan names every row of its run once. */
  lemma LoadedRows(db: Db, r: int, g: Graph, plan: seq<PlanNode>)
    requires ActiveGraph(db, r, g) && RowsMatchGraph(db, r, g) && IsChain(Join(g, db.steps, r), g.edges, plan)
    ensures PlanRows(db, r, plan)
  {
    SameElements(Join(g, db.steps, r), plan);
    forall k | 0 <= k < |plan|
      ensures plan[k].row < |db.steps| && db.steps[plan[k].row].run == r && db.steps[plan[k].row].component == plan[k].id
    {
      JoinMembers(g, db.steps, r, plan[k]);
      assert plan[k] in plan;
    }
    forall k, m | 0 <= k < m < |plan| ensures plan[k].row != plan[m].row {
      assert NodeIds(plan)[k] != NodeIds(plan)[m];
    }
    forall i | 0 <= i < |db.steps| && db.steps[i].run == r ensures exists k :: 0 <= k < |plan| && plan[k].row == i {
      var c := db.steps[i].component;
      JoinMembers(g, db.steps, r, PlanNode(c, KindOf(g.steps, c), i));
      assert PlanNode(c, KindOf(g.steps, c), i) in plan;
    }
  }

  /** A graph with a plan has one Source, so a run with a plan has one job. */
  lemma LoadedJob(db: Db, r: int, g: Graph, plan: seq<PlanNode>, a: nat)
    requires ActiveGraph(db, r, g) && RowsMatchGraph(db, r, g) && JobKeysInv(db)
    requires IsChain(Join(g, db.steps, r), g.edges, plan) && a < |db.jobs| && db.jobs[a].run == r
    ensures db.jobs[a].step == plan[0].row
  {
    var c, i := db.jobs[a].component, db.jobs[a].step;
    JoinMembers(g, db.steps, r, PlanNode(c, KindOf(g.steps, c), i));
    HeadIsOnlySource(Join(g, db.steps, r), g.edges, plan, PlanNode(c, KindOf(g.steps, c), i));
  }

  lemma LoadedPlanInv(s: Sys, j: nat, g: Graph, plan: seq<PlanNode>)
    requires StepRowsInv(s.db) && JobKeysInv(s.db) && UnplannedInv(s)
    requires j < |s.db.jobs| && s.db.jobs[j].run !in s.plans && ActiveGraph(s.db, s.db.jobs[j].run, g)
    requires RowsMatchGraph(s.db, s.db.jobs[j].run, g)
    requires IsChain(Join(g, s.db.steps, s.db.jobs[j].run), g.edges, plan)
    ensures PlanInv(s.db, s.db.jobs[j].run, plan)
  {
    var r := s.db.jobs[j].run;
    LoadedRows(s.db, r, g, plan);
    forall a, b | 0 <= a < |s.db.jobs| && 0 <= b < |s.db.jobs| && s.db.jobs[a].run == r && s.db.jobs[b].run == r
      ensures a == b
    {
      LoadedJob(s.db, r, g, plan, a);
      LoadedJob(s.db, r, g, plan, b);
    }
  }

  /** The plan the run was loaded with before, if it was loaded before. */
  lemma SamePlanAgain(s: Sys, j: nat, plan: seq<PlanNode>)
    requires PlansCurrent(s) && JobKeysInv(s.db) && LoadsPlan(s.db, j, plan) && s.db.jobs[j].run in s.plans
    requires s.db.runs[s.db.jobs[j].run].isActive && s.db.runs[s.db.jobs[j].run].state.Live()
    ensures s.plans[s.db.jobs[j].run] == plan
  {
    var r := s.db.jobs[j].run;
    var g := s.db.pipelines[s.db.jobs[j].pipeline].graph;
    assert ActiveGraph(s.db, r, g);
    assert PlanIsCurrent(s.db, r, s.plans[r]);
    ChainIsUnique(Join(g, s.db.steps, r), g.edges, plan, s.plans[r]);
  }

  /** A loaded plan fits its run, and a second loading finds the plan of the first. */
  lemma LoadedPlanFits(s: Sys, w: int, plan: seq<PlanNode>)
    requires Inv(s) && Allowed(s, ALoadPlan(w, plan))
    ensures var r := s.db.jobs[s.PhaseOf(w).job].run;
            && PlanInv(s.db, r, plan) && PlanIsCurrent(s.db, r, plan)
            && (r in s.plans ==> s.plans[r] == plan)
  {
    var phase := s.PhaseOf(w);
    assert WorkerOk(s, w, phase);
    var j := phase.job;
    var r := s.db.jobs[j].run;
    var g := s.db.pipelines[s.db.jobs[j].pipeline].graph;
    assert ActiveGraph(s.db, r, g);
    if r in s.plans {
      SamePlanAgain(s, j, plan);
    } else {
      LoadedPlanInv(s, j, g, plan);
    }
  }

  lemma LoadOthers(s: Sys, w: int, r: int, plan: seq<PlanNode>, phase: Phase)
    requires r in s.plans ==> s.plans[r] == plan
    ensures OthersKept(s, s.(plans := s.plans[r := plan]).At(w, phase), w)
  {
  }

  lemma PlannedKeeps(s: Sys, w: int, j: nat, r: int, plan: seq<PlanNode>)
    requires Inv(s) && Owned(s.db, w, j) && s.db.jobs[j].run == r
    requires PlanInv(s.db, r, plan) && PlanIsCurrent(s.db, r, plan) && (r in s.plans ==> s.plans[r] == plan)
    ensures Inv(s.(plans := s.plans[r := plan]).At(w, Planned(j, plan)))
  {
    LoadOthers(s, w, r, plan, Planned(j, plan));
    WorkersAfter(s, s.(plans := s.plans[r := plan]).At(w, Planned(j, plan)), w, Planned(j, plan));
  }

  lemma LoadPlanKeeps(s: Sys, w: int, plan: seq<PlanNode>)
    requires Inv(s) && Allowed(s, ALoadPlan(w, plan))
    ensures Inv(Next(s, ALoadPlan(w, plan)))
  {
    var phase := s.PhaseOf(w);
    assert WorkerOk(s, w, phase);
    LoadedPlanFits(s, w, plan);
    PlannedKeeps(s, w, phase.job, s.db.jobs[phase.job].run, plan);
  }
}
