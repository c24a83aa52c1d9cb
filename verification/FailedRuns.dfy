/** What a failure for good leaves of the steps of its run. */
module FailedRuns {
  import opened Wrappers
  import opened Graphs
  import opened Chains
  import opened ExecutionPlan
  import opened Protocol
  import opened ProtocolFrames
  import opened ProtocolInvariant
  import opened ProtocolSteps
  import opened ProtocolTheorems
  import opened RunEnds

  // ---------- The step at hand ----------

  /** Only the row of the step at hand changes, and an earlier success of it stands. */
  ghost predicate StepFailed(steps: seq<RunStep>, steps': seq<RunStep>, row: nat) {
    && row < |steps| == |steps'|
    && (forall i :: 0 <= i < |steps| && i != row ==> steps'[i] == steps[i])
    && steps'[row] == RunStep(steps[row].run, steps[row].component, if steps[row].state == Succeeded then Succeeded else Failed)
  }

  /** The run's row ends as failed, unless it has ended already; no other run row changes. */
  ghost predicate RunFailed(runs: map<int, Run>, runs': map<int, Run>, r: int) {
    && runs'.Keys == runs.Keys && r in runs
    && (forall x :: x in runs && x != r ==> runs'[x] == runs[x])
    && (runs[r].state == Queued || runs[r].state == Running ==> runs'[r].state == Failed)
    && (runs[r].state != Queued && runs[r].state != Running ==> runs'[r] == runs[r])
  }

  lemma FailureEndsItsStep(s: Sys, w: int)
    requires Reachable(s) && Allowed(s, AFinishFailure(w))
    ensures var phase := s.PhaseOf(w);
            var row, r, after := phase.plan[phase.k].row, s.db.jobs[phase.job].run, Next(s, AFinishFailure(w)).db;
            && StepFailed(s.db.steps, after.steps, row) && s.db.steps[row].run == r
            && RunFailed(s.db.runs, after.runs, r)
            && after.jobs == s.db.jobs
  {
    FailureRow(s, w);
    FailedRow(s.db, s.PhaseOf(w).plan[s.PhaseOf(w).k].row, s.db.jobs[s.PhaseOf(w).job].run);
  }

  lemma FailureRow(s: Sys, w: int)
    requires Reachable(s) && Allowed(s, AFinishFailure(w))
    ensures var phase := s.PhaseOf(w); var row, r := phase.plan[phase.k].row, s.db.jobs[phase.job].run;
            && row < |s.db.steps| && s.db.steps[row].run == r && r in s.db.runs
            && s.db.steps[row].state in {Queued, Running, Succeeded, Failed}
  {
    ReachableIsSound(s);
    PhasesAreSound(s, w);
    SoundFailureRow(s, w, s.PhaseOf(w));
  }

  lemma SoundFailureRow(s: Sys, w: int, phase: Phase)
    requires Inv(s) && phase.FailingRun? && WorkerOk(s, w, phase)
    ensures var row, r := phase.plan[phase.k].row, s.db.jobs[phase.job].run;
            && row < |s.db.steps| && s.db.steps[row].run == r && r in s.db.runs
            && s.db.steps[row].state in {Queued, Running, Succeeded, Failed}
  {
    FailureAt(s, w, phase);
  }

  lemma FailedRow(db: Db, row: nat, r: int)
    requires row < |db.steps| && r in db.runs && db.steps[row].state in {Queued, Running, Succeeded, Failed}
    ensures var after := FailRunById(FailStepById(db, row), r);
            StepFailed(db.steps, after.steps, row) && RunFailed(db.runs, after.runs, r) && after.jobs == db.jobs
  {
  }

  // ---------- What may run on ----------

  ghost predicate SomeStepRuns(db: Db, r: int) {
    exists i :: 0 <= i < |db.steps| && db.steps[i].run == r && db.steps[i].state == Running
  }

  /**
   * A failed run leaves a step running exactly when one was running and the step at hand had already succeeded, in
   * an earlier attempt that came further.
   */
  lemma RunsOnExactly(s: Sys, w: int)
    requires Reachable(s) && Allowed(s, AFinishFailure(w))
    ensures var phase := s.PhaseOf(w); var row, r := phase.plan[phase.k].row, s.db.jobs[phase.job].run;
            && row < |s.db.steps|
            && (SomeStepRuns(Next(s, AFinishFailure(w)).db, r) <==> SomeStepRuns(s.db, r) && s.db.steps[row].state == Succeeded)
  {
    var phase := s.PhaseOf(w);
    var row, r, after := phase.plan[phase.k].row, s.db.jobs[phase.job].run, Next(s, AFinishFailure(w)).db;
    FailureEndsItsStep(s, w);
    if SomeStepRuns(after, r) {
      var i :| 0 <= i < |after.steps| && after.steps[i].run == r && after.steps[i].state == Running;
      assert s.db.steps[i].run == r && s.db.steps[i].state == Running && i != row;
      RunningIsNext(s, w, i);
    }
    if SomeStepRuns(s.db, r) && s.db.steps[row].state == Succeeded {
      var i :| 0 <= i < |s.db.steps| && s.db.steps[i].run == r && s.db.steps[i].state == Running;
      assert after.steps[i].run == r && after.steps[i].state == Running;
    }
  }

  /** A step of the failing run that is running comes behind a success, or is the step at hand. */
  lemma RunningIsNext(s: Sys, w: int, i: nat)
    requires Reachable(s) && Allowed(s, AFinishFailure(w)) && i < |s.db.steps|
    requires s.db.steps[i].run == s.db.jobs[s.PhaseOf(w).job].run && s.db.steps[i].state == Running
    ensures var row := s.PhaseOf(w).plan[s.PhaseOf(w).k].row;
            row < |s.db.steps| && (i == row || s.db.steps[row].state == Succeeded)
  {
    PhasesAreSound(s, w);
    var phase := s.PhaseOf(w);
    PlanHolds(s, phase.job, phase.plan);
    InPlanOrder(s.db, s.db.jobs[phase.job].run, phase.plan, phase.k, i);
  }

  lemma PlanHolds(s: Sys, j: nat, plan: seq<PlanNode>)
    requires Reachable(s) && Holds(s, j, plan)
    ensures PlanInv(s.db, s.db.jobs[j].run, plan)
  {
    ReachableIsSound(s);
  }

  lemma InPlanOrder(db: Db, r: int, plan: seq<PlanNode>, k: nat, i: nat)
    requires PlanInv(db, r, plan) && k < |plan| && DoneBefore(db, plan, k)
    requires i < |db.steps| && db.steps[i].run == r && db.steps[i].state == Running
    ensures plan[k].row < |db.steps| && (i == plan[k].row || db.steps[plan[k].row].state == Succeeded)
  {
    var m :| 0 <= m < |plan| && plan[m].row == i;
    assert m >= k;
  }

  // ---------- The last attempt ----------

  /** A worker with a job in hand and no attempt left. */
  ghost predicate InLastAttempt(s: Sys, w: int) {
    var phase := s.PhaseOf(w);
    && (phase.AtStep? || phase.Finishing?) && phase.job < |s.db.jobs|
    && s.db.jobs[phase.job].attempt >= s.db.jobs[phase.job].maxAttempts
  }

  /** The job ends as failed and the worker goes on to its run, whose rows are as they were. */
  ghost predicate JobFailed(s: Sys, t: Sys, w: int, j: nat, plan: seq<PlanNode>, k: nat) {
    && j < |s.db.jobs| == |t.db.jobs| && t.db.jobs[j].state == Failed && t.db.jobs[j].run == s.db.jobs[j].run
    && t.db.steps == s.db.steps && t.db.runs == s.db.runs
    && t.workers == s.workers[w := FailingRun(j, plan, k)]
  }

  lemma FailsForGood(s: Sys, w: int, j: nat, plan: seq<PlanNode>, k: nat, now: int)
    requires s.PhaseOf(w) == Failing(j, Some((plan, k))) && Owned(s.db, w, j)
    requires s.db.jobs[j].attempt >= s.db.jobs[j].maxAttempts
    ensures Allowed(s, AQueueFail(w, now)) && JobFailed(s, Next(s, AQueueFail(w, now)), w, j, plan, k)
  {
  }

  lemma FailingIsOwner(s: Sys, w: int)
    requires Reachable(s) && InLastAttempt(s, w)
    ensures Owned(s.db, w, s.PhaseOf(w).job)
    ensures s.PhaseOf(w).AtStep? ==> s.PhaseOf(w).k < |s.PhaseOf(w).plan| && DoneBefore(s.db, s.PhaseOf(w).plan, s.PhaseOf(w).k)
    ensures s.PhaseOf(w).Finishing? ==> s.PhaseOf(w).plan != [] && DoneBefore(s.db, s.PhaseOf(w).plan, |s.PhaseOf(w).plan|)
  {
    PhasesAreSound(s, w);
  }

  lemma FailsItsJob(s: Sys, w: int, a: Action, now: int, plan: seq<PlanNode>, k: nat) returns (t: Sys)
    requires Reachable(s) && InLastAttempt(s, w) && (a == ARaise(w) || a == ARaiseAfter(w)) && Allowed(s, a)
    requires Next(s, a) == s.At(w, Failing(s.PhaseOf(w).job, Some((plan, k))))
    ensures Reachable(t) && JobFailed(s, t, w, s.PhaseOf(w).job, plan, k)
    ensures forall u :: Leads(t, u) ==> Leads(s, u)
  {
    FailingIsOwner(s, w);
    var raised := Next(s, a);
    ReachableOn(s, a);
    FailsForGood(raised, w, s.PhaseOf(w).job, plan, k, now);
    t := Next(raised, AQueueFail(w, now));
    ReachableOn(raised, AQueueFail(w, now));
    forall u | Leads(t, u) ensures Leads(s, u) {
      LeadsBy(raised, AQueueFail(w, now), u);
      LeadsBy(s, a, u);
    }
  }

  /** From the exception of the last attempt to the failure of the run, by the worker's own steps. */
  lemma FailsItsRun(s: Sys, w: int, a: Action, now: int, plan: seq<PlanNode>, k: nat) returns (t: Sys)
    requires Reachable(s) && InLastAttempt(s, w) && (a == ARaise(w) || a == ARaiseAfter(w)) && Allowed(s, a)
    requires Next(s, a) == s.At(w, Failing(s.PhaseOf(w).job, Some((plan, k)))) && k < |plan|
    ensures Leads(s, t) && plan[k].row < |s.db.steps|
    ensures var j := s.PhaseOf(w).job;
            && j < |s.db.jobs| == |t.db.jobs| && t.db.jobs[j].state == Failed && t.db.jobs[j].run == s.db.jobs[j].run
            && t.workers == s.workers[w := AfterFailure(j)]
            && StepFailed(s.db.steps, t.db.steps, plan[k].row) && RunFailed(s.db.runs, t.db.runs, s.db.jobs[j].run)
  {
    var failed := FailsItsJob(s, w, a, now, plan, k);
    FinishesFailure(failed, w, s.PhaseOf(w).job, plan, k);
    t := Next(failed, AFinishFailure(w));
  }

  lemma FinishesFailure(s: Sys, w: int, j: nat, plan: seq<PlanNode>, k: nat)
    requires Reachable(s) && s.PhaseOf(w) == FailingRun(j, plan, k) && j < |s.db.jobs| && k < |plan|
    ensures Allowed(s, AFinishFailure(w)) && plan[k].row < |s.db.steps|
    ensures var t := Next(s, AFinishFailure(w));
            && Leads(s, t) && t.db.jobs == s.db.jobs && t.workers == s.workers[w := AfterFailure(j)]
            && StepFailed(s.db.steps, t.db.steps, plan[k].row) && RunFailed(s.db.runs, t.db.runs, s.db.jobs[j].run)
  {
    FailureEndsItsStep(s, w);
    OneStepLeads(s, AFinishFailure(w));
  }

  lemma OneStepLeads(s: Sys, a: Action)
    requires Allowed(s, a)
    ensures Leads(s, Next(s, a))
  {
    LeadsNowhere(Next(s, a));
    LeadsBy(s, a, Next(s, a));
  }

  /**
   * The component at work raises in the last attempt: job and run fail, and of the steps the one at hand, unless it
   * has succeeded before.
   */
  lemma LastRaise(s: Sys, w: int, now: int) returns (t: Sys)
    requires Reachable(s) && InLastAttempt(s, w) && s.PhaseOf(w).AtStep?
    ensures var phase := s.PhaseOf(w); var j, r := phase.job, s.db.jobs[phase.job].run;
            && Leads(s, t) && phase.k < |phase.plan| && t.workers == s.workers[w := AfterFailure(j)]
            && |t.db.jobs| == |s.db.jobs| && t.db.jobs[j].state == Failed && t.db.jobs[j].run == r
            && StepFailed(s.db.steps, t.db.steps, phase.plan[phase.k].row) && RunFailed(s.db.runs, t.db.runs, r)
  {
    FailingIsOwner(s, w);
    t := FailsItsRun(s, w, ARaise(w), now, s.PhaseOf(w).plan, s.PhaseOf(w).k);
  }

  /** Recording a success raises in the last attempt: job and run fail, and no step does. */
  lemma LastRaiseAfter(s: Sys, w: int, now: int) returns (t: Sys)
    requires Reachable(s) && InLastAttempt(s, w) && s.PhaseOf(w).AtStep? && !s.PhaseOf(w).started && s.PhaseOf(w).k > 0
    ensures var j, r := s.PhaseOf(w).job, s.db.jobs[s.PhaseOf(w).job].run;
            && Leads(s, t)
            && |t.db.jobs| == |s.db.jobs| && t.db.jobs[j].state == Failed
            && t.db.steps == s.db.steps && RunFailed(s.db.runs, t.db.runs, r)
  {
    FailingIsOwner(s, w);
    var plan, k := s.PhaseOf(w).plan, s.PhaseOf(w).k - 1;
    t := FailsItsRun(s, w, ARaiseAfter(w), now, plan, k);
    SucceededStays(s.db.steps, t.db.steps, plan[k].row);
  }

  /** The finishing transaction raises in the last attempt: job and run fail, although all steps have succeeded. */
  lemma LastFinishRaises(s: Sys, w: int, now: int) returns (t: Sys)
    requires Reachable(s) && InLastAttempt(s, w) && s.PhaseOf(w).Finishing?
    ensures var j, r := s.PhaseOf(w).job, s.db.jobs[s.PhaseOf(w).job].run;
            && Leads(s, t)
            && |t.db.jobs| == |s.db.jobs| && t.db.jobs[j].state == Failed
            && t.db.steps == s.db.steps && AllStepsSucceeded(s.db, r) && RunFailed(s.db.runs, t.db.runs, r)
  {
    FailingIsOwner(s, w);
    FinishIsSound(s, w);
    var plan := s.PhaseOf(w).plan;
    t := FailsItsRun(s, w, ARaise(w), now, plan, |plan| - 1);
    SucceededStays(s.db.steps, t.db.steps, plan[|plan| - 1].row);
  }

  lemma SucceededStays(steps: seq<RunStep>, steps': seq<RunStep>, row: nat)
    requires StepFailed(steps, steps', row) && steps[row].state == Succeeded
    ensures steps' == steps
  {
  }

  // ---------- The steps of an ended run ----------

  /** The run has ended, and no worker is still about to end it. */
  ghost predicate Settled(s: Sys, r: int) {
    r in s.db.runs && !s.db.runs[r].state.Live() && forall w :: !EndingBy(s, w, r)
  }

  ghost predicate SameStepsOf(steps: seq<RunStep>, steps': seq<RunStep>, r: int) {
    |steps| <= |steps'| && forall i :: 0 <= i < |steps| && steps[i].run == r ==> steps'[i] == steps[i]
  }

  lemma SettledStays(s: Sys, a: Action, r: int)
    requires Reachable(s) && Settled(s, r) && Allowed(s, a)
    ensures Settled(Next(s, a), r)
  {
    EndedRunsStay(s, a, r);
    JobRunsStay(s, a);
    forall w ensures !EndingBy(Next(s, a), w, r) {
      PhasesAreSound(s, w);
      if EndingBy(Next(s, a), w, r) {
        NobodyComesToEnd(s, a, w, r);
        LiveJobOfLiveRun(s, s.workers[w].job);
      }
    }
  }

  lemma LiveJobOfLiveRun(s: Sys, j: nat)
    requires Reachable(s) && j < |s.db.jobs| && s.db.jobs[j].state.Live()
    ensures s.db.jobs[j].run in s.db.runs && s.db.runs[s.db.jobs[j].run].state.Live()
  {
    ReachableIsSound(s);
  }

  /** The statements that write a step row. */
  predicate WritesSteps(a: Action) {
    a.AStartStep? || a.ASucceedStep? || a.AFinishFailure?
  }

  lemma SettledSteps(s: Sys, a: Action, r: int)
    requires Reachable(s) && Settled(s, r) && Allowed(s, a)
    ensures SameStepsOf(s.db.steps, Next(s, a).db.steps, r)
  {
    if WritesSteps(a) {
      WrittenElsewhere(s, a, r);
    } else {
      StepsLeft(s, a);
    }
  }

  lemma StepsLeft(s: Sys, a: Action)
    requires Allowed(s, a) && !WritesSteps(a)
    ensures |s.db.steps| <= |Next(s, a).db.steps| && Next(s, a).db.steps[..|s.db.steps|] == s.db.steps
  {
    if a.ACreateRun? {
      CreateKeepsSteps(s.db, a.request, a.r, a.promoted, a.retry, a.now);
    } else if a.APromote? {
      PromoteKeepsSteps(s.db, a.p, a.promoted, a.retry, a.now);
    } else {
      OthersKeepSteps(s, a);
    }
  }

  lemma CreateKeepsSteps(db: Db, request: RunRequest, x: int, promoted: Option<int>, retry: Retry, now: int)
    requires CanCreateRun(db, request, x, promoted)
    ensures var after := CreateRun(db, request, x, promoted, retry, now).steps;
            |db.steps| <= |after| && after[..|db.steps|] == db.steps
  {
  }

  lemma PromoteKeepsSteps(db: Db, p: int, promoted: Option<int>, retry: Retry, now: int)
    requires CanPromote(db, p, promoted)
    ensures var after := Promote(db, p, promoted, retry, now).steps;
            |db.steps| <= |after| && after[..|db.steps|] == db.steps
  {
  }

  lemma OthersKeepSteps(s: Sys, a: Action)
    requires Allowed(s, a) && !WritesSteps(a) && !ScheduledBy(a)
    ensures Next(s, a).db.steps == s.db.steps
  {
  }

  /** A step row is written at the run of a job in hand, and that run is not settled. */
  lemma WrittenElsewhere(s: Sys, a: Action, r: int)
    requires Reachable(s) && Settled(s, r) && Allowed(s, a) && WritesSteps(a)
    ensures SameStepsOf(s.db.steps, Next(s, a).db.steps, r)
  {
    var phase := s.PhaseOf(a.w);
    PhasesAreSound(s, a.w);
    PlanHolds(s, phase.job, phase.plan);
    assert s.db.steps[phase.plan[phase.k].row].run == s.db.jobs[phase.job].run != r by {
      assert a.AFinishFailure? ==> !EndingBy(s, a.w, r);
    }
    OneRowWritten(s, a, phase.plan[phase.k].row);
  }

  lemma OneRowWritten(s: Sys, a: Action, row: nat)
    requires Allowed(s, a) && WritesSteps(a) && row == s.PhaseOf(a.w).plan[s.PhaseOf(a.w).k].row
    ensures |Next(s, a).db.steps| == |s.db.steps|
    ensures forall i :: 0 <= i < |s.db.steps| && i != row ==> Next(s, a).db.steps[i] == s.db.steps[i]
  {
  }

  /** Whatever happens later, the steps of a settled run stay as they are. */
  lemma {:induction false} SettledForever(states: seq<Sys>, actions: seq<Action>, s: Sys, t: Sys, n: nat, r: int)
    requires Fragment(states, actions, s, t) && Reachable(s) && Settled(s, r) && n < |states|
    ensures Reachable(states[n]) && Settled(states[n], r) && SameStepsOf(s.db.steps, states[n].db.steps, r)
    ensures states[n].db.runs[r].state == s.db.runs[r].state
  {
    if n > 0 {
      SettledForever(states, actions, s, t, n - 1, r);
      EndedRunsStay(states[n - 1], actions[n - 1], r);
      SettledStays(states[n - 1], actions[n - 1], r);
      SettledSteps(states[n - 1], actions[n - 1], r);
      ReachableOn(states[n - 1], actions[n - 1]);
      assert states[n - 1 + 1] == Next(states[n - 1], actions[n - 1]);
    }
  }

  lemma SettledStepsStay(s: Sys, r: int, t: Sys)
    requires Reachable(s) && Settled(s, r) && Leads(s, t)
    ensures SameStepsOf(s.db.steps, t.db.steps, r) && r in t.db.runs && t.db.runs[r].state == s.db.runs[r].state
  {
    var states, actions :| Fragment(states, actions, s, t);
    SettledForever(states, actions, s, t, |actions|, r);
  }
}
