/** One worker's handling of a job on the shared tables (workers/python/execution.py and cancellation.py). */
module Workers {
  import opened Wrappers
  import opened Graphs
  import opened SaveValidation
  import opened Chains
  import opened ExecutionPlan
  import opened Protocol
  import opened ProtocolInvariant
  import opened ProtocolSteps
  import opened ProtocolTheorems
  import opened FailedRuns
  import opened Database

  /** What the protocol can do from `start` on, other actors standing still. */
  ghost predicate Continues(start: Sys, s: Sys) {
    Reachable(start) && Leads(start, s)
  }

  ghost function Moved(s: Sys, db: Db, w: int, phase: Phase): Sys {
    Sys(db, s.workers[w := phase], s.plans)
  }

  lemma Takes(start: Sys, s: Sys, a: Action)
    requires Continues(start, s) && Allowed(s, a)
    ensures Continues(start, Next(s, a))
  {
    var states, actions :| Fragment(states, actions, start, s);
    var states', actions' := states + [Next(s, a)], actions + [a];
    forall i | 0 <= i < |actions'| ensures Allowed(states'[i], actions'[i]) && states'[i + 1] == Next(states'[i], actions'[i]) {
      if i < |actions| {
        assert states[i + 1] == Next(states[i], actions[i]);
      }
    }
    assert Fragment(states', actions', start, Next(s, a));
  }

  lemma {:induction false} ContinuationIsSound(start: Sys, s: Sys)
    requires Continues(start, s)
    ensures Inv(s)
  {
    ReachableIsSound(start);
    var states, actions :| Fragment(states, actions, start, s);
    FragmentKeepsInv(states, actions, start, s, |actions|);
  }

  lemma {:induction false} FragmentKeepsInv(states: seq<Sys>, actions: seq<Action>, start: Sys, s: Sys, n: nat)
    requires Fragment(states, actions, start, s) && Inv(start) && n < |states|
    ensures Inv(states[n])
  {
    if n > 0 {
      FragmentKeepsInv(states, actions, start, s, n - 1);
      NextKeepsInv(states[n - 1], actions[n - 1]);
      assert states[n - 1 + 1] == Next(states[n - 1], actions[n - 1]);
    }
  }

  // ---------- What each step of run_once does to the system ----------

  lemma ClaimTaken(start: Sys, s: Sys, w: int, j: nat, now: int)
    requires Continues(start, s) && s.PhaseOf(w).Idle?
    requires j < |s.db.jobs| && s.db.jobs[j].state.Queued? && s.db.jobs[j].availableAt <= now
    ensures Continues(start, Moved(s, SetJob(s.db, j, ClaimJob(s.db.jobs[j], w, now)), w, Claimed(j)))
  {
    Takes(start, s, AClaim(w, j, now));
  }

  lemma LoadTaken(start: Sys, s: Sys, w: int, plan: seq<PlanNode>)
    requires Continues(start, s) && s.PhaseOf(w).Claimed? && LoadsPlan(s.db, s.PhaseOf(w).job, plan)
    ensures var j := s.PhaseOf(w).job;
            Continues(start, Sys(s.db, s.workers[w := Planned(j, plan)], s.plans[s.db.jobs[j].run := plan]))
  {
    Takes(start, s, ALoadPlan(w, plan));
  }

  lemma StartRunTaken(start: Sys, s: Sys, w: int, j: nat, plan: seq<PlanNode>)
    requires Continues(start, s) && s.PhaseOf(w) == Planned(j, plan)
    ensures Owned(s.db, w, j) && plan != []
    ensures Continues(start, Moved(s, StartRunById(s.db, s.db.jobs[j].run), w, AtStep(j, plan, 0, false)))
  {
    ContinuationIsSound(start, s);
    assert WorkerOk(s, w, s.PhaseOf(w));
    Takes(start, s, AStartRun(w));
  }

  lemma StartStepTaken(start: Sys, s: Sys, w: int, j: nat, plan: seq<PlanNode>, k: nat)
    requires Continues(start, s) && s.PhaseOf(w) == AtStep(j, plan, k, false) && k < |plan|
    ensures Continues(start, Moved(s, StartStepById(s.db, plan[k].row), w, AtStep(j, plan, k, true)))
  {
    Takes(start, s, AStartStep(w));
  }

  lemma SucceedStepTaken(start: Sys, s: Sys, w: int, j: nat, plan: seq<PlanNode>, k: nat)
    requires Continues(start, s) && s.PhaseOf(w) == AtStep(j, plan, k, true) && k < |plan|
    ensures Continues(start, Moved(s, SucceedStepById(s.db, plan[k].row), w, AfterStep(AtStep(j, plan, k, true))))
  {
    Takes(start, s, ASucceedStep(w));
  }

  lemma FinishIsOwned(start: Sys, s: Sys, w: int)
    requires Continues(start, s) && s.PhaseOf(w).Finishing?
    ensures FinishAccepted(s.db, w, s.PhaseOf(w).job)
  {
    ContinuationIsSound(start, s);
    FinishIsAccepted(s, w);
  }

  /** The finishing transaction goes through, for the owning worker's steps have all succeeded. */
  lemma FinishTaken(start: Sys, s: Sys, w: int, j: nat, plan: seq<PlanNode>, now: int)
    requires Continues(start, s) && s.PhaseOf(w) == Finishing(j, plan)
    ensures FinishAccepted(s.db, w, j)
    ensures Continues(start, Moved(s, SetRunState(SetJob(s.db, j, SucceedJob(s.db.jobs[j], now)), s.db.jobs[j].run, Succeeded),
                                   w, Idle))
  {
    FinishIsOwned(start, s, w);
    Takes(start, s, AFinishSuccess(w, now));
    var settled := Next(s, AFinishSuccess(w, now));
    DoneTaken(start, settled, w);
    assert settled.workers[w := Idle] == s.workers[w := Idle];
  }

  lemma DoneTaken(start: Sys, s: Sys, w: int)
    requires Continues(start, s) && (s.PhaseOf(w).Settling? || s.PhaseOf(w).AfterFailure?)
    ensures Continues(start, Moved(s, s.db, w, Idle))
  {
    Takes(start, s, ADone(w));
  }

  /** What is known of a worker that an exception stops while it holds a job. */
  lemma StoppedIsOwner(start: Sys, s: Sys, w: int)
    requires Continues(start, s) && (s.PhaseOf(w).Claimed? || s.PhaseOf(w).AtStep?)
    ensures Owned(s.db, w, s.PhaseOf(w).job)
    ensures s.PhaseOf(w).AtStep? ==> s.PhaseOf(w).k < |s.PhaseOf(w).plan| && RunOfIs(s.db, s.PhaseOf(w).job, Running)
  {
    ContinuationIsSound(start, s);
    assert WorkerOk(s, w, s.PhaseOf(w));
  }

  ghost function AfterFail(job: nat, current: Option<(seq<PlanNode>, nat)>, failed: Job): Phase {
    if failed.state.Failed? && current.Some? then FailingRun(job, current.value.0, current.value.1) else Idle
  }

  lemma FailTaken(start: Sys, s: Sys, w: int, now: int)
    requires Continues(start, s) && (s.PhaseOf(w).Claimed? || s.PhaseOf(w).AtStep?) && Owned(s.db, w, s.PhaseOf(w).job)
    ensures var j := s.PhaseOf(w).job; var failed := FailOrRequeueJob(s.db.jobs[j], now);
            Continues(start, Moved(s, SetJob(s.db, j, failed), w, AfterFail(j, CurrentOf(s.PhaseOf(w)), failed)))
  {
    var j := s.PhaseOf(w).job;
    Takes(start, s, ARaise(w));
    var raised := Next(s, ARaise(w));
    Takes(start, raised, AQueueFail(w, now));
    var failed := FailOrRequeueJob(s.db.jobs[j], now);
    var phase := AfterFail(j, CurrentOf(s.PhaseOf(w)), failed);
    assert raised.workers[w := phase] == s.workers[w := phase];
  }

  lemma FailRunTaken(start: Sys, s: Sys, w: int, j: nat, plan: seq<PlanNode>, k: nat)
    requires Continues(start, s) && s.PhaseOf(w) == FailingRun(j, plan, k) && k < |plan| && j < |s.db.jobs|
    ensures plan[k].row < |s.db.steps| && s.db.steps[plan[k].row].state in {Queued, Running, Succeeded, Failed}
    ensures Continues(start, Moved(s, FailRunById(FailStepById(s.db, plan[k].row), s.db.jobs[j].run), w, Idle))
  {
    FailingRow(start, s, w);
    Takes(start, s, AFinishFailure(w));
    var failed := Next(s, AFinishFailure(w));
    DoneTaken(start, failed, w);
    assert failed.workers[w := Idle] == s.workers[w := Idle];
  }

  lemma FailingRow(start: Sys, s: Sys, w: int)
    requires Continues(start, s) && Allowed(s, AFinishFailure(w))
    ensures var row := s.PhaseOf(w).plan[s.PhaseOf(w).k].row;
            row < |s.db.steps| && s.db.steps[row].state in {Queued, Running, Succeeded, Failed}
  {
    ContinuationIsSound(start, s);
    assert WorkerOk(s, w, s.PhaseOf(w));
    SoundFailureRow(s, w, s.PhaseOf(w));
  }

  /** The rows of a plan that is being executed are apart. */
  lemma RowsApart(start: Sys, s: Sys, w: int)
    requires Continues(start, s) && s.PhaseOf(w).AtStep?
    ensures var plan := s.PhaseOf(w).plan;
            && (forall k :: 0 <= k < |plan| ==> plan[k].row < |s.db.steps|)
            && (forall k, m :: 0 <= k < m < |plan| ==> plan[k].row != plan[m].row)
  {
    ContinuationIsSound(start, s);
    assert WorkerOk(s, w, s.PhaseOf(w));
    assert PlanInv(s.db, s.db.jobs[s.PhaseOf(w).job].run, s.PhaseOf(w).plan);
  }

  lemma HeartbeatTaken(start: Sys, s: Sys, w: int, j: nat, now: int)
    requires Continues(start, s) && Owned(s.db, w, j)
    ensures Continues(start, s.(db := SetJob(s.db, j, HeartbeatJob(s.db.jobs[j], now))))
  {
    Takes(start, s, AHeartbeat(w, j, now));
  }

  lemma ReleaseTaken(start: Sys, s: Sys, w: int, j: nat, now: int)
    requires Continues(start, s) && WorksOn(s.PhaseOf(w), j) && Owned(s.db, w, j)
    ensures Continues(start, Moved(s, SetJob(s.db, j, ReleaseJob(s.db.jobs[j], now)), w, Idle))
  {
    Takes(start, s, ARelease(w, j, now));
  }

  lemma InHandIsOwned(start: Sys, s: Sys, w: int, j: nat)
    requires Continues(start, s) && WorksOn(s.PhaseOf(w), j)
    ensures Owned(s.db, w, j)
  {
    ContinuationIsSound(start, s);
    assert WorkerOk(s, w, s.PhaseOf(w));
  }

  /** What a claimed row promises: all three claim fields, and an attempt within its bound. */
  lemma OwnedRow(start: Sys, s: Sys, w: int, j: nat)
    requires Continues(start, s) && Owned(s.db, w, j)
    ensures JobRowInv(s.db.jobs[j])
  {
    ContinuationIsSound(start, s);
  }

  lemma CancelTaken(start: Sys, s: Sys, w: int, now: int)
    requires Continues(start, s) && s.PhaseOf(w).AtStep? && s.PhaseOf(w).k < |s.PhaseOf(w).plan|
    requires Owned(s.db, w, s.PhaseOf(w).job)
    requires var j := s.PhaseOf(w).job; s.db.jobs[j].run in s.db.runs && s.db.runs[s.db.jobs[j].run].cancelRequested
    ensures var j := s.PhaseOf(w).job;
            Continues(start, Moved(s, SetJob(s.db, j, CancelRunningJob(s.db.jobs[j], now)), w,
                                   Cancelling(j, s.PhaseOf(w).plan, s.PhaseOf(w).k)))
  {
    Takes(start, s, ACancelOwned(w, now));
  }

  lemma PendingTaken(start: Sys, s: Sys, w: int, j: nat, plan: seq<PlanNode>, k: nat, now: int)
    requires Continues(start, s) && s.PhaseOf(w) == Cancelling(j, plan, k) && j < |s.db.jobs|
    ensures Continues(start, Moved(s, CancelPendingForRun(s.db, s.db.jobs[j].run, now), w, Finalizing(j, plan, k)))
  {
    Takes(start, s, ACancelPending(w, now));
  }

  lemma FinalizeTaken(start: Sys, s: Sys, w: int, j: nat, plan: seq<PlanNode>, k: nat)
    requires Continues(start, s) && s.PhaseOf(w) == Finalizing(j, plan, k) && j < |s.db.jobs|
    ensures Continues(start, Moved(s, FinalizeRun(s.db, s.db.jobs[j].run), w, Failing(j, Some((plan, k)))))
  {
    Takes(start, s, AFinalizeCancelled(w));
  }

  /** What a cancelled attempt leaves of the run's jobs. */
  ghost predicate Stopped(before: Db, after: Db, j: nat, now: int)
    requires j < |before.jobs|
  {
    var r := before.jobs[j].run;
    && after.pipelines == before.pipelines && after.steps == before.steps
    && after.jobs == CancelPending(before.jobs[j := CancelRunningJob(before.jobs[j], now)], r, now)
    && r in before.runs
    && after.runs == if NoLiveJobs(after, r) then before.runs[r := before.runs[r].(state := Cancelled)] else before.runs
  }

  /** A claimed job's pipeline is there, and its graph has no cycle for the worker's walk to be caught in. */
  lemma PlanCanBeLooked(start: Sys, s: Sys, w: int, j: nat)
    requires Continues(start, s) && Owned(s.db, w, j)
    ensures s.db.jobs[j].pipeline in s.db.pipelines
    ensures var g := s.db.pipelines[s.db.jobs[j].pipeline].graph;
            !ReachesPlus(EdgeSet(g.edges), s.db.jobs[j].component, s.db.jobs[j].component)
  {
    ContinuationIsSound(start, s);
    assert s.db.runs[s.db.jobs[j].run].state.Live();
    GraphHasNoCycle(s.db, s.db.jobs[j].pipeline, s.db.jobs[j].component);
  }

  lemma GraphHasNoCycle(db: Db, p: int, v: Id)
    requires GraphsSaved(db) && p in db.pipelines
    ensures !ReachesPlus(EdgeSet(db.pipelines[p].graph.edges), v, v)
  {
    assert SaveValid(db.pipelines[p].graph);
  }

  /** The plan of a job is the only one. */
  lemma PlanIsOnly(db: Db, j: nat, plan: seq<PlanNode>)
    requires LoadsPlan(db, j, plan)
    ensures forall other :: LoadsPlan(db, j, other) ==> other == plan
  {
    var g := db.pipelines[db.jobs[j].pipeline].graph;
    forall other | LoadsPlan(db, j, other) ensures other == plan {
      ChainIsUnique(Join(g, db.steps, db.jobs[j].run), g.edges, other, plan);
    }
  }

  predicate AllReturn(plan: seq<PlanNode>, works: nat -> bool) {
    forall k: nat :: k < |plan| ==> works(k)
  }

  /** The first component that does not return: its step has failed, unless it had succeeded in an earlier attempt. */
  ghost predicate GivesUp(steps: seq<RunStep>, steps': seq<RunStep>, plan: seq<PlanNode>, works: nat -> bool) {
    exists k: nat ::
      && k < |plan| && !works(k) && (forall i: nat :: i < k ==> works(i))
      && plan[k].row < |steps| == |steps'|
      && steps'[plan[k].row].state == if steps[plan[k].row].state == Succeeded then Succeeded else Failed
  }

  lemma GivesUpAt(steps: seq<RunStep>, before: seq<RunStep>, steps': seq<RunStep>, plan: seq<PlanNode>, works: nat -> bool, k: nat)
    requires k < |plan| && !works(k) && forall i: nat :: i < k ==> works(i)
    requires plan[k].row < |steps| == |before| && before[plan[k].row] == steps[plan[k].row]
    requires StepFailed(before, steps', plan[k].row)
    ensures GivesUp(steps, steps', plan, works)
  {
  }

  /** All components return, and job, steps and run succeed; or one does not, and the job is requeued or all of them fail. */
  ghost predicate Executed(before: Db, after: Sys, j: nat, plan: seq<PlanNode>, works: nat -> bool, later: int)
    requires j < |before.jobs|
  {
    var failed := FailOrRequeueJob(before.jobs[j], later);
    && (AllReturn(plan, works) ==>
          && after.db.jobs == before.jobs[j := SucceedJob(before.jobs[j], later)]
          && RunDone(after, before.jobs[j].run))
    && (!AllReturn(plan, works) ==>
          && after.db.jobs == before.jobs[j := failed]
          && RunOfIs(after.db, j, if failed.state.Failed? then Failed else Running)
          && (failed.state.Failed? ==> GivesUp(before.steps, after.db.steps, plan, works)))
  }

  /**
   * What one attempt at a claimed job leaves behind. Without a plan neither run nor steps are touched, so a run
   * whose last attempt finds no plan never ends.
   */
  ghost predicate Attempted(before: Db, after: Sys, j: nat, works: nat -> bool, later: int)
    requires j < |before.jobs|
  {
    && (forall plan :: LoadsPlan(before, j, plan) ==> Executed(before, after, j, plan, works, later))
    && ((forall plan :: !LoadsPlan(before, j, plan)) ==>
          after.db == before.(jobs := before.jobs[j := FailOrRequeueJob(before.jobs[j], later)]))
  }

  lemma ExecutedIsAttempted(before: Db, after: Sys, j: nat, plan: seq<PlanNode>, works: nat -> bool, later: int)
    requires j < |before.jobs| && LoadsPlan(before, j, plan) && Executed(before, after, j, plan, works, later)
    ensures Attempted(before, after, j, works, later)
  {
    PlanIsOnly(before, j, plan);
  }

  predicate SameButStarted(a: RunStep, b: RunStep) {
    b == a || (a.state == Queued && b == a.(state := Running))
  }

  class Worker {
    const id: int
    const tables: Tables
    /** The state of the whole system that the tables are part of. */
    ghost var sys: Sys

    constructor (id: int, tables: Tables, ghost sys: Sys)
      ensures this.id == id && this.tables == tables && this.sys == sys
    {
      this.id, this.tables, this.sys := id, tables, sys;
    }

    ghost predicate InStep(start: Sys)
      reads this, tables
    {
      sys.db == tables.Snapshot() && Continues(start, sys)
    }

    /** The plan of the claimed job, if its components form one. */
    method LoadPlan(j: nat, ghost start: Sys) returns (plan: Result<seq<PlanNode>, PlanError>)
      requires InStep(start) && sys.PhaseOf(id) == Claimed(j)
      modifies this`sys
      ensures InStep(start)
      ensures plan.Ok? ==> LoadsPlan(old(sys.db), j, plan.value) && sys.PhaseOf(id) == Planned(j, plan.value)
      ensures plan.Err? ==> sys == old(sys) && forall p :: !LoadsPlan(sys.db, j, p)
    {
      StoppedIsOwner(start, sys, id);
      PlanCanBeLooked(start, sys, id, j);
      var job := tables.jobs[j];
      var g := tables.pipelines[job.pipeline].graph;
      var components := Join(g, tables.steps, job.run);
      plan := LinearPlan(components, g.edges, job.component);
      if plan.Ok? {
        LoadTaken(start, sys, id, plan.value);
        sys := Sys(sys.db, sys.workers[id := Planned(j, plan.value)], sys.plans[job.run := plan.value]);
      }
    }

    method StartRun(j: nat, plan: seq<PlanNode>, ghost start: Sys)
      requires InStep(start) && sys.PhaseOf(id) == Planned(j, plan)
      modifies this`sys, tables`runs
      ensures InStep(start) && sys.PhaseOf(id) == AtStep(j, plan, 0, false) && plan != []
    {
      StartRunTaken(start, sys, id, j, plan);
      tables.StartRun(tables.jobs[j].run);
      sys := Moved(sys, StartRunById(sys.db, sys.db.jobs[j].run), id, AtStep(j, plan, 0, false));
    }

    method StartStep(j: nat, plan: seq<PlanNode>, k: nat, ghost start: Sys)
      requires InStep(start) && sys.PhaseOf(id) == AtStep(j, plan, k, false) && k < |plan|
      modifies this`sys, tables`steps
      ensures InStep(start) && sys.PhaseOf(id) == AtStep(j, plan, k, true)
      ensures |tables.steps| == |old(tables.steps)|
      ensures forall i :: 0 <= i < |tables.steps| && i != plan[k].row ==> tables.steps[i] == old(tables.steps)[i]
      ensures var row := plan[k].row;
              row < |tables.steps| ==> SameButStarted(old(tables.steps)[row], tables.steps[row])
    {
      StartStepTaken(start, sys, id, j, plan, k);
      tables.StartStep(plan[k].row);
      sys := Moved(sys, StartStepById(sys.db, plan[k].row), id, AtStep(j, plan, k, true));
    }

    method MarkStepSucceeded(j: nat, plan: seq<PlanNode>, k: nat, ghost start: Sys)
      requires InStep(start) && sys.PhaseOf(id) == AtStep(j, plan, k, true) && k < |plan|
      modifies this`sys, tables`steps
      ensures InStep(start) && sys.PhaseOf(id) == AfterStep(AtStep(j, plan, k, true))
      ensures |tables.steps| == |old(tables.steps)|
      ensures forall i :: 0 <= i < |tables.steps| && i != plan[k].row ==> tables.steps[i] == old(tables.steps)[i]
    {
      SucceedStepTaken(start, sys, id, j, plan, k);
      tables.MarkStepSucceeded(plan[k].row);
      sys := Moved(sys, SucceedStepById(sys.db, plan[k].row), id, AfterStep(AtStep(j, plan, k, true)));
    }

    /** The transaction is never rolled back here: the guards hold for the worker that did the steps. */
    method FinishSuccess(j: nat, plan: seq<PlanNode>, now: int, ghost start: Sys)
      requires InStep(start) && sys.PhaseOf(id) == Finishing(j, plan)
      modifies this`sys, tables`jobs, tables`runs
      ensures InStep(start) && sys.PhaseOf(id) == Idle
      ensures j < |old(tables.jobs)| && tables.jobs == old(tables.jobs)[j := SucceedJob(old(tables.jobs)[j], now)]
      ensures RunDone(sys, old(tables.jobs)[j].run)
    {
      FinishTaken(start, sys, id, j, plan, now);
      ghost var after := SetRunState(SetJob(sys.db, j, SucceedJob(sys.db.jobs[j], now)), sys.db.jobs[j].run, Succeeded);
      var finished := tables.FinishSuccess(j, id, now);
      assert finished;
      sys := Moved(sys, after, id, Idle);
    }

    /** Requeues the job or ends it, and ends the run with it when a component was at work. */
    method HandleFailure(j: nat, current: Option<(seq<PlanNode>, nat)>, now: int, ghost start: Sys)
      requires InStep(start) && (sys.PhaseOf(id).Claimed? || sys.PhaseOf(id).AtStep?)
      requires sys.PhaseOf(id).job == j && CurrentOf(sys.PhaseOf(id)) == current
      requires current.Some? ==> current.value.1 < |current.value.0|
      modifies this`sys, tables`jobs, tables`steps, tables`runs
      ensures InStep(start) && sys.PhaseOf(id) == Idle
      ensures j < |old(tables.jobs)| && tables.jobs == old(tables.jobs)[j := FailOrRequeueJob(old(tables.jobs)[j], now)]
      ensures current.None? || tables.jobs[j].state.Queued? ==> tables.steps == old(tables.steps) && tables.runs == old(tables.runs)
      ensures current.Some? ==> RunOfIs(sys.db, j, if tables.jobs[j].state.Failed? then Failed else Running)
      ensures current.Some? && tables.jobs[j].state == Failed ==>
                StepFailed(old(tables.steps), tables.steps, current.value.0[current.value.1].row)
    {
      StoppedIsOwner(start, sys, id);
      FailTaken(start, sys, id, now);
      var failed := tables.Fail(j, id, now);
      sys := Moved(sys, tables.Snapshot(), id, AfterFail(j, current, tables.jobs[j]));
      if failed.Some? && failed.value.state.Failed? && current.Some? {
        var (plan, k) := current.value;
        FailRunTaken(start, sys, id, j, plan, k);
        tables.FinishFailure(plan[k].row, tables.jobs[j].run);
        sys := Moved(sys, tables.Snapshot(), id, Idle);
      }
    }

    /** Stops the queued jobs of the run of a cancelled job, and ends the run when nothing of it is left. */
    method CancelRest(j: nat, ghost plan: seq<PlanNode>, ghost k: nat, now: int, ghost start: Sys)
      requires InStep(start) && sys.PhaseOf(id) == Cancelling(j, plan, k) && j < |tables.jobs|
      modifies this`sys, tables`jobs, tables`runs
      ensures InStep(start) && sys.PhaseOf(id) == Failing(j, Some((plan, k)))
      ensures var r := old(tables.jobs)[j].run;
              tables.Snapshot() == FinalizeRun(CancelPendingForRun(old(tables.Snapshot()), r, now), r)
    {
      var r := tables.jobs[j].run;
      PendingTaken(start, sys, id, j, plan, k, now);
      tables.CancelPendingForRun(r, now);
      sys := Moved(sys, tables.Snapshot(), id, Finalizing(j, plan, k));
      FinalizeTaken(start, sys, id, j, plan, k);
      var ended := tables.FinalizeCancelledRun(r);
      sys := Moved(sys, tables.Snapshot(), id, Failing(j, Some((plan, k))));
    }

    /**
     * Called between two pieces of work (workers/python/cancellation.py). When it raises, the job is no longer the
     * worker's, none of the run's jobs is queued, and the run has ended unless another of its jobs still runs.
     */
    method RaiseIfRequested(j: nat, now: int, ghost start: Sys) returns (raised: bool)
      requires InStep(start) && sys.PhaseOf(id).AtStep? && sys.PhaseOf(id).job == j
      modifies this`sys, tables`jobs, tables`runs
      ensures InStep(start) && j < |old(tables.jobs)| && old(tables.jobs)[j].run in old(tables.runs)
      ensures raised <==> old(tables.runs[tables.jobs[j].run].cancelRequested)
      ensures !raised ==> sys == old(sys) && tables.Snapshot() == old(tables.Snapshot())
      ensures raised ==> Stopped(old(tables.Snapshot()), tables.Snapshot(), j, now)
      ensures raised ==> sys.PhaseOf(id) == Failing(j, CurrentOf(old(sys.PhaseOf(id))))
    {
      StoppedIsOwner(start, sys, id);
      var r := tables.jobs[j].run;
      if !tables.runs[r].cancelRequested {
        return false;
      }
      ghost var plan, k := sys.PhaseOf(id).plan, sys.PhaseOf(id).k;
      CancelTaken(start, sys, id, now);
      var cancelled := tables.CancelIfRequested(j, id, now);
      sys := Moved(sys, tables.Snapshot(), id, Cancelling(j, plan, k));
      CancelRest(j, plan, k, now, start);
      raised := true;
    }

    /** Renews the claim: the row comes back as this worker's, claimed when it was and alive now. */
    method Heartbeat(j: nat, now: int, ghost start: Sys) returns (job: Option<Job>)
      requires InStep(start)
      modifies this`sys, tables`jobs
      ensures InStep(start) && sys.workers == old(sys.workers)
      ensures job.Some? <==> Owned(old(sys.db), id, j)
      ensures job.None? ==> sys == old(sys)
      ensures job.Some? ==>
                && Owned(sys.db, id, j) && job.value == tables.jobs[j] && JobRowInv(job.value)
                && old(tables.jobs)[j].claimedAt.Some?
                && ClaimFromRow(job.value) == Ok(Some((id, old(tables.jobs)[j].claimedAt.value, now)))
    {
      ghost var db := sys.db;
      job := tables.Heartbeat(j, id, now);
      if job.Some? {
        OwnedRow(start, sys, id, j);
        HeartbeatTaken(start, sys, id, j, now);
        sys := sys.(db := SetJob(db, j, HeartbeatJob(db.jobs[j], now)));
      }
    }

    /** Gives the job in hand back: anybody may claim it at once, and the attempt it cost stays counted. */
    method Release(j: nat, now: int, ghost start: Sys) returns (job: Option<Job>)
      requires InStep(start) && WorksOn(sys.PhaseOf(id), j)
      modifies this`sys, tables`jobs
      ensures InStep(start) && j < |old(tables.jobs)|
      ensures job.Some?
                && sys.PhaseOf(id) == Idle && tables.Claimable(j, now) && !Owned(sys.db, id, j)
                && job.value == tables.jobs[j] && JobRowInv(job.value) && ClaimFromRow(job.value) == Ok(None)
                && job.value.attempt == old(tables.jobs)[j].attempt && job.value.releases == old(tables.jobs)[j].releases + 1
    {
      ghost var db := sys.db;
      InHandIsOwned(start, sys, id, j);
      job := tables.Release(j, id, now);
      OwnedRow(start, sys, id, j);
      ReleaseTaken(start, sys, id, j, now);
      sys := Moved(sys, SetJob(db, j, ReleaseJob(db.jobs[j], now)), id, Idle);
    }

    /** One component: its step is started, and marked as succeeded if it returns. */
    method RunComponent(j: nat, plan: seq<PlanNode>, k: nat, works: nat -> bool, later: int, ghost start: Sys)
        returns (returned: bool)
      requires InStep(start) && sys.PhaseOf(id) == AtStep(j, plan, k, false) && k < |plan|
      modifies this`sys, tables`jobs, tables`steps, tables`runs
      ensures InStep(start) && returned == works(k)
      ensures returned ==>
                && tables.jobs == old(tables.jobs)
                && sys.PhaseOf(id) == (if k + 1 < |plan| then AtStep(j, plan, k + 1, false) else Finishing(j, plan))
                && |tables.steps| == |old(tables.steps)|
                && forall i :: 0 <= i < |tables.steps| && i != plan[k].row ==> tables.steps[i] == old(tables.steps)[i]
      ensures !returned ==>
                && sys.PhaseOf(id) == Idle && j < |old(tables.jobs)|
                && tables.jobs == old(tables.jobs)[j := FailOrRequeueJob(old(tables.jobs)[j], later)]
                && RunOfIs(sys.db, j, if tables.jobs[j].state.Failed? then Failed else Running)
                && (tables.jobs[j].state == Failed ==> StepFailed(old(tables.steps), tables.steps, plan[k].row))
    {
      StartStep(j, plan, k, start);
      returned := works(k);
      if returned {
        MarkStepSucceeded(j, plan, k, start);
      } else {
        HandleFailure(j, Some((plan, k)), later, start);
      }
    }

    /** Runs the components in plan order; `works` tells which of them return. */
    method RunComponents(j: nat, plan: seq<PlanNode>, works: nat -> bool, later: int, ghost start: Sys)
      requires InStep(start) && sys.PhaseOf(id) == AtStep(j, plan, 0, false) && plan != []
      modifies this`sys, tables`jobs, tables`steps, tables`runs
      ensures InStep(start) && sys.PhaseOf(id) == Idle && j < |old(tables.jobs)|
      ensures AllReturn(plan, works) ==>
                && tables.jobs == old(tables.jobs)[j := SucceedJob(old(tables.jobs)[j], later)]
                && RunDone(sys, old(tables.jobs)[j].run)
      ensures !AllReturn(plan, works) ==>
                && tables.jobs == old(tables.jobs)[j := FailOrRequeueJob(old(tables.jobs)[j], later)]
                && RunOfIs(sys.db, j, if tables.jobs[j].state.Failed? then Failed else Running)
                && (tables.jobs[j].state == Failed ==> GivesUp(old(tables.steps), tables.steps, plan, works))
    {
      RowsApart(start, sys, id);
      var k := 0;
      while k < |plan|
        invariant k <= |plan| && InStep(start) && tables.jobs == old(tables.jobs)
        invariant sys.PhaseOf(id) == if k < |plan| then AtStep(j, plan, k, false) else Finishing(j, plan)
        invariant forall i: nat :: i < k ==> works(i)
        invariant |tables.steps| == |old(tables.steps)|
        invariant forall m :: k <= m < |plan| ==>
                    plan[m].row < |tables.steps| && tables.steps[plan[m].row] == old(tables.steps)[plan[m].row]
      {
        ghost var before := tables.steps;
        var returned := RunComponent(j, plan, k, works, later, start);
        if !returned {
          if tables.jobs[j].state == Failed {
            GivesUpAt(old(tables.steps), before, tables.steps, plan, works, k);
          }
          return;
        }
        k := k + 1;
      }
      FinishSuccess(j, plan, later, start);
    }

    /** Loads the plan of the claimed job and runs it. */
    method Execute(j: nat, works: nat -> bool, later: int, ghost start: Sys)
      requires InStep(start) && sys.PhaseOf(id) == Claimed(j)
      modifies this`sys, tables`jobs, tables`steps, tables`runs
      ensures InStep(start) && sys.PhaseOf(id) == Idle && j < |old(tables.jobs)|
      ensures Attempted(old(tables.Snapshot()), sys, j, works, later)
    {
      ghost var before := tables.Snapshot();
      var plan := LoadPlan(j, start);
      if plan.Ok? {
        StartRun(j, plan.value, start);
        RunComponents(j, plan.value, works, later, start);
        ExecutedIsAttempted(before, sys, j, plan.value, works, later);
      } else {
        HandleFailure(j, None, later, start);
      }
    }

    /** Claims the job that has been due longest and makes one attempt at it. */
    method RunOnce(works: nat -> bool, now: int, later: int) returns (claimed: Option<nat>)
      requires Reachable(sys) && sys.db == tables.Snapshot() && sys.PhaseOf(id).Idle?
      modifies this`sys, tables`jobs, tables`steps, tables`runs
      ensures InStep(old(sys)) && sys.PhaseOf(id).Idle?
      ensures claimed.None? ==> sys == old(sys) && forall j: nat :: !old(tables.Claimable(j, now))
      ensures claimed.Some? ==>
                && old(tables.Claimable(claimed.value, now))
                && var taken := ClaimJob(old(tables.jobs)[claimed.value], id, now);
                   Attempted(SetJob(old(tables.Snapshot()), claimed.value, taken), sys, claimed.value, works, later)
    {
      ghost var start := sys;
      LeadsNowhere(start);
      claimed := tables.ClaimNext(id, now);
      if claimed.Some? {
        ClaimTaken(start, sys, id, claimed.value, now);
        sys := Moved(sys, tables.Snapshot(), id, Claimed(claimed.value));
        Execute(claimed.value, works, later, start);
      }
    }
  }
}
