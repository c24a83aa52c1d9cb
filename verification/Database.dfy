/** The shared tables as they are updated in place, one statement at a time. */
module Database {
  import opened Wrappers
  import opened Graphs
  import opened Chains
  import opened Protocol

  class Tables {
    var pipelines: map<int, Pipeline>
    var runs: map<int, Run>
    var steps: seq<RunStep>
    var jobs: seq<Job>

    constructor ()
      ensures Snapshot() == Empty.db
    {
      pipelines, runs, steps, jobs := map[], map[], [], [];
    }

    /** All rows as one value. */
    function Snapshot(): Db
      reads this
    {
      Db(pipelines, runs, steps, jobs)
    }

    // ---------- Job queue (workers/python/job_queue.py) ----------

    ghost predicate Claimable(j: nat, now: int)
      reads this
    {
      j < |jobs| && jobs[j].state.Queued? && jobs[j].availableAt <= now
    }

    /** Claims the due job that has been available longest; among equals the one created first. */
    method ClaimNext(w: int, now: int) returns (claimed: Option<nat>)
      modifies this`jobs
      ensures claimed.None? ==> jobs == old(jobs) && forall j: nat :: !old(Claimable(j, now))
      ensures claimed.Some? ==>
                && old(Claimable(claimed.value, now))
                && (forall j: nat :: old(Claimable(j, now)) ==>
                      || old(jobs)[claimed.value].availableAt < old(jobs)[j].availableAt
                      || (old(jobs)[claimed.value].availableAt == old(jobs)[j].availableAt && claimed.value <= j))
                && Snapshot() == SetJob(old(Snapshot()), claimed.value, ClaimJob(old(jobs)[claimed.value], w, now))
      ensures claimed.Some? ==>
                var job := old(jobs)[claimed.value];
                jobs == old(jobs)[claimed.value := job.(state := Running, worker := Some(w), claimedAt := Some(now),
                                                        heartbeatAt := Some(now), attempt := job.attempt + 1)]
    {
      claimed := None;
      for j := 0 to |jobs|
        invariant jobs == old(jobs)
        invariant claimed.None? ==> forall k: nat :: k < j ==> !Claimable(k, now)
        invariant claimed.Some? ==> claimed.value < j && Claimable(claimed.value, now)
        invariant claimed.Some? ==> forall k: nat :: k < j && Claimable(k, now) ==>
                    || jobs[claimed.value].availableAt < jobs[k].availableAt
                    || (jobs[claimed.value].availableAt == jobs[k].availableAt && claimed.value <= k)
      {
        if jobs[j].state.Queued? && jobs[j].availableAt <= now {
          if claimed.None? || jobs[j].availableAt < jobs[claimed.value].availableAt {
            claimed := Some(j);
          }
        }
      }
      if claimed.Some? {
        jobs := jobs[claimed.value := ClaimJob(jobs[claimed.value], w, now)];
      }
    }

    method Heartbeat(j: nat, w: int, now: int) returns (job: Option<Job>)
      modifies this`jobs
      ensures job.Some? <==> old(j < |jobs| && jobs[j].state == Running && jobs[j].worker == Some(w))
      ensures if job.Some? then Snapshot() == SetJob(old(Snapshot()), j, HeartbeatJob(old(jobs)[j], now)) && job.value == jobs[j]
              else jobs == old(jobs)
      ensures job.Some? ==> jobs == old(jobs)[j := old(jobs)[j].(heartbeatAt := Some(now))]
    {
      job := None;
      if Owned(Snapshot(), w, j) {
        jobs := jobs[j := HeartbeatJob(jobs[j], now)];
        job := Some(jobs[j]);
      }
    }

    method Release(j: nat, w: int, now: int) returns (job: Option<Job>)
      modifies this`jobs
      ensures job.Some? <==> old(j < |jobs| && jobs[j].state == Running && jobs[j].worker == Some(w))
      ensures if job.Some? then Snapshot() == SetJob(old(Snapshot()), j, ReleaseJob(old(jobs)[j], now)) && job.value == jobs[j]
              else jobs == old(jobs)
      ensures job.Some? ==>
                jobs == old(jobs)[j := old(jobs)[j].(state := Queued, availableAt := now, worker := None, claimedAt := None,
                                                     heartbeatAt := None, releases := old(jobs)[j].releases + 1)]
    {
      job := None;
      if Owned(Snapshot(), w, j) {
        jobs := jobs[j := ReleaseJob(jobs[j], now)];
        job := Some(jobs[j]);
      }
    }

    /** Requeues a failure while attempts remain, to be claimed again once the delay is over; else ends the job. */
    method Fail(j: nat, w: int, now: int) returns (job: Option<Job>)
      modifies this`jobs
      ensures job.Some? <==> old(j < |jobs| && jobs[j].state == Running && jobs[j].worker == Some(w))
      ensures if job.Some?
              then Snapshot() == SetJob(old(Snapshot()), j, FailOrRequeueJob(old(jobs)[j], now)) && job.value == jobs[j]
              else jobs == old(jobs)
      ensures job.Some? && old(jobs)[j].attempt < old(jobs)[j].maxAttempts ==>
                jobs == old(jobs)[j := old(jobs)[j].(state := Queued, availableAt := now + old(jobs)[j].delay, worker := None,
                                                     claimedAt := None, heartbeatAt := None, completedAt := None)]
      ensures job.Some? && old(jobs)[j].attempt >= old(jobs)[j].maxAttempts ==>
                jobs == old(jobs)[j := old(jobs)[j].(state := Failed, worker := None, claimedAt := None, heartbeatAt := None,
                                                     completedAt := Some(now))]
      ensures job.Some? ==> forall t :: Claimable(j, t) <==>
                old(jobs)[j].attempt < old(jobs)[j].maxAttempts && now + old(jobs)[j].delay <= t
    {
      job := None;
      if Owned(Snapshot(), w, j) {
        jobs := jobs[j := FailOrRequeueJob(jobs[j], now)];
        job := Some(jobs[j]);
      }
    }

    method CancelIfRequested(j: nat, w: int, now: int) returns (job: Option<Job>)
      modifies this`jobs
      ensures job.Some? <==> old(j < |jobs| && jobs[j].state == Running && jobs[j].worker == Some(w)
                                 && jobs[j].run in runs && runs[jobs[j].run].cancelRequested)
      ensures if job.Some?
              then Snapshot() == SetJob(old(Snapshot()), j, CancelRunningJob(old(jobs)[j], now)) && job.value == jobs[j]
              else jobs == old(jobs)
      ensures job.Some? ==>
                jobs == old(jobs)[j := old(jobs)[j].(state := Cancelled, worker := None, claimedAt := None, heartbeatAt := None,
                                                     completedAt := Some(now))]
    {
      job := None;
      if Owned(Snapshot(), w, j) && jobs[j].run in runs && runs[jobs[j].run].cancelRequested {
        jobs := jobs[j := CancelRunningJob(jobs[j], now)];
        job := Some(jobs[j]);
      }
    }

    /** Stops every queued job of a run whose cancellation was requested. */
    method CancelPendingForRun(r: int, now: int)
      modifies this`jobs
      ensures jobs == if old(r in runs && runs[r].cancelRequested) then CancelPending(old(jobs), r, now) else old(jobs)
      ensures |jobs| == |old(jobs)|
      ensures forall k :: 0 <= k < |jobs| ==>
                jobs[k] == if r in runs && runs[r].cancelRequested && old(jobs)[k].run == r && old(jobs)[k].state == Queued
                           then old(jobs)[k].(state := Cancelled, completedAt := Some(now)) else old(jobs)[k]
    {
      if r in runs && runs[r].cancelRequested {
        ghost var before := jobs;
        for j := 0 to |jobs|
          invariant |jobs| == |before|
          invariant forall k :: 0 <= k < j ==> jobs[k] == CancelPending(before, r, now)[k]
          invariant forall k :: j <= k < |jobs| ==> jobs[k] == before[k]
        {
          if jobs[j].run == r && jobs[j].state.Queued? {
            jobs := jobs[j := CancelQueuedJob(jobs[j], now)];
          }
        }
        assert jobs == CancelPending(before, r, now);
      }
    }

    method HasLiveJob(r: int) returns (found: bool)
      ensures found <==> !NoLiveJobs(Snapshot(), r)
      ensures found <==> exists k :: 0 <= k < |jobs| && jobs[k].run == r && jobs[k].state in {Queued, Running}
    {
      for j := 0 to |jobs|
        invariant forall k :: 0 <= k < j && jobs[k].run == r ==> !jobs[k].state.Live()
      {
        if jobs[j].run == r && jobs[j].state.Live() {
          return true;
        }
      }
      found := false;
    }

    /** Ends a cancelled run once none of its jobs is queued or running. */
    method FinalizeCancelledRun(r: int) returns (ended: bool)
      modifies this`runs
      ensures ended <==>
                && r in old(runs) && old(runs)[r].state == Running && old(runs)[r].cancelRequested
                && forall k :: 0 <= k < |jobs| && jobs[k].run == r ==> jobs[k].state !in {Queued, Running}
      ensures if ended then Snapshot() == SetRunState(old(Snapshot()), r, Cancelled) else runs == old(runs)
      ensures ended ==> runs == old(runs)[r := old(runs)[r].(state := Cancelled)]
    {
      var live := HasLiveJob(r);
      ended := r in runs && runs[r].state.Running? && runs[r].cancelRequested && !live;
      if ended {
        runs := runs[r := runs[r].(state := Cancelled)];
      }
    }

    // ---------- Run and step statements (workers/python/execution.py) ----------

    method StartRun(r: int)
      modifies this`runs
      ensures Snapshot() == StartRunById(old(Snapshot()), r)
      ensures runs == if r in old(runs) && old(runs)[r].state == Queued then old(runs)[r := old(runs)[r].(state := Running)]
                      else old(runs)
    {
      if r in runs && runs[r].state.Queued? {
        runs := runs[r := runs[r].(state := Running)];
      }
    }

    method StartStep(row: nat)
      modifies this`steps
      ensures Snapshot() == StartStepById(old(Snapshot()), row)
      ensures steps == if row < |old(steps)| && old(steps)[row].state == Queued
                       then old(steps)[row := old(steps)[row].(state := Running)] else old(steps)
    {
      if row < |steps| && steps[row].state.Queued? {
        steps := steps[row := steps[row].(state := Running)];
      }
    }

    method MarkStepSucceeded(row: nat)
      modifies this`steps
      ensures Snapshot() == SucceedStepById(old(Snapshot()), row)
      ensures steps == if row < |old(steps)| && old(steps)[row].state == Running
                       then old(steps)[row := old(steps)[row].(state := Succeeded)] else old(steps)
    {
      if row < |steps| && steps[row].state.Running? {
        steps := steps[row := steps[row].(state := Succeeded)];
      }
    }

    method StepsSucceeded(r: int) returns (all: bool)
      ensures all <==> AllStepsSucceeded(Snapshot(), r)
      ensures all <==> forall i :: 0 <= i < |steps| && steps[i].run == r ==> steps[i].state == Succeeded
    {
      for i := 0 to |steps|
        invariant forall k :: 0 <= k < i && steps[k].run == r ==> steps[k].state.Succeeded?
      {
        if steps[i].run == r && !steps[i].state.Succeeded? {
          return false;
        }
      }
      all := true;
    }

    /** The worker's job is running, its run too, and all steps of the run have succeeded. */
    ghost predicate Finishable(j: nat, w: int)
      reads this
    {
      && j < |jobs| && jobs[j].state == Running && jobs[j].worker == Some(w)
      && jobs[j].run in runs && runs[jobs[j].run].state == Running
      && forall i :: 0 <= i < |steps| && steps[i].run == jobs[j].run ==> steps[i].state == Succeeded
    }

    /** Both updates happen, or neither: a row count other than one rolls the transaction back. */
    method FinishSuccess(j: nat, w: int, now: int) returns (finished: bool)
      modifies this`jobs, this`runs
      ensures finished <==> old(FinishAccepted(Snapshot(), w, j))
      ensures finished <==> old(Finishable(j, w))
      ensures if finished
              then Snapshot() == SetRunState(SetJob(old(Snapshot()), j, SucceedJob(old(jobs)[j], now)), old(jobs)[j].run, Succeeded)
              else Snapshot() == old(Snapshot())
      ensures finished ==>
                && jobs == old(jobs)[j := old(jobs)[j].(state := Succeeded, completedAt := Some(now), worker := None,
                                                        heartbeatAt := None)]
                && runs == old(runs)[old(jobs)[j].run := old(runs)[old(jobs)[j].run].(state := Succeeded)]
    {
      finished := false;
      if Owned(Snapshot(), w, j) {
        var r := jobs[j].run;
        var all := StepsSucceeded(r);
        if r in runs && runs[r].state.Running? && all {
          jobs := jobs[j := SucceedJob(jobs[j], now)];
          runs := runs[r := runs[r].(state := Succeeded)];
          finished := true;
        }
      }
    }

    /** Ends the step and the run as failed, each only if it is still queued or running. */
    method FinishFailure(row: nat, r: int)
      modifies this`steps, this`runs
      ensures Snapshot() == FailRunById(FailStepById(old(Snapshot()), row), r)
      ensures |steps| == |old(steps)| && forall i :: 0 <= i < |steps| && i != row ==> steps[i] == old(steps)[i]
      ensures row < |steps| && old(steps)[row].state in {Queued, Running} ==> steps[row] == old(steps)[row].(state := Failed)
      ensures row < |steps| && old(steps)[row].state !in {Queued, Running} ==> steps[row] == old(steps)[row]
      ensures runs == if r in old(runs) && old(runs)[r].state in {Queued, Running}
                      then old(runs)[r := old(runs)[r].(state := Failed)] else old(runs)
    {
      if row < |steps| && steps[row].state.Live() {
        steps := steps[row := steps[row].(state := Failed)];
      }
      if r in runs && runs[r].state.Live() {
        runs := runs[r := runs[r].(state := Failed)];
      }
    }
  }
}
