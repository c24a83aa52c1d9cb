/** What the kinds of steps leave alone. */
module ProtocolFrames {
  import opened Wrappers
  import opened Graphs
  import opened Protocol

  predicate EditsPipelines(a: Action) {
    a.ACreatePipeline? || a.ADeletePipeline? || a.AUpdatePipeline? || a.ASetPipelineState?
  }

  /** The steps that insert run rows or change which run is active. */
  predicate ScheduledBy(a: Action) {
    a.ACreateRun? || a.APromote?
  }

  /** The statements that write the row of an existing run. */
  predicate WritesRuns(a: Action) {
    a.ARequestCancellation? || a.ADropTrigger? || a.AStartRun? || a.AFinishSuccess? || a.AFinishFailure?
    || a.AFinalizeCancelled?
  }

  lemma PipelinesLeft(s: Sys, a: Action)
    requires Allowed(s, a) && !EditsPipelines(a)
    ensures Next(s, a).db.pipelines == s.db.pipelines
  {
    if !ScheduledBy(a) && !WritesRuns(a) {
      RunsLeft(s, a);
    }
  }

  lemma EditsLeaveRows(s: Sys, a: Action)
    requires Allowed(s, a) && EditsPipelines(a)
    ensures Next(s, a).db == s.db.(pipelines := Next(s, a).db.pipelines)
  {
  }

  /** Steps on jobs, on run steps and on a worker's own memory. */
  lemma RunsLeft(s: Sys, a: Action)
    requires Allowed(s, a) && !EditsPipelines(a) && !ScheduledBy(a) && !WritesRuns(a)
    ensures Next(s, a).db.runs == s.db.runs && Next(s, a).db.pipelines == s.db.pipelines
  {
    if WritesJobs(a) {
      JobStatementsLeaveRuns(s, a);
    }
  }

  lemma JobStatementsLeaveRuns(s: Sys, a: Action)
    requires Allowed(s, a) && WritesJobs(a) && !a.AFinishSuccess?
    ensures Next(s, a).db.runs == s.db.runs && Next(s, a).db.pipelines == s.db.pipelines
  {
  }

  /** Apart from the scheduler nobody makes a run active or inactive, and nobody takes an ended run back. */
  lemma RunRowMoves(s: Sys, a: Action, r: int)
    requires Allowed(s, a) && !ScheduledBy(a) && r in s.db.runs
    ensures r in Next(s, a).db.runs
    ensures var run, run' := s.db.runs[r], Next(s, a).db.runs[r];
            && run'.pipeline == run.pipeline && run'.isActive == run.isActive
            && (!run.state.Live() ==> run'.state == run.state)
            && (run.state.Queued? && !run'.state.Queued? ==> WritesRuns(a))
  {
    if EditsPipelines(a) {
      EditsLeaveRows(s, a);
    } else if !WritesRuns(a) {
      RunsLeft(s, a);
    } else {
      RunStatementMoves(s, a, r);
    }
  }

  lemma RunStatementMoves(s: Sys, a: Action, r: int)
    requires Allowed(s, a) && WritesRuns(a) && r in s.db.runs
    ensures r in Next(s, a).db.runs
    ensures var run, run' := s.db.runs[r], Next(s, a).db.runs[r];
            && run'.pipeline == run.pipeline && run'.isActive == run.isActive
            && (!run.state.Live() ==> run'.state == run.state)
  {
  }

  /** The statements that write a job row. */
  predicate WritesJobs(a: Action) {
    a.AClaim? || a.AHeartbeat? || a.ARelease? || a.AQueueFail? || a.ACancelOwned? || a.AFinishSuccess? || a.ACancelPending?
  }

  lemma JobsLeft(s: Sys, a: Action)
    requires Allowed(s, a) && !WritesJobs(a) && !ScheduledBy(a)
    ensures Next(s, a).db.jobs == s.db.jobs
  {
    if EditsPipelines(a) {
      EditsLeaveRows(s, a);
    }
  }

  lemma OtherStepsKeepJobs(s: Sys, a: Action, j: nat)
    requires Allowed(s, a) && !WritesJobs(a) && j < |s.db.jobs|
    ensures j < |Next(s, a).db.jobs| && Next(s, a).db.jobs[j] == s.db.jobs[j]
  {
    if !ScheduledBy(a) {
      JobsLeft(s, a);
    } else if a.ACreateRun? {
      CreateKeepsJobs(s.db, a.request, a.r, a.promoted, a.retry, a.now, j);
    } else {
      PromoteKeepsJobs(s.db, a.p, a.promoted, a.retry, a.now, j);
    }
  }

  lemma CreateKeepsJobs(db: Db, request: RunRequest, x: int, promoted: Option<int>, retry: Retry, now: int, j: nat)
    requires CanCreateRun(db, request, x, promoted) && j < |db.jobs|
    ensures var after := CreateRun(db, request, x, promoted, retry, now); j < |after.jobs| && after.jobs[j] == db.jobs[j]
  {
  }

  lemma PromoteKeepsJobs(db: Db, p: int, promoted: Option<int>, retry: Retry, now: int, j: nat)
    requires CanPromote(db, p, promoted) && j < |db.jobs|
    ensures var after := Promote(db, p, promoted, retry, now); j < |after.jobs| && after.jobs[j] == db.jobs[j]
  {
  }

  // ---------- What the scheduler leaves alone ----------

  /** A scheduler transaction changes no state of a run, and never makes a live run inactive. */
  lemma ScheduledRow(s: Sys, a: Action, r: int)
    requires Allowed(s, a) && ScheduledBy(a) && r in s.db.runs
    ensures r in Next(s, a).db.runs
    ensures var run, run' := s.db.runs[r], Next(s, a).db.runs[r];
            && run'.state == run.state && run'.pipeline == run.pipeline
            && (run.isActive && run.state.Live() ==> run'.isActive)
  {
    if a.ACreateRun? {
      CreateKeepsStates(s.db, a.request, a.r, a.promoted, a.retry, a.now, r);
      CreatedActive(s.db, a.request, a.r, a.promoted, a.retry, a.now, r);
    } else {
      PromoteKeepsStates(s.db, a.p, a.promoted, a.retry, a.now, r);
      PromotedActive(s.db, a.p, a.promoted, a.retry, a.now, r);
    }
  }

  lemma CreateKeepsStates(db: Db, request: RunRequest, x: int, promoted: Option<int>, retry: Retry, now: int, r: int)
    requires CanCreateRun(db, request, x, promoted) && r in db.runs
    ensures var after := CreateRun(db, request, x, promoted, retry, now).runs;
            r in after && after[r].state == db.runs[r].state && after[r].pipeline == db.runs[r].pipeline
  {
  }

  lemma PromoteKeepsStates(db: Db, p: int, promoted: Option<int>, retry: Retry, now: int, r: int)
    requires CanPromote(db, p, promoted) && r in db.runs
    ensures var after := Promote(db, p, promoted, retry, now).runs;
            r in after && after[r].state == db.runs[r].state && after[r].pipeline == db.runs[r].pipeline
  {
  }

  lemma CreatedActive(db: Db, request: RunRequest, x: int, promoted: Option<int>, retry: Retry, now: int, r: int)
    requires CanCreateRun(db, request, x, promoted) && r in db.runs
    ensures var after := CreateRun(db, request, x, promoted, retry, now).runs;
            r in after && (db.runs[r].isActive && db.runs[r].state.Live() ==> after[r].isActive)
  {
  }

  lemma PromotedActive(db: Db, p: int, promoted: Option<int>, retry: Retry, now: int, r: int)
    requires CanPromote(db, p, promoted) && r in db.runs
    ensures var after := Promote(db, p, promoted, retry, now).runs;
            r in after && (db.runs[r].isActive && db.runs[r].state.Live() ==> after[r].isActive)
  {
  }
}
