/** The scheduler's transactions on the shared tables (apps/scheduler/src/run-queue.ts, schedule-claims.ts). */
module RunQueue {
  import opened Wrappers
  import opened Graphs
  import opened Protocol
  import opened ProtocolInvariant
  import opened ProtocolScheduler
  import opened Database
  import opened Schedules
  import opened Selection
  import opened Chains

  datatype Conflict = NotFound | NotEnabled | InvalidLimit | NoSource

  datatype CreatedRun = CreatedRun(initialJobCount: nat, pipeline: int, queuedBehindActiveRun: bool, run: int)

  // ---------- Row selection ----------

  /** Nobody waits in the pipeline; or this run does, and by time, creation and identity nobody comes before it. */
  ghost predicate FirstToPromote(runs: map<int, Run>, p: int, oldest: Option<int>) {
    && (oldest.None? ==> forall x :: x in runs && runs[x].pipeline == p && runs[x].state == Queued ==> runs[x].isActive)
    && (oldest.Some? ==>
          var o := oldest.value;
          && o in runs && runs[o].pipeline == p && runs[o].state == Queued && !runs[o].isActive
          && forall x :: x in runs && x != o && runs[x].pipeline == p && runs[x].state == Queued && !runs[x].isActive ==>
               && (runs[x].scheduledFor.Some? ==> runs[o].scheduledFor.Some?)
               && (runs[x].scheduledFor.Some? ==> runs[o].scheduledFor.value <= runs[x].scheduledFor.value)
               && (runs[o].scheduledFor == runs[x].scheduledFor ==> runs[o].createdAt <= runs[x].createdAt)
               && (runs[o].scheduledFor == runs[x].scheduledFor && runs[o].createdAt == runs[x].createdAt ==> o < x))
  }

  lemma OldestIsFirst(runs: map<int, Run>, p: int, oldest: Option<int>)
    requires Oldest(runs, p, oldest)
    ensures FirstToPromote(runs, p, oldest)
  {
    if oldest.None? {
      forall x | x in runs && runs[x].pipeline == p && runs[x].state == Queued ensures runs[x].isActive {
        assert !WaitsFor(runs, p, x);
      }
    } else {
      forall x | x in runs && x != oldest.value && runs[x].pipeline == p && runs[x].state == Queued && !runs[x].isActive
        ensures Before(runs[oldest.value], oldest.value, runs[x], x)
      {
        assert WaitsFor(runs, p, x);
      }
    }
  }

  /** The first of the waiting runs in promotion order. */
  method FindOldestWaiting(t: Tables, p: int) returns (oldest: Option<int>)
    ensures Oldest(t.runs, p, oldest)
    ensures FirstToPromote(t.runs, p, oldest)
  {
    var unseen := t.runs.Keys;
    ghost var seen: set<int> := {};
    oldest := None;
    while unseen != {}
      invariant unseen + seen == t.runs.Keys && unseen !! seen
      invariant oldest.None? ==> forall x :: x in seen ==> !WaitsFor(t.runs, p, x)
      invariant oldest.Some? ==> oldest.value in seen && WaitsFor(t.runs, p, oldest.value)
      invariant oldest.Some? ==> forall x :: x in seen && WaitsFor(t.runs, p, x) && x != oldest.value ==>
                  Before(t.runs[oldest.value], oldest.value, t.runs[x], x)
      decreases |unseen|
    {
      ghost var left := SomeLeft(unseen);
      var r :| r in unseen;
      if WaitsFor(t.runs, p, r) {
        if oldest.None? || Before(t.runs[r], r, t.runs[oldest.value], oldest.value) {
          oldest := Some(r);
        }
      }
      unseen, seen := unseen - {r}, seen + {r};
    }
    OldestIsFirst(t.runs, p, oldest);
  }

  /** The run of the pipeline that is active and has not ended. */
  method FindActiveRun(t: Tables, p: int) returns (active: Option<int>)
    ensures active.Some? ==> ActiveLive(t.runs, p, active.value)
    ensures active.None? ==> !HasActive(t.runs, p)
  {
    var unseen := t.runs.Keys;
    while unseen != {}
      invariant unseen <= t.runs.Keys
      invariant forall x :: x in t.runs && x !in unseen ==> !ActiveLive(t.runs, p, x)
      decreases |unseen|
    {
      ghost var left := SomeLeft(unseen);
      var r :| r in unseen;
      if ActiveLive(t.runs, p, r) {
        return Some(r);
      }
      unseen := unseen - {r};
    }
    active := None;
  }

  // ---------- Writing rows ----------

  method InsertSteps(t: Tables, r: int, components: seq<Step>)
    modifies t`steps
    ensures t.steps == old(t.steps) + StepRows(r, components)
  {
    for i := 0 to |components|
      invariant t.steps == old(t.steps) + StepRows(r, components[..i])
    {
      t.steps := t.steps + [RunStep(r, components[i].id, Queued)];
    }
    assert components[..|components|] == components;
  }

  method InsertJobs(t: Tables, p: int, r: int, components: seq<Step>, base: nat, retry: Retry, now: int)
    modifies t`jobs
    ensures t.jobs == old(t.jobs) + SourceJobs(p, r, components, base, retry, now)
  {
    for i := 0 to |components|
      invariant t.jobs == old(t.jobs) + SourceJobs(p, r, components[..i], base, retry, now)
    {
      assert components[..i + 1][..i] == components[..i];
      if components[i].kind.Source? {
        t.jobs := t.jobs + [SourceJob(p, r, base + i, components[i].id, retry, now)];
      }
    }
    assert components[..|components|] == components;
  }

  /** The new step rows: one per component, in the order of the graph, all of them queued. */
  ghost predicate StepsInserted(steps: seq<RunStep>, steps': seq<RunStep>, r: int, components: seq<Step>) {
    && |steps'| == |steps| + |components| && steps'[..|steps|] == steps
    && forall i :: 0 <= i < |components| ==> steps'[|steps| + i] == RunStep(r, components[i].id, Queued)
  }

  /** A job as it is inserted: at the step of a Source, due at once, never attempted, with the retry columns asked for. */
  ghost predicate NewJob(job: Job, p: int, r: int, components: seq<Step>, base: nat, retry: Retry, now: int) {
    && base <= job.step < base + |components|
    && components[job.step - base].kind == Source && job.component == components[job.step - base].id
    && job.pipeline == p && job.run == r && job.state == Queued && job.attempt == 0 && job.releases == 0
    && job.maxAttempts == retry.maxAttempts && job.delay == retry.delay && job.availableAt == now
    && job.worker == None && job.claimedAt == None && job.heartbeatAt == None && job.completedAt == None
  }

  ghost predicate JobsInserted(jobs: seq<Job>, jobs': seq<Job>, p: int, r: int, components: seq<Step>, base: nat,
                               retry: Retry, now: int) {
    && |jobs| <= |jobs'| && jobs'[..|jobs|] == jobs
    && forall k :: |jobs| <= k < |jobs'| ==> NewJob(jobs'[k], p, r, components, base, retry, now)
  }

  lemma {:induction false} SourceJobsAreNew(p: int, r: int, components: seq<Step>, n: nat, base: nat, retry: Retry, now: int)
    requires n <= |components|
    ensures forall job :: job in SourceJobs(p, r, components[..n], base, retry, now) ==>
              NewJob(job, p, r, components, base, retry, now)
  {
    if n > 0 {
      SourceJobsAreNew(p, r, components, n - 1, base, retry, now);
      assert components[..n][..n - 1] == components[..n - 1];
    }
  }

  lemma NewJobsAppended(jobs: seq<Job>, p: int, r: int, components: seq<Step>, base: nat, retry: Retry, now: int)
    ensures JobsInserted(jobs, jobs + SourceJobs(p, r, components, base, retry, now), p, r, components, base, retry, now)
  {
    SourceJobsAreNew(p, r, components, |components|, base, retry, now);
    assert components[..|components|] == components;
    var added := SourceJobs(p, r, components, base, retry, now);
    forall k | |jobs| <= k < |jobs + added| ensures NewJob((jobs + added)[k], p, r, components, base, retry, now) {
      assert (jobs + added)[k] == added[k - |jobs|];
      assert added[k - |jobs|] in added;
    }
  }

  /** Inserts one run step per component, then one job per Source; without a Source the transaction fails. */
  method CreateInitialSourceJobs(t: Tables, p: int, r: int, retry: Retry, now: int) returns (count: Result<nat, Conflict>)
    requires p in t.pipelines
    modifies t`steps, t`jobs
    ensures count.Ok? <==> exists c :: c in old(t.pipelines[p].graph.steps) && c.kind.Source?
    ensures count.Ok? ==> t.Snapshot() == AddRows(old(t.Snapshot()), p, r, retry, now)
    ensures count.Ok? ==>
              && StepsInserted(old(t.steps), t.steps, r, t.pipelines[p].graph.steps)
              && JobsInserted(old(t.jobs), t.jobs, p, r, t.pipelines[p].graph.steps, |old(t.steps)|, retry, now)
    ensures count.Ok? ==> count.value == |t.jobs| - |old(t.jobs)|
    ensures count.Err? ==> count.error == NoSource && t.Snapshot() == old(t.Snapshot())
  {
    var components := t.pipelines[p].graph.steps;
    StepsOfKindMembers(components, Source);
    var sources := StepsOfKind(components, Source);
    if |sources| == 0 {
      return Err(NoSource);
    }
    assert sources[0] in components && sources[0].kind.Source?;
    var base := |t.steps|;
    InsertSteps(t, r, components);
    InsertJobs(t, p, r, components, base, retry, now);
    SourceJobCount(p, r, components, base, retry, now);
    NewJobsAppended(old(t.jobs), p, r, components, base, retry, now);
    count := Ok(|sources|);
  }

  lemma {:induction false} SourceJobCount(p: int, r: int, components: seq<Step>, base: nat, retry: Retry, now: int)
    ensures |SourceJobs(p, r, components, base, retry, now)| == |StepsOfKind(components, Source)|
  {
    if components != [] {
      var last := |components| - 1;
      SourceJobCount(p, r, components[..last], base, retry, now);
      StepsOfKindOneMore(components[..last], components[last], Source);
      assert components == components[..last] + [components[last]];
    }
  }

  method ReleaseEndedRun(t: Tables, p: int)
    modifies t`runs
    ensures t.runs == ReleaseTerminal(old(t.runs), p)
  {
    t.runs := ReleaseTerminal(t.runs, p);
  }

  ghost predicate HasSource(g: Graph) {
    exists c :: c in g.steps && c.kind.Source?
  }

  /** Activates the oldest waiting run of the pipeline, if one waits; that fails when there is no Source to start at. */
  method PromoteOldestQueuedRun(t: Tables, p: int, retry: Retry, now: int)
    returns (result: Result<Option<int>, Conflict>, ghost promoted: Option<int>)
    requires p in t.pipelines
    modifies t`runs, t`steps, t`jobs
    ensures Oldest(old(t.runs), p, promoted) && FirstToPromote(old(t.runs), p, promoted)
    ensures result == if promoted.Some? && !HasSource(t.pipelines[p].graph) then Err(NoSource) else Ok(promoted)
    ensures result.Ok? && promoted.Some? ==> t.Snapshot() == Activate(old(t.Snapshot()), p, promoted.value, retry, now)
    ensures promoted.None? ==> t.Snapshot() == old(t.Snapshot())
    ensures result.Err? ==> t.steps == old(t.steps) && t.jobs == old(t.jobs)
  {
    var oldest := FindOldestWaiting(t, p);
    promoted := oldest;
    if oldest.Some? {
      t.runs := t.runs[oldest.value := t.runs[oldest.value].(isActive := true)];
      var count := CreateInitialSourceJobs(t, p, oldest.value, retry, now);
      if count.Err? {
        return Err(count.error), promoted;
      }
    }
    result := Ok(oldest);
  }

  // ---------- Transactions ----------

  /** Whether the creation has to insert rows: nothing live is active, so the new run or a waiting one becomes active. */
  ghost predicate Activates(runs: map<int, Run>, p: int) {
    !HasActive(ReleaseTerminal(runs, p), p)
  }

  /** An active run of the pipeline that has not ended. */
  ghost predicate Busy(runs: map<int, Run>, p: int) {
    exists x :: x in runs && runs[x].pipeline == p && runs[x].isActive && runs[x].state in {Queued, Running}
  }

  /** Who is active afterwards: of this pipeline, who was and has not ended, and the promoted run; elsewhere, who was. */
  ghost predicate ActiveAfter(runs: map<int, Run>, runs': map<int, Run>, p: int, promoted: Option<int>) {
    forall x :: x in runs ==>
      && x in runs'
      && runs'[x] == runs[x].(isActive := if runs[x].pipeline != p then runs[x].isActive
                                          else promoted == Some(x) || (runs[x].isActive && runs[x].state in {Queued, Running}))
  }

  /** The row of a new run. It is active when nobody of its pipeline is active and live, and nobody waits to be promoted. */
  ghost predicate RunInserted(runs: map<int, Run>, runs': map<int, Run>, request: RunRequest, r: int, promoted: Option<int>,
                              now: int) {
    && runs'.Keys == runs.Keys + {r}
    && runs'[r] == Run(request.pipeline, Queued, !Busy(runs, request.pipeline) && promoted == None, request.scheduledFor, now,
                       request.trigger, false)
    && (if Busy(runs, request.pipeline) then promoted == None else FirstToPromote(runs, request.pipeline, promoted))
  }

  lemma BusyIsActive(runs: map<int, Run>, p: int)
    ensures HasActive(ReleaseTerminal(runs, p), p) <==> Busy(runs, p)
  {
    if Busy(runs, p) {
      var x :| x in runs && runs[x].pipeline == p && runs[x].isActive && runs[x].state in {Queued, Running};
      assert ActiveLive(ReleaseTerminal(runs, p), p, x);
    }
  }

  lemma FirstIsFirstBefore(runs: map<int, Run>, p: int, oldest: Option<int>)
    requires FirstToPromote(ReleaseTerminal(runs, p), p, oldest)
    ensures FirstToPromote(runs, p, oldest)
  {
    var released := ReleaseTerminal(runs, p);
    assert forall x :: x in runs && runs[x].state == Queued ==> released[x] == runs[x];
  }

  lemma CreatedRows(db: Db, request: RunRequest, r: int, promoted: Option<int>, retry: Retry, now: int)
    requires CanCreateRun(db, request, r, promoted)
    ensures var after := CreateRun(db, request, r, promoted, retry, now).runs;
            ActiveAfter(db.runs, after, request.pipeline, promoted) && RunInserted(db.runs, after, request, r, promoted, now)
  {
    var p := request.pipeline;
    BusyIsActive(db.runs, p);
    if !Busy(db.runs, p) {
      OldestIsFirst(ReleaseTerminal(db.runs, p), p, promoted);
      FirstIsFirstBefore(db.runs, p, promoted);
    }
  }

  /**
   * Creates a run, active if its pipeline is free and waiting otherwise, after releasing an ended active run and
   * promoting the oldest waiting one in its place. A failure rolls everything back.
   */
  method CreatePipelineRunInTransaction(t: Tables, request: RunRequest, r: int, retry: Retry, now: int)
    returns (created: Result<CreatedRun, Conflict>, ghost promoted: Option<int>)
    requires r !in t.runs
    modifies t`runs, t`steps, t`jobs
    ensures created == Err(NotFound) <==> request.pipeline !in t.pipelines
    ensures created == Err(NotEnabled) <==> request.pipeline in t.pipelines && !t.pipelines[request.pipeline].state.Enabled?
    ensures created == Err(NoSource) <==>
              && request.pipeline in t.pipelines && t.pipelines[request.pipeline].state.Enabled?
              && Activates(old(t.runs), request.pipeline) && !HasSource(t.pipelines[request.pipeline].graph)
    ensures created.Err? ==> t.Snapshot() == old(t.Snapshot()) && created.error in {NotFound, NotEnabled, NoSource}
    ensures created.Ok? ==> CanCreateRun(old(t.Snapshot()), request, r, promoted)
    ensures created.Ok? ==> t.Snapshot() == CreateRun(old(t.Snapshot()), request, r, promoted, retry, now)
    ensures created.Ok? ==>
              && ActiveAfter(old(t.runs), t.runs, request.pipeline, promoted)
              && RunInserted(old(t.runs), t.runs, request, r, promoted, now)
    ensures created.Ok? ==> created.value.run == r && created.value.pipeline == request.pipeline
                            && (created.value.queuedBehindActiveRun <==> !t.runs[r].isActive)
                            && created.value.initialJobCount
                               == if t.runs[r].isActive then |t.jobs| - |old(t.jobs)| else 0
  {
    promoted := None;
    var p := request.pipeline;
    if p !in t.pipelines {
      return Err(NotFound), None;
    }
    if !t.pipelines[p].state.Enabled? {
      return Err(NotEnabled), None;
    }
    var saved := t.runs;
    ReleaseEndedRun(t, p);
    var active := FindActiveRun(t, p);
    if active.None? {
      var result;
      result, promoted := PromoteOldestQueuedRun(t, p, retry, now);
      if result.Err? {
        t.runs := saved;
        return Err(result.error), promoted;
      }
      active := result.value;
    }
    t.runs := t.runs[r := NewRun(request, active.None?, now)];
    if active.Some? {
      created := Ok(CreatedRun(0, p, true, r));
    } else {
      var count := CreateInitialSourceJobs(t, p, r, retry, now);
      if count.Err? {
        t.runs := saved;
        return Err(count.error), promoted;
      }
      created := Ok(CreatedRun(count.value, p, false, r));
    }
    CreatedRows(old(t.Snapshot()), request, r, promoted, retry, now);
  }

  /** A run row a promotion pass selects: active, and ended. */
  predicate Completed(runs: map<int, Run>, r: int) {
    r in runs && runs[r].isActive && !runs[r].state.Live()
  }

  /** The tables after each iteration of a promotion pass, with the run each iteration chose. */
  ghost predicate PromotionTrace(trace: seq<Db>, pipelines: seq<int>, chosen: seq<Option<int>>, retry: Retry, now: int) {
    && |trace| == |pipelines| + 1 && |chosen| == |pipelines|
    && forall i :: 0 <= i < |pipelines| ==> PromotionStep(trace[i], trace[i + 1], pipelines[i], chosen[i], retry, now)
  }

  ghost predicate PromotionStep(db: Db, db': Db, p: int, o: Option<int>, retry: Retry, now: int) {
    CanPromote(db, p, o) && db' == Promote(db, p, o, retry, now)
  }

  /** The rows one promotion writes: who is active, and the steps and jobs of the run it activates. */
  ghost predicate PromotedRows(db: Db, db': Db, p: int, o: Option<int>, retry: Retry, now: int) {
    && p in db.pipelines && db'.pipelines == db.pipelines && db'.runs.Keys == db.runs.Keys
    && FirstToPromote(db.runs, p, o) && ActiveAfter(db.runs, db'.runs, p, o)
    && (o.None? ==> db'.steps == db.steps && db'.jobs == db.jobs)
    && (o.Some? ==>
          var components := db.pipelines[p].graph.steps;
          && StepsInserted(db.steps, db'.steps, o.value, components)
          && JobsInserted(db.jobs, db'.jobs, p, o.value, components, |db.steps|, retry, now))
  }

  lemma StepWritesRows(db: Db, db': Db, p: int, o: Option<int>, retry: Retry, now: int)
    requires PromotionStep(db, db', p, o, retry, now)
    ensures PromotedRows(db, db', p, o, retry, now)
  {
    OldestIsFirst(ReleaseTerminal(db.runs, p), p, o);
    FirstIsFirstBefore(db.runs, p, o);
    if o.Some? {
      NewJobsAppended(db.jobs, p, o.value, db.pipelines[p].graph.steps, |db.steps|, retry, now);
    }
  }

  lemma TraceWritesRows(trace: seq<Db>, pipelines: seq<int>, chosen: seq<Option<int>>, retry: Retry, now: int)
    requires PromotionTrace(trace, pipelines, chosen, retry, now)
    ensures forall i :: 0 <= i < |pipelines| ==> PromotedRows(trace[i], trace[i + 1], pipelines[i], chosen[i], retry, now)
  {
    forall i | 0 <= i < |pipelines| ensures PromotedRows(trace[i], trace[i + 1], pipelines[i], chosen[i], retry, now) {
      assert PromotionStep(trace[i], trace[i + 1], pipelines[i], chosen[i], retry, now);
      StepWritesRows(trace[i], trace[i + 1], pipelines[i], chosen[i], retry, now);
    }
  }

  /** What the pass reports: the pipelines where a run was waiting, with that run. */
  function Reported(pipelines: seq<int>, chosen: seq<Option<int>>): seq<(int, int)>
    requires |pipelines| == |chosen|
  {
    if chosen == [] then []
    else
      var last := |chosen| - 1;
      Reported(pipelines[..last], chosen[..last])
      + (if chosen[last].Some? then [(pipelines[last], chosen[last].value)] else [])
  }

  /** One entry for a promotion, none for a pipeline where nobody waited, and the entries in the order of the pass. */
  lemma {:induction false} ReportedInOrder(p: int, o: int, before: seq<int>, early: seq<Option<int>>, after: seq<int>,
                                           late: seq<Option<int>>)
    requires |before| == |early| && |after| == |late|
    ensures Reported([p], [Some(o)]) == [(p, o)] && Reported([p], [None]) == []
    ensures Reported(before + after, early + late) == Reported(before, early) + Reported(after, late)
    decreases |late|
  {
    if late == [] {
      assert before + after == before && early + late == early;
    } else {
      var last := |late| - 1;
      ReportedInOrder(p, o, before, early, after[..last], late[..last]);
      assert (before + after)[..|before| + last] == before + after[..last];
      assert (early + late)[..|early| + last] == early + late[..last];
    }
  }

  function PipelinesOf(runs: map<int, Run>, selected: seq<int>): (ps: seq<int>)
    requires forall i :: 0 <= i < |selected| ==> selected[i] in runs
    ensures |ps| == |selected| && forall i :: 0 <= i < |ps| ==> ps[i] == runs[selected[i]].pipeline
  {
    seq(|selected|, i requires 0 <= i < |selected| => runs[selected[i]].pipeline)
  }

  /** One selected run: its pipeline is released and its oldest waiting run, if any, made active. */
  method PromoteAfter(t: Tables, p: int, retry: Retry, now: int)
    returns (result: Result<Option<int>, Conflict>, ghost promoted: Option<int>)
    requires p in t.pipelines
    requires exists r :: Completed(t.runs, r) && t.runs[r].pipeline == p
    modifies t`runs, t`steps, t`jobs
    ensures CanPromote(old(t.Snapshot()), p, promoted)
    ensures result == if promoted.Some? && !HasSource(t.pipelines[p].graph) then Err(NoSource) else Ok(promoted)
    ensures result.Ok? ==> t.Snapshot() == Promote(old(t.Snapshot()), p, promoted, retry, now)
  {
    ReleaseEndedRun(t, p);
    result, promoted := PromoteOldestQueuedRun(t, p, retry, now);
  }

  /** A promotion in one pipeline leaves the completed runs of the others selected. */
  lemma CompletedElsewhere(db: Db, p: int, promoted: Option<int>, retry: Retry, now: int, r: int)
    requires CanPromote(db, p, promoted) && Completed(db.runs, r) && db.runs[r].pipeline != p
    ensures var after := Promote(db, p, promoted, retry, now);
            Completed(after.runs, r) && after.runs[r].pipeline == db.runs[r].pipeline && after.pipelines == db.pipelines
  {
  }

  ghost predicate SomeWithoutSource(pipelines: map<int, Pipeline>) {
    exists p :: p in pipelines && !HasSource(pipelines[p].graph)
  }

  /** One promotion after the other, until one fails. */
  method PromoteEach(t: Tables, selected: seq<int>, pipelines: seq<int>, retry: Retry, now: int)
    returns (promoted: Result<seq<(int, int)>, Conflict>, ghost trace: seq<Db>, ghost chosen: seq<Option<int>>)
    requires |pipelines| == |selected| && forall i :: 0 <= i < |selected| ==>
               Completed(t.runs, selected[i]) && t.runs[selected[i]].pipeline == pipelines[i] && pipelines[i] in t.pipelines
    requires forall i, j :: 0 <= i < j < |selected| ==> pipelines[i] != pipelines[j]
    modifies t`runs, t`steps, t`jobs
    ensures promoted.Err? ==> promoted.error == NoSource && SomeWithoutSource(t.pipelines)
    ensures promoted.Ok? ==>
              && PromotionTrace(trace, pipelines, chosen, retry, now)
              && trace[0] == old(t.Snapshot()) && trace[|selected|] == t.Snapshot()
              && promoted.value == Reported(pipelines, chosen)
  {
    trace, chosen := [t.Snapshot()], [];
    var runs: seq<(int, int)> := [];
    for i := 0 to |selected|
      invariant t.pipelines == old(t.pipelines)
      invariant |trace| == i + 1 && PromotionTrace(trace, pipelines[..i], chosen, retry, now)
      invariant trace[0] == old(t.Snapshot()) && trace[i] == t.Snapshot()
      invariant runs == Reported(pipelines[..i], chosen)
      invariant forall k :: i <= k < |selected| ==>
                  Completed(t.runs, selected[k]) && t.runs[selected[k]].pipeline == pipelines[k]
    {
      ghost var before := t.Snapshot();
      var result;
      ghost var o;
      result, o := PromoteAfter(t, pipelines[i], retry, now);
      if result.Err? {
        return Err(result.error), trace, chosen;
      }
      forall k | i < k < |selected|
        ensures Completed(t.runs, selected[k]) && t.runs[selected[k]].pipeline == pipelines[k]
      {
        assert pipelines[k] != pipelines[i];
        CompletedElsewhere(before, pipelines[i], o, retry, now, selected[k]);
      }
      TraceOneMore(trace, pipelines, chosen, i, o, t.Snapshot(), retry, now);
      trace, chosen := trace + [t.Snapshot()], chosen + [o];
      if result.value.Some? {
        runs := runs + [(pipelines[i], result.value.value)];
      }
    }
    assert pipelines[..|selected|] == pipelines;
    promoted := Ok(runs);
  }

  /** The completed runs that no other transaction holds. */
  function CompletedRuns(runs: map<int, Run>, locked: set<int>): set<int> {
    set r | r in runs && Completed(runs, r) && r !in locked
  }

  /**
   * A pass over the runs completed first: each iteration is one promotion, in the order of the selected rows. With one
   * active run per pipeline, no pipeline is selected twice. A failure rolls the whole pass back.
   */
  method PromoteQueuedPipelineRuns(t: Tables, completedAt: int -> int, locked: set<int>, limit: int, retry: Retry, now: int)
    returns (promoted: Result<seq<(int, int)>, Conflict>, ghost selected: seq<int>, ghost trace: seq<Db>,
             ghost chosen: seq<Option<int>>)
    requires OneActive(t.runs) && forall r :: r in t.runs ==> t.runs[r].pipeline in t.pipelines
    modifies t`runs, t`steps, t`jobs
    ensures promoted == Err(InvalidLimit) <==> limit < 1
    ensures promoted.Err? ==> promoted.error == InvalidLimit || (promoted.error == NoSource && SomeWithoutSource(t.pipelines))
    ensures promoted.Err? ==> t.Snapshot() == old(t.Snapshot())
    ensures promoted.Ok? ==>
              && FirstRows(CompletedRuns(old(t.runs), locked), completedAt, limit, selected)
              && (forall i :: 0 <= i < |selected| ==> selected[i] in old(t.runs))
              && PromotionTrace(trace, PipelinesOf(old(t.runs), selected), chosen, retry, now)
              && trace[0] == old(t.Snapshot()) && trace[|selected|] == t.Snapshot()
              && promoted.value == Reported(PipelinesOf(old(t.runs), selected), chosen)
    ensures promoted.Ok? ==>
              forall i :: 0 <= i < |selected| ==>
                && old(t.runs)[selected[i]].isActive && old(t.runs)[selected[i]].state !in {Queued, Running}
                && selected[i] !in locked
                && PromotedRows(trace[i], trace[i + 1], old(t.runs)[selected[i]].pipeline, chosen[i], retry, now)
    ensures promoted.Ok? ==>
              forall r :: r in old(t.runs) && old(t.runs)[r].isActive && old(t.runs)[r].state !in {Queued, Running} && r !in locked ==>
                r in selected || (|selected| == limit && forall x :: x in selected ==> completedAt(x) <= completedAt(r))
  {
    selected, trace, chosen := [], [t.Snapshot()], [];
    if limit < 1 {
      return Err(InvalidLimit), selected, trace, chosen;
    }
    var rows := SelectFirst(CompletedRuns(t.runs, locked), completedAt, limit);
    selected := rows;
    FirstAreCandidates(CompletedRuns(t.runs, locked), completedAt, limit, rows);
    SelectedApart(t.runs, rows);
    var runs, steps, jobs := t.runs, t.steps, t.jobs;
    promoted, trace, chosen := PromoteEach(t, rows, PipelinesOf(t.runs, rows), retry, now);
    if promoted.Err? {
      t.runs, t.steps, t.jobs := runs, steps, jobs;
    } else {
      TraceWritesRows(trace, PipelinesOf(runs, rows), chosen, retry, now);
      assert forall r :: r in CompletedRuns(runs, locked) <==>
               r in runs && runs[r].isActive && runs[r].state !in {Queued, Running} && r !in locked;
    }
  }

  lemma SelectedApart(runs: map<int, Run>, selected: seq<int>)
    requires OneActive(runs) && forall i :: 0 <= i < |selected| ==> selected[i] in runs && Completed(runs, selected[i])
    requires forall i, j :: 0 <= i < j < |selected| ==> selected[i] != selected[j]
    ensures forall i, j :: 0 <= i < j < |selected| ==> PipelinesOf(runs, selected)[i] != PipelinesOf(runs, selected)[j]
  {
  }

  lemma TraceOneMore(trace: seq<Db>, pipelines: seq<int>, chosen: seq<Option<int>>, i: nat, o: Option<int>, after: Db,
                     retry: Retry, now: int)
    requires i < |pipelines| && PromotionTrace(trace, pipelines[..i], chosen, retry, now)
    requires PromotionStep(trace[i], after, pipelines[i], o, retry, now)
    ensures PromotionTrace(trace + [after], pipelines[..i + 1], chosen + [o], retry, now)
    ensures Reported(pipelines[..i + 1], chosen + [o])
         == Reported(pipelines[..i], chosen) + (if o.Some? then [(pipelines[i], o.value)] else [])
  {
    var longer, more := trace + [after], chosen + [o];
    forall k | 0 <= k < i + 1 ensures PromotionStep(longer[k], longer[k + 1], pipelines[k], more[k], retry, now) {
      if k < i {
        assert PromotionStep(trace[k], trace[k + 1], pipelines[..i][k], chosen[k], retry, now);
      }
    }
    assert more[..i] == chosen && pipelines[..i + 1][..i] == pipelines[..i];
  }

  // ---------- Claiming schedules (apps/scheduler/src/schedule-claims.ts) ----------

  class TriggerTable {
    var triggers: map<int, Trigger>
  }

  /** One claimed row: it was due, it moves on by one occurrence, and its occurrence becomes a run. */
  ghost predicate ClaimStep(db: Db, triggers: map<int, Trigger>, db': Db, triggers': map<int, Trigger>,
                            t: int, r: int, promoted: Option<int>, retry: Retry, now: int, successor: Successor) {
    && Due(triggers, db.pipelines, t, now)
    && CanCreateRun(db, ClaimRequest(triggers[t], t), r, promoted)
    && db' == CreateRun(db, ClaimRequest(triggers[t], t), r, promoted, retry, now)
    && triggers' == triggers[t := Advance(triggers[t], now, successor)]
  }

  ghost predicate ClaimTrace(trace: seq<(Db, map<int, Trigger>)>, due: seq<int>, ids: seq<int>, chosen: seq<Option<int>>,
                             retry: Retry, now: int, successor: Successor) {
    && |trace| == |due| + 1 && |ids| >= |due| && |chosen| == |due|
    && forall i :: 0 <= i < |due| ==>
         ClaimStep(trace[i].0, trace[i].1, trace[i + 1].0, trace[i + 1].1, due[i], ids[i], chosen[i], retry, now, successor)
  }

  /** A claimed trigger's row: marked as claimed now, and at the next occurrence after the one claimed. */
  ghost predicate TriggerMoved(trigger: Trigger, trigger': Trigger, now: int, successor: Successor) {
    && trigger.nextRunAt.Some?
    && trigger' == Trigger(trigger.pipeline, trigger.cron, trigger.timezone, trigger.enabled,
                           Some(successor(trigger.cron, trigger.timezone, trigger.nextRunAt.value)), Some(now))
  }

  /** The run of a claim: of the trigger's pipeline, for the occurrence the trigger stood at, and naming the trigger. */
  ghost predicate RunOfClaim(runs: map<int, Run>, r: int, trigger: Trigger, t: int) {
    r in runs && runs[r].pipeline == trigger.pipeline && runs[r].scheduledFor == trigger.nextRunAt && runs[r].trigger == Some(t)
  }

  /** A row that may be claimed: enabled like its pipeline, standing at a time that has come, and held by nobody else. */
  ghost predicate MayBeClaimed(triggers: map<int, Trigger>, pipelines: map<int, Pipeline>, locked: set<int>, t: int, now: int) {
    && t in triggers && t !in locked && triggers[t].enabled
    && triggers[t].nextRunAt.Some? && triggers[t].nextRunAt.value <= now
    && triggers[t].pipeline in pipelines && pipelines[triggers[t].pipeline].state == Enabled
  }

  /** No run is dropped, and none changes its pipeline, its time or its trigger. */
  ghost predicate OriginsStay(runs: map<int, Run>, runs': map<int, Run>) {
    forall x :: x in runs ==>
      && x in runs' && runs'[x].pipeline == runs[x].pipeline
      && runs'[x].scheduledFor == runs[x].scheduledFor && runs'[x].trigger == runs[x].trigger
  }

  /** The first trigger has been due for longer, or as long and has the lesser identity. */
  ghost predicate EarlierTrigger(triggers: map<int, Trigger>, a: int, b: int) {
    && a in triggers && b in triggers && triggers[a].nextRunAt.Some? && triggers[b].nextRunAt.Some?
    && triggers[a].nextRunAt.value <= triggers[b].nextRunAt.value
    && (triggers[a].nextRunAt == triggers[b].nextRunAt ==> a < b)
  }

  /** The first claims of a pass: their triggers have moved, the other triggers have not, and each has its run. */
  ghost predicate ClaimedSoFar(before: map<int, Trigger>, triggers: map<int, Trigger>, runs: map<int, Run>, due: seq<int>,
                               ids: seq<int>, n: nat, now: int, successor: Successor)
    requires n <= |due| <= |ids|
  {
    && triggers.Keys == before.Keys
    && (forall t :: t in before && t !in due[..n] ==> triggers[t] == before[t])
    && (forall k :: 0 <= k < n ==>
          && due[k] in before && TriggerMoved(before[due[k]], triggers[due[k]], now, successor)
          && RunOfClaim(runs, ids[k], before[due[k]], due[k]))
  }

  lemma OneMoreClaimed(before: map<int, Trigger>, triggers: map<int, Trigger>, moved: Trigger, runs: map<int, Run>,
                       runs': map<int, Run>, due: seq<int>, ids: seq<int>, i: nat, now: int, successor: Successor)
    requires i < |due| <= |ids| && Distinct(due) && ClaimedSoFar(before, triggers, runs, due, ids, i, now, successor)
    requires due[i] in before && TriggerMoved(before[due[i]], moved, now, successor)
    requires OriginsStay(runs, runs') && RunOfClaim(runs', ids[i], before[due[i]], due[i])
    ensures ClaimedSoFar(before, triggers[due[i] := moved], runs', due, ids, i + 1, now, successor)
  {
    assert due[..i + 1] == due[..i] + [due[i]];
  }

  lemma CreatedRuns(db: Db, request: RunRequest, r: int, promoted: Option<int>, retry: Retry, now: int)
    requires CanCreateRun(db, request, r, promoted)
    ensures CreateRun(db, request, r, promoted, retry, now).runs.Keys == db.runs.Keys + {r}
  {
  }

  method ClaimOneSchedule(t: Tables, table: TriggerTable, id: int, r: int, retry: Retry, now: int, successor: Successor)
    returns (created: Result<CreatedRun, Conflict>, ghost promoted: Option<int>)
    requires Due(table.triggers, t.pipelines, id, now) && r !in t.runs
    modifies t`runs, t`steps, t`jobs, table
    ensures created.Err? ==> created.error == NoSource && SomeWithoutSource(t.pipelines)
    ensures created.Ok? ==> ClaimStep(old(t.Snapshot()), old(table.triggers), t.Snapshot(), table.triggers, id, r, promoted,
                                      retry, now, successor)
    ensures created.Ok? ==> t.runs.Keys == old(t.runs.Keys) + {r}
    ensures table.triggers == old(table.triggers[id := Advance(table.triggers[id], now, successor)])
    ensures TriggerMoved(old(table.triggers)[id], table.triggers[id], now, successor)
    ensures created.Ok? ==> OriginsStay(old(t.runs), t.runs) && RunOfClaim(t.runs, r, old(table.triggers)[id], id)
  {
    var trigger := table.triggers[id];
    table.triggers := table.triggers[id := Advance(trigger, now, successor)];
    created, promoted := CreatePipelineRunInTransaction(t, ClaimRequest(trigger, id), r, retry, now);
    if created.Ok? {
      CreatedRuns(old(t.Snapshot()), ClaimRequest(trigger, id), r, promoted, retry, now);
    }
  }

  /** From the `i`-th on, the selected triggers are as they were selected and the identities are unused. */
  ghost predicate StillToClaim(selected: map<int, Trigger>, triggers: map<int, Trigger>, runs: map<int, Run>, due: seq<int>,
                               ids: seq<int>, i: nat) {
    && (forall k :: i <= k < |due| ==> due[k] in selected && due[k] in triggers && triggers[due[k]] == selected[due[k]])
    && (forall k :: i <= k < |ids| ==> ids[k] !in runs)
  }

  lemma OneFewerToClaim(selected: map<int, Trigger>, triggers: map<int, Trigger>, runs: map<int, Run>, runs': map<int, Run>,
                        due: seq<int>, ids: seq<int>, i: nat, advanced: Trigger)
    requires StillToClaim(selected, triggers, runs, due, ids, i) && i < |due| <= |ids| && Distinct(due) && Distinct(ids)
    requires runs'.Keys == runs.Keys + {ids[i]}
    ensures StillToClaim(selected, triggers[due[i] := advanced], runs', due, ids, i + 1)
  {
  }

  /** One claim after the other, until one fails. */
  method ClaimEach(t: Tables, table: TriggerTable, due: seq<int>, ids: seq<int>, retry: Retry, now: int, successor: Successor)
    returns (claimed: Result<seq<(int, int)>, Conflict>, ghost trace: seq<(Db, map<int, Trigger>)>, ghost chosen: seq<Option<int>>)
    requires |ids| >= |due|
    requires forall i :: 0 <= i < |due| ==>
               && due[i] in table.triggers && table.triggers[due[i]].nextRunAt.Some?
               && Due(table.triggers, t.pipelines, due[i], now)
    requires Distinct(due) && Distinct(ids) && forall i :: 0 <= i < |ids| ==> ids[i] !in t.runs
    modifies t`runs, t`steps, t`jobs, table
    ensures claimed.Err? ==> claimed.error == NoSource && SomeWithoutSource(t.pipelines)
    ensures claimed.Ok? ==>
              && ClaimTrace(trace, due, ids, chosen, retry, now, successor)
              && trace[0] == (old(t.Snapshot()), old(table.triggers)) && trace[|due|] == (t.Snapshot(), table.triggers)
              && |claimed.value| == |due|
              && forall i :: 0 <= i < |due| ==> claimed.value[i] == (due[i], old(table.triggers)[due[i]].nextRunAt.value)
    ensures claimed.Ok? ==> ClaimedSoFar(old(table.triggers), table.triggers, t.runs, due, ids, |due|, now, successor)
    ensures claimed.Ok? ==> OriginsStay(old(t.runs), t.runs)
  {
    trace, chosen := [(t.Snapshot(), table.triggers)], [];
    var claims: seq<(int, int)> := [];
    for i := 0 to |due|
      invariant t.pipelines == old(t.pipelines)
      invariant |trace| == i + 1 && ClaimTrace(trace, due[..i], ids, chosen, retry, now, successor)
      invariant trace[0] == (old(t.Snapshot()), old(table.triggers)) && trace[i] == (t.Snapshot(), table.triggers)
      invariant StillToClaim(old(table.triggers), table.triggers, t.runs, due, ids, i)
      invariant ClaimedSoFar(old(table.triggers), table.triggers, t.runs, due, ids, i, now, successor)
      invariant OriginsStay(old(t.runs), t.runs)
      invariant |claims| == i
      invariant forall k :: 0 <= k < i ==> claims[k] == (due[k], old(table.triggers)[due[k]].nextRunAt.value)
    {
      claims := claims + [(due[i], table.triggers[due[i]].nextRunAt.value)];
      var created;
      ghost var o;
      ghost var triggers, runs := table.triggers, t.runs;
      created, o := ClaimOneSchedule(t, table, due[i], ids[i], retry, now, successor);
      if created.Err? {
        return Err(created.error), trace, chosen;
      }
      OneFewerToClaim(old(table.triggers), triggers, runs, t.runs, due, ids, i, Advance(triggers[due[i]], now, successor));
      OneMoreClaimed(old(table.triggers), triggers, table.triggers[due[i]], runs, t.runs, due, ids, i, now, successor);
      ClaimOneMore(trace, due, ids, chosen, i, o, (t.Snapshot(), table.triggers), retry, now, successor);
      trace, chosen := trace + [(t.Snapshot(), table.triggers)], chosen + [o];
    }
    assert due[..|due|] == due;
    claimed := Ok(claims);
  }

  /** The due rows that no other transaction holds. */
  function DueTriggers(triggers: map<int, Trigger>, pipelines: map<int, Pipeline>, locked: set<int>, now: int): set<int> {
    set t | t in triggers && Due(triggers, pipelines, t, now) && t !in locked
  }

  function NextRunAt(triggers: map<int, Trigger>): int -> int {
    (t: int) => if t in triggers && triggers[t].nextRunAt.Some? then triggers[t].nextRunAt.value else 0
  }

  /**
   * A pass claims the rows that have been due longest, as many as the limit allows, each once and one occurrence each;
   * all of it is one transaction. The identities are those the new runs are given.
   */
  method ClaimDueSchedules(t: Tables, table: TriggerTable, locked: set<int>, ids: seq<int>, limit: int,
                           retry: Retry, now: int, successor: Successor)
    returns (claimed: Result<seq<(int, int)>, Conflict>, ghost due: seq<int>, ghost trace: seq<(Db, map<int, Trigger>)>,
             ghost chosen: seq<Option<int>>)
    requires |ids| >= limit && Distinct(ids) && forall i :: 0 <= i < |ids| ==> ids[i] !in t.runs
    modifies t`runs, t`steps, t`jobs, table
    ensures claimed == Err(InvalidLimit) <==> limit < 1
    ensures claimed.Err? ==> claimed.error == InvalidLimit || (claimed.error == NoSource && SomeWithoutSource(t.pipelines))
    ensures claimed.Err? ==> t.Snapshot() == old(t.Snapshot()) && table.triggers == old(table.triggers)
    ensures claimed.Ok? ==>
              && var triggers := old(table.triggers);
              && FirstRows(DueTriggers(triggers, t.pipelines, locked, now), NextRunAt(triggers), limit, due)
              && ClaimTrace(trace, due, ids, chosen, retry, now, successor)
              && trace[0] == (old(t.Snapshot()), triggers) && trace[|due|] == (t.Snapshot(), table.triggers)
              && |claimed.value| == |due|
              && forall i :: 0 <= i < |due| ==> due[i] in triggers && claimed.value[i] == (due[i], NextRunAt(triggers)(due[i]))
    ensures claimed.Ok? ==>
              && |due| <= |ids| && OriginsStay(old(t.runs), t.runs)
              && ClaimedSoFar(old(table.triggers), table.triggers, t.runs, due, ids, |due|, now, successor)
              && forall i :: 0 <= i < |due| ==> MayBeClaimed(old(table.triggers), t.pipelines, locked, due[i], now)
    ensures claimed.Ok? ==>
              forall x :: MayBeClaimed(old(table.triggers), t.pipelines, locked, x, now) && x !in due ==>
                |due| == limit && forall i :: 0 <= i < |due| ==> EarlierTrigger(old(table.triggers), due[i], x)
  {
    due, trace, chosen := [], [(t.Snapshot(), table.triggers)], [];
    if limit < 1 {
      return Err(InvalidLimit), due, trace, chosen;
    }
    var rows := SelectFirst(DueTriggers(table.triggers, t.pipelines, locked, now), NextRunAt(table.triggers), limit);
    due := rows;
    FirstAreCandidates(DueTriggers(table.triggers, t.pipelines, locked, now), NextRunAt(table.triggers), limit, rows);
    var runs, steps, jobs, triggers := t.runs, t.steps, t.jobs, table.triggers;
    claimed, trace, chosen := ClaimEach(t, table, rows, ids, retry, now, successor);
    if claimed.Err? {
      t.runs, t.steps, t.jobs, table.triggers := runs, steps, jobs, triggers;
    } else {
      assert forall x :: x in DueTriggers(triggers, t.pipelines, locked, now) <==>
               MayBeClaimed(triggers, t.pipelines, locked, x, now);
    }
  }

  lemma ClaimOneMore(trace: seq<(Db, map<int, Trigger>)>, due: seq<int>, ids: seq<int>, chosen: seq<Option<int>>, i: nat,
                     o: Option<int>, after: (Db, map<int, Trigger>), retry: Retry, now: int, successor: Successor)
    requires i < |due| <= |ids| && ClaimTrace(trace, due[..i], ids, chosen, retry, now, successor)
    requires ClaimStep(trace[i].0, trace[i].1, after.0, after.1, due[i], ids[i], o, retry, now, successor)
    ensures ClaimTrace(trace + [after], due[..i + 1], ids, chosen + [o], retry, now, successor)
  {
    var longer, more := trace + [after], chosen + [o];
    forall k | 0 <= k < i + 1
      ensures ClaimStep(longer[k].0, longer[k].1, longer[k + 1].0, longer[k + 1].1, due[k], ids[k], more[k], retry, now, successor)
    {
      if k < i {
        assert ClaimStep(trace[k].0, trace[k].1, trace[k + 1].0, trace[k + 1].1, due[..i][k], ids[k], chosen[k], retry, now,
                         successor);
      }
    }
  }
}
