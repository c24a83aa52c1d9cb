/** The run rows of a pipeline behave like the in-memory state machine. */
module Refinement {
  import opened Wrappers
  import opened Graphs
  import opened Chains
  import opened Protocol
  import opened ProtocolFrames
  import opened ProtocolInvariant
  import opened ProtocolSteps
  import opened ProtocolScheduler
  import opened ProtocolTheorems
  import opened StateMachine

  /** Run rows have non-empty identities of their own. */
  ghost predicate Naming(name: int -> Id) {
    && (forall r :: !name(r).Empty())
    && (forall a, b :: a != b ==> name(a) != name(b))
  }

  predicate InLine(runs: map<int, Run>, p: int, r: int) {
    r in runs && runs[r].pipeline == p && runs[r].state.Live()
  }

  /** The active run comes first, then the waiting runs in the order in which they will be promoted. */
  predicate Precedes(runs: map<int, Run>, a: int, b: int)
    requires a in runs && b in runs
  {
    if runs[a].isActive != runs[b].isActive then runs[a].isActive else Before(runs[a], a, runs[b], b)
  }

  /** All runs of a pipeline that have not ended, in that order. */
  ghost predicate IsLine(runs: map<int, Run>, p: int, line: seq<int>) {
    && (forall i :: 0 <= i < |line| ==> InLine(runs, p, line[i]))
    && (forall r :: InLine(runs, p, r) ==> r in line)
    && (forall i, j :: 0 <= i < j < |line| ==> Precedes(runs, line[i], line[j]))
  }

  function Names(line: seq<int>, name: int -> Id): (ids: seq<Id>)
    ensures |ids| == |line| && forall i :: 0 <= i < |ids| ==> ids[i] == name(line[i])
  {
    seq(|line|, i requires 0 <= i < |line| => name(line[i]))
  }

  /** The state the line stands for: its head is the active run even before the rows say so. */
  function Standing(db: Db, p: int, line: seq<int>, name: int -> Id): ExecutionState
    requires p in db.pipelines && forall i :: 0 <= i < |line| ==> line[i] in db.runs
  {
    if line == [] then ExecutionState(db.pipelines[p].state, None, [])
    else
      var head := db.runs[line[0]];
      ExecutionState(db.pipelines[p].state,
                     Some(ActiveRun(name(line[0]), head.state.Running?, head.cancelRequested)),
                     Names(line[1..], name))
  }

  ghost predicate Represents(db: Db, p: int, m: ExecutionState, name: int -> Id) {
    p in db.pipelines && exists line :: IsLine(db.runs, p, line) && m == Standing(db, p, line, name)
  }

  // ---------- The order of the line ----------

  lemma BeforeIsTotal(a: Run, aId: int, b: Run, bId: int)
    requires aId != bId
    ensures Before(a, aId, b, bId) != Before(b, bId, a, aId)
  {
  }

  lemma PrecedesIsTransitive(runs: map<int, Run>, a: int, b: int, c: int)
    requires a in runs && b in runs && c in runs && Precedes(runs, a, b) && Precedes(runs, b, c)
    ensures Precedes(runs, a, c)
  {
  }

  lemma LineIsDistinct(runs: map<int, Run>, p: int, line: seq<int>)
    requires IsLine(runs, p, line)
    ensures Distinct(line)
  {
    forall i, j | 0 <= i < j < |line| ensures line[i] != line[j] {
      assert Precedes(runs, line[i], line[j]);
    }
  }

  /** Any two lines of the same runs agree: the order leaves no choice. */
  lemma {:induction false} LineIsUnique(runs: map<int, Run>, p: int, a: seq<int>, b: seq<int>)
    requires IsLine(runs, p, a) && IsLine(runs, p, b)
    ensures a == b
  {
    LineIsDistinct(runs, p, a);
    LineIsDistinct(runs, p, b);
    SameMembers(a, b);
    SameElements(a, b);
    forall i | 0 <= i < |a| ensures a[i] == b[i] {
      LineAgreesAt(runs, p, a, b, i);
    }
  }

  lemma {:induction false} LineAgreesAt(runs: map<int, Run>, p: int, a: seq<int>, b: seq<int>, i: nat)
    requires IsLine(runs, p, a) && IsLine(runs, p, b) && Distinct(a) && Distinct(b) && |a| == |b| && i < |a|
    ensures a[i] == b[i]
    decreases i
  {
    forall j | 0 <= j < i ensures a[j] == b[j] {
      LineAgreesAt(runs, p, a, b, j);
    }
    assert InLine(runs, p, a[i]) && InLine(runs, p, b[i]);
    var m :| 0 <= m < |b| && b[m] == a[i];
    var n :| 0 <= n < |a| && a[n] == b[i];
    if a[i] != b[i] {
      assert m > i && n > i;
      assert Precedes(runs, b[i], b[m]) && Precedes(runs, a[i], a[n]);
      BeforeIsTotal(runs[a[i]], a[i], runs[b[i]], b[i]);
    }
  }

  // ---------- Steps that do not touch the pipeline's line ----------

  /** The rows of a pipeline look the same to the state machine. */
  ghost predicate SameLine(db: Db, db': Db, p: int) {
    && p in db'.pipelines && p in db.pipelines && db'.pipelines[p].state == db.pipelines[p].state
    && (forall r :: InLine(db.runs, p, r) <==> InLine(db'.runs, p, r))
    && (forall r :: InLine(db.runs, p, r) ==>
          && db'.runs[r].scheduledFor == db.runs[r].scheduledFor && db'.runs[r].createdAt == db.runs[r].createdAt
          && db'.runs[r].isActive == db.runs[r].isActive && db'.runs[r].state == db.runs[r].state
          && db'.runs[r].cancelRequested == db.runs[r].cancelRequested)
  }

  lemma SameLineIsLine(db: Db, db': Db, p: int, line: seq<int>)
    requires SameLine(db, db', p) && IsLine(db.runs, p, line)
    ensures IsLine(db'.runs, p, line)
  {
    forall i | 0 <= i < |line| ensures InLine(db'.runs, p, line[i]) {
      assert InLine(db.runs, p, line[i]);
    }
    forall i, j | 0 <= i < j < |line| ensures Precedes(db'.runs, line[i], line[j]) {
      assert InLine(db.runs, p, line[i]) && InLine(db.runs, p, line[j]);
      assert Precedes(db.runs, line[i], line[j]);
    }
  }

  lemma SameLineStands(db: Db, db': Db, p: int, m: ExecutionState, name: int -> Id)
    requires SameLine(db, db', p) && Represents(db, p, m, name)
    ensures Represents(db', p, m, name)
  {
    var line :| IsLine(db.runs, p, line) && m == Standing(db, p, line, name);
    SameLineIsLine(db, db', p, line);
    assert line != [] ==> InLine(db.runs, p, line[0]);
    assert m == Standing(db', p, line, name);
  }

  // ---------- The head of the line ----------

  /** An active run that has not ended is the head of its pipeline's line. */
  lemma ActiveIsHead(runs: map<int, Run>, p: int, line: seq<int>, r: int)
    requires OneActive(runs) && IsLine(runs, p, line) && InLine(runs, p, r) && runs[r].isActive
    ensures line != [] && line[0] == r
  {
    var i :| 0 <= i < |line| && line[i] == r;
    if i > 0 {
      assert Precedes(runs, line[0], line[i]);
    }
  }

  /** The head may start or be asked to cancel; the others keep their places. */
  lemma HeadChanges(db: Db, p: int, line: seq<int>, r: int, run: Run, name: int -> Id)
    requires OneActive(db.runs) && IsLine(db.runs, p, line) && InLine(db.runs, p, r) && db.runs[r].isActive
    requires p in db.pipelines && run.state.Live()
    requires run == db.runs[r].(state := run.state, cancelRequested := run.cancelRequested)
    ensures line != [] && line[0] == r && IsLine(db.runs[r := run], p, line)
    ensures Standing(db.(runs := db.runs[r := run]), p, line, name)
         == Standing(db, p, line, name).(activeRun := Some(ActiveRun(name(r), run.state.Running?, run.cancelRequested)))
  {
    ActiveIsHead(db.runs, p, line, r);
    var runs' := db.runs[r := run];
    forall i, j | 0 <= i < j < |line| ensures Precedes(runs', line[i], line[j]) {
      assert Precedes(db.runs, line[i], line[j]);
    }
    forall x | InLine(runs', p, x) ensures x in line {
      assert InLine(db.runs, p, x);
    }
  }

  /** When the head ends, the next in line takes its place. */
  lemma HeadEnds(db: Db, p: int, line: seq<int>, r: int, run: Run)
    requires OneActive(db.runs) && IsLine(db.runs, p, line) && InLine(db.runs, p, r) && db.runs[r].isActive
    requires run == db.runs[r].(state := run.state) && !run.state.Live()
    ensures line != [] && line[0] == r && IsLine(db.runs[r := run], p, line[1..])
  {
    ActiveIsHead(db.runs, p, line, r);
    LineIsDistinct(db.runs, p, line);
    var runs', rest := db.runs[r := run], line[1..];
    forall i | 0 <= i < |rest| ensures InLine(runs', p, rest[i]) {
      assert InLine(db.runs, p, line[i + 1]) && line[0] != line[i + 1];
    }
    forall x | InLine(runs', p, x) ensures x in rest {
      assert InLine(db.runs, p, x) && x != r;
      var i :| 0 <= i < |line| && line[i] == x;
      assert rest[i - 1] == x;
    }
    forall i, j | 0 <= i < j < |rest| ensures Precedes(runs', rest[i], rest[j]) {
      assert Precedes(db.runs, line[i + 1], line[j + 1]);
      assert line[0] != line[i + 1] && line[0] != line[j + 1];
    }
  }

  /** Behind an active run, everyone in line still waits. */
  lemma RestWaits(db: Db, p: int, line: seq<int>, i: nat)
    requires RunsInv(db) && IsLine(db.runs, p, line) && 0 < i < |line|
    ensures db.runs[line[i]].Waiting()
  {
    assert InLine(db.runs, p, line[0]) && InLine(db.runs, p, line[i]);
    assert Precedes(db.runs, line[0], line[i]);
    LineIsDistinct(db.runs, p, line);
    assert line[0] != line[i];
  }

  lemma HeadEndsStands(db: Db, p: int, m: ExecutionState, r: int, run: Run, name: int -> Id)
    requires RunsInv(db) && Naming(name) && Represents(db, p, m, name)
    requires InLine(db.runs, p, r) && db.runs[r].isActive
    requires run == db.runs[r].(state := run.state) && !run.state.Live()
    ensures CompleteActiveRun(m, run.state).Ok?
    ensures Represents(db.(runs := db.runs[r := run]), p, CompleteActiveRun(m, run.state).value, name)
  {
    var line :| IsLine(db.runs, p, line) && m == Standing(db, p, line, name);
    HeadEnds(db, p, line, r, run);
    var db' := db.(runs := db.runs[r := run]);
    var m' := CompleteActiveRun(m, run.state).value;
    if |line| > 1 {
      RestWaits(db, p, line, 1);
      assert line[1..][0] == line[1];
      LineIsDistinct(db.runs, p, line);
      assert db'.runs[line[1]] == db.runs[line[1]];
      assert Names(line[1..][1..], name) == Names(line[1..], name)[1..];
    }
    assert m' == Standing(db', p, line[1..], name);
  }

  // ---------- Joining the line ----------

  /** After the ended active run is released, the same runs are in line in the same order. */
  lemma ReleasedLine(runs: map<int, Run>, p: int, line: seq<int>)
    requires IsLine(runs, p, line)
    ensures IsLine(ReleaseTerminal(runs, p), p, line)
  {
    var released := ReleaseTerminal(runs, p);
    forall r ensures InLine(released, p, r) <==> InLine(runs, p, r) {}
    forall i, j | 0 <= i < j < |line| ensures Precedes(released, line[i], line[j]) {
      assert Precedes(runs, line[i], line[j]);
    }
  }

  lemma InLineWaits(runs: map<int, Run>, p: int, r: int)
    requires RunningIsActive(runs) && !AnyActive(runs, p) && InLine(runs, p, r)
    ensures !runs[r].isActive && WaitsFor(runs, p, r)
  {
    assert !ActiveRunOf(runs, p, r);
  }

  /** With no active run, the oldest waiting run is the head. */
  lemma OldestIsHead(runs: map<int, Run>, p: int, line: seq<int>, o: int)
    requires RunningIsActive(runs) && IsLine(runs, p, line) && Oldest(runs, p, Some(o)) && !AnyActive(runs, p)
    ensures line != [] && line[0] == o
  {
    assert InLine(runs, p, o);
    var i :| 0 <= i < |line| && line[i] == o;
    if i > 0 {
      assert InLine(runs, p, line[0]) && Precedes(runs, line[0], line[i]);
      InLineWaits(runs, p, line[0]);
      InLineWaits(runs, p, o);
      BeforeIsTotal(runs[line[0]], line[0], runs[o], o);
    }
  }

  /** Making the head active leaves the line as it is. */
  lemma ActivatedLine(runs: map<int, Run>, p: int, line: seq<int>, o: int)
    requires IsLine(runs, p, line) && line != [] && line[0] == o && !AnyActive(runs, p)
    ensures IsLine(runs[o := runs[o].(isActive := true)], p, line)
  {
    assert InLine(runs, p, o);
    LineIsDistinct(runs, p, line);
    var runs' := runs[o := runs[o].(isActive := true)];
    forall i | 0 <= i < |line| ensures InLine(runs', p, line[i]) && (i > 0 ==> !runs'[line[i]].isActive) {
      assert InLine(runs, p, line[i]);
      assert !ActiveRunOf(runs, p, line[i]);
    }
    forall r | InLine(runs', p, r) ensures r in line {
      assert InLine(runs, p, r);
    }
    forall i, j | 0 <= i < j < |line| ensures Precedes(runs', line[i], line[j]) {
      assert Precedes(runs, line[i], line[j]);
    }
  }

  /** The new run comes after every waiting run of its pipeline. */
  ghost predicate ComesLast(runs: map<int, Run>, p: int, r: int)
    requires r in runs
  {
    forall x :: WaitsFor(runs, p, x) && x != r ==> Before(runs[x], x, runs[r], r)
  }

  lemma JoinedLine(runs: map<int, Run>, p: int, line: seq<int>, r: int, run: Run)
    requires IsLine(runs, p, line) && r !in runs && run.pipeline == p && run.state.Queued?
    requires run.isActive ==> line == []
    requires !run.isActive ==> forall i :: 0 <= i < |line| ==> runs[line[i]].isActive || Before(runs[line[i]], line[i], run, r)
    ensures IsLine(runs[r := run], p, line + [r])
  {
    var runs', longer := runs[r := run], line + [r];
    forall i | 0 <= i < |longer| ensures InLine(runs', p, longer[i]) {
      if i < |line| { assert InLine(runs, p, line[i]); }
    }
    forall x | InLine(runs', p, x) ensures x in longer {
      if x != r { assert InLine(runs, p, x); } else { assert longer[|line|] == r; }
    }
    forall i, j | 0 <= i < j < |longer| ensures Precedes(runs', longer[i], longer[j]) {
      assert InLine(runs, p, line[i]);
      if j < |line| {
        assert InLine(runs, p, line[j]) && Precedes(runs, line[i], line[j]);
      }
    }
  }

  lemma JoinedStands(db: Db, db': Db, p: int, line: seq<int>, r: int, m: ExecutionState, name: int -> Id)
    requires Naming(name) && p in db.pipelines && p in db'.pipelines && db'.pipelines[p].state == db.pipelines[p].state
    requires db.pipelines[p].state.Enabled? && IsLine(db.runs, p, line) && m == Standing(db, p, line, name)
    requires IsLine(db'.runs, p, line + [r]) && r !in line && r in db'.runs
    requires db'.runs[r].state.Queued? && !db'.runs[r].cancelRequested
    requires line != [] ==> line[0] in db'.runs && db'.runs[line[0]].state == db.runs[line[0]].state
                            && db'.runs[line[0]].cancelRequested == db.runs[line[0]].cancelRequested
    ensures EnqueuePipelineRun(m, name(r)) == Ok(Standing(db', p, line + [r], name))
  {
    assert !ContainsRun(m, name(r)) by {
      forall i | 0 <= i < |line| ensures name(line[i]) != name(r) {}
    }
    if line == [] {
      assert line + [r] == [r] && Names([r][1..], name) == [];
    } else {
      assert (line + [r])[1..] == line[1..] + [r];
      assert Names(line[1..] + [r], name) == Names(line[1..], name) + [name(r)];
    }
  }

  // ---------- The steps ----------

  lemma InactiveWaits(runs: map<int, Run>, p: int, r: int)
    requires RunningIsActive(runs) && InLine(runs, p, r) && !runs[r].isActive
    ensures WaitsFor(runs, p, r)
  {
  }

  ghost predicate CreatesAfterActive(db: Db, request: RunRequest) {
    HasActive(ReleaseTerminal(db.runs, request.pipeline), request.pipeline)
  }

  /** The rows of the line after a run is created, before the order of the new run is looked at. */
  lemma CreatedLine(db: Db, request: RunRequest, r: int, promoted: Option<int>, retry: Retry, now: int, line: seq<int>)
    requires RunsInv(db) && CanCreateRun(db, request, r, promoted) && IsLine(db.runs, request.pipeline, line)
    requires ComesLast(CreateRun(db, request, r, promoted, retry, now).runs, request.pipeline, r)
    ensures IsLine(CreateRun(db, request, r, promoted, retry, now).runs, request.pipeline, line + [r])
  {
    var p := request.pipeline;
    var released := ReleaseTerminal(db.runs, p);
    var after := CreateRun(db, request, r, promoted, retry, now).runs;
    ReleasedLine(db.runs, p, line);
    if HasActive(released, p) {
      JoinBehind(released, p, line, r, NewRun(request, false, now));
    } else {
      NoneActive(db.runs, p);
      match promoted {
        case Some(o) =>
          OldestIsHead(released, p, line, o);
          ActivatedLine(released, p, line, o);
          var activated := released[o := released[o].(isActive := true)];
          assert after == activated[r := NewRun(request, false, now)];
          JoinBehind(activated, p, line, r, NewRun(request, false, now));
        case None =>
          if line != [] {
            assert InLine(released, p, line[0]);
            InLineWaits(released, p, line[0]);
          }
          assert after == released[r := NewRun(request, true, now)];
          JoinedLine(released, p, line, r, NewRun(request, true, now));
      }
    }
  }

  lemma JoinBehind(runs: map<int, Run>, p: int, line: seq<int>, r: int, run: Run)
    requires RunningIsActive(runs) && IsLine(runs, p, line) && r !in runs
    requires run.pipeline == p && run.Waiting() && ComesLast(runs[r := run], p, r)
    ensures IsLine(runs[r := run], p, line + [r])
  {
    forall i | 0 <= i < |line| ensures runs[line[i]].isActive || Before(runs[line[i]], line[i], run, r) {
      assert InLine(runs, p, line[i]);
      if !runs[line[i]].isActive {
        assert WaitsFor(runs[r := run], p, line[i]);
      }
    }
    JoinedLine(runs, p, line, r, run);
  }

  lemma CreatedRow(db: Db, request: RunRequest, r: int, promoted: Option<int>, retry: Retry, now: int)
    requires CanCreateRun(db, request, r, promoted)
    ensures var after := CreateRun(db, request, r, promoted, retry, now);
            && after.pipelines == db.pipelines && r in after.runs
            && after.runs[r].state.Queued? && !after.runs[r].cancelRequested
            && (forall x :: x in db.runs ==> x in after.runs && after.runs[x].state == db.runs[x].state
                                             && after.runs[x].cancelRequested == db.runs[x].cancelRequested)
  {
  }

  /** Every run that is going to wait on comes before the run asked for. The run that is promoted now waits no more. */
  ghost predicate WouldComeLast(runs: map<int, Run>, request: RunRequest, r: int, promoted: Option<int>, now: int) {
    forall x :: WaitsFor(runs, request.pipeline, x) && Some(x) != promoted ==>
      Before(runs[x], x, NewRun(request, false, now), r)
  }

  /** Who waits after the creation: the runs that waited before, without the promoted one, and perhaps the new run. */
  lemma WaitingAfterCreation(db: Db, request: RunRequest, r: int, promoted: Option<int>, retry: Retry, now: int, x: int)
    requires CanCreateRun(db, request, r, promoted) && x != r
    ensures var after := CreateRun(db, request, r, promoted, retry, now).runs;
            && (WaitsFor(after, request.pipeline, x) <==> WaitsFor(db.runs, request.pipeline, x) && Some(x) != promoted)
            && (WaitsFor(after, request.pipeline, x) ==> after[x] == db.runs[x])
  {
  }

  lemma LastBeforeAndAfter(db: Db, request: RunRequest, r: int, promoted: Option<int>, retry: Retry, now: int)
    requires CanCreateRun(db, request, r, promoted)
    ensures var after := CreateRun(db, request, r, promoted, retry, now).runs;
            r in after && (ComesLast(after, request.pipeline, r) <==> WouldComeLast(db.runs, request, r, promoted, now))
  {
    var after := CreateRun(db, request, r, promoted, retry, now).runs;
    CreatedRow(db, request, r, promoted, retry, now);
    forall x | x != r
      ensures (WaitsFor(after, request.pipeline, x) <==> WaitsFor(db.runs, request.pipeline, x) && Some(x) != promoted)
      ensures WaitsFor(after, request.pipeline, x) ==> after[x] == db.runs[x]
    {
      WaitingAfterCreation(db, request, r, promoted, retry, now, x);
    }
    forall x | WaitsFor(db.runs, request.pipeline, x) && Some(x) != promoted
      ensures Before(db.runs[x], x, after[r], r) <==> Before(db.runs[x], x, NewRun(request, false, now), r)
    {
      NewRow(db, request, r, promoted, retry, now);
    }
  }

  lemma NewRow(db: Db, request: RunRequest, r: int, promoted: Option<int>, retry: Retry, now: int)
    requires CanCreateRun(db, request, r, promoted)
    ensures var after := CreateRun(db, request, r, promoted, retry, now).runs;
            r in after && after[r].(isActive := false) == NewRun(request, false, now)
  {
  }

  lemma LastIsEnqueued(db: Db, request: RunRequest, r: int, promoted: Option<int>, retry: Retry, now: int, line: seq<int>,
                       m: ExecutionState, name: int -> Id)
    requires RunsInv(db) && Naming(name) && CanCreateRun(db, request, r, promoted)
    requires IsLine(db.runs, request.pipeline, line) && m == Standing(db, request.pipeline, line, name)
    requires ComesLast(CreateRun(db, request, r, promoted, retry, now).runs, request.pipeline, r)
    ensures EnqueuePipelineRun(m, name(r)).Ok?
    ensures Represents(CreateRun(db, request, r, promoted, retry, now), request.pipeline,
                       EnqueuePipelineRun(m, name(r)).value, name)
  {
    var p := request.pipeline;
    CreatedRow(db, request, r, promoted, retry, now);
    CreatedLine(db, request, r, promoted, retry, now, line);
    NotInLine(db.runs, p, line, r);
    assert line != [] ==> InLine(db.runs, p, line[0]);
    JoinedStands(db, CreateRun(db, request, r, promoted, retry, now), p, line, r, m, name);
  }

  /**
   * Creating a run is enqueueing it, whether its pipeline is idle, busy, or has an ended run that nobody has
   * released yet, exactly when the new run comes after all that still wait.
   */
  lemma CreateIsEnqueue(s: Sys, request: RunRequest, r: int, promoted: Option<int>, retry: Retry, now: int,
                        m: ExecutionState, name: int -> Id)
    requires Inv(s) && Naming(name) && Represents(s.db, request.pipeline, m, name)
    requires CanCreateRun(s.db, request, r, promoted)
    ensures EnqueuePipelineRun(m, name(r)).Ok?
    ensures var after := CreateRun(s.db, request, r, promoted, retry, now);
            Represents(after, request.pipeline, EnqueuePipelineRun(m, name(r)).value, name)
            <==> WouldComeLast(s.db.runs, request, r, promoted, now)
  {
    LastBeforeAndAfter(s.db, request, r, promoted, retry, now);
    var p := request.pipeline;
    var line :| IsLine(s.db.runs, p, line) && m == Standing(s.db, p, line, name);
    EnqueueAccepts(s.db, p, line, r, m, name);
    var after := CreateRun(s.db, request, r, promoted, retry, now);
    if ComesLast(after.runs, p, r) {
      LastIsEnqueued(s.db, request, r, promoted, retry, now, line, m, name);
    }
    if Represents(after, p, EnqueuePipelineRun(m, name(r)).value, name) {
      EnqueuedIsLast(after, p, r, m, name);
    }
  }

  /** Manual requests queue first in, first out: made later than every waiting run, such a request is always enqueueing. */
  lemma ManualRunsQueue(s: Sys, request: RunRequest, r: int, promoted: Option<int>, retry: Retry, now: int,
                        m: ExecutionState, name: int -> Id)
    requires Inv(s) && Naming(name) && Represents(s.db, request.pipeline, m, name)
    requires CanCreateRun(s.db, request, r, promoted) && request.scheduledFor == None
    requires forall x :: x in s.db.runs && s.db.runs[x].pipeline == request.pipeline && s.db.runs[x].Waiting() ==>
               s.db.runs[x].createdAt < now
    ensures EnqueuePipelineRun(m, name(r)).Ok?
    ensures Represents(CreateRun(s.db, request, r, promoted, retry, now), request.pipeline,
                       EnqueuePipelineRun(m, name(r)).value, name)
  {
    CreateIsEnqueue(s, request, r, promoted, retry, now, m, name);
    LateManualRunIsLast(s.db.runs, request, r, promoted, now);
  }

  lemma LateManualRunIsLast(runs: map<int, Run>, request: RunRequest, r: int, promoted: Option<int>, now: int)
    requires request.scheduledFor == None
    requires forall x :: x in runs && runs[x].pipeline == request.pipeline && runs[x].Waiting() ==> runs[x].createdAt < now
    ensures WouldComeLast(runs, request, r, promoted, now)
  {
  }

  /** A request for a time no waiting run has comes last exactly when all that wait on are scheduled, for earlier times. */
  lemma ScheduledRunsQueue(runs: map<int, Run>, request: RunRequest, r: int, promoted: Option<int>, now: int)
    requires request.scheduledFor.Some?
    requires forall x :: x in runs && runs[x].pipeline == request.pipeline && runs[x].Waiting() ==>
               runs[x].createdAt < now && runs[x].scheduledFor != request.scheduledFor
    ensures WouldComeLast(runs, request, r, promoted, now) <==>
            forall x :: x in runs && runs[x].pipeline == request.pipeline && runs[x].Waiting() && Some(x) != promoted ==>
              runs[x].scheduledFor.Some? && runs[x].scheduledFor.value < request.scheduledFor.value
  {
    if WouldComeLast(runs, request, r, promoted, now) {
      forall x | x in runs && runs[x].pipeline == request.pipeline && runs[x].Waiting() && Some(x) != promoted
        ensures runs[x].scheduledFor.Some? && runs[x].scheduledFor.value < request.scheduledFor.value
      {
        assert WaitsFor(runs, request.pipeline, x);
      }
    }
  }

  lemma NotInLine(runs: map<int, Run>, p: int, line: seq<int>, r: int)
    requires IsLine(runs, p, line) && r !in runs
    ensures r !in line
  {
  }

  lemma EnqueueAccepts(db: Db, p: int, line: seq<int>, r: int, m: ExecutionState, name: int -> Id)
    requires Naming(name) && p in db.pipelines && db.pipelines[p].state.Enabled? && r !in db.runs
    requires IsLine(db.runs, p, line) && m == Standing(db, p, line, name)
    ensures EnqueuePipelineRun(m, name(r)).Ok?
  {
    forall i | 0 <= i < |line| ensures name(line[i]) != name(r) {
      assert InLine(db.runs, p, line[i]);
    }
  }

  lemma EnqueuedTail(db: Db, p: int, r: int, m: ExecutionState, line: seq<int>, name: int -> Id)
    requires Naming(name) && p in db.pipelines && EnqueuePipelineRun(m, name(r)).Ok?
    requires m.activeRun.None? ==> m.queuedRunIds == []
    requires forall i :: 0 <= i < |line| ==> line[i] in db.runs
    requires EnqueuePipelineRun(m, name(r)).value == Standing(db, p, line, name)
    ensures line != [] && line[|line| - 1] == r
  {
    var m' := EnqueuePipelineRun(m, name(r)).value;
    if m.activeRun.Some? {
      assert m'.queuedRunIds[|m'.queuedRunIds| - 1] == name(r);
      assert Names(line[1..], name)[|line| - 2] == name(line[1..][|line| - 2]);
    }
  }

  lemma EnqueuedIsLast(db: Db, p: int, r: int, m: ExecutionState, name: int -> Id)
    requires Naming(name) && r in db.runs && EnqueuePipelineRun(m, name(r)).Ok?
    requires m.activeRun.None? ==> m.queuedRunIds == []
    requires Represents(db, p, EnqueuePipelineRun(m, name(r)).value, name)
    ensures ComesLast(db.runs, p, r)
  {
    var line :| IsLine(db.runs, p, line) && EnqueuePipelineRun(m, name(r)).value == Standing(db, p, line, name);
    EnqueuedTail(db, p, r, m, line, name);
    forall x | WaitsFor(db.runs, p, x) && x != r ensures Before(db.runs[x], x, db.runs[r], r) {
      assert InLine(db.runs, p, x);
      var i :| 0 <= i < |line| && line[i] == x;
      assert Precedes(db.runs, line[i], line[|line| - 1]);
    }
  }

  /** Promotion releases the ended run and activates the head: the state machine has already moved on. */
  lemma PromoteIsStutter(s: Sys, p: int, promoted: Option<int>, retry: Retry, now: int, m: ExecutionState, name: int -> Id)
    requires Inv(s) && Represents(s.db, p, m, name) && CanPromote(s.db, p, promoted)
    ensures Represents(Promote(s.db, p, promoted, retry, now), p, m, name)
  {
    var line :| IsLine(s.db.runs, p, line) && m == Standing(s.db, p, line, name);
    var released := ReleaseTerminal(s.db.runs, p);
    var after := Promote(s.db, p, promoted, retry, now);
    ReleasedLine(s.db.runs, p, line);
    PromotionFindsNoneActive(s.db, p);
    if promoted.Some? {
      OldestIsHead(released, p, line, promoted.value);
      ActivatedLine(released, p, line, promoted.value);
    }
    PromotedRows(s.db, p, promoted, retry, now);
    SameHeadStands(s.db, after, p, line, name);
  }

  predicate SameButActive(a: Run, b: Run) {
    b == a.(isActive := b.isActive)
  }

  /** Promotion changes no more of the run rows than who is active. */
  lemma PromotedRows(db: Db, p: int, promoted: Option<int>, retry: Retry, now: int)
    requires CanPromote(db, p, promoted)
    ensures var after := Promote(db, p, promoted, retry, now);
            && after.pipelines == db.pipelines && after.runs.Keys == db.runs.Keys
            && (forall r :: r in db.runs ==> SameButActive(db.runs[r], after.runs[r]))
  {
  }

  lemma SameHeadStands(db: Db, db': Db, p: int, line: seq<int>, name: int -> Id)
    requires db'.pipelines == db.pipelines && db'.runs.Keys == db.runs.Keys && p in db.pipelines
    requires forall i :: 0 <= i < |line| ==> line[i] in db.runs
    requires forall r :: r in db.runs ==> SameButActive(db.runs[r], db'.runs[r])
    ensures Standing(db', p, line, name) == Standing(db, p, line, name)
  {
    if line != [] {
      var head := line[0];
      assert head in db.runs;
      assert SameButActive(db.runs[head], db'.runs[head]);
    }
  }

  /** Starting the run's row is starting the active run, unless cancellation was already requested. */
  lemma StartIsStart(s: Sys, w: int, m: ExecutionState, name: int -> Id)
    requires Inv(s) && Allowed(s, AStartRun(w))
    requires var r := s.db.jobs[s.PhaseOf(w).job].run; r in s.db.runs && s.db.runs[r].state.Queued?
    requires Represents(s.db, s.db.runs[s.db.jobs[s.PhaseOf(w).job].run].pipeline, m, name)
    ensures var r := s.db.jobs[s.PhaseOf(w).job].run;
            if s.db.runs[r].cancelRequested then StartActiveRun(m) == Err(CancelledBeforeStart)
            else StartActiveRun(m).Ok?
                 && Represents(Next(s, AStartRun(w)).db, s.db.runs[r].pipeline, StartActiveRun(m).value, name)
  {
    var r := s.db.jobs[s.PhaseOf(w).job].run;
    var p := s.db.runs[r].pipeline;
    assert WorkerOk(s, w, s.workers[w]);
    var line :| IsLine(s.db.runs, p, line) && m == Standing(s.db, p, line, name);
    HeadChanges(s.db, p, line, r, s.db.runs[r].(state := Running), name);
    assert Standing(Next(s, AStartRun(w)).db, p, line, name)
        == Standing(s.db.(runs := s.db.runs[r := s.db.runs[r].(state := Running)]), p, line, name);
  }

  lemma CancelIsCancel(s: Sys, r: int, m: ExecutionState, name: int -> Id)
    requires Inv(s) && Allowed(s, ARequestCancellation(r)) && Represents(s.db, s.db.runs[r].pipeline, m, name)
    ensures RequestActiveRunCancellation(m).Ok?
    ensures Represents(Next(s, ARequestCancellation(r)).db, s.db.runs[r].pipeline,
                       RequestActiveRunCancellation(m).value, name)
  {
    var p := s.db.runs[r].pipeline;
    var line :| IsLine(s.db.runs, p, line) && m == Standing(s.db, p, line, name);
    HeadChanges(s.db, p, line, r, s.db.runs[r].(cancelRequested := true), name);
    assert Standing(Next(s, ARequestCancellation(r)).db, p, line, name)
        == Standing(s.db.(runs := s.db.runs[r := s.db.runs[r].(cancelRequested := true)]), p, line, name);
  }

  /** A pipeline that may be edited is one whose state machine is idle. */
  lemma EditIsSetState(db: Db, p: int, pipeline: Pipeline, m: ExecutionState, name: int -> Id)
    requires Represents(db, p, m, name)
    ensures Editable(db.runs, p) <==> SetPipelineState(m, pipeline.state).Ok?
    ensures Editable(db.runs, p) ==>
              Represents(db.(pipelines := db.pipelines[p := pipeline]), p, SetPipelineState(m, pipeline.state).value, name)
  {
    var line :| IsLine(db.runs, p, line) && m == Standing(db, p, line, name);
    assert line != [] ==> InLine(db.runs, p, line[0]);
    if line == [] {
      forall r | r in db.runs && db.runs[r].pipeline == p ensures !db.runs[r].state.Live() {
        assert !InLine(db.runs, p, r);
      }
      var db' := db.(pipelines := db.pipelines[p := pipeline]);
      assert IsLine(db'.runs, p, []);
      assert SetPipelineState(m, pipeline.state).value == Standing(db', p, [], name);
    }
  }

  // ---------- Every step at once ----------

  /** The run a step ends or starts, if it does. */
  ghost function Touched(s: Sys, a: Action): Option<int>
    requires Allowed(s, a)
  {
    match a
    case AStartRun(w) =>
      var r := s.db.jobs[s.PhaseOf(w).job].run;
      if r in s.db.runs && s.db.runs[r].state.Queued? then Some(r) else None
    case AFinishSuccess(w, _) => Some(s.db.jobs[s.PhaseOf(w).job].run)
    case AFinishFailure(w) =>
      var r := s.db.jobs[s.PhaseOf(w).job].run;
      if r in s.db.runs && s.db.runs[r].state.Live() then Some(r) else None
    case AFinalizeCancelled(w) =>
      var r := s.db.jobs[s.PhaseOf(w).job].run;
      if CanFinalize(s.db, r) then Some(r) else None
    case ARequestCancellation(r) => Some(r)
    case _ => None
  }

  /** What a step on the rows is for the state machine of pipeline p; most steps are nothing to it. */
  ghost function Meaning(s: Sys, a: Action, p: int, m: ExecutionState, name: int -> Id): Transition
    requires Allowed(s, a)
  {
    if a.ACreateRun? && a.request.pipeline == p then EnqueuePipelineRun(m, name(a.r))
    else if (a.AUpdatePipeline? || a.ASetPipelineState?) && a.p == p then SetPipelineState(m, a.ps)
    else
      match Touched(s, a)
      case None => Ok(m)
      case Some(r) =>
        if r !in s.db.runs || s.db.runs[r].pipeline != p then Ok(m)
        else match a
          case AStartRun(_) => StartActiveRun(m)
          case AFinishSuccess(_, _) => CompleteActiveRun(m, Succeeded)
          case AFinishFailure(_) => CompleteActiveRun(m, Failed)
          case AFinalizeCancelled(_) => CompleteActiveRun(m, Cancelled)
          case ARequestCancellation(_) => RequestActiveRunCancellation(m)
          case _ => Ok(m)
  }

  /** The two places where the rows may do what the state machine would not. */
  ghost predicate Aligned(s: Sys, a: Action, p: int)
    requires Allowed(s, a)
  {
    && (a.ACreateRun? && a.request.pipeline == p ==> WouldComeLast(s.db.runs, a.request, a.r, a.promoted, a.now))
    && (a.AStartRun? ==>
          forall r :: Touched(s, a) == Some(r) && r in s.db.runs && s.db.runs[r].pipeline == p ==> !s.db.runs[r].cancelRequested)
    && (a.ADeletePipeline? ==> a.p != p)
  }

  /** A live active run ends, and nothing else changes in the run rows. */
  ghost predicate EndsRun(s: Sys, s': Sys, r: int, state: State) {
    && r in s.db.runs && s.db.runs[r].isActive && s.db.runs[r].state.Live()
    && s'.db.runs == s.db.runs[r := s.db.runs[r].(state := state)]
    && s'.db.pipelines == s.db.pipelines
  }

  lemma SuccessEnds(s: Sys, w: int, now: int)
    requires LiveJobsInv(s.db) && Allowed(s, AFinishSuccess(w, now))
    ensures EndsRun(s, Next(s, AFinishSuccess(w, now)), s.db.jobs[s.PhaseOf(w).job].run, Succeeded)
  {
  }

  lemma FailRunEnds(s: Sys, s': Sys, row: nat, r: int)
    requires r in s.db.runs && s.db.runs[r].isActive && s.db.runs[r].state.Live()
    requires s'.db == FailRunById(FailStepById(s.db, row), r)
    ensures EndsRun(s, s', r, Failed)
  {
  }

  lemma FailureEnds(s: Sys, w: int)
    requires Inv(s) && Allowed(s, AFinishFailure(w)) && Touched(s, AFinishFailure(w)).Some?
    ensures EndsRun(s, Next(s, AFinishFailure(w)), s.db.jobs[s.PhaseOf(w).job].run, Failed)
  {
    EndedRunIsActive(s, w);
    var phase := s.PhaseOf(w);
    FailRunEnds(s, Next(s, AFinishFailure(w)), phase.plan[phase.k].row, s.db.jobs[phase.job].run);
  }

  lemma FinalizeEnds(s: Sys, w: int)
    requires RunsInv(s.db) && Allowed(s, AFinalizeCancelled(w)) && Touched(s, AFinalizeCancelled(w)).Some?
    ensures EndsRun(s, Next(s, AFinalizeCancelled(w)), s.db.jobs[s.PhaseOf(w).job].run, Cancelled)
  {
  }

  function EndState(a: Action): State {
    if a.AFinishSuccess? then Succeeded else if a.AFinishFailure? then Failed else Cancelled
  }

  lemma EndingStep(s: Sys, a: Action)
    requires Inv(s) && Allowed(s, a) && Touched(s, a).Some?
    requires a.AFinishSuccess? || a.AFinishFailure? || a.AFinalizeCancelled?
    ensures EndsRun(s, Next(s, a), Touched(s, a).value, EndState(a))
  {
    match a {
      case AFinishSuccess(w, now) => SuccessEnds(s, w, now);
      case AFinishFailure(w) => FailureEnds(s, w);
      case AFinalizeCancelled(w) => FinalizeEnds(s, w);
    }
  }

  lemma SimulateEnd(s: Sys, a: Action, p: int, m: ExecutionState, name: int -> Id)
    requires Inv(s) && Allowed(s, a) && Naming(name) && Represents(s.db, p, m, name)
    requires a.AFinishSuccess? || a.AFinishFailure? || a.AFinalizeCancelled?
    requires Touched(s, a).Some? && s.db.runs[Touched(s, a).value].pipeline == p
    ensures Meaning(s, a, p, m, name).Ok? && Represents(Next(s, a).db, p, Meaning(s, a, p, m, name).value, name)
  {
    EndingStep(s, a);
    var r := Touched(s, a).value;
    EndedStands(s.db, Next(s, a).db, p, m, r, EndState(a), name);
    EndMeaning(s, a, p, m, name);
  }

  lemma EndMeaning(s: Sys, a: Action, p: int, m: ExecutionState, name: int -> Id)
    requires Allowed(s, a) && (a.AFinishSuccess? || a.AFinishFailure? || a.AFinalizeCancelled?)
    requires Touched(s, a).Some? && Touched(s, a).value in s.db.runs && s.db.runs[Touched(s, a).value].pipeline == p
    ensures Meaning(s, a, p, m, name) == CompleteActiveRun(m, EndState(a))
  {
  }

  lemma EndedStands(db: Db, db': Db, p: int, m: ExecutionState, r: int, state: State, name: int -> Id)
    requires RunsInv(db) && Naming(name) && Represents(db, p, m, name) && !state.Live()
    requires r in db.runs && db.runs[r].pipeline == p && db.runs[r].isActive && db.runs[r].state.Live()
    requires db'.runs == db.runs[r := db.runs[r].(state := state)] && db'.pipelines == db.pipelines
    ensures CompleteActiveRun(m, state).Ok? && Represents(db', p, CompleteActiveRun(m, state).value, name)
  {
    HeadEndsStands(db, p, m, r, db.runs[r].(state := state), name);
    SameRunsStand(db.(runs := db'.runs), db', p, CompleteActiveRun(m, state).value, name);
  }

  lemma EndedRunIsActive(s: Sys, w: int)
    requires Inv(s) && Allowed(s, AFinishFailure(w))
    ensures var r := s.db.jobs[s.PhaseOf(w).job].run; r in s.db.runs && (s.db.runs[r].state.Live() ==> s.db.runs[r].isActive)
  {
    FailureAt(s, w, s.PhaseOf(w));
  }

  lemma SameRunsStand(db: Db, db': Db, p: int, m: ExecutionState, name: int -> Id)
    requires Represents(db, p, m, name) && db'.runs == db.runs
    requires p in db'.pipelines && db'.pipelines[p].state == db.pipelines[p].state
    ensures Represents(db', p, m, name)
  {
    SameLineStands(db, db', p, m, name);
  }

  lemma OtherPipelineCreated(db: Db, request: RunRequest, r: int, promoted: Option<int>, retry: Retry, now: int, p: int)
    requires CanCreateRun(db, request, r, promoted) && request.pipeline != p && p in db.pipelines
    ensures SameLine(db, CreateRun(db, request, r, promoted, retry, now), p)
  {
  }

  lemma OtherPipelinePromoted(db: Db, q: int, promoted: Option<int>, retry: Retry, now: int, p: int)
    requires CanPromote(db, q, promoted) && q != p && p in db.pipelines
    ensures SameLine(db, Promote(db, q, promoted, retry, now), p)
  {
  }

  /** Steps that write no run row and no pipeline row. */
  predicate RunsUntouched(a: Action) {
    !EditsPipelines(a) && !ScheduledBy(a) && !WritesRuns(a)
  }

  lemma UntouchedRuns(s: Sys, a: Action)
    requires Allowed(s, a)
    requires RunsUntouched(a) || ((a.AStartRun? || a.AFinishFailure? || a.AFinalizeCancelled?) && Touched(s, a).None?)
    ensures Next(s, a).db.runs == s.db.runs && Next(s, a).db.pipelines == s.db.pipelines
  {
    if RunsUntouched(a) {
      RunsLeft(s, a);
    }
  }

  /** A step on a run of another pipeline. */
  lemma OtherRunTouched(s: Sys, a: Action, p: int)
    requires Allowed(s, a) && Touched(s, a).Some? && Touched(s, a).value in s.db.runs && p in s.db.pipelines
    requires s.db.runs[Touched(s, a).value].pipeline != p
    ensures SameLine(s.db, Next(s, a).db, p)
  {
    var r := Touched(s, a).value;
    assert Next(s, a).db.pipelines == s.db.pipelines;
    assert forall x :: x != r && x in s.db.runs ==> x in Next(s, a).db.runs && Next(s, a).db.runs[x] == s.db.runs[x];
  }

  lemma OtherPipelineEdited(s: Sys, a: Action, p: int)
    requires Allowed(s, a) && p in s.db.pipelines
    requires (a.ACreatePipeline? || a.ADeletePipeline? || a.AUpdatePipeline? || a.ASetPipelineState?) && a.p != p
    ensures SameLine(s.db, Next(s, a).db, p)
  {
  }

  lemma DropTriggerLine(db: Db, t: int, p: int)
    requires p in db.pipelines
    ensures SameLine(db, db.(runs := DropTrigger(db.runs, t)), p)
  {
  }

  /** A step that means nothing to the pipeline's state machine leaves its line as it is. */
  lemma SimulateStutter(s: Sys, a: Action, p: int, m: ExecutionState, name: int -> Id)
    requires Allowed(s, a) && Represents(s.db, p, m, name)
    requires !(a.ACreateRun? && a.request.pipeline == p) && !((a.AUpdatePipeline? || a.ASetPipelineState?) && a.p == p)
    requires !((a.APromote? || a.ADeletePipeline?) && a.p == p)
    requires Touched(s, a).Some? ==> Touched(s, a).value in s.db.runs && s.db.runs[Touched(s, a).value].pipeline != p
    ensures Represents(Next(s, a).db, p, m, name)
  {
    if a.ADropTrigger? {
      DropTriggerLine(s.db, a.t, p);
      SameLineStands(s.db, Next(s, a).db, p, m, name);
    } else if a.ACreateRun? {
      OtherPipelineCreated(s.db, a.request, a.r, a.promoted, a.retry, a.now, p);
      SameLineStands(s.db, Next(s, a).db, p, m, name);
    } else if a.APromote? {
      OtherPipelinePromoted(s.db, a.p, a.promoted, a.retry, a.now, p);
      SameLineStands(s.db, Next(s, a).db, p, m, name);
    } else if Touched(s, a).Some? {
      OtherRunTouched(s, a, p);
      SameLineStands(s.db, Next(s, a).db, p, m, name);
    } else if a.ACreatePipeline? || a.ADeletePipeline? || a.AUpdatePipeline? || a.ASetPipelineState? {
      OtherPipelineEdited(s, a, p);
      SameLineStands(s.db, Next(s, a).db, p, m, name);
    } else {
      UntouchedRuns(s, a);
      SameRunsStand(s.db, Next(s, a).db, p, m, name);
    }
  }

  ghost predicate TouchedElsewhere(s: Sys, a: Action, p: int)
    requires Allowed(s, a) && Touched(s, a).Some?
  {
    Touched(s, a).value in s.db.runs && s.db.runs[Touched(s, a).value].pipeline != p
  }

  /** Every step of the shared rows is the step of the state machine that it means, or none. */
  lemma RowsRefineStateMachine(s: Sys, a: Action, p: int, m: ExecutionState, name: int -> Id)
    requires Inv(s) && Allowed(s, a) && Naming(name) && Represents(s.db, p, m, name) && Aligned(s, a, p)
    ensures Meaning(s, a, p, m, name).Ok? && Represents(Next(s, a).db, p, Meaning(s, a, p, m, name).value, name)
  {
    if a.ACreateRun? && a.request.pipeline == p {
      CreateIsEnqueue(s, a.request, a.r, a.promoted, a.retry, a.now, m, name);
    } else if (a.AUpdatePipeline? || a.ASetPipelineState?) && a.p == p {
      EditIsSetState(s.db, p, Next(s, a).db.pipelines[p], m, name);
    } else if a.APromote? && a.p == p {
      PromoteIsStutter(s, p, a.promoted, a.retry, a.now, m, name);
    } else if Touched(s, a).None? || TouchedElsewhere(s, a, p) {
      SimulateStutter(s, a, p, m, name);
    } else if a.AStartRun? {
      StartIsStart(s, a.w, m, name);
    } else if a.ARequestCancellation? {
      CancelIsCancel(s, a.r, m, name);
    } else {
      SimulateEnd(s, a, p, m, name);
    }
  }

  /** A pipeline that has just been created stands for the idle state machine. */
  lemma NewPipelineIsIdle(s: Sys, p: int, g: Graph, name: int -> Id)
    requires Inv(s) && Allowed(s, ACreatePipeline(p, g))
    ensures Represents(Next(s, ACreatePipeline(p, g)).db, p, ExecutionState(Draft, None, []), name)
  {
    var db' := Next(s, ACreatePipeline(p, g)).db;
    assert IsLine(db'.runs, p, []);
    assert Standing(db', p, [], name) == ExecutionState(Draft, None, []);
  }

  // ---------- Every pipeline stands for some state ----------

  /** Some runs of a pipeline in order. */
  ghost predicate InOrder(runs: map<int, Run>, p: int, line: seq<int>) {
    && (forall i :: 0 <= i < |line| ==> InLine(runs, p, line[i]))
    && (forall i, j :: 0 <= i < j < |line| ==> Precedes(runs, line[i], line[j]))
  }

  lemma OneComesFirst(runs: map<int, Run>, p: int, a: int, b: int)
    requires OneActive(runs) && InLine(runs, p, a) && InLine(runs, p, b) && a != b
    ensures Precedes(runs, a, b) || Precedes(runs, b, a)
  {
    BeforeIsTotal(runs[a], a, runs[b], b);
  }

  lemma {:induction false} Inserted(runs: map<int, Run>, p: int, line: seq<int>, r: int) returns (longer: seq<int>)
    requires OneActive(runs) && InOrder(runs, p, line) && InLine(runs, p, r) && r !in line
    ensures InOrder(runs, p, longer) && forall x :: x in longer <==> x == r || x in line
    decreases |line|
  {
    if line == [] {
      longer := [r];
    } else if Precedes(runs, r, line[0]) {
      longer := [r] + line;
      forall j | 0 <= j < |line| ensures Precedes(runs, r, line[j]) {
        if j > 0 {
          PrecedesIsTransitive(runs, r, line[0], line[j]);
        }
      }
    } else {
      var rest := Inserted(runs, p, line[1..], r);
      longer := [line[0]] + rest;
      OneComesFirst(runs, p, r, line[0]);
      forall j | 0 <= j < |rest| ensures Precedes(runs, line[0], rest[j]) {
        assert rest[j] in rest;
        HeadPrecedes(runs, p, line, rest[j]);
      }
      assert line == [line[0]] + line[1..];
    }
  }

  lemma HeadPrecedes(runs: map<int, Run>, p: int, line: seq<int>, x: int)
    requires InOrder(runs, p, line) && line != [] && x in runs && (x in line[1..] || Precedes(runs, line[0], x))
    ensures Precedes(runs, line[0], x)
  {
    if x in line[1..] {
      var k :| 0 <= k < |line[1..]| && line[1..][k] == x;
      assert Precedes(runs, line[0], line[k + 1]);
    }
  }

  lemma {:induction false} Lined(runs: map<int, Run>, p: int, members: set<int>) returns (line: seq<int>)
    requires OneActive(runs) && forall r :: r in members ==> InLine(runs, p, r)
    ensures InOrder(runs, p, line) && forall r :: r in line <==> r in members
    decreases |members|
  {
    line := [];
    if r :| r in members {
      var rest := Lined(runs, p, members - {r});
      line := Inserted(runs, p, rest, r);
    }
  }

  /** In every reachable state each pipeline stands for a state of the state machine. */
  lemma EveryPipelineStands(s: Sys, p: int, name: int -> Id) returns (m: ExecutionState)
    requires Inv(s) && p in s.db.pipelines
    ensures Represents(s.db, p, m, name)
  {
    var members := set r | r in s.db.runs && InLine(s.db.runs, p, r);
    var line := Lined(s.db.runs, p, members);
    forall r | InLine(s.db.runs, p, r) ensures r in line {
      assert r in members;
    }
    m := Standing(s.db, p, line, name);
  }

  // ---------- Whole executions ----------

  ghost predicate StepMeans(s: Sys, a: Action, p: int, m: ExecutionState, m': ExecutionState, name: int -> Id) {
    Allowed(s, a) && Meaning(s, a, p, m, name) == Ok(m')
  }

  /** A run of the state machine beside a run of the system: at each step its transition, or none. */
  ghost predicate MachineRun(states: seq<Sys>, actions: seq<Action>, p: int, ms: seq<ExecutionState>, name: int -> Id)
    requires |states| == |actions| + 1
  {
    && |ms| == |states|
    && (forall i :: 0 <= i < |states| ==> Represents(states[i].db, p, ms[i], name))
    && (forall i :: 0 <= i < |actions| ==> StepMeans(states[i], actions[i], p, ms[i], ms[i + 1], name))
  }

  ghost predicate AllAligned(states: seq<Sys>, actions: seq<Action>, p: int) {
    && |states| == |actions| + 1
    && forall i :: 0 <= i < |actions| ==> Allowed(states[i], actions[i]) && Aligned(states[i], actions[i], p)
  }

  lemma MachineStep(states: seq<Sys>, actions: seq<Action>, p: int, ms: seq<ExecutionState>, next: Sys, a: Action,
                    m: ExecutionState, name: int -> Id)
    requires |states| == |actions| + 1 && MachineRun(states, actions, p, ms, name)
    requires StepMeans(states[|actions|], a, p, ms[|actions|], m, name) && Represents(next.db, p, m, name)
    ensures MachineRun(states + [next], actions + [a], p, ms + [m], name)
  {
    var states', actions', ms' := states + [next], actions + [a], ms + [m];
    forall i | 0 <= i < |actions'| ensures StepMeans(states'[i], actions'[i], p, ms'[i], ms'[i + 1], name) {
      if i < |actions| {
        assert StepMeans(states[i], actions[i], p, ms[i], ms[i + 1], name);
      }
    }
  }

  lemma OneStepRefines(s: Sys, a: Action, next: Sys, p: int, m: ExecutionState, name: int -> Id) returns (m': ExecutionState)
    requires Inv(s) && Allowed(s, a) && next == Next(s, a) && Aligned(s, a, p)
    requires Naming(name) && Represents(s.db, p, m, name)
    ensures StepMeans(s, a, p, m, m', name) && Represents(next.db, p, m', name) && Inv(next)
  {
    NextKeepsInv(s, a);
    RowsRefineStateMachine(s, a, p, m, name);
    m' := Meaning(s, a, p, m, name).value;
  }

  /** An aligned run of the system, from any state, is a run of the state machine with stuttering. */
  lemma {:induction false} ExecutionsRefine(states: seq<Sys>, actions: seq<Action>, from: Sys, to: Sys, p: int,
                                            m: ExecutionState, name: int -> Id) returns (ms: seq<ExecutionState>)
    requires Fragment(states, actions, from, to) && Inv(from) && AllAligned(states, actions, p)
    requires Naming(name) && Represents(from.db, p, m, name)
    ensures MachineRun(states, actions, p, ms, name) && ms[0] == m && Inv(to)
    decreases |actions|
  {
    if actions == [] {
      ms := [m];
    } else {
      var n := |actions| - 1;
      var before, action := states[n], actions[n];
      assert states == states[..n + 1] + [to] && actions == actions[..n] + [action];
      assert to == states[n + 1] == Next(before, action);
      assert Fragment(states[..n + 1], actions[..n], from, before);
      var earlier := ExecutionsRefine(states[..n + 1], actions[..n], from, before, p, m, name);
      var m' := OneStepRefines(before, action, to, p, earlier[n], name);
      MachineStep(states[..n + 1], actions[..n], p, earlier, to, action, m', name);
      ms := earlier + [m'];
    }
  }
}
