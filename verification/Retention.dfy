/** Temporary datasets, the workers that make them and the collectors that remove them, as one system. */
module Retention {
  import opened Wrappers
  import opened Graphs
  import opened Protocol
  import opened ProtocolInvariant
  import opened ProtocolTheorems

  datatype DatasetRow = DatasetRow(run: int, expiresAt: Option<int>)

  /** One cleanup pass: what it listed and has not handled, and whose file it removed but not yet its row. */
  datatype Pass = Pass(listed: set<int>, handled: set<int>)

  /** The run that made each dataset, and the passes that reported a removal, are history. */
  datatype RSys = RSys(core: Sys, rows: map<int, DatasetRow>, files: set<int>, own: map<int, set<int>>,
                       passes: map<int, Pass>, madeBy: map<int, int>, reported: seq<(int, int)>)
  {
    function Own(w: int): set<int> { if w in own then own[w] else {} }

    predicate Ended(r: int) { r in core.db.runs && !core.db.runs[r].state.Live() }
  }

  datatype RAction =
    | RCore(a: Action, now: int)
    | Record(w: int, d: int)
    | MarkEligible(w: int, now: int)
    | MarkCancelled(r: int, now: int)
    | DeleteOwn(w: int, d: int)
    | List(c: int, batch: set<int>, now: int)
    | DeleteFile(c: int, d: int)
    | Skip(c: int, d: int)
    | DeleteRow(c: int, d: int, now: int)

  function ExpireRun(rows: map<int, DatasetRow>, r: int, now: int): (after: map<int, DatasetRow>)
    ensures after.Keys == rows.Keys
  {
    map d | d in rows :: if rows[d].run == r then rows[d].(expiresAt := Some(now)) else rows[d]
  }

  /** COALESCE keeps an expiry that is already there. */
  function ExpireRunOnce(rows: map<int, DatasetRow>, r: int, now: int): (after: map<int, DatasetRow>)
    ensures after.Keys == rows.Keys
  {
    map d | d in rows :: if rows[d].run == r && rows[d].expiresAt.None? then rows[d].(expiresAt := Some(now)) else rows[d]
  }

  function RunAt(core: Sys, j: nat): int {
    if j < |core.db.jobs| then core.db.jobs[j].run else 0
  }

  /** The phases in which a worker removes the files it made. */
  predicate Cleaning(phase: Phase) { phase.Settling? || phase.AfterFailure? }

  predicate Eligible(s: RSys, d: int, now: int) {
    d in s.rows && s.rows[d].expiresAt.Some? && s.rows[d].expiresAt.value <= now && s.Ended(s.rows[d].run)
  }

  ghost predicate RAllowed(s: RSys, a: RAction) {
    match a
    case RCore(c, _) => Allowed(s.core, c)
    case Record(w, d) =>
      s.core.PhaseOf(w).AtStep? && s.core.PhaseOf(w).started && s.core.PhaseOf(w).job < |s.core.db.jobs| && d !in s.madeBy
    case MarkEligible(w, _) => Cleaning(s.core.PhaseOf(w)) && s.core.PhaseOf(w).job < |s.core.db.jobs|
    case MarkCancelled(r, _) => r in s.core.db.runs && s.core.db.runs[r].state.Cancelled?
    case DeleteOwn(w, d) => Cleaning(s.core.PhaseOf(w)) && d in s.Own(w)
    case List(c, batch, now) => c !in s.passes && forall d :: d in batch ==> Eligible(s, d, now)
    case DeleteFile(c, d) => c in s.passes && d in s.passes[c].listed
    case Skip(c, d) => c in s.passes && d in s.passes[c].listed
    case DeleteRow(c, d, _) => c in s.passes && d in s.passes[c].handled
  }

  ghost function RNext(s: RSys, a: RAction): RSys
    requires RAllowed(s, a)
  {
    match a
    case RCore(c, now) =>
      var core := Next(s.core, c);
      match c {
        // A new claim starts a new list of datasets.
        case AClaim(w, _, _) => s.(core := core, own := s.own[w := {}])
        // The transaction that fails the run also expires its datasets.
        case AFinishFailure(w) => s.(core := core, rows := ExpireRun(s.rows, RunAt(s.core, s.core.PhaseOf(w).job), now))
        case _ => s.(core := core)
      }
    case Record(w, d) =>
      var r := RunAt(s.core, s.core.PhaseOf(w).job);
      s.(rows := s.rows[d := DatasetRow(r, None)], files := s.files + {d}, own := s.own[w := s.Own(w) + {d}],
         madeBy := s.madeBy[d := r])
    case MarkEligible(w, now) => s.(rows := ExpireRun(s.rows, RunAt(s.core, s.core.PhaseOf(w).job), now))
    case MarkCancelled(r, now) => s.(rows := ExpireRunOnce(s.rows, r, now))
    case DeleteOwn(w, d) => s.(files := s.files - {d})
    case List(c, batch, _) => s.(passes := s.passes[c := Pass(batch, {})])
    case DeleteFile(c, d) =>
      s.(files := s.files - {d}, passes := s.passes[c := Pass(s.passes[c].listed - {d}, s.passes[c].handled + {d})])
    case Skip(c, d) => s.(passes := s.passes[c := s.passes[c].(listed := s.passes[c].listed - {d})])
    case DeleteRow(c, d, now) =>
      var after := s.(passes := s.passes[c := s.passes[c].(handled := s.passes[c].handled - {d})]);
      if Eligible(s, d, now) then after.(rows := s.rows - {d}, reported := s.reported + [(c, d)]) else after
  }

  const REmpty := RSys(Empty, map[], {}, map[], map[], map[], [])

  ghost predicate RExecution(states: seq<RSys>, actions: seq<RAction>) {
    && |states| == |actions| + 1
    && states[0] == REmpty
    && forall i :: 0 <= i < |actions| ==> RAllowed(states[i], actions[i]) && states[i + 1] == RNext(states[i], actions[i])
  }

  ghost predicate RReachable(s: RSys) {
    exists states, actions :: RExecution(states, actions) && states[|states| - 1] == s
  }

  // ---------- Invariant ----------

  /** Rows know their run, and only ended runs have rows that expire. */
  ghost predicate RowsInv(s: RSys) {
    && (forall d :: d in s.madeBy ==> s.madeBy[d] in s.core.db.runs)
    && (forall d :: d in s.rows ==> d in s.madeBy && s.rows[d].run == s.madeBy[d])
    && (forall d :: d in s.rows && s.rows[d].expiresAt.Some? ==> s.Ended(s.rows[d].run))
  }

  /** The data of a run that has not ended is complete. */
  ghost predicate LiveDataInv(s: RSys) {
    forall d :: d in s.madeBy && !s.Ended(s.madeBy[d]) ==> d in s.files && d in s.rows
  }

  /** Collectors and cleaning workers hold only datasets of ended runs. */
  ghost predicate PassesInv(s: RSys) {
    forall c, d :: c in s.passes && (d in s.passes[c].listed || d in s.passes[c].handled) ==>
      d in s.madeBy && s.Ended(s.madeBy[d])
  }

  function PhaseJob(phase: Phase): Option<nat> {
    if phase.Idle? then None else Some(phase.job)
  }

  ghost predicate OwnInv(s: RSys) {
    forall w, d :: d in s.Own(w) && PhaseJob(s.core.PhaseOf(w)).Some? ==>
      d in s.madeBy && s.madeBy[d] == RunAt(s.core, PhaseJob(s.core.PhaseOf(w)).value)
  }

  ghost predicate ReportedOnce(s: RSys, d: int) {
    exists i :: 0 <= i < |s.reported| && s.reported[i].1 == d
  }

  /** Every dataset ever made is either still a row or has been reported removed, once. */
  ghost predicate ReportsInv(s: RSys) {
    && (forall d :: d in s.madeBy ==> (d !in s.rows <==> ReportedOnce(s, d)))
    && (forall i :: 0 <= i < |s.reported| ==> s.reported[i].1 in s.madeBy && s.Ended(s.madeBy[s.reported[i].1]))
    && (forall i, j :: 0 <= i < j < |s.reported| ==> s.reported[i].1 != s.reported[j].1)
  }

  ghost predicate RInv(s: RSys) {
    Inv(s.core) && RowsInv(s) && LiveDataInv(s) && PassesInv(s) && OwnInv(s) && ReportsInv(s)
  }

  // ---------- Steps of the core ----------

  lemma EndedStays(s: RSys, a: Action, r: int)
    requires Allowed(s.core, a)
    ensures s.Ended(r) ==> s.(core := Next(s.core, a)).Ended(r)
    ensures r in s.core.db.runs ==> r in Next(s.core, a).db.runs
  {
    if r in s.core.db.runs {
      EndedRunsStay(s.core, a, r);
    }
  }

  lemma EndedStaysAll(s: RSys, a: Action)
    requires Allowed(s.core, a)
    ensures forall r :: s.Ended(r) ==> s.(core := Next(s.core, a)).Ended(r)
    ensures forall r :: r in s.core.db.runs ==> r in Next(s.core, a).db.runs
  {
    forall r ensures s.Ended(r) ==> s.(core := Next(s.core, a)).Ended(r) {
      EndedStays(s, a, r);
    }
    forall r | r in s.core.db.runs ensures r in Next(s.core, a).db.runs {
      EndedStays(s, a, r);
    }
  }

  lemma CoreKeepsData(s: RSys, core: Sys)
    requires RowsInv(s) && LiveDataInv(s) && PassesInv(s) && ReportsInv(s)
    requires forall r :: s.Ended(r) ==> s.(core := core).Ended(r)
    requires forall r :: r in s.core.db.runs ==> r in core.db.runs
    ensures var s' := s.(core := core); RowsInv(s') && LiveDataInv(s') && PassesInv(s') && ReportsInv(s')
  {
    var s' := s.(core := core);
    assert forall d :: ReportedOnce(s', d) == ReportedOnce(s, d);
  }

  lemma PhaseJobStays(s: Sys, a: Action, w: int)
    requires Allowed(s, a) && PhaseJob(Next(s, a).PhaseOf(w)).Some? && !(a.AClaim? && a.w == w)
    ensures PhaseJob(s.PhaseOf(w)) == PhaseJob(Next(s, a).PhaseOf(w))
  {
    if Actor(a) != Some(w) {
      PhaseStands(s, a, w);
    }
  }

  lemma JobRunStays(s: Sys, a: Action, w: int)
    requires Inv(s) && Allowed(s, a) && PhaseJob(s.PhaseOf(w)).Some?
    ensures RunAt(Next(s, a), PhaseJob(s.PhaseOf(w)).value) == RunAt(s, PhaseJob(s.PhaseOf(w)).value)
  {
    assert WorkerOk(s, w, s.workers[w]);
    JobsAfter(s, a, PhaseJob(s.PhaseOf(w)).value);
  }

  lemma CoreKeepsOwn(s: RSys, a: Action, own: map<int, set<int>>)
    requires Inv(s.core) && OwnInv(s) && Allowed(s.core, a)
    requires own == if a.AClaim? then s.own[a.w := {}] else s.own
    ensures OwnInv(s.(core := Next(s.core, a), own := own))
  {
    var s' := s.(core := Next(s.core, a), own := own);
    forall w, d | d in s'.Own(w) && PhaseJob(s'.core.PhaseOf(w)).Some?
      ensures d in s'.madeBy && s'.madeBy[d] == RunAt(s'.core, PhaseJob(s'.core.PhaseOf(w)).value)
    {
      PhaseJobStays(s.core, a, w);
      JobRunStays(s.core, a, w);
      assert d in s.Own(w);
    }
  }

  lemma CoreStepKeeps(s: RSys, a: Action, own: map<int, set<int>>)
    requires RInv(s) && Allowed(s.core, a)
    requires own == if a.AClaim? then s.own[a.w := {}] else s.own
    ensures RInv(s.(core := Next(s.core, a), own := own))
  {
    NextKeepsInv(s.core, a);
    EndedStaysAll(s, a);
    CoreKeepsData(s, Next(s.core, a));
    CoreKeepsOwn(s, a, own);
    OwnIsApart(s.(core := Next(s.core, a)), own);
  }

  lemma OwnIsApart(s: RSys, own: map<int, set<int>>)
    requires RowsInv(s) && LiveDataInv(s) && PassesInv(s) && ReportsInv(s)
    ensures var s' := s.(own := own); RowsInv(s') && LiveDataInv(s') && PassesInv(s') && ReportsInv(s')
  {
    var s' := s.(own := own);
    assert forall r :: s'.Ended(r) == s.Ended(r);
    assert forall d :: ReportedOnce(s', d) == ReportedOnce(s, d);
  }

  /** Expiring the rows of an ended run removes nothing. */
  lemma ExpireKeeps(s: RSys, rows: map<int, DatasetRow>, r: int)
    requires RInv(s) && s.Ended(r) && rows.Keys == s.rows.Keys
    requires forall d :: d in rows ==> rows[d] == s.rows[d].(expiresAt := rows[d].expiresAt)
                                       && (rows[d] == s.rows[d] || s.rows[d].run == r)
    ensures RInv(s.(rows := rows))
  {
    var s' := s.(rows := rows);
    assert forall x :: s'.Ended(x) == s.Ended(x);
    assert forall d :: ReportedOnce(s', d) == ReportedOnce(s, d);
  }

  // ---------- Steps on datasets ----------

  lemma CleaningRunEnded(s: RSys, w: int)
    requires Inv(s.core) && Cleaning(s.core.PhaseOf(w))
    ensures s.core.PhaseOf(w).job < |s.core.db.jobs| && s.Ended(RunAt(s.core, s.core.PhaseOf(w).job))
  {
    assert WorkerOk(s.core, w, s.core.workers[w]);
  }

  lemma FinishFailureEnds(s: Sys, w: int)
    requires Inv(s) && Allowed(s, AFinishFailure(w))
    ensures var r := RunAt(s, s.PhaseOf(w).job);
            r in Next(s, AFinishFailure(w)).db.runs && !Next(s, AFinishFailure(w)).db.runs[r].state.Live()
  {
    assert WorkerOk(s, w, s.workers[w]);
  }

  lemma CoreActionKeeps(s: RSys, a: Action, now: int)
    requires RInv(s) && RAllowed(s, RCore(a, now))
    ensures RInv(RNext(s, RCore(a, now)))
  {
    CoreStepKeeps(s, a, if a.AClaim? then s.own[a.w := {}] else s.own);
    if a.AFinishFailure? {
      var r := RunAt(s.core, s.core.PhaseOf(a.w).job);
      FinishFailureEnds(s.core, a.w);
      ExpireKeeps(s.(core := Next(s.core, a)), ExpireRun(s.rows, r, now), r);
    }
  }

  function Recorded(s: RSys, w: int, d: int, r: int): RSys {
    s.(rows := s.rows[d := DatasetRow(r, None)], files := s.files + {d}, own := s.own[w := s.Own(w) + {d}],
       madeBy := s.madeBy[d := r])
  }

  lemma RecordedData(s: RSys, w: int, d: int, r: int)
    requires RowsInv(s) && LiveDataInv(s) && PassesInv(s) && d !in s.madeBy && r in s.core.db.runs
    ensures var s' := Recorded(s, w, d, r); RowsInv(s') && LiveDataInv(s') && PassesInv(s')
  {
    var s' := Recorded(s, w, d, r);
    assert forall x :: s'.Ended(x) == s.Ended(x);
  }

  lemma RecordedReports(s: RSys, w: int, d: int, r: int)
    requires ReportsInv(s) && d !in s.madeBy
    ensures ReportsInv(Recorded(s, w, d, r))
  {
    var s' := Recorded(s, w, d, r);
    assert forall x :: s'.Ended(x) == s.Ended(x);
    assert forall x :: ReportedOnce(s', x) == ReportedOnce(s, x);
  }

  lemma RecordedOwn(s: RSys, w: int, d: int, r: int)
    requires OwnInv(s) && d !in s.madeBy && PhaseJob(s.core.PhaseOf(w)).Some?
    requires r == RunAt(s.core, PhaseJob(s.core.PhaseOf(w)).value)
    ensures OwnInv(Recorded(s, w, d, r))
  {
    var s' := Recorded(s, w, d, r);
    forall x, e | e in s'.Own(x) && PhaseJob(s'.core.PhaseOf(x)).Some?
      ensures e in s'.madeBy && s'.madeBy[e] == RunAt(s'.core, PhaseJob(s'.core.PhaseOf(x)).value)
    {
      if e != d { assert e in s.Own(x); }
      if x != w { assert e in s.Own(x); }
    }
  }

  lemma RecordKeeps(s: RSys, w: int, d: int)
    requires RInv(s) && RAllowed(s, Record(w, d))
    ensures RInv(RNext(s, Record(w, d)))
  {
    var r := RunAt(s.core, s.core.PhaseOf(w).job);
    assert r in s.core.db.runs by { assert WorkerOk(s.core, w, s.core.workers[w]); }
    RecordedData(s, w, d, r);
    RecordedReports(s, w, d, r);
    RecordedOwn(s, w, d, r);
  }

  lemma DeleteOwnKeeps(s: RSys, w: int, d: int)
    requires RInv(s) && RAllowed(s, DeleteOwn(w, d))
    ensures RInv(RNext(s, DeleteOwn(w, d)))
  {
    CleaningRunEnded(s, w);
    DeleteFileOfEnded(s, d);
  }

  lemma DeleteFileOfEnded(s: RSys, d: int)
    requires RInv(s) && d in s.madeBy && s.Ended(s.madeBy[d])
    ensures RInv(s.(files := s.files - {d}))
  {
    var s' := s.(files := s.files - {d});
    assert forall x :: s'.Ended(x) == s.Ended(x);
    assert forall x :: ReportedOnce(s', x) == ReportedOnce(s, x);
  }

  lemma PassKeeps(s: RSys, c: int, pass: Pass)
    requires RInv(s) && forall d :: d in pass.listed || d in pass.handled ==> d in s.madeBy && s.Ended(s.madeBy[d])
    ensures RInv(s.(passes := s.passes[c := pass]))
  {
    var s' := s.(passes := s.passes[c := pass]);
    assert forall x :: s'.Ended(x) == s.Ended(x);
    assert forall x :: ReportedOnce(s', x) == ReportedOnce(s, x);
  }

  lemma DeleteEligibleRow(s: RSys, c: int, d: int, now: int)
    requires RInv(s) && Eligible(s, d, now)
    ensures RInv(s.(rows := s.rows - {d}, reported := s.reported + [(c, d)]))
  {
    var s' := s.(rows := s.rows - {d}, reported := s.reported + [(c, d)]);
    assert forall x :: s'.Ended(x) == s.Ended(x);
    assert !ReportedOnce(s, d);
    forall x ensures ReportedOnce(s', x) <==> ReportedOnce(s, x) || x == d {
      if ReportedOnce(s, x) {
        var i :| 0 <= i < |s.reported| && s.reported[i].1 == x;
        assert s'.reported[i].1 == x;
      }
      assert s'.reported[|s.reported|].1 == d;
    }
    forall i, j | 0 <= i < j < |s'.reported| ensures s'.reported[i].1 != s'.reported[j].1 {
      if j == |s.reported| {
        assert ReportedOnce(s, s.reported[i].1);
      }
    }
  }

  lemma DeleteRowKeeps(s: RSys, c: int, d: int, now: int)
    requires RInv(s) && RAllowed(s, DeleteRow(c, d, now))
    ensures RInv(RNext(s, DeleteRow(c, d, now)))
  {
    var pass := s.passes[c].(handled := s.passes[c].handled - {d});
    PassKeeps(s, c, pass);
    if Eligible(s, d, now) {
      DeleteEligibleRow(s.(passes := s.passes[c := pass]), c, d, now);
    }
  }

  lemma MarkEligibleKeeps(s: RSys, w: int, now: int)
    requires RInv(s) && RAllowed(s, MarkEligible(w, now))
    ensures RInv(RNext(s, MarkEligible(w, now)))
  {
    CleaningRunEnded(s, w);
    var r := RunAt(s.core, s.core.PhaseOf(w).job);
    ExpireKeeps(s, ExpireRun(s.rows, r, now), r);
  }

  lemma DeleteFileKeeps(s: RSys, c: int, d: int)
    requires RInv(s) && RAllowed(s, DeleteFile(c, d))
    ensures RInv(RNext(s, DeleteFile(c, d)))
  {
    DeleteFileOfEnded(s, d);
    PassKeeps(s.(files := s.files - {d}), c, Pass(s.passes[c].listed - {d}, s.passes[c].handled + {d}));
  }

  predicate OnPass(a: RAction) {
    a.List? || a.DeleteFile? || a.Skip? || a.DeleteRow?
  }

  lemma PassStepKeeps(s: RSys, a: RAction)
    requires RInv(s) && RAllowed(s, a) && OnPass(a)
    ensures RInv(RNext(s, a))
  {
    match a {
      case List(c, batch, now) => PassKeeps(s, c, Pass(batch, {}));
      case DeleteFile(c, d) => DeleteFileKeeps(s, c, d);
      case Skip(c, d) => PassKeeps(s, c, s.passes[c].(listed := s.passes[c].listed - {d}));
      case DeleteRow(c, d, now) => DeleteRowKeeps(s, c, d, now);
    }
  }

  lemma DatasetStepKeeps(s: RSys, a: RAction)
    requires RInv(s) && RAllowed(s, a) && !OnPass(a)
    ensures RInv(RNext(s, a))
  {
    match a {
      case RCore(c, now) => CoreActionKeeps(s, c, now);
      case Record(w, d) => RecordKeeps(s, w, d);
      case MarkEligible(w, now) => MarkEligibleKeeps(s, w, now);
      case MarkCancelled(r, now) => ExpireKeeps(s, ExpireRunOnce(s.rows, r, now), r);
      case DeleteOwn(w, d) => DeleteOwnKeeps(s, w, d);
    }
  }

  lemma RNextKeeps(s: RSys, a: RAction)
    requires RInv(s) && RAllowed(s, a)
    ensures RInv(RNext(s, a))
  {
    if OnPass(a) {
      PassStepKeeps(s, a);
    } else {
      DatasetStepKeeps(s, a);
    }
  }

  lemma {:induction false} RExecutionKeeps(states: seq<RSys>, actions: seq<RAction>, n: nat)
    requires RExecution(states, actions) && n < |states|
    ensures RInv(states[n])
  {
    if n > 0 {
      RExecutionKeeps(states, actions, n - 1);
      RNextKeeps(states[n - 1], actions[n - 1]);
      assert states[n - 1 + 1] == RNext(states[n - 1], actions[n - 1]);
    }
  }

  lemma RReachableIsSound(s: RSys)
    requires RReachable(s)
    ensures RInv(s)
  {
    var states, actions :| RExecution(states, actions) && states[|states| - 1] == s;
    RExecutionKeeps(states, actions, |states| - 1);
  }

  /** No file and no row of a run that has not ended is ever missing, whoever is cleaning up. */
  lemma LiveDataIsKept(s: RSys, d: int)
    requires RReachable(s) && d in s.madeBy && s.madeBy[d] in s.core.db.runs && s.core.db.runs[s.madeBy[d]].state.Live()
    ensures d in s.files && d in s.rows
  {
    RReachableIsSound(s);
  }

  /** A pass may hold on to its list for as long as it likes: what it removes next belongs to an ended run. */
  lemma CollectorsRemoveEndedData(s: RSys, c: int, d: int)
    requires RReachable(s) && (RAllowed(s, DeleteFile(c, d)) || RAllowed(s, DeleteRow(c, d, 0)))
    ensures d in s.madeBy && s.Ended(s.madeBy[d])
  {
    RReachableIsSound(s);
  }

  /** A dataset row is gone exactly when one pass, and only one, has reported its removal. */
  lemma RemovalsAreReportedOnce(s: RSys, d: int)
    requires RReachable(s) && d in s.madeBy
    ensures d !in s.rows <==> exists i :: 0 <= i < |s.reported| && s.reported[i].1 == d
    ensures forall i, j :: 0 <= i < j < |s.reported| ==> s.reported[i].1 != s.reported[j].1
  {
    RReachableIsSound(s);
    assert ReportedOnce(s, d) <==> exists i :: 0 <= i < |s.reported| && s.reported[i].1 == d;
  }

  // ---------- When data goes ----------

  /** A row goes exactly when a pass comes to it after its expiry, and the run of such a row has ended. */
  lemma RowsGoWhenExpired(s: RSys, c: int, d: int, now: int)
    requires RReachable(s) && RAllowed(s, DeleteRow(c, d, now)) && d in s.rows
    ensures d !in RNext(s, DeleteRow(c, d, now)).rows <==> s.rows[d].expiresAt.Some? && s.rows[d].expiresAt.value <= now
    ensures s.rows[d].expiresAt.Some? ==>
              s.rows[d].run in s.core.db.runs
              && s.core.db.runs[s.rows[d].run].state in {Succeeded, CompletedWithWarnings, Failed, Cancelled}
    ensures forall e :: e in s.rows && e != d ==>
              e in RNext(s, DeleteRow(c, d, now)).rows && RNext(s, DeleteRow(c, d, now)).rows[e] == s.rows[e]
  {
    RReachableIsSound(s);
  }

  /** Failing a run and finishing one mark all its rows as expired now, and no other row. */
  lemma EndedRunsExpire(s: RSys, a: RAction, w: int, now: int, d: int)
    requires RReachable(s) && RAllowed(s, a) && (a == RCore(AFinishFailure(w), now) || a == MarkEligible(w, now))
    requires d in s.rows
    ensures s.core.PhaseOf(w).job < |s.core.db.jobs| && d in RNext(s, a).rows
    ensures RNext(s, a).rows[d]
         == if s.rows[d].run == s.core.db.jobs[s.core.PhaseOf(w).job].run then DatasetRow(s.rows[d].run, Some(now)) else s.rows[d]
  {
  }

  /** Marking the rows of a cancelled run keeps an expiry that is already there. */
  lemma CancelledRunsExpireOnce(s: RSys, r: int, now: int, d: int)
    requires RAllowed(s, MarkCancelled(r, now)) && d in s.rows
    ensures d in RNext(s, MarkCancelled(r, now)).rows
    ensures RNext(s, MarkCancelled(r, now)).rows[d]
         == if s.rows[d].run == r && s.rows[d].expiresAt == None then DatasetRow(r, Some(now)) else s.rows[d]
  {
  }

  /** Expired data can be removed at once: a pass of its own lists it, and takes file and row away. */
  lemma ExpiredDataCanGo(s: RSys, c: int, d: int, now: int) returns (t: RSys)
    requires RReachable(s) && c !in s.passes && d in s.rows
    requires s.rows[d].expiresAt.Some? && s.rows[d].expiresAt.value <= now
    ensures RReachable(t) && t.core == s.core
    ensures t.rows == s.rows - {d} && t.files == s.files - {d} && t.reported == s.reported + [(c, d)]
  {
    RReachableIsSound(s);
    t := RNext(s, List(c, {d}, now));
    RReachableOn(s, List(c, {d}, now));
    var deleted := RNext(t, DeleteFile(c, d));
    RReachableOn(t, DeleteFile(c, d));
    t := RNext(deleted, DeleteRow(c, d, now));
    RReachableOn(deleted, DeleteRow(c, d, now));
  }

  lemma RReachableOn(s: RSys, a: RAction)
    requires RReachable(s) && RAllowed(s, a)
    ensures RReachable(RNext(s, a))
  {
    var states, actions :| RExecution(states, actions) && states[|states| - 1] == s;
    var states', actions' := states + [RNext(s, a)], actions + [a];
    forall i | 0 <= i < |actions'|
      ensures RAllowed(states'[i], actions'[i]) && states'[i + 1] == RNext(states'[i], actions'[i])
    {
      if i < |actions| {
        assert states[i + 1] == RNext(states[i], actions[i]);
      }
    }
    assert RExecution(states', actions');
  }
}
