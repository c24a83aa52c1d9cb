/** Over every run of the system, only the attempt that brought a run to success reaches the durable checkpoints. */
module CheckpointSafety {
  import opened Wrappers
  import opened Graphs
  import opened Protocol
  import opened ProtocolInvariant
  import opened ProtocolSteps
  import opened ProtocolTheorems
  import opened Checkpoints

  /** A worker's memory: lifecycles by run, and what it has popped and still has to commit. */
  datatype Memory = Memory(lifecycles: map<int, seq<Option<Candidate>>>, popped: seq<Option<Candidate>>)

  const NoMemory := Memory(map[], [])

  datatype CSys = CSys(core: Sys, memory: map<int, Memory>, durable: Durable) {
    function Of(w: int): Memory {
      if w in memory then memory[w] else NoMemory
    }
  }

  datatype CAction =
    | Core(a: Action)
    | Create(w: int)
    | Propose(w: int, i: nat, value: int)
    | Pop(w: int)
    | Commit(w: int)

  function JobOf(phase: Phase): nat {
    if phase.Idle? then 0 else phase.job
  }

  /** From the Source until the commit, a worker may hold candidates. */
  predicate Working(phase: Phase) {
    phase.AtStep? || phase.Finishing? || phase.Settling? || phase.Cancelling? || phase.Finalizing?
  }

  /** The worker whose memory a step empties: its attempt failed, or its process ended. */
  function Forgets(a: Action): Option<int> {
    match a
    case ARaise(w) => Some(w)
    case ARaiseAfter(w) => Some(w)
    case AFinishRejected(w) => Some(w)
    case AFinalizeCancelled(w) => Some(w)
    case ARelease(w, _, _) => Some(w)
    case ACrash(w) => Some(w)
    case _ => None
  }

  /** After a failed attempt only that run's lifecycles are discarded; a process that ends loses everything. */
  function AfterCore(s: CSys, a: Action): map<int, Memory> {
    match Forgets(a)
    case None => s.memory
    case Some(w) =>
      if a.ARelease? || a.ACrash? then s.memory[w := NoMemory]
      else
        var j := s.core.PhaseOf(w);
        var r := if JobOf(j) < |s.core.db.jobs| then s.core.db.jobs[JobOf(j)].run else 0;
        s.memory[w := Memory(s.Of(w).lifecycles - {r}, [])]
  }

  ghost predicate CAllowed(s: CSys, c: CAction) {
    match c
    case Core(a) =>
      && Allowed(s.core, a)
      // run_once commits before it returns
      && (a.ADone? ==> s.Of(a.w) == NoMemory)
    case Create(w) => AtSource(s.core, w)
    case Propose(w, i, _) =>
      && AtSource(s.core, w)
      && RunIn(s, w) in s.Of(w).lifecycles && i < |s.Of(w).lifecycles[RunIn(s, w)]|
    case Pop(w) => s.core.PhaseOf(w).Settling? && s.core.PhaseOf(w).job < |s.core.db.jobs| && s.Of(w).popped == []
    case Commit(w) =>
      s.core.PhaseOf(w).Settling? && s.core.PhaseOf(w).job < |s.core.db.jobs| && s.Of(w).popped != []
  }

  predicate AtSource(core: Sys, w: int) {
    && core.PhaseOf(w).AtStep? && core.PhaseOf(w).k == 0 && core.PhaseOf(w).started
    && core.PhaseOf(w).job < |core.db.jobs|
  }

  function RunIn(s: CSys, w: int): int {
    var j := JobOf(s.core.PhaseOf(w));
    if j < |s.core.db.jobs| then s.core.db.jobs[j].run else 0
  }

  function Proposed(core: Sys, j: nat, value: int): Candidate
    requires j < |core.db.jobs|
  {
    var job := core.db.jobs[j];
    Candidate(job.pipeline, job.component, value, job.run, job.attempt)
  }

  ghost function CNext(s: CSys, c: CAction): CSys
    requires CAllowed(s, c)
  {
    match c
    case Core(a) => CSys(Next(s.core, a), AfterCore(s, a), s.durable)
    case Create(w) =>
      var r, m := RunIn(s, w), s.Of(w);
      var held := if r in m.lifecycles then m.lifecycles[r] else [];
      s.(memory := s.memory[w := m.(lifecycles := m.lifecycles[r := held + [None]])])
    case Propose(w, i, value) =>
      var r, m := RunIn(s, w), s.Of(w);
      var candidate := Some(Proposed(s.core, JobOf(s.core.PhaseOf(w)), value));
      s.(memory := s.memory[w := m.(lifecycles := m.lifecycles[r := m.lifecycles[r][i := candidate]])])
    case Pop(w) =>
      var r, m := RunIn(s, w), s.Of(w);
      var held := if r in m.lifecycles then m.lifecycles[r] else [];
      s.(memory := s.memory[w := Memory(m.lifecycles - {r}, held)])
    case Commit(w) =>
      var m := s.Of(w);
      s.(memory := s.memory[w := m.(popped := m.popped[1..])],
         durable := CommitOne(s.durable, s.core.db.runs, RunIn(s, w), m.popped[0]))
  }

  const CEmpty := CSys(Empty, map[], map[])

  ghost predicate CExecution(states: seq<CSys>, actions: seq<CAction>) {
    && |states| == |actions| + 1
    && states[0] == CEmpty
    && forall i :: 0 <= i < |actions| ==> CAllowed(states[i], actions[i]) && states[i + 1] == CNext(states[i], actions[i])
  }

  ghost predicate CReachable(s: CSys) {
    exists states, actions :: CExecution(states, actions) && states[|states| - 1] == s
  }

  // ---------- What the memory and the store hold ----------

  /** Held values were proposed in the attempt in progress. */
  ghost predicate OfAttempt(core: Sys, j: nat, held: seq<Option<Candidate>>) {
    && j < |core.db.jobs|
    && forall i :: 0 <= i < |held| && held[i].Some? ==>
         held[i].value == Proposed(core, j, held[i].value.value)
  }

  ghost predicate MemoryOk(core: Sys, phase: Phase, m: Memory) {
    && (m != NoMemory ==> Working(phase) && JobOf(phase) < |core.db.jobs|)
    && (forall r :: r in m.lifecycles ==> r == core.db.jobs[JobOf(phase)].run && OfAttempt(core, JobOf(phase), m.lifecycles[r]))
    && (m.popped != [] ==> phase.Settling? && OfAttempt(core, JobOf(phase), m.popped))
  }

  ghost predicate MemoryInv(s: CSys) {
    forall w :: w in s.memory ==> MemoryOk(s.core, s.core.PhaseOf(w), s.memory[w])
  }

  /** The value came from the attempt in which its run's job succeeded. */
  ghost predicate FromSuccess(core: Sys, c: Candidate) {
    && c.run in core.db.runs && core.db.runs[c.run].state.Succeeded?
    && exists j :: 0 <= j < |core.db.jobs| && core.db.jobs[j].run == c.run && SuccessfulAttempt(core.db.jobs[j], c)
  }

  predicate SuccessfulAttempt(job: Job, c: Candidate) {
    job.state.Succeeded? && job.attempt == c.attempt && job.pipeline == c.pipeline && job.component == c.component
  }

  ghost predicate DurableInv(s: CSys) {
    forall k :: k in s.durable ==>
      k == (s.durable[k].pipeline, s.durable[k].component) && FromSuccess(s.core, s.durable[k])
  }

  ghost predicate CInv(s: CSys) {
    Inv(s.core) && MemoryInv(s) && DurableInv(s)
  }

  // ---------- What a core step leaves alone ----------

  lemma SuccessStays(s: Sys, a: Action, c: Candidate)
    requires Allowed(s, a) && FromSuccess(s, c)
    ensures FromSuccess(Next(s, a), c)
  {
    var j :| 0 <= j < |s.db.jobs| && s.db.jobs[j].run == c.run && SuccessfulAttempt(s.db.jobs[j], c);
    JobsAfter(s, a, j);
    EndedRunsStay(s, a, c.run);
    assert SuccessfulAttempt(Next(s, a).db.jobs[j], c);
  }

  lemma AttemptStands(s: Sys, a: Action, j: nat, held: seq<Option<Candidate>>)
    requires Allowed(s, a) && OfAttempt(s, j, held) && !s.db.jobs[j].state.Queued?
    ensures OfAttempt(Next(s, a), j, held)
  {
    JobsAfter(s, a, j);
  }

  /** A worker holding candidates works on a claimed or succeeded job. */
  lemma WorkingIsClaimed(s: Sys, w: int)
    requires Inv(s) && Working(s.PhaseOf(w))
    ensures JobOf(s.PhaseOf(w)) < |s.db.jobs| && !s.db.jobs[JobOf(s.PhaseOf(w))].state.Queued?
    ensures s.PhaseOf(w).Settling? ==> RunSucceeded(s, JobOf(s.PhaseOf(w))) && s.db.jobs[JobOf(s.PhaseOf(w))].state.Succeeded?
  {
    assert WorkerOk(s, w, s.workers[w]);
  }

  ghost predicate RunSucceeded(s: Sys, j: nat) {
    j < |s.db.jobs| && s.db.jobs[j].run in s.db.runs && s.db.runs[s.db.jobs[j].run].state.Succeeded?
  }

  // ---------- Core steps ----------

  lemma StandingMemory(s: CSys, a: Action, w: int, phase': Phase)
    requires Inv(s.core) && Allowed(s.core, a) && MemoryOk(s.core, s.core.PhaseOf(w), s.Of(w))
    requires phase' == Next(s.core, a).PhaseOf(w)
    requires Working(s.core.PhaseOf(w)) ==> Working(phase') && JobOf(phase') == JobOf(s.core.PhaseOf(w))
    requires s.core.PhaseOf(w).Settling? ==> phase'.Settling?
    ensures MemoryOk(Next(s.core, a), phase', s.Of(w))
  {
    var phase := s.core.PhaseOf(w);
    if Working(phase) {
      WorkingIsClaimed(s.core, w);
      JobsAfter(s.core, a, JobOf(phase));
      forall r | r in s.Of(w).lifecycles ensures OfAttempt(Next(s.core, a), JobOf(phase), s.Of(w).lifecycles[r]) {
        AttemptStands(s.core, a, JobOf(phase), s.Of(w).lifecycles[r]);
      }
      if s.Of(w).popped != [] {
        AttemptStands(s.core, a, JobOf(phase), s.Of(w).popped);
      }
    }
  }

  /** A step of the worker itself: it goes on with the same job, or its memory is empty afterwards. */
  lemma ActorMemory(s: CSys, a: Action, w: int)
    requires CInv(s) && CAllowed(s, Core(a)) && Actor(a) == Some(w)
    ensures var s' := CNext(s, Core(a)); w in s'.memory ==> MemoryOk(s'.core, s'.core.PhaseOf(w), s'.memory[w])
  {
    var s' := CNext(s, Core(a));
    var phase, phase' := s.core.PhaseOf(w), s'.core.PhaseOf(w);
    assert MemoryOk(s.core, phase, s.Of(w));
    if Forgets(a) == Some(w) {
      ForgottenIsEmpty(s, a, w);
    } else if Working(phase) && !a.ADone? {
      GoesOn(s, a, w);
      StandingMemory(s, a, w, phase');
    } else {
      assert s.Of(w) == NoMemory;
    }
  }

  lemma ForgottenIsEmpty(s: CSys, a: Action, w: int)
    requires CAllowed(s, Core(a)) && Forgets(a) == Some(w) && MemoryOk(s.core, s.core.PhaseOf(w), s.Of(w))
    ensures CNext(s, Core(a)).Of(w) == NoMemory
  {
    if !a.ARelease? && !a.ACrash? {
      assert forall r :: r in s.Of(w).lifecycles ==> r == RunIn(s, w);
      assert s.Of(w).lifecycles - {RunIn(s, w)} == map[];
    }
  }

  lemma GoesOn(s: CSys, a: Action, w: int)
    requires Allowed(s.core, a) && Actor(a) == Some(w) && Forgets(a).None? && !a.ADone?
    requires Working(s.core.PhaseOf(w))
    ensures Working(Next(s.core, a).PhaseOf(w)) && JobOf(Next(s.core, a).PhaseOf(w)) == JobOf(s.core.PhaseOf(w))
    ensures !s.core.PhaseOf(w).Settling?
  {
  }

  lemma MemoryAfter(s: CSys, a: Action, w: int)
    requires CInv(s) && CAllowed(s, Core(a)) && w in CNext(s, Core(a)).memory
    ensures MemoryOk(Next(s.core, a), Next(s.core, a).PhaseOf(w), CNext(s, Core(a)).memory[w])
  {
    if Actor(a) == Some(w) {
      ActorMemory(s, a, w);
    } else {
      PhaseStands(s.core, a, w);
      assert MemoryOk(s.core, s.core.PhaseOf(w), s.memory[w]);
      StandingMemory(s, a, w, s.core.PhaseOf(w));
    }
  }

  lemma CoreKeeps(s: CSys, a: Action)
    requires CInv(s) && CAllowed(s, Core(a))
    ensures CInv(CNext(s, Core(a)))
  {
    var s' := CNext(s, Core(a));
    NextKeepsInv(s.core, a);
    forall w | w in s'.memory ensures MemoryOk(s'.core, s'.core.PhaseOf(w), s'.memory[w]) {
      MemoryAfter(s, a, w);
    }
    forall k | k in s'.durable ensures FromSuccess(s'.core, s'.durable[k]) {
      SuccessStays(s.core, a, s.durable[k]);
    }
  }

  // ---------- Steps on the memory and the store ----------

  /** Only the acting worker's memory changes, and it stays of the attempt in progress. */
  lemma MemoryStepKeeps(s: CSys, w: int, m: Memory)
    requires CInv(s) && MemoryOk(s.core, s.core.PhaseOf(w), m)
    ensures CInv(s.(memory := s.memory[w := m]))
  {
  }

  lemma HoldingMore(core: Sys, phase: Phase, m: Memory, r: int, held: seq<Option<Candidate>>)
    requires MemoryOk(core, phase, m) && Working(phase) && JobOf(phase) < |core.db.jobs|
    requires r == core.db.jobs[JobOf(phase)].run && OfAttempt(core, JobOf(phase), held)
    ensures MemoryOk(core, phase, m.(lifecycles := m.lifecycles[r := held]))
  {
  }

  lemma EmptyIsOfAttempt(core: Sys, j: nat, held: seq<Option<Candidate>>)
    requires j < |core.db.jobs| && (held != [] ==> OfAttempt(core, j, held))
    ensures OfAttempt(core, j, held + [None])
  {
  }

  lemma CreateKeeps(s: CSys, w: int)
    requires CInv(s) && CAllowed(s, Create(w))
    ensures CInv(CNext(s, Create(w)))
  {
    var r, m := RunIn(s, w), s.Of(w);
    var held := if r in m.lifecycles then m.lifecycles[r] else [];
    assert MemoryOk(s.core, s.core.PhaseOf(w), m);
    EmptyIsOfAttempt(s.core, JobOf(s.core.PhaseOf(w)), held);
    HoldingMore(s.core, s.core.PhaseOf(w), m, r, held + [None]);
    MemoryStepKeeps(s, w, m.(lifecycles := m.lifecycles[r := held + [None]]));
  }

  lemma ProposeKeeps(s: CSys, w: int, i: nat, value: int)
    requires CInv(s) && CAllowed(s, Propose(w, i, value))
    ensures CInv(CNext(s, Propose(w, i, value)))
  {
    var r, m := RunIn(s, w), s.Of(w);
    var candidate := Some(Proposed(s.core, JobOf(s.core.PhaseOf(w)), value));
    assert MemoryOk(s.core, s.core.PhaseOf(w), m);
    HoldingMore(s.core, s.core.PhaseOf(w), m, r, m.lifecycles[r][i := candidate]);
    MemoryStepKeeps(s, w, m.(lifecycles := m.lifecycles[r := m.lifecycles[r][i := candidate]]));
  }

  lemma PopKeeps(s: CSys, w: int)
    requires CInv(s) && CAllowed(s, Pop(w))
    ensures CInv(CNext(s, Pop(w)))
  {
    assert MemoryOk(s.core, s.core.PhaseOf(w), s.Of(w));
    MemoryStepKeeps(s, w, CNext(s, Pop(w)).Of(w));
  }

  lemma CommittedIsFromSuccess(core: Sys, j: nat, held: seq<Option<Candidate>>)
    requires OfAttempt(core, j, held) && RunSucceeded(core, j) && core.db.jobs[j].state.Succeeded?
    ensures forall i :: 0 <= i < |held| && held[i].Some? ==> FromSuccess(core, held[i].value)
  {
    forall i | 0 <= i < |held| && held[i].Some? ensures FromSuccess(core, held[i].value) {
      assert SuccessfulAttempt(core.db.jobs[j], held[i].value);
    }
  }

  lemma OneLessPopped(core: Sys, phase: Phase, m: Memory)
    requires MemoryOk(core, phase, m) && m.popped != []
    ensures MemoryOk(core, phase, m.(popped := m.popped[1..]))
  {
  }

  lemma StoreKeeps(s: CSys, w: int, m: Memory, r: int, held: Option<Candidate>)
    requires CInv(s) && MemoryOk(s.core, s.core.PhaseOf(w), m) && (held.Some? ==> FromSuccess(s.core, held.value))
    ensures CInv(s.(memory := s.memory[w := m], durable := CommitOne(s.durable, s.core.db.runs, r, held)))
  {
    MemoryStepKeeps(s, w, m);
  }

  lemma CommitKeeps(s: CSys, w: int)
    requires CInv(s) && CAllowed(s, Commit(w))
    ensures CInv(CNext(s, Commit(w)))
  {
    var m := s.Of(w);
    assert MemoryOk(s.core, s.core.PhaseOf(w), m);
    WorkingIsClaimed(s.core, w);
    CommittedIsFromSuccess(s.core, JobOf(s.core.PhaseOf(w)), m.popped);
    OneLessPopped(s.core, s.core.PhaseOf(w), m);
    StoreKeeps(s, w, m.(popped := m.popped[1..]), RunIn(s, w), m.popped[0]);
  }

  lemma CNextKeeps(s: CSys, c: CAction)
    requires CInv(s) && CAllowed(s, c)
    ensures CInv(CNext(s, c))
  {
    match c {
      case Core(a) => CoreKeeps(s, a);
      case Commit(w) => CommitKeeps(s, w);
      case Create(w) => CreateKeeps(s, w);
      case Propose(w, i, value) => ProposeKeeps(s, w, i, value);
      case Pop(w) => PopKeeps(s, w);
    }
  }

  lemma {:induction false} CExecutionKeeps(states: seq<CSys>, actions: seq<CAction>, n: nat)
    requires CExecution(states, actions) && n < |states|
    ensures CInv(states[n])
  {
    if n > 0 {
      CExecutionKeeps(states, actions, n - 1);
      CNextKeeps(states[n - 1], actions[n - 1]);
      assert states[n - 1 + 1] == CNext(states[n - 1], actions[n - 1]);
    }
  }

  lemma OneJobPerComponent(db: Db, i: nat, j: nat)
    requires StepRowsInv(db) && JobKeysInv(db) && i < |db.jobs| && j < |db.jobs|
    requires db.jobs[i].run == db.jobs[j].run && db.jobs[i].component == db.jobs[j].component
    ensures i == j
  {
  }

  /**
   * A durable checkpoint was proposed in the attempt in which the job of its run and Source succeeded. So nothing
   * proposed in a failed attempt is ever stored, whatever later attempts of the run do and on whichever worker.
   */
  lemma OnlySuccessIsDurable(s: CSys, k: (int, Id))
    requires CReachable(s) && k in s.durable
    ensures var c := s.durable[k];
            && k == (c.pipeline, c.component)
            && c.run in s.core.db.runs && s.core.db.runs[c.run].state.Succeeded?
            && (exists j :: 0 <= j < |s.core.db.jobs| && s.core.db.jobs[j].run == c.run
                            && SuccessfulAttempt(s.core.db.jobs[j], c))
    ensures var c := s.durable[k];
            forall j :: 0 <= j < |s.core.db.jobs| && s.core.db.jobs[j].run == c.run && s.core.db.jobs[j].component == c.component
              ==> s.core.db.jobs[j].state.Succeeded? && s.core.db.jobs[j].attempt == c.attempt
  {
    var states, actions :| CExecution(states, actions) && states[|states| - 1] == s;
    CExecutionKeeps(states, actions, |states| - 1);
    var c := s.durable[k];
    var i :| 0 <= i < |s.core.db.jobs| && s.core.db.jobs[i].run == c.run && SuccessfulAttempt(s.core.db.jobs[i], c);
    forall j | 0 <= j < |s.core.db.jobs| && s.core.db.jobs[j].run == c.run && s.core.db.jobs[j].component == c.component
      ensures s.core.db.jobs[j].state.Succeeded? && s.core.db.jobs[j].attempt == c.attempt
    {
      OneJobPerComponent(s.core.db, i, j);
    }
  }

  lemma CReachableIsSound(s: CSys)
    requires CReachable(s)
    ensures CInv(s)
  {
    var states, actions :| CExecution(states, actions) && states[|states| - 1] == s;
    CExecutionKeeps(states, actions, |states| - 1);
  }

  /** The store refuses nothing that a worker commits after its run's success: each value becomes durable under its key. */
  lemma SuccessIsDurable(s: CSys, w: int)
    requires CReachable(s) && CAllowed(s, Commit(w)) && s.Of(w).popped[0].Some?
    ensures var c := s.Of(w).popped[0].value; var key := (c.pipeline, c.component);
            && key in CNext(s, Commit(w)).durable && CNext(s, Commit(w)).durable[key] == c
            && forall k :: k in s.durable && k != key ==>
                 k in CNext(s, Commit(w)).durable && CNext(s, Commit(w)).durable[k] == s.durable[k]
  {
    CReachableIsSound(s);
    WorkingIsClaimed(s.core, w);
    PoppedIsOfRun(s, w);
  }

  lemma PoppedIsOfRun(s: CSys, w: int)
    requires CInv(s) && CAllowed(s, Commit(w)) && s.Of(w).popped[0].Some?
    ensures var c := s.Of(w).popped[0].value; var j := JobOf(s.core.PhaseOf(w));
            && j < |s.core.db.jobs| && c.run == s.core.db.jobs[j].run && c.run == RunIn(s, w)
            && c.run in s.core.db.runs && s.core.db.runs[c.run].pipeline == c.pipeline
  {
    assert MemoryOk(s.core, s.core.PhaseOf(w), s.Of(w));
  }
}
