/** A worker's checkpoint coordinator, in step with the system whose durable values it changes. */
module CheckpointWorkers {
  import opened Wrappers
  import opened Graphs
  import opened Protocol
  import opened Checkpoints
  import opened CheckpointSafety

  lemma CReachableOn(s: CSys, c: CAction)
    requires CReachable(s) && CAllowed(s, c)
    ensures CReachable(CNext(s, c))
  {
    var states, actions :| CExecution(states, actions) && states[|states| - 1] == s;
    var states', actions' := states + [CNext(s, c)], actions + [c];
    forall i | 0 <= i < |actions'|
      ensures CAllowed(states'[i], actions'[i]) && states'[i + 1] == CNext(states'[i], actions'[i])
    {
      if i < |actions| {
        assert states[i + 1] == CNext(states[i], actions[i]);
      }
    }
    assert CExecution(states', actions');
  }

  // ---------- Committing one candidate after the other ----------

  ghost predicate MayPop(s: CSys, w: int) {
    s.core.PhaseOf(w).Settling? && s.core.PhaseOf(w).job < |s.core.db.jobs| && s.Of(w).popped == []
  }

  ghost function HeldFor(s: CSys, w: int, r: int): seq<Option<Candidate>> {
    if r in s.Of(w).lifecycles then s.Of(w).lifecycles[r] else []
  }

  /** The run is forgotten, the first `n` of its candidates have been offered to the store, the others come next. */
  ghost function Committing(s: CSys, w: int, n: nat): CSys
    requires n <= |HeldFor(s, w, RunIn(s, w))|
  {
    var r := RunIn(s, w);
    var held := HeldFor(s, w, r);
    CSys(s.core, s.memory[w := Memory(s.Of(w).lifecycles - {r}, held[n..])],
         CommitAll(s.durable, s.core.db.runs, r, held[..n]))
  }

  lemma {:induction false} CommitsReach(s: CSys, w: int, n: nat)
    requires CReachable(s) && MayPop(s, w) && n <= |HeldFor(s, w, RunIn(s, w))|
    ensures CReachable(Committing(s, w, n))
  {
    var held := HeldFor(s, w, RunIn(s, w));
    if n == 0 {
      CReachableOn(s, Pop(w));
      assert held[0..] == held && held[..0] == [];
      assert CNext(s, Pop(w)) == Committing(s, w, 0);
    } else {
      CommitsReach(s, w, n - 1);
      var before := Committing(s, w, n - 1);
      CReachableOn(before, Commit(w));
      CommitStep(s, w, n - 1);
    }
  }

  lemma CommitStep(s: CSys, w: int, n: nat)
    requires MayPop(s, w) && n < |HeldFor(s, w, RunIn(s, w))|
    ensures CAllowed(Committing(s, w, n), Commit(w))
    ensures CNext(Committing(s, w, n), Commit(w)) == Committing(s, w, n + 1)
  {
    var held := HeldFor(s, w, RunIn(s, w));
    assert held[n..][1..] == held[n + 1..] && held[n..][0] == held[n];
    assert held[..n + 1][..n] == held[..n] && held[..n + 1][n] == held[n];
    var before, after := Committing(s, w, n), Committing(s, w, n + 1);
    assert RunIn(before, w) == RunIn(s, w);
    assert before.memory[w := after.memory[w]] == after.memory;
  }

  /** Popping a run and committing all it held are steps of the system. */
  lemma CommittedReach(s: CSys, w: int)
    requires CReachable(s) && MayPop(s, w)
    ensures CReachable(Committed(s, w))
  {
    var held := HeldFor(s, w, RunIn(s, w));
    CommitsReach(s, w, |held|);
    assert held[|held|..] == [] && held[..|held|] == held;
  }

  ghost function Committed(s: CSys, w: int): CSys {
    var r := RunIn(s, w);
    CSys(s.core, s.memory[w := Memory(s.Of(w).lifecycles - {r}, [])],
         CommitAll(s.durable, s.core.db.runs, r, HeldFor(s, w, r)))
  }

  // ---------- The other steps ----------

  lemma CreateStep(s: CSys, w: int) returns (s': CSys)
    requires CReachable(s) && AtSource(s.core, w)
    ensures s' == CNext(s, Create(w))
    ensures var r := RunIn(s, w);
            && CReachable(s') && s'.core == s.core && s'.durable == s.durable && s'.Of(w).popped == s.Of(w).popped
            && s'.Of(w).lifecycles == s.Of(w).lifecycles[r := HeldFor(s, w, r) + [None]]
  {
    CReachableOn(s, Create(w));
    s' := CNext(s, Create(w));
  }

  lemma ProposeStep(s: CSys, w: int, i: nat, value: int) returns (s': CSys)
    requires CReachable(s) && AtSource(s.core, w) && i < |HeldFor(s, w, RunIn(s, w))|
    ensures CAllowed(s, CAction.Propose(w, i, value)) && s' == CNext(s, CAction.Propose(w, i, value))
    ensures var r := RunIn(s, w);
            && CReachable(s') && s'.core == s.core && s'.durable == s.durable && s'.Of(w).popped == s.Of(w).popped
            && s'.Of(w).lifecycles
               == s.Of(w).lifecycles[r := HeldFor(s, w, r)[i := Some(Proposed(s.core, JobOf(s.core.PhaseOf(w)), value))]]
  {
    CReachableOn(s, CAction.Propose(w, i, value));
    s' := CNext(s, CAction.Propose(w, i, value));
  }

  lemma DiscardStep(s: CSys, w: int)
    requires CReachable(s) && CAllowed(s, Core(ARaise(w)))
    ensures var s' := CNext(s, Core(ARaise(w)));
            && CReachable(s') && s'.durable == s.durable && s'.Of(w) == Memory(s.Of(w).lifecycles - {RunIn(s, w)}, [])
  {
    CReachableOn(s, Core(ARaise(w)));
  }

  // ---------- The worker ----------

  class CheckpointWorker {
    const id: int
    const coordinator: RunCheckpointCoordinator
    /** The state of the whole system that the coordinator's memory and the store are part of. */
    ghost var sys: CSys

    constructor (id: int, coordinator: RunCheckpointCoordinator, ghost sys: CSys)
      ensures this.id == id && this.coordinator == coordinator && this.sys == sys
    {
      this.id, this.coordinator, this.sys := id, coordinator, sys;
    }

    ghost predicate InStep()
      reads this, coordinator, coordinator.store, coordinator.Objects()
    {
      && CReachable(sys)
      && coordinator.Apart()
      && coordinator.store.durable == sys.durable
      && sys.Of(id).popped == []
      && coordinator.Contents() == sys.Of(id).lifecycles
    }

    /** A lifecycle made for the Source of the job in hand. */
    ghost predicate BoundTo(lifecycle: SourceCheckpointLifecycle)
      reads this
    {
      var j := JobOf(sys.core.PhaseOf(id));
      && j < |sys.core.db.jobs|
      && lifecycle.pipeline == sys.core.db.jobs[j].pipeline && lifecycle.component == sys.core.db.jobs[j].component
    }

    /** A Source asks for its lifecycle before it reads anything. */
    method CreateLifecycle(run: int, pipeline: int, component: Id) returns (lifecycle: SourceCheckpointLifecycle)
      requires InStep() && AtSource(sys.core, id) && run == RunIn(sys, id)
      requires var job := sys.core.db.jobs[JobOf(sys.core.PhaseOf(id))]; pipeline == job.pipeline && component == job.component
      modifies this`sys, coordinator
      ensures InStep() && sys == CNext(old(sys), Create(id))
      ensures fresh(lifecycle) && BoundTo(lifecycle)
      ensures run in coordinator.lifecycles && lifecycle in coordinator.lifecycles[run]
    {
      ghost var after := CreateStep(sys, id);
      lifecycle := coordinator.CreateLifecycle(run, pipeline, component);
      sys := after;
    }

    /** A proposal through one lifecycle changes only what is held at its place. */
    method ProposeThrough(i: nat, value: int, run: int, attempt: nat) returns (proposed: Candidate)
      requires coordinator.Apart() && run in coordinator.lifecycles && i < |coordinator.lifecycles[run]|
      modifies coordinator.lifecycles[run][i]
      ensures var l: SourceCheckpointLifecycle := coordinator.lifecycles[run][i];
              proposed == Candidate(l.pipeline, l.component, value, run, attempt)
      ensures var before := old(coordinator.Contents());
              coordinator.Contents() == before[run := before[run][i := Some(proposed)]]
    {
      var lists: map<int, seq<SourceCheckpointLifecycle>> := coordinator.lifecycles;
      ghost var before := coordinator.Contents();
      proposed := lists[run][i].Propose(value, run, attempt);
      assert Held(lists[run]) == before[run][i := Some(proposed)];
      forall r | r in lists && r != run ensures Held(lists[r]) == before[r] {
        assert lists[run][i] !in lists[r];
      }
    }

    /** The Source proposes a value through the `i`-th lifecycle of its run. */
    method Propose(i: nat, value: int, run: int, attempt: nat)
      requires InStep() && AtSource(sys.core, id) && run == RunIn(sys, id)
      requires run in coordinator.lifecycles && i < |coordinator.lifecycles[run]|
      requires BoundTo(coordinator.lifecycles[run][i])
      requires attempt == sys.core.db.jobs[JobOf(sys.core.PhaseOf(id))].attempt
      modifies this`sys, coordinator.lifecycles[run][i]
      ensures CAllowed(old(sys), CAction.Propose(id, i, value))
      ensures InStep() && sys == CNext(old(sys), CAction.Propose(id, i, value))
    {
      assert HeldFor(sys, id, run) == coordinator.Contents()[run];
      ghost var after := ProposeStep(sys, id, i, value);
      var proposed := ProposeThrough(i, value, run, attempt);
      sys := after;
    }

    /** After success has been recorded: the run is popped and each of its candidates committed, in order. */
    method CommitAfterRunSuccess(run: int, runs: map<int, Run>) returns (committed: bool)
      requires InStep() && MayPop(sys, id) && run == RunIn(sys, id) && runs == sys.core.db.runs
      modifies this`sys, coordinator, coordinator.store
      ensures InStep() && sys == Committed(old(sys), id)
      ensures committed <==> exists c :: c in old(HeldFor(sys, id, run)) && c.Some? && MayCommit(runs, run, c.value)
    {
      CommittedReach(sys, id);
      committed := coordinator.CommitAfterRunSuccess(run, runs);
      sys := Committed(sys, id);
    }

    /** An attempt fails: everything held for its run is forgotten. */
    method DiscardRun(run: int)
      requires InStep() && CAllowed(sys, Core(ARaise(id))) && run == RunIn(sys, id)
      modifies this`sys, coordinator, coordinator.Objects()
      ensures InStep() && sys == CNext(old(sys), Core(ARaise(id)))
    {
      DiscardStep(sys, id);
      coordinator.DiscardRun(run);
      sys := CNext(sys, Core(ARaise(id)));
    }

    /** What the store holds at any time comes from the attempts in which runs succeeded. */
    lemma StoredIsFromSuccess(k: (int, Id))
      requires InStep() && k in coordinator.store.durable
      ensures var c := coordinator.store.durable[k];
              && k == (c.pipeline, c.component)
              && c.run in sys.core.db.runs && sys.core.db.runs[c.run].state.Succeeded?
              && (exists j :: 0 <= j < |sys.core.db.jobs| && sys.core.db.jobs[j].run == c.run
                              && SuccessfulAttempt(sys.core.db.jobs[j], c))
    {
      OnlySuccessIsDurable(sys, k);
    }
  }
}
