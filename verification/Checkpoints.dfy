/** Checkpoint candidates held in a worker's memory, and the durable store (workers/python/checkpoints.py). */
module Checkpoints {
  import opened Wrappers
  import opened Graphs
  import opened Protocol

  /**
   * A proposed value for one Source of a pipeline. The run and the attempt it was proposed in are history:
   * the stored row holds only the value.
   */
  datatype Candidate = Candidate(pipeline: int, component: Id, value: int, run: int, attempt: nat)

  type Durable = map<(int, Id), Candidate>

  /** The upsert takes a candidate only from a run of its pipeline that has ended in success. */
  predicate MayCommit(runs: map<int, Run>, run: int, candidate: Candidate) {
    && run in runs
    && runs[run].pipeline == candidate.pipeline
    && (runs[run].state.Succeeded? || runs[run].state.CompletedWithWarnings?)
  }

  function Upsert(durable: Durable, candidate: Candidate): Durable {
    durable[(candidate.pipeline, candidate.component) := candidate]
  }

  function CommitOne(durable: Durable, runs: map<int, Run>, run: int, held: Option<Candidate>): Durable {
    if held.Some? && MayCommit(runs, run, held.value) then Upsert(durable, held.value) else durable
  }

  function CommitAll(durable: Durable, runs: map<int, Run>, run: int, held: seq<Option<Candidate>>): Durable {
    if held == [] then durable
    else CommitOne(CommitAll(durable, runs, run, held[..|held| - 1]), runs, run, held[|held| - 1])
  }

  /** A candidate that the store takes, for the given key. */
  ghost predicate Taken(runs: map<int, Run>, run: int, held: Option<Candidate>, key: (int, Id)) {
    && held.Some? && (held.value.pipeline, held.value.component) == key
    && run in runs && runs[run].pipeline == held.value.pipeline && runs[run].state in {Succeeded, CompletedWithWarnings}
  }

  /** Under each key the last candidate taken stays. */
  lemma {:induction false} LastTakenStays(durable: Durable, runs: map<int, Run>, run: int, held: seq<Option<Candidate>>,
                                          i: nat, key: (int, Id))
    requires i < |held| && Taken(runs, run, held[i], key) && forall k :: i < k < |held| ==> !Taken(runs, run, held[k], key)
    ensures var after := CommitAll(durable, runs, run, held); key in after && after[key] == held[i].value
    decreases |held|
  {
    var last := |held| - 1;
    if i < last {
      assert !Taken(runs, run, held[last], key);
      assert forall k :: 0 <= k < last ==> held[..last][k] == held[k];
      LastTakenStays(durable, runs, run, held[..last], i, key);
    }
  }

  /** Under the other keys stays what was there, or nothing. */
  lemma {:induction false} UntakenStays(durable: Durable, runs: map<int, Run>, run: int, held: seq<Option<Candidate>>,
                                        key: (int, Id))
    requires forall k :: 0 <= k < |held| ==> !Taken(runs, run, held[k], key)
    ensures var after := CommitAll(durable, runs, run, held);
            (key in after <==> key in durable) && (key in durable ==> after[key] == durable[key])
  {
    if held != [] {
      var last := |held| - 1;
      assert !Taken(runs, run, held[last], key);
      assert forall k :: 0 <= k < last ==> held[..last][k] == held[k];
      UntakenStays(durable, runs, run, held[..last], key);
    }
  }

  class Store {
    var durable: Durable

    constructor ()
      ensures durable == map[]
    {
      durable := map[];
    }

    method CommitIfRunSucceeded(candidate: Candidate, run: int, runs: map<int, Run>) returns (committed: bool)
      modifies this
      ensures committed <==>
                && run in runs && runs[run].pipeline == candidate.pipeline
                && (runs[run].state == Succeeded || runs[run].state == CompletedWithWarnings)
      ensures committed <==> MayCommit(runs, run, candidate)
      ensures durable == if committed then old(durable)[(candidate.pipeline, candidate.component) := candidate] else old(durable)
      ensures durable == CommitOne(old(durable), runs, run, Some(candidate))
    {
      committed := MayCommit(runs, run, candidate);
      if committed {
        durable := Upsert(durable, candidate);
      }
    }
  }

  class SourceCheckpointLifecycle {
    const pipeline: int
    const component: Id
    var candidate: Option<Candidate>

    constructor (pipeline: int, component: Id)
      ensures this.pipeline == pipeline && this.component == component && candidate == None
    {
      this.pipeline, this.component, candidate := pipeline, component, None;
    }

    method Propose(value: int, run: int, attempt: nat) returns (proposed: Candidate)
      modifies this
      ensures proposed == Candidate(pipeline, component, value, run, attempt) && candidate == Some(proposed)
    {
      proposed := Candidate(pipeline, component, value, run, attempt);
      candidate := Some(proposed);
    }

    method CommitAfterRunSuccess(store: Store, run: int, runs: map<int, Run>) returns (committed: bool)
      modifies store
      ensures store.durable == CommitOne(old(store.durable), runs, run, candidate)
      ensures committed <==> candidate.Some? && MayCommit(runs, run, candidate.value)
    {
      if candidate.None? {
        return false;
      }
      committed := store.CommitIfRunSucceeded(candidate.value, run, runs);
    }

    method Discard()
      modifies this
      ensures candidate == None
    {
      candidate := None;
    }
  }

  /** The candidates behind a list of lifecycles. */
  ghost function Held(lifecycles: seq<SourceCheckpointLifecycle>): (held: seq<Option<Candidate>>)
    reads lifecycles
    ensures |held| == |lifecycles| && forall i :: 0 <= i < |held| ==> held[i] == lifecycles[i].candidate
  {
    seq(|lifecycles|, i requires 0 <= i < |lifecycles| reads lifecycles => lifecycles[i].candidate)
  }

  ghost predicate ListsApart(lists: map<int, seq<SourceCheckpointLifecycle>>) {
    && (forall r, i, j :: r in lists && 0 <= i < j < |lists[r]| ==> lists[r][i] != lists[r][j])
    && (forall r, q, i, j :: r in lists && q in lists && r != q && 0 <= i < |lists[r]| && 0 <= j < |lists[q]|
          ==> lists[r][i] != lists[q][j])
  }

  lemma OneMoreApart(lists: map<int, seq<SourceCheckpointLifecycle>>, run: int, lifecycle: SourceCheckpointLifecycle)
    requires forall r :: r in lists ==> lifecycle !in lists[r]
    ensures ListsApart(lists) ==> ListsApart(lists[run := (if run in lists then lists[run] else []) + [lifecycle]])
  {
  }

  lemma OthersApart(lists: map<int, seq<SourceCheckpointLifecycle>>, run: int)
    requires ListsApart(lists) && run in lists
    ensures forall r, l :: r in lists && r != run && l in lists[r] ==> l !in lists[run]
  {
  }

  class RunCheckpointCoordinator {
    const store: Store
    var lifecycles: map<int, seq<SourceCheckpointLifecycle>>

    constructor (store: Store)
      ensures this.store == store && lifecycles == map[]
    {
      this.store, lifecycles := store, map[];
    }

    /** The lifecycles of all runs. */
    ghost function Objects(): set<SourceCheckpointLifecycle>
      reads this
    {
      set r, i | r in lifecycles && 0 <= i < |lifecycles[r]| :: lifecycles[r][i]
    }

    /** No lifecycle is kept twice. */
    ghost predicate Apart()
      reads this
    {
      ListsApart(lifecycles)
    }

    /** The candidates pending for a run. */
    ghost function Pending(run: int): seq<Option<Candidate>>
      reads this, if run in lifecycles then lifecycles[run] else []
    {
      if run in lifecycles then Held(lifecycles[run]) else []
    }

    /** The candidates pending for every run. */
    ghost function Contents(): map<int, seq<Option<Candidate>>>
      reads this, Objects()
    {
      map r | r in lifecycles :: Held(lifecycles[r])
    }

    /** The candidates of the other runs are as they were while their lifecycles are. */
    twostate lemma OthersStand(run: int)
      requires forall r :: r in lifecycles && r != run ==>
                 r in old(lifecycles) && lifecycles[r] == old(lifecycles)[r] && forall l :: l in lifecycles[r] ==> l.candidate == old(l.candidate)
      ensures forall r :: r in lifecycles && r != run ==> Held(lifecycles[r]) == old(Held(lifecycles[r]))
    {
    }

    method CreateLifecycle(run: int, pipeline: int, component: Id) returns (lifecycle: SourceCheckpointLifecycle)
      modifies this
      ensures fresh(lifecycle) && lifecycle.pipeline == pipeline && lifecycle.component == component
      ensures run in lifecycles
      ensures lifecycles == old(lifecycles)[run := (if run in old(lifecycles) then old(lifecycles)[run] else []) + [lifecycle]]
      ensures Contents() == old(Contents())[run := old(Pending(run)) + [None]]
      ensures old(Apart()) ==> Apart()
    {
      lifecycle := new SourceCheckpointLifecycle(pipeline, component);
      lifecycles := lifecycles[run := (if run in lifecycles then lifecycles[run] else []) + [lifecycle]];
      assert Held(lifecycles[run]) == old(Pending(run)) + [None];
      OthersStand(run);
      OneMoreApart(old(lifecycles), run, lifecycle);
    }

    /** Forgets the run's lifecycles and commits what they held, one transaction each, in order. */
    method CommitAfterRunSuccess(run: int, runs: map<int, Run>) returns (committed: bool)
      modifies this, store
      ensures lifecycles == old(lifecycles) - {run} && Contents() == old(Contents()) - {run}
      ensures store.durable == CommitAll(old(store.durable), runs, run, old(Pending(run)))
      ensures committed <==> exists c :: c in old(Pending(run)) && c.Some? && MayCommit(runs, run, c.value)
    {
      committed := false;
      var popped := if run in lifecycles then lifecycles[run] else [];
      lifecycles := lifecycles - {run};
      ghost var held := Held(popped);
      for i := 0 to |popped|
        modifies store
        invariant Held(popped) == held
        invariant store.durable == CommitAll(old(store.durable), runs, run, held[..i])
        invariant committed <==> exists c :: c in held[..i] && c.Some? && MayCommit(runs, run, c.value)
      {
        var now := popped[i].CommitAfterRunSuccess(store, run, runs);
        assert held[..i + 1][..i] == held[..i];
        committed := now || committed;
      }
      assert held[..|popped|] == held;
    }

    /** Forgets the run's lifecycles and empties them, so nobody still holding one can commit it. */
    method DiscardRun(run: int)
      modifies this, if run in lifecycles then lifecycles[run] else []
      ensures lifecycles == old(lifecycles) - {run}
      ensures old(Apart()) ==> Contents() == old(Contents()) - {run}
      ensures run in old(lifecycles) ==> forall l :: l in old(lifecycles)[run] ==> l.candidate == None
    {
      var popped := if run in lifecycles then lifecycles[run] else [];
      lifecycles := lifecycles - {run};
      for i := 0 to |popped|
        modifies popped
        invariant forall k :: 0 <= k < i ==> popped[k].candidate == None
      {
        popped[i].Discard();
      }
      if old(Apart()) && run in old(lifecycles) {
        OthersApart(old(lifecycles), run);
      }
      if old(Apart()) {
        OthersStand(run);
      }
    }
  }
}
