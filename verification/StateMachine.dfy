/** The in-memory scheduling state of one pipeline (packages/pipeline/src/state-machine.ts). */
module StateMachine {
  import opened Wrappers
  import opened Graphs
  import opened Protocol
  import Chains

  datatype ActiveRun = ActiveRun(id: Id, running: bool, cancellationRequested: bool)

  datatype ExecutionState = ExecutionState(pipelineState: PipelineState, activeRun: Option<ActiveRun>, queuedRunIds: seq<Id>)

  datatype TransitionError = Locked | NotEnabled | NoIdentifier | AlreadyQueued | NoActiveRun | NotQueued
                           | CancelledBeforeStart | AlreadyCancelled | NotTerminal

  type Transition = Result<ExecutionState, TransitionError>

  function SetPipelineState(m: ExecutionState, ps: PipelineState): Transition {
    if m.activeRun.Some? then Err(Locked) else Ok(m.(pipelineState := ps))
  }

  predicate ContainsRun(m: ExecutionState, id: Id) {
    (m.activeRun.Some? && m.activeRun.value.id == id) || id in m.queuedRunIds
  }

  function EnqueuePipelineRun(m: ExecutionState, id: Id): Transition {
    if !m.pipelineState.Enabled? then Err(NotEnabled)
    else if id.Empty() then Err(NoIdentifier)
    else if ContainsRun(m, id) then Err(AlreadyQueued)
    else if m.activeRun.None? then Ok(m.(activeRun := Some(ActiveRun(id, false, false))))
    else Ok(m.(queuedRunIds := m.queuedRunIds + [id]))
  }

  function StartActiveRun(m: ExecutionState): Transition {
    if m.activeRun.None? then Err(NoActiveRun)
    else if m.activeRun.value.running then Err(NotQueued)
    else if m.activeRun.value.cancellationRequested then Err(CancelledBeforeStart)
    else Ok(m.(activeRun := Some(m.activeRun.value.(running := true))))
  }

  function RequestActiveRunCancellation(m: ExecutionState): Transition {
    if m.activeRun.None? then Err(NoActiveRun)
    else if m.activeRun.value.cancellationRequested then Err(AlreadyCancelled)
    else Ok(m.(activeRun := Some(m.activeRun.value.(cancellationRequested := true))))
  }

  function CompleteActiveRun(m: ExecutionState, terminal: State): Transition {
    if m.activeRun.None? then Err(NoActiveRun)
    else if terminal.Live() then Err(NotTerminal)
    else if m.queuedRunIds == [] || m.queuedRunIds[0].Empty() then Ok(m.(activeRun := None, queuedRunIds := []))
    else Ok(m.(activeRun := Some(ActiveRun(m.queuedRunIds[0], false, false)), queuedRunIds := m.queuedRunIds[1..]))
  }

  // ---------- When a transition is refused ----------

  lemma RefusedExactly(m: ExecutionState, ps: PipelineState, id: Id, terminal: State)
    ensures SetPipelineState(m, ps).Ok? <==> m.activeRun == None
    ensures EnqueuePipelineRun(m, id).Ok? <==>
              && m.pipelineState == Enabled && !id.Empty() && id !in m.queuedRunIds
              && (m.activeRun.Some? ==> m.activeRun.value.id != id)
    ensures StartActiveRun(m).Ok? <==> exists active :: m.activeRun == Some(ActiveRun(active, false, false))
    ensures RequestActiveRunCancellation(m).Ok? <==> m.activeRun.Some? && !m.activeRun.value.cancellationRequested
    ensures CompleteActiveRun(m, terminal).Ok? <==>
              m.activeRun.Some? && terminal in {Succeeded, CompletedWithWarnings, Failed, Cancelled}
  {
    if StartActiveRun(m).Ok? {
      assert m.activeRun == Some(ActiveRun(m.activeRun.value.id, false, false));
    }
  }

  // ---------- First in, first out ----------

  /** Nothing waits at an idle pipeline, and no run is held twice. */
  ghost predicate Sound(m: ExecutionState) {
    && (m.activeRun.None? ==> m.queuedRunIds == [])
    && Chains.Distinct(m.queuedRunIds) && (m.activeRun.Some? ==> m.activeRun.value.id !in m.queuedRunIds)
    && forall id :: id in m.queuedRunIds ==> !id.Empty()
  }

  lemma TransitionsKeepSound(m: ExecutionState, ps: PipelineState, id: Id, terminal: State)
    requires Sound(m)
    ensures SetPipelineState(m, ps).Ok? ==> Sound(SetPipelineState(m, ps).value)
    ensures EnqueuePipelineRun(m, id).Ok? ==> Sound(EnqueuePipelineRun(m, id).value)
    ensures StartActiveRun(m).Ok? ==> Sound(StartActiveRun(m).value)
    ensures RequestActiveRunCancellation(m).Ok? ==> Sound(RequestActiveRunCancellation(m).value)
    ensures CompleteActiveRun(m, terminal).Ok? ==> Sound(CompleteActiveRun(m, terminal).value)
  {
    if m.queuedRunIds != [] {
      assert forall k :: 0 <= k < |m.queuedRunIds| - 1 ==> m.queuedRunIds[1..][k] == m.queuedRunIds[k + 1];
    }
  }

  function EnqueueAll(m: ExecutionState, ids: seq<Id>): Transition {
    if ids == [] then Ok(m)
    else match EnqueueAll(m, ids[..|ids| - 1])
      case Err(error) => Err(error)
      case Ok(next) => EnqueuePipelineRun(next, ids[|ids| - 1])
  }

  function CompleteTimes(m: ExecutionState, n: nat, terminal: State): Transition {
    if n == 0 then Ok(m)
    else match CompleteTimes(m, n - 1, terminal)
      case Err(error) => Err(error)
      case Ok(next) => CompleteActiveRun(next, terminal)
  }

  lemma {:induction false} EnqueuedInOrder(m: ExecutionState, ids: seq<Id>)
    requires Sound(m) && m.activeRun.Some? && EnqueueAll(m, ids).Ok?
    ensures Sound(EnqueueAll(m, ids).value) && EnqueueAll(m, ids).value == m.(queuedRunIds := m.queuedRunIds + ids)
  {
    if ids != [] {
      var rest := ids[..|ids| - 1];
      EnqueuedInOrder(m, rest);
      TransitionsKeepSound(EnqueueAll(m, rest).value, Draft, ids[|ids| - 1], Succeeded);
      assert m.queuedRunIds + ids == m.queuedRunIds + rest + [ids[|ids| - 1]];
    }
  }

  lemma {:induction false} CompletedInOrder(m: ExecutionState, n: nat, terminal: State)
    requires Sound(m) && m.activeRun.Some? && n <= |m.queuedRunIds| && !terminal.Live()
    ensures n == 0 ==> CompleteTimes(m, n, terminal) == Ok(m)
    ensures n > 0 ==>
              CompleteTimes(m, n, terminal)
              == Ok(m.(activeRun := Some(ActiveRun(m.queuedRunIds[n - 1], false, false)), queuedRunIds := m.queuedRunIds[n..]))
  {
    if n > 0 {
      CompletedInOrder(m, n - 1, terminal);
      assert m.queuedRunIds[n - 1..][0] == m.queuedRunIds[n - 1];
      assert m.queuedRunIds[n - 1] in m.queuedRunIds;
      assert m.queuedRunIds[n - 1..][1..] == m.queuedRunIds[n..];
    }
  }

  /** Runs enqueued behind an active one become active one after the other, in that order; then nothing is left. */
  lemma RunsTakeTurns(m: ExecutionState, ids: seq<Id>, n: nat, terminal: State)
    requires Sound(m) && m.activeRun.Some? && EnqueueAll(m, ids).Ok? && !terminal.Live()
    requires 0 < n <= |m.queuedRunIds| + |ids|
    ensures var turn := CompleteTimes(EnqueueAll(m, ids).value, n, terminal);
            && turn.Ok? && turn.value.activeRun == Some(ActiveRun((m.queuedRunIds + ids)[n - 1], false, false))
            && |turn.value.queuedRunIds| == |m.queuedRunIds| + |ids| - n
    ensures CompleteTimes(EnqueueAll(m, ids).value, |m.queuedRunIds| + |ids| + 1, terminal)
         == Ok(m.(activeRun := None, queuedRunIds := []))
  {
    EnqueuedInOrder(m, ids);
    var full := EnqueueAll(m, ids).value;
    CompletedInOrder(full, n, terminal);
    CompletedInOrder(full, |full.queuedRunIds|, terminal);
    assert full.queuedRunIds[|full.queuedRunIds|..] == [];
  }
}
