/** Claims of due schedules by any number of scheduler passes (apps/scheduler/src/schedule-claims.ts). */
module Schedules {
  import opened Wrappers
  import opened Graphs
  import opened Protocol
  import opened ProtocolFrames
  import opened ProtocolInvariant
  import opened ProtocolTheorems

  /** The next occurrence of a cron expression in a time zone, strictly after the given time. */
  type Successor = (string, string, int) -> int

  ghost predicate StrictlyLater(successor: Successor) {
    forall cron, timezone, after :: successor(cron, timezone, after) > after
  }

  datatype Trigger = Trigger(pipeline: int, cron: string, timezone: string, enabled: bool,
                             nextRunAt: Option<int>, lastClaimedAt: Option<int>)

  /** One occurrence reserved by one pass. */
  datatype Claim = Claim(trigger: int, scheduledFor: int, claimedAt: int, run: int)

  /** What a trigger was set up with; the claims made so far and the set-up are history. */
  datatype Setup = Setup(cron: string, timezone: string, first: int)

  datatype SSys = SSys(core: Sys, triggers: map<int, Trigger>, setups: map<int, Setup>, claims: seq<Claim>)

  datatype SAction =
    | SCore(a: Action)
    | Install(t: int, trigger: Trigger)
    | SetEnabled(t: int, enabled: bool)
    | Remove(t: int)
    | ClaimDue(t: int, r: int, promoted: Option<int>, retry: Retry, now: int)

  /** The row selection of a pass. */
  predicate Due(triggers: map<int, Trigger>, pipelines: map<int, Pipeline>, t: int, now: int) {
    && t in triggers && triggers[t].enabled
    && triggers[t].nextRunAt.Some? && triggers[t].nextRunAt.value <= now
    && triggers[t].pipeline in pipelines && pipelines[triggers[t].pipeline].state.Enabled?
  }

  function ClaimRequest(trigger: Trigger, t: int): RunRequest {
    RunRequest(trigger.pipeline, trigger.nextRunAt, Some(t))
  }

  function Advance(trigger: Trigger, now: int, successor: Successor): Trigger
    requires trigger.nextRunAt.Some?
  {
    trigger.(lastClaimedAt := Some(now),
             nextRunAt := Some(successor(trigger.cron, trigger.timezone, trigger.nextRunAt.value)))
  }

  ghost predicate SAllowed(s: SSys, a: SAction) {
    match a
    // Runs that are not claimed from a schedule have no time and no trigger; a trigger goes only by Remove.
    case SCore(c) =>
      && Allowed(s.core, c) && !c.ADropTrigger?
      && (c.ACreateRun? ==> c.request.trigger.None? && c.request.scheduledFor.None?)
    case Install(t, trigger) => t !in s.setups && t !in s.triggers && trigger.nextRunAt.Some?
    case SetEnabled(t, _) => t in s.triggers
    case Remove(t) => t in s.triggers
    case ClaimDue(t, r, promoted, retry, now) =>
      && Due(s.triggers, s.core.db.pipelines, t, now)
      && Allowed(s.core, ACreateRun(ClaimRequest(s.triggers[t], t), r, promoted, retry, now))
  }

  ghost function SNext(s: SSys, a: SAction, successor: Successor): SSys
    requires SAllowed(s, a)
  {
    match a
    case SCore(c) => s.(core := Next(s.core, c))
    case Install(t, trigger) =>
      s.(triggers := s.triggers[t := trigger],
         setups := s.setups[t := Setup(trigger.cron, trigger.timezone, trigger.nextRunAt.value)])
    case SetEnabled(t, enabled) => s.(triggers := s.triggers[t := s.triggers[t].(enabled := enabled)])
    case Remove(t) => s.(core := Next(s.core, ADropTrigger(t)), triggers := s.triggers - {t})
    case ClaimDue(t, r, promoted, retry, now) =>
      var trigger := s.triggers[t];
      s.(core := Next(s.core, ACreateRun(ClaimRequest(trigger, t), r, promoted, retry, now)),
         triggers := s.triggers[t := Advance(trigger, now, successor)],
         claims := s.claims + [Claim(t, trigger.nextRunAt.value, now, r)])
  }

  const SEmpty := SSys(Empty, map[], map[], [])

  ghost predicate SExecution(states: seq<SSys>, actions: seq<SAction>, successor: Successor) {
    && |states| == |actions| + 1
    && states[0] == SEmpty
    && forall i :: 0 <= i < |actions| ==>
         SAllowed(states[i], actions[i]) && states[i + 1] == SNext(states[i], actions[i], successor)
  }

  ghost predicate SReachable(s: SSys, successor: Successor) {
    exists states, actions :: SExecution(states, actions, successor) && states[|states| - 1] == s
  }

  // ---------- Invariant ----------

  /** The n-th occurrence of a schedule, counted from its first. */
  function Occurrence(successor: Successor, setup: Setup, n: nat): int {
    if n == 0 then setup.first else successor(setup.cron, setup.timezone, Occurrence(successor, setup, n - 1))
  }

  /** The occurrences claimed for a trigger, in the order of the claims. */
  function ClaimedFor(claims: seq<Claim>, t: int): seq<int> {
    if claims == [] then []
    else ClaimedFor(claims[..|claims| - 1], t)
         + (if claims[|claims| - 1].trigger == t then [claims[|claims| - 1].scheduledFor] else [])
  }

  ghost predicate IsPrefixOfSchedule(successor: Successor, setup: Setup, claimed: seq<int>) {
    forall i :: 0 <= i < |claimed| ==> claimed[i] == Occurrence(successor, setup, i)
  }

  ghost predicate TriggersInv(s: SSys, successor: Successor) {
    && (forall t :: t in s.setups ==> IsPrefixOfSchedule(successor, s.setups[t], ClaimedFor(s.claims, t)))
    && (forall t :: t in s.triggers ==>
          && t in s.setups
          && s.triggers[t].cron == s.setups[t].cron && s.triggers[t].timezone == s.setups[t].timezone
          && s.triggers[t].nextRunAt == Some(Occurrence(successor, s.setups[t], |ClaimedFor(s.claims, t)|)))
    && (forall i :: 0 <= i < |s.claims| ==> s.claims[i].trigger in s.setups)
  }

  ghost predicate ClaimHasRun(s: SSys, c: Claim) {
    && c.run in s.core.db.runs
    && s.core.db.runs[c.run].scheduledFor == Some(c.scheduledFor)
    && s.core.db.runs[c.run].trigger == (if c.trigger in s.triggers then Some(c.trigger) else None)
    && c.scheduledFor <= c.claimedAt && c.trigger in s.setups
  }

  ghost predicate HasClaim(s: SSys, r: int) {
    exists i :: 0 <= i < |s.claims| && s.claims[i].run == r
  }

  /** Claims and scheduled runs are one to one. */
  ghost predicate ClaimRunsInv(s: SSys) {
    && (forall i :: 0 <= i < |s.claims| ==> ClaimHasRun(s, s.claims[i]))
    && (forall i, j :: 0 <= i < j < |s.claims| ==> s.claims[i].run != s.claims[j].run)
    && (forall r :: r in s.core.db.runs && s.core.db.runs[r].scheduledFor.Some? ==> HasClaim(s, r))
    && s.triggers.Keys <= s.setups.Keys
  }

  ghost predicate SInv(s: SSys, successor: Successor) {
    TriggersInv(s, successor) && ClaimRunsInv(s)
  }

  // ---------- Steps ----------

  /** The trigger and the schedule of a run are written once, and only the creating step adds runs. */
  lemma RunOriginStays(s: Sys, a: Action)
    requires Allowed(s, a)
    ensures var runs, runs' := s.db.runs, Next(s, a).db.runs;
            && (forall r :: r in runs ==> r in runs' && runs'[r].scheduledFor == runs[r].scheduledFor)
            && (!a.ADropTrigger? ==> forall r :: r in runs ==> runs'[r].trigger == runs[r].trigger)
            && (forall r :: r in runs' && r !in runs ==>
                  a.ACreateRun? && r == a.r && runs'[r].trigger == a.request.trigger
                  && runs'[r].scheduledFor == a.request.scheduledFor)
            && (a.ACreateRun? ==> a.r !in runs && a.r in runs')
  {
    if a.ACreateRun? {
      CreatedOrigin(s.db, a.request, a.r, a.promoted, a.retry, a.now);
    } else if a.APromote? {
      PromotedOrigin(s.db, a.p, a.promoted, a.retry, a.now);
    } else if WritesRuns(a) {
      StatementsKeepOrigin(s, a);
    } else if EditsPipelines(a) {
      EditsLeaveRows(s, a);
    } else {
      RunsLeft(s, a);
    }
  }

  lemma StatementsKeepOrigin(s: Sys, a: Action)
    requires Allowed(s, a) && WritesRuns(a)
    ensures var runs, runs' := s.db.runs, Next(s, a).db.runs;
            && runs'.Keys == runs.Keys
            && (forall r :: r in runs ==> runs'[r].scheduledFor == runs[r].scheduledFor)
            && (!a.ADropTrigger? ==> forall r :: r in runs ==> runs'[r].trigger == runs[r].trigger)
  {
    StatementsInsertNothing(s, a);
    forall r | r in s.db.runs
      ensures Next(s, a).db.runs[r].scheduledFor == s.db.runs[r].scheduledFor
      ensures !a.ADropTrigger? ==> Next(s, a).db.runs[r].trigger == s.db.runs[r].trigger
    {
      RowKeepsOrigin(s, a, r);
    }
  }

  lemma StatementsInsertNothing(s: Sys, a: Action)
    requires Allowed(s, a) && WritesRuns(a)
    ensures Next(s, a).db.runs.Keys == s.db.runs.Keys
  {
  }

  lemma RowKeepsOrigin(s: Sys, a: Action, r: int)
    requires Allowed(s, a) && WritesRuns(a) && r in s.db.runs && r in Next(s, a).db.runs
    ensures Next(s, a).db.runs[r].scheduledFor == s.db.runs[r].scheduledFor
    ensures !a.ADropTrigger? ==> Next(s, a).db.runs[r].trigger == s.db.runs[r].trigger
  {
  }

  lemma CreatedOrigin(db: Db, request: RunRequest, x: int, promoted: Option<int>, retry: Retry, now: int)
    requires CanCreateRun(db, request, x, promoted)
    ensures var runs, runs' := db.runs, CreateRun(db, request, x, promoted, retry, now).runs;
            && runs'.Keys == runs.Keys + {x}
            && runs'[x].trigger == request.trigger && runs'[x].scheduledFor == request.scheduledFor
            && (forall r :: r in runs ==> runs'[r].trigger == runs[r].trigger && runs'[r].scheduledFor == runs[r].scheduledFor)
  {
  }

  lemma PromotedOrigin(db: Db, p: int, promoted: Option<int>, retry: Retry, now: int)
    requires CanPromote(db, p, promoted)
    ensures var runs, runs' := db.runs, Promote(db, p, promoted, retry, now).runs;
            && runs'.Keys == runs.Keys
            && (forall r :: r in runs ==> runs'[r].trigger == runs[r].trigger && runs'[r].scheduledFor == runs[r].scheduledFor)
  {
  }

  lemma CoreKeeps(s: SSys, c: Action, successor: Successor)
    requires SInv(s, successor) && SAllowed(s, SCore(c))
    ensures SInv(SNext(s, SCore(c), successor), successor)
  {
    var s' := SNext(s, SCore(c), successor);
    RunOriginStays(s.core, c);
    forall i | 0 <= i < |s'.claims| ensures ClaimHasRun(s', s'.claims[i]) {
      assert ClaimHasRun(s, s.claims[i]);
    }
    forall r | r in s'.core.db.runs && s'.core.db.runs[r].scheduledFor.Some? ensures HasClaim(s', r) {
      assert HasClaim(s, r);
    }
  }

  lemma {:induction false} NotClaimedYet(claims: seq<Claim>, t: int)
    requires forall i :: 0 <= i < |claims| ==> claims[i].trigger != t
    ensures ClaimedFor(claims, t) == []
  {
    if claims != [] {
      NotClaimedYet(claims[..|claims| - 1], t);
    }
  }

  lemma ClaimedOneMore(claims: seq<Claim>, c: Claim, t: int)
    ensures ClaimedFor(claims + [c], t) == ClaimedFor(claims, t) + (if c.trigger == t then [c.scheduledFor] else [])
  {
    assert (claims + [c])[..|claims|] == claims;
  }

  lemma InstallKeeps(s: SSys, a: SAction, successor: Successor)
    requires SInv(s, successor) && SAllowed(s, a) && a.Install?
    ensures SInv(SNext(s, a, successor), successor)
  {
    NotClaimedYet(s.claims, a.t);
    RunsStillClaimed(s, SNext(s, a, successor));
  }

  lemma SetEnabledKeeps(s: SSys, a: SAction, successor: Successor)
    requires SInv(s, successor) && SAllowed(s, a) && a.SetEnabled?
    ensures SInv(SNext(s, a, successor), successor)
  {
    RunsStillClaimed(s, SNext(s, a, successor));
  }

  /** The runs of a removed trigger lose their reference to it in the same step. */
  lemma RemoveKeeps(s: SSys, a: SAction, successor: Successor)
    requires SInv(s, successor) && SAllowed(s, a) && a.Remove?
    ensures SInv(SNext(s, a, successor), successor)
  {
    RunsStillClaimed(s, SNext(s, a, successor));
  }

  function Standing(trigger: Option<int>, removed: set<int>): Option<int> {
    if trigger.Some? && trigger.value in removed then None else trigger
  }

  ghost predicate SameRunsButTriggers(s: SSys, s': SSys) {
    && s'.core.db.runs.Keys == s.core.db.runs.Keys
    && (forall r :: r in s.core.db.runs ==>
          && s'.core.db.runs[r].scheduledFor == s.core.db.runs[r].scheduledFor
          && s'.core.db.runs[r].trigger == Standing(s.core.db.runs[r].trigger, s.triggers.Keys - s'.triggers.Keys))
  }

  lemma RunsStillClaimed(s: SSys, s': SSys)
    requires ClaimRunsInv(s) && s'.claims == s.claims && s.setups.Keys <= s'.setups.Keys && s'.triggers.Keys <= s'.setups.Keys
    requires SameRunsButTriggers(s, s') && s'.triggers.Keys * s.setups.Keys <= s.triggers.Keys
    ensures ClaimRunsInv(s')
  {
    forall i | 0 <= i < |s'.claims| ensures ClaimHasRun(s', s'.claims[i]) {
      assert ClaimHasRun(s, s.claims[i]);
    }
    forall r | r in s'.core.db.runs && s'.core.db.runs[r].scheduledFor.Some? ensures HasClaim(s', r) {
      assert HasClaim(s, r);
    }
  }

  lemma NextOccurrence(claims: seq<Claim>, c: Claim, t: int, setup: Setup, successor: Successor)
    requires IsPrefixOfSchedule(successor, setup, ClaimedFor(claims, t))
    requires c.trigger == t ==> c.scheduledFor == Occurrence(successor, setup, |ClaimedFor(claims, t)|)
    ensures IsPrefixOfSchedule(successor, setup, ClaimedFor(claims + [c], t))
    ensures |ClaimedFor(claims + [c], t)| == |ClaimedFor(claims, t)| + (if c.trigger == t then 1 else 0)
  {
    ClaimedOneMore(claims, c, t);
  }

  /** The claimed occurrence is the one the trigger stands at, and the trigger moves to the one after. */
  lemma AdvanceKeepsTriggers(s: SSys, s': SSys, c: Claim, successor: Successor)
    requires TriggersInv(s, successor) && c.trigger in s.triggers
    requires s'.setups == s.setups && s'.claims == s.claims + [c]
    requires c.scheduledFor == s.triggers[c.trigger].nextRunAt.value
    requires s'.triggers == s.triggers[c.trigger := Advance(s.triggers[c.trigger], c.claimedAt, successor)]
    ensures TriggersInv(s', successor)
  {
    forall t | t in s'.setups
      ensures IsPrefixOfSchedule(successor, s'.setups[t], ClaimedFor(s'.claims, t))
      ensures |ClaimedFor(s'.claims, t)| == |ClaimedFor(s.claims, t)| + (if c.trigger == t then 1 else 0)
    {
      NextOccurrence(s.claims, c, t, s.setups[t], successor);
    }
  }

  lemma ClaimKeepsTriggers(s: SSys, a: SAction, successor: Successor)
    requires TriggersInv(s, successor) && SAllowed(s, a) && a.ClaimDue?
    ensures TriggersInv(SNext(s, a, successor), successor)
  {
    var c := Claim(a.t, s.triggers[a.t].nextRunAt.value, a.now, a.r);
    AdvanceKeepsTriggers(s, SNext(s, a, successor), c, successor);
  }

  /** A claim comes with a new run that carries its trigger and its time. */
  lemma ClaimWithRun(s: SSys, s': SSys, c: Claim)
    requires ClaimRunsInv(s) && s'.claims == s.claims + [c] && s'.setups == s.setups && s'.triggers.Keys == s.triggers.Keys
    requires c.trigger in s.triggers && c.scheduledFor <= c.claimedAt
    requires var runs, runs' := s.core.db.runs, s'.core.db.runs;
             && c.run !in runs && runs'.Keys == runs.Keys + {c.run}
             && runs'[c.run].trigger == Some(c.trigger) && runs'[c.run].scheduledFor == Some(c.scheduledFor)
             && forall r :: r in runs ==> runs'[r].trigger == runs[r].trigger && runs'[r].scheduledFor == runs[r].scheduledFor
    ensures ClaimRunsInv(s')
  {
    forall i | 0 <= i < |s.claims| ensures ClaimHasRun(s', s.claims[i]) && s.claims[i].run != c.run {
      assert ClaimHasRun(s, s.claims[i]);
    }
    forall r | r in s'.core.db.runs && s'.core.db.runs[r].scheduledFor.Some? ensures HasClaim(s', r) {
      if r == c.run {
        assert s'.claims[|s.claims|].run == r;
      } else {
        assert HasClaim(s, r);
        var i :| 0 <= i < |s.claims| && s.claims[i].run == r;
        assert s'.claims[i].run == r;
      }
    }
  }

  lemma ClaimKeepsRuns(s: SSys, a: SAction, successor: Successor)
    requires ClaimRunsInv(s) && SAllowed(s, a) && a.ClaimDue?
    ensures ClaimRunsInv(SNext(s, a, successor))
  {
    var trigger := s.triggers[a.t];
    CreatedOrigin(s.core.db, ClaimRequest(trigger, a.t), a.r, a.promoted, a.retry, a.now);
    ClaimWithRun(s, SNext(s, a, successor), Claim(a.t, trigger.nextRunAt.value, a.now, a.r));
  }

  lemma SNextKeeps(s: SSys, a: SAction, successor: Successor)
    requires SInv(s, successor) && SAllowed(s, a)
    ensures SInv(SNext(s, a, successor), successor)
  {
    match a {
      case SCore(c) => CoreKeeps(s, c, successor);
      case ClaimDue(_, _, _, _, _) =>
        ClaimKeepsTriggers(s, a, successor);
        ClaimKeepsRuns(s, a, successor);
      case Install(_, _) => InstallKeeps(s, a, successor);
      case SetEnabled(_, _) => SetEnabledKeeps(s, a, successor);
      case Remove(_) => RemoveKeeps(s, a, successor);
    }
  }

  lemma {:induction false} SExecutionKeeps(states: seq<SSys>, actions: seq<SAction>, successor: Successor, n: nat)
    requires SExecution(states, actions, successor) && n < |states|
    ensures SInv(states[n], successor)
  {
    if n > 0 {
      SExecutionKeeps(states, actions, successor, n - 1);
      SNextKeeps(states[n - 1], actions[n - 1], successor);
      assert states[n - 1 + 1] == SNext(states[n - 1], actions[n - 1], successor);
    } else {
      assert SInv(SEmpty, successor);
    }
  }

  lemma SReachableIsSound(s: SSys, successor: Successor)
    requires SReachable(s, successor)
    ensures SInv(s, successor)
  {
    var states, actions :| SExecution(states, actions, successor) && states[|states| - 1] == s;
    SExecutionKeeps(states, actions, successor, |states| - 1);
  }

  // ---------- Exactly once ----------

  lemma {:induction false} OccurrencesGrow(successor: Successor, setup: Setup, i: nat, j: nat)
    requires StrictlyLater(successor) && i < j
    ensures Occurrence(successor, setup, i) < Occurrence(successor, setup, j)
    decreases j
  {
    if i < j - 1 {
      OccurrencesGrow(successor, setup, i, j - 1);
    }
  }

  /**
   * Over any interleaving of passes, the occurrences claimed for a trigger are the consecutive ones from its first:
   * no gap and no repeat. The next one due follows them.
   */
  lemma OccurrencesAreClaimedInTurn(s: SSys, successor: Successor, t: int)
    requires SReachable(s, successor) && t in s.setups
    ensures var claimed := ClaimedFor(s.claims, t);
            && (forall i :: 0 <= i < |claimed| ==> claimed[i] == Occurrence(successor, s.setups[t], i))
            && (t in s.triggers ==> s.triggers[t].nextRunAt == Some(Occurrence(successor, s.setups[t], |claimed|)))
            && (StrictlyLater(successor) ==> forall i, j :: 0 <= i < j < |claimed| ==> claimed[i] < claimed[j])
  {
    SReachableIsSound(s, successor);
    var claimed := ClaimedFor(s.claims, t);
    assert IsPrefixOfSchedule(successor, s.setups[t], claimed);
    if StrictlyLater(successor) {
      forall i, j | 0 <= i < j < |claimed| ensures claimed[i] < claimed[j] {
        OccurrencesGrow(successor, s.setups[t], i, j);
      }
    }
  }

  lemma {:induction false} ClaimedAt(claims: seq<Claim>, t: int, i: nat)
    requires i < |claims| && claims[i].trigger == t
    ensures var n := |ClaimedFor(claims[..i], t)|;
            n < |ClaimedFor(claims, t)| && ClaimedFor(claims, t)[n] == claims[i].scheduledFor
    decreases |claims|
  {
    var last := |claims| - 1;
    if i < last {
      ClaimedAt(claims[..last], t, i);
      assert claims[..last][..i] == claims[..i];
    }
  }

  lemma {:induction false} NoneClaimedBetween(claims: seq<Claim>, t: int, i: nat, j: nat)
    requires i <= j <= |claims| && forall k :: i <= k < j ==> claims[k].trigger != t
    ensures ClaimedFor(claims[..j], t) == ClaimedFor(claims[..i], t)
    decreases j
  {
    if i < j {
      NoneClaimedBetween(claims, t, i, j - 1);
      assert claims[..j][..j - 1] == claims[..j - 1];
    }
  }

  /** The claims of a trigger one by one: the first is its first occurrence, and each other one succeeds the one before. */
  lemma ClaimSucceedsClaim(s: SSys, successor: Successor, t: int, j: nat)
    requires SReachable(s, successor) && j < |s.claims| && s.claims[j].trigger == t
    ensures t in s.setups
    ensures (forall k :: 0 <= k < j ==> s.claims[k].trigger != t) ==> s.claims[j].scheduledFor == s.setups[t].first
    ensures forall i :: 0 <= i < j && s.claims[i].trigger == t && (forall k :: i < k < j ==> s.claims[k].trigger != t) ==>
              s.claims[j].scheduledFor == successor(s.setups[t].cron, s.setups[t].timezone, s.claims[i].scheduledFor)
  {
    SReachableIsSound(s, successor);
    assert IsPrefixOfSchedule(successor, s.setups[t], ClaimedFor(s.claims, t));
    ClaimedAt(s.claims, t, j);
    if forall k :: 0 <= k < j ==> s.claims[k].trigger != t {
      NoneClaimedBetween(s.claims, t, 0, j);
    }
    forall i | 0 <= i < j && s.claims[i].trigger == t && (forall k :: i < k < j ==> s.claims[k].trigger != t)
      ensures s.claims[j].scheduledFor == successor(s.setups[t].cron, s.setups[t].timezone, s.claims[i].scheduledFor)
    {
      ClaimedAt(s.claims, t, i);
      OneClaimFurther(s.claims, t, i, j);
    }
  }

  lemma OneClaimFurther(claims: seq<Claim>, t: int, i: nat, j: nat)
    requires i < j <= |claims| && claims[i].trigger == t && forall k :: i < k < j ==> claims[k].trigger != t
    ensures |ClaimedFor(claims[..j], t)| == |ClaimedFor(claims[..i], t)| + 1
  {
    NoneClaimedBetween(claims, t, i + 1, j);
    assert claims[..i + 1] == claims[..i] + [claims[i]];
    ClaimedOneMore(claims[..i], claims[i], t);
  }

  /** A trigger stands at its first occurrence until that is claimed, and then at the one after the last claim. */
  lemma TriggerStandsNext(s: SSys, successor: Successor, t: int)
    requires SReachable(s, successor) && t in s.triggers
    ensures t in s.setups && s.triggers[t].cron == s.setups[t].cron && s.triggers[t].timezone == s.setups[t].timezone
    ensures (forall k :: 0 <= k < |s.claims| ==> s.claims[k].trigger != t) ==> s.triggers[t].nextRunAt == Some(s.setups[t].first)
    ensures forall i :: 0 <= i < |s.claims| && s.claims[i].trigger == t
                        && (forall k :: i < k < |s.claims| ==> s.claims[k].trigger != t) ==>
              s.triggers[t].nextRunAt == Some(successor(s.setups[t].cron, s.setups[t].timezone, s.claims[i].scheduledFor))
  {
    SReachableIsSound(s, successor);
    var claims := s.claims;
    assert claims[..|claims|] == claims;
    if forall k :: 0 <= k < |claims| ==> claims[k].trigger != t {
      NoneClaimedBetween(claims, t, 0, |claims|);
    }
    forall i | 0 <= i < |claims| && claims[i].trigger == t && (forall k :: i < k < |claims| ==> claims[k].trigger != t)
      ensures s.triggers[t].nextRunAt == Some(successor(s.setups[t].cron, s.setups[t].timezone, claims[i].scheduledFor))
    {
      ClaimedAt(claims, t, i);
      OneClaimFurther(claims, t, i, |claims|);
      assert IsPrefixOfSchedule(successor, s.setups[t], ClaimedFor(claims, t));
    }
  }

  /**
   * Each claim made one run for its occurrence, not before it was due, and runs with a scheduled time come from
   * nowhere else. The run names its trigger for as long as the trigger is there.
   */
  lemma EachClaimMakesOneRun(s: SSys, successor: Successor)
    requires SReachable(s, successor)
    ensures forall i :: 0 <= i < |s.claims| ==> ClaimHasRun(s, s.claims[i])
    ensures forall i, j :: 0 <= i < j < |s.claims| ==> s.claims[i].run != s.claims[j].run
    ensures forall r :: r in s.core.db.runs && s.core.db.runs[r].scheduledFor.Some? ==>
              exists i :: 0 <= i < |s.claims| && s.claims[i].run == r
  {
    SReachableIsSound(s, successor);
    forall r | r in s.core.db.runs && s.core.db.runs[r].scheduledFor.Some?
      ensures exists i :: 0 <= i < |s.claims| && s.claims[i].run == r
    {
      assert HasClaim(s, r);
    }
  }
}
