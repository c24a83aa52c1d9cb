/** What the enable-time check reports, entry by entry (packages/pipeline/src/executable-validation.ts). */
module ExecutableReport {
  import opened Wrappers
  import opened Graphs
  import opened Topologies
  import opened Chains
  import opened ExecutableCheck

  // ---------- Components ----------

  predicate HasNoAt(version: string) {
    forall i :: 0 <= i < |version| ==> version[i] != '@'
  }

  /** Unless a version contains the sign between the two, a key stands for one type and one version. */
  lemma KeysTellComponentsApart(a: Step, b: Step)
    requires HasNoAt(a.componentVersion) && HasNoAt(b.componentVersion)
    ensures ComponentKey(a) == ComponentKey(b) <==>
            a.componentType == b.componentType && a.componentVersion == b.componentVersion
  {
    if ComponentKey(a) == ComponentKey(b) {
      if |a.componentType| < |b.componentType| {
        TypesEndAtSign(a, b);
      } else if |b.componentType| < |a.componentType| {
        TypesEndAtSign(b, a);
      }
      assert ComponentKey(a)[..|a.componentType|] == a.componentType;
      assert ComponentKey(b)[..|b.componentType|] == b.componentType;
      assert ComponentKey(a)[|a.componentType| + 1..] == a.componentVersion;
      assert ComponentKey(b)[|b.componentType| + 1..] == b.componentVersion;
    }
  }

  lemma TypesEndAtSign(a: Step, b: Step)
    requires |a.componentType| < |b.componentType| && HasNoAt(a.componentVersion)
    ensures ComponentKey(a) != ComponentKey(b)
  {
    assert ComponentKey(b)[|b.componentType|] == '@';
    if |b.componentType| < |ComponentKey(a)| {
      assert ComponentKey(a)[|b.componentType|] == a.componentVersion[|b.componentType| - |a.componentType| - 1];
    }
  }

  /** A step whose component is not installed has that fault alone; otherwise one for each key the catalog finds, in order. */
  lemma FaultsAreKeys<M>(s: Step, catalog: Catalog<M>)
    ensures s.componentType + "@" + s.componentVersion !in catalog.metadata ==> Faults(s, catalog) == [Unavailable(s.id)]
    ensures s.componentType + "@" + s.componentVersion in catalog.metadata ==>
              var keys := catalog.faults(s, catalog.metadata[s.componentType + "@" + s.componentVersion]);
              && |Faults(s, catalog)| == |keys|
              && forall k :: 0 <= k < |keys| ==> Faults(s, catalog)[k] == Misconfigured(s.id, keys[k])
  {
  }

  // ---------- The entries in turn ----------

  /** Wrong numbers of Sources and of Exports make one entry each, that for the Sources first. */
  lemma CountsInTurn(sources: seq<Step>, exports: seq<Step>)
    ensures var report := CountReport(sources, exports);
            && |report| == (if |sources| == 1 then 0 else 1) + (if |exports| == 1 then 0 else 1)
            && (|sources| == 0 ==> report[0] == MissingSource)
            && (|sources| > 1 ==> report[0] == MultipleSources(IdsOf(sources)))
            && (|exports| == 0 ==> report[|report| - 1] == MissingExport)
            && (|exports| > 1 ==> report[|report| - 1] == MultipleExports(IdsOf(exports)))
  {
  }

  /** Each step adds its branching and then its faults to what the steps before it have reported. */
  lemma StepsInTurn<M>(g: Graph, catalog: Catalog<M>, i: nat)
    requires i < |g.steps|
    ensures StepReport(g, catalog, 0) == []
    ensures var id := g.steps[i].id;
            var branching: seq<Violation> :=
              if |EdgesFrom(g.edges, id)| > 1 || |EdgesTo(g.edges, id)| > 1 then [Branching(id)] else [];
            StepReport(g, catalog, i + 1) == StepReport(g, catalog, i) + branching + Faults(g.steps[i], catalog)
  {
  }

  /** A step off the walk is reported once for each time it is listed, in list order; the others are not. */
  lemma {:induction false} OffInTurn(steps: seq<Step>, n: nat, walk: seq<Id>, i: nat)
    requires i < n <= |steps|
    ensures |OffReport(steps, 0, walk)| == 0
    ensures steps[i].id in walk ==> OffReport(steps, i + 1, walk) == OffReport(steps, i, walk)
    ensures steps[i].id !in walk ==>
              var at := |OffReport(steps, i, walk)|;
              && |OffReport(steps, i + 1, walk)| == at + 1 <= |OffReport(steps, n, walk)|
              && OffReport(steps, n, walk)[at] == Disconnected(steps[i].id)
    decreases n
  {
    if i + 1 < n {
      OffInTurn(steps, n - 1, walk, i);
    }
  }

  /** Neighbours on the walk that cannot pass data on are reported once, in walk order, from upstream to downstream. */
  lemma {:induction false} ClashesInTurn<M>(catalog: Catalog<M>, metadataById: map<Id, M>, walk: seq<Id>, n: nat, i: nat)
    requires i < n < |walk|
    ensures |ClashReport(catalog, metadataById, walk, 0)| == 0
    ensures var clash := walk[i] in metadataById && walk[i + 1] in metadataById
                         && !catalog.compatible(metadataById[walk[i]], metadataById[walk[i + 1]]);
            && (!clash ==> ClashReport(catalog, metadataById, walk, i + 1) == ClashReport(catalog, metadataById, walk, i))
            && (clash ==>
                  var at := |ClashReport(catalog, metadataById, walk, i)|;
                  && |ClashReport(catalog, metadataById, walk, i + 1)| == at + 1 <= |ClashReport(catalog, metadataById, walk, n)|
                  && ClashReport(catalog, metadataById, walk, n)[at] == Incompatible(walk[i], walk[i + 1]))
    decreases n
  {
    if i + 1 < n {
      ClashesInTurn(catalog, metadataById, walk, n - 1, i);
    }
  }

  /** The phases of the check: counts, steps, the steps off the walk, the clashes along it. */
  function PhaseOf(v: Violation): nat {
    match v
    case MissingSource => 0
    case MultipleSources(_) => 0
    case MissingExport => 1
    case MultipleExports(_) => 1
    case Branching(_) => 2
    case Unavailable(_) => 2
    case Misconfigured(_, _) => 2
    case Disconnected(_) => 3
    case Incompatible(_, _) => 4
  }

  ghost predicate AllOfPhase(report: seq<Violation>, low: nat, high: nat) {
    forall i :: 0 <= i < |report| ==> low <= PhaseOf(report[i]) <= high
  }

  ghost predicate InPhases(report: seq<Violation>) {
    forall i, j :: 0 <= i < j < |report| ==> PhaseOf(report[i]) <= PhaseOf(report[j])
  }

  lemma {:induction false} StepsArePhase<M>(g: Graph, catalog: Catalog<M>, n: nat)
    requires n <= |g.steps|
    ensures AllOfPhase(StepReport(g, catalog, n), 2, 2)
  {
    if n > 0 {
      StepsArePhase(g, catalog, n - 1);
      var id := g.steps[n - 1].id;
      var branching: seq<Violation> := if Branches(g, id) then [Branching(id)] else [];
      FaultsArePhase(g.steps[n - 1], catalog);
      JoinedPhase(StepReport(g, catalog, n - 1), branching, 2);
      JoinedPhase(StepReport(g, catalog, n - 1) + branching, Faults(g.steps[n - 1], catalog), 2);
    }
  }

  lemma FaultsArePhase<M>(s: Step, catalog: Catalog<M>)
    ensures AllOfPhase(Faults(s, catalog), 2, 2)
  {
  }

  lemma JoinedPhase(a: seq<Violation>, b: seq<Violation>, phase: nat)
    requires AllOfPhase(a, phase, phase) && AllOfPhase(b, phase, phase)
    ensures AllOfPhase(a + b, phase, phase)
  {
  }

  lemma {:induction false} OffArePhase(steps: seq<Step>, n: nat, walk: seq<Id>)
    requires n <= |steps|
    ensures AllOfPhase(OffReport(steps, n, walk), 3, 3)
  {
    if n > 0 {
      OffArePhase(steps, n - 1, walk);
    }
  }

  lemma {:induction false} ClashesArePhase<M>(catalog: Catalog<M>, metadataById: map<Id, M>, walk: seq<Id>, n: nat)
    requires n == 0 || n < |walk|
    ensures AllOfPhase(ClashReport(catalog, metadataById, walk, n), 4, 4)
  {
    if n > 0 {
      ClashesArePhase(catalog, metadataById, walk, n - 1);
    }
  }

  lemma PhasesJoin(a: seq<Violation>, b: seq<Violation>, middle: nat)
    requires InPhases(a) && InPhases(b) && AllOfPhase(a, 0, middle) && AllOfPhase(b, middle, 4)
    ensures InPhases(a + b)
  {
  }

  lemma CountsArePhases(sources: seq<Step>, exports: seq<Step>)
    ensures InPhases(CountReport(sources, exports)) && AllOfPhase(CountReport(sources, exports), 0, 1)
  {
  }

  lemma WalkIsPhases<M>(g: Graph, catalog: Catalog<M>, metadataById: map<Id, M>, walk: seq<Id>)
    ensures var report := ConnectivityReport(g, catalog, metadataById, walk); InPhases(report) && AllOfPhase(report, 3, 4)
  {
    OffArePhase(g.steps, |g.steps|, walk);
    ClashesArePhase(catalog, metadataById, walk, PairCount(walk));
    PhasesJoin(OffReport(g.steps, |g.steps|, walk), ClashReport(catalog, metadataById, walk, PairCount(walk)), 3);
  }

  /** The report goes through the phases in their order. */
  lemma ReportIsInPhases<M>(g: Graph, catalog: Catalog<M>, walk: seq<Id>)
    ensures InPhases(Report(g, catalog, walk))
  {
    var sources, exports := StepsOfKind(g.steps, Source), StepsOfKind(g.steps, Export);
    var metadataById := MetadataOf(g.steps, |g.steps|, catalog);
    CountsArePhases(sources, exports);
    StepsArePhase(g, catalog, |g.steps|);
    WalkIsPhases(g, catalog, metadataById, walk);
    var counts, steps := CountReport(sources, exports), StepReport(g, catalog, |g.steps|);
    PhasesJoin(counts, steps, 1);
    if |sources| > 0 && |exports| == 1 {
      PhasesJoin(counts + steps, ConnectivityReport(g, catalog, metadataById, walk), 2);
    }
  }
}
