/** The pipeline wizard's draft and the graph it is saved as (apps/web/src/components/pipeline). */
module Builder {
  import opened Wrappers
  import opened Graphs
  import opened SaveValidation
  import opened Chains
  import opened Following
  import opened ExecutionPlan
  import opened PlanAgreement

  /** An installed component; `details` is everything the wizard shows besides its key. */
  datatype Metadata = Metadata(kind: Kind, componentType: string, version: string, details: string)

  datatype Selection = Selection(id: Id, metadata: Metadata, secretBindings: seq<(string, string)>, values: map<string, string>)

  datatype Draft = Draft(dirty: bool, name: string, source: Option<Selection>, transforms: seq<Selection>,
                         sink: Option<Selection>)

  datatype Pipeline = Pipeline(name: string, graph: Graph)

  // ---------- Names ----------

  /** What trimming takes away: white space and line ends as the language counts them. */
  predicate Blank(c: char) {
    c in {'\t', '\n', '\U{B}', '\U{C}', '\r', ' ', '\U{A0}', '\U{1680}', '\U{2000}', '\U{2001}', '\U{2002}', '\U{2003}',
          '\U{2004}', '\U{2005}', '\U{2006}', '\U{2007}', '\U{2008}', '\U{2009}', '\U{200A}', '\U{2028}', '\U{2029}',
          '\U{202F}', '\U{205F}', '\U{3000}', '\U{FEFF}'}
  }

  function TrimStart(name: string): string {
    if name != "" && Blank(name[0]) then TrimStart(name[1..]) else name
  }

  function TrimEnd(name: string): string {
    if name != "" && Blank(name[|name| - 1]) then TrimEnd(name[..|name| - 1]) else name
  }

  function Trim(name: string): string {
    TrimEnd(TrimStart(name))
  }

  lemma {:induction false} StartTrimmed(name: string)
    ensures TrimStart(name) == "" || !Blank(TrimStart(name)[0])
  {
    if name != "" && Blank(name[0]) {
      StartTrimmed(name[1..]);
    }
  }

  lemma {:induction false} EndTrimmed(name: string)
    ensures TrimEnd(TrimEnd(name)) == TrimEnd(name)
    ensures TrimEnd(name) <= name
  {
    if name != "" && Blank(name[|name| - 1]) {
      EndTrimmed(name[..|name| - 1]);
    }
  }

  lemma TrimTwice(name: string)
    ensures Trim(Trim(name)) == Trim(name)
  {
    var start := TrimStart(name);
    StartTrimmed(name);
    EndTrimmed(start);
    assert TrimStart(TrimEnd(start)) == TrimEnd(start);
  }

  // ---------- From draft to graph (pipeline-builder-graph.ts) ----------

  function StepFromSelection(s: Selection): Step {
    Step(s.id, s.metadata.kind, s.metadata.componentType, s.metadata.version, Configuration(s.values, s.secretBindings))
  }

  function Filled(slot: Option<Selection>): seq<Selection> {
    if slot.Some? then [slot.value] else []
  }

  function Selections(d: Draft): seq<Selection> {
    Filled(d.source) + d.transforms + Filled(d.sink)
  }

  function StepsOf(selections: seq<Selection>): (steps: seq<Step>)
    ensures |steps| == |selections|
    ensures forall i :: 0 <= i < |steps| ==> steps[i] == StepFromSelection(selections[i])
  {
    seq(|selections|, i requires 0 <= i < |selections| => StepFromSelection(selections[i]))
  }

  function DeriveGraph(d: Draft): Graph {
    var steps := StepsOf(Selections(d));
    Graph(steps, Links(IdsOf(steps)))
  }

  /** What is sent when the draft is created or updated. */
  function Request(d: Draft): Pipeline {
    Pipeline(Trim(d.name), DeriveGraph(d))
  }

  // ---------- From graph to order (pipeline-builder-persistence.ts) ----------

  function StepsById(steps: seq<Step>): map<Id, Step> {
    if steps == [] then map[]
    else StepsById(steps[..|steps| - 1])[steps[|steps| - 1].id := steps[|steps| - 1]]
  }

  function NextIds(edges: seq<Edge>): map<Id, Id> {
    if edges == [] then map[]
    else NextIds(edges[..|edges| - 1])[edges[|edges| - 1].from := edges[|edges| - 1].to]
  }

  function Targets(edges: seq<Edge>): set<Id> {
    set e | e in edges :: e.to
  }

  function FindHead(steps: seq<Step>, targets: set<Id>): (head: Option<Step>)
    ensures head.Some? ==> head.value in steps && head.value.id !in targets
    ensures head.Some? ==>
              exists i :: 0 <= i < |steps| && steps[i] == head.value && forall k :: 0 <= k < i ==> steps[k].id in targets
    ensures head.None? ==> forall s :: s in steps ==> s.id in targets
  {
    if steps == [] then None else if steps[0].id !in targets then Some(steps[0]) else FindHead(steps[1..], targets)
  }

  function NextStep(steps: seq<Step>, edges: seq<Edge>, id: Id): Option<Step> {
    if id in NextIds(edges) && NextIds(edges)[id] in StepsById(steps) then Some(StepsById(steps)[NextIds(edges)[id]]) else None
  }

  /** What following the edges from the first step without an incoming one comes to. */
  ghost predicate OrderedBy(g: Graph, ordered: seq<Step>) {
    match FindHead(g.steps, Targets(g.edges))
    case None => ordered == g.steps
    case Some(head) =>
      && ordered != [] && ordered[0] == head
      && (forall i :: 0 <= i < |ordered| - 1 ==> NextStep(g.steps, g.edges, ordered[i].id) == Some(ordered[i + 1]))
      && NextStep(g.steps, g.edges, ordered[|ordered| - 1].id) == None
  }

  lemma {:induction false} StepsByIdMembers(steps: seq<Step>, id: Id)
    ensures id in StepsById(steps) <==> id in StepIds(steps)
    ensures id in StepsById(steps) ==> StepsById(steps)[id] in steps && StepsById(steps)[id].id == id
  {
    if steps != [] {
      StepsByIdMembers(steps[..|steps| - 1], id);
      assert steps == steps[..|steps| - 1] + [steps[|steps| - 1]];
    }
  }

  lemma {:induction false} NextIdsMembers(edges: seq<Edge>, id: Id)
    ensures id in NextIds(edges) ==> Edge(id, NextIds(edges)[id]) in edges
    ensures id !in NextIds(edges) ==> forall e :: e in edges ==> e.from != id
  {
    if edges != [] {
      NextIdsMembers(edges[..|edges| - 1], id);
      assert edges == edges[..|edges| - 1] + [edges[|edges| - 1]];
    }
  }

  lemma NextStepFollows(steps: seq<Step>, edges: seq<Edge>, id: Id)
    requires NextStep(steps, edges, id).Some?
    ensures var next := NextStep(steps, edges, id).value; next in steps && Edge(id, next.id) in edges
  {
    NextIdsMembers(edges, id);
    StepsByIdMembers(steps, NextIds(edges)[id]);
  }

  /** The next step of each step, where there is one. */
  function NextTargets(g: Graph): map<Id, Id> {
    map id | id in NextIds(g.edges) && NextIds(g.edges)[id] in StepsById(g.steps) :: NextIds(g.edges)[id]
  }

  lemma NextTargetsAre(g: Graph, id: Id)
    ensures NextStep(g.steps, g.edges, id).Some? <==> id in NextTargets(g)
    ensures id in NextTargets(g) ==> NextStep(g.steps, g.edges, id).value.id == NextTargets(g)[id]
  {
    if id in NextIds(g.edges) {
      StepsByIdMembers(g.steps, NextIds(g.edges)[id]);
    }
  }

  /** From the first step without an incoming edge, following the edges does not run into a cycle. */
  ghost predicate OrderReturns(g: Graph) {
    var head := FindHead(g.steps, Targets(g.edges));
    head.Some? ==> !CycleAhead(MapArcs(NextTargets(g)), head.value.id)
  }

  lemma AcyclicReturns(g: Graph)
    requires Acyclic(EdgeSet(g.edges))
    ensures OrderReturns(g)
  {
    var arcs := MapArcs(NextTargets(g));
    forall a | a in arcs ensures a in EdgeSet(g.edges) {
      NextIdsMembers(g.edges, a.from);
    }
    forall v ensures !ReachesPlus(arcs, v, v) {
      if ReachesPlus(arcs, v, v) {
        MoreArcsReachPlus(arcs, EdgeSet(g.edges), v, v);
      }
    }
  }

  /** The loop remembers nothing of where it has been; where it does not run into a cycle it ends all the same. */
  method OrderStepsByEdges(g: Graph) returns (ordered: seq<Step>)
    requires OrderReturns(g)
    ensures OrderedBy(g, ordered) && forall s :: s in ordered ==> s in g.steps
    ensures UniqueIds(g.steps) ==> UniqueIds(ordered)
  {
    if g.steps == [] {
      return g.steps;
    }
    var head := FindHead(g.steps, Targets(g.edges));
    if head.None? {
      return g.steps;
    }
    ghost var targets, start := NextTargets(g), head.value.id;
    EndsExactly(targets, start);
    ghost var end: nat :| After(targets, start, end).None?;
    EndsLater(targets, start, 0, end);
    var current := head.value;
    ordered := [current];
    var next := NextStep(g.steps, g.edges, current.id);
    while next.Some?
      invariant ordered != [] && ordered[0] == head.value && ordered[|ordered| - 1] == current
      invariant next == NextStep(g.steps, g.edges, current.id)
      invariant forall s :: s in ordered ==> s in g.steps
      invariant forall i :: 0 <= i < |ordered| - 1 ==> NextStep(g.steps, g.edges, ordered[i].id) == Some(ordered[i + 1])
      invariant forall i: nat :: i < |ordered| ==> After(targets, start, i) == Some(ordered[i].id)
      invariant |ordered| <= end
      decreases end - |ordered|
    {
      NextStepFollows(g.steps, g.edges, current.id);
      NextTargetsAre(g, current.id);
      assert After(targets, start, |ordered|) == Some(next.value.id);
      EndsLater(targets, start, |ordered|, end);
      current := next.value;
      ordered := ordered + [current];
      next := NextStep(g.steps, g.edges, current.id);
    }
    forall i, j | 0 <= i < j < |ordered| ensures ordered[i].id != ordered[j].id {
      EndsWithoutRepeat(targets, start, i, j);
    }
  }

  // ---------- From graph to draft ----------

  /** The installed component a step was made from, if it is still there. */
  function Resolve(catalog: map<Kind, seq<Metadata>>, s: Step): Option<Metadata> {
    if s.kind in catalog then FindComponent(catalog[s.kind], s) else None
  }

  function FindComponent(components: seq<Metadata>, s: Step): Option<Metadata> {
    if components == [] then None
    else if components[0].componentType == s.componentType && components[0].version == s.componentVersion then Some(components[0])
    else FindComponent(components[1..], s)
  }

  function SelectionOf(s: Step, m: Metadata): Selection {
    Selection(s.id, m, s.configuration.secretBindings, s.configuration.values)
  }

  function FindKind(selections: seq<Selection>, kind: Kind): Option<Selection> {
    if selections == [] then None
    else if selections[0].metadata.kind == kind then Some(selections[0])
    else FindKind(selections[1..], kind)
  }

  function FilterKind(selections: seq<Selection>, kind: Kind): seq<Selection> {
    if selections == [] then []
    else (if selections[0].metadata.kind == kind then [selections[0]] else []) + FilterKind(selections[1..], kind)
  }

  function Loaded(name: string, selections: seq<Selection>): Draft {
    Draft(false, name, FindKind(selections, Source), FilterKind(selections, Transform), FindKind(selections, Export))
  }

  ghost predicate AllResolved(steps: seq<Step>, catalog: map<Kind, seq<Metadata>>, selections: seq<Selection>) {
    && |selections| == |steps|
    && forall i :: 0 <= i < |steps| ==>
         Resolve(catalog, steps[i]).Some? && selections[i] == SelectionOf(steps[i], Resolve(catalog, steps[i]).value)
  }

  /** No draft at all, rather than one that leaves a component out. */
  method CreateDraftFromPipeline(p: Pipeline, catalog: map<Kind, seq<Metadata>>)
      returns (draft: Option<Draft>, ghost ordered: seq<Step>, ghost selections: seq<Selection>)
    requires OrderReturns(p.graph)
    ensures OrderedBy(p.graph, ordered) && (forall s :: s in ordered ==> s in p.graph.steps)
    ensures UniqueIds(p.graph.steps) ==> UniqueIds(ordered)
    ensures draft.None? <==> exists s :: s in ordered && Resolve(catalog, s).None?
    ensures draft.Some? ==> AllResolved(ordered, catalog, selections)
    ensures draft.Some? ==> draft.value == Loaded(p.name, selections)
    ensures draft.Some? && UniqueIds(p.graph.steps) && (forall s :: s in p.graph.steps ==> ContractId(s.id)) ==>
              Start(draft.value)
  {
    var steps := OrderStepsByEdges(p.graph);
    ordered, selections := steps, [];
    var chosen: seq<Selection> := [];
    for i := 0 to |steps|
      invariant AllResolved(steps[..i], catalog, chosen)
    {
      var metadata := Resolve(catalog, steps[i]);
      if metadata.None? {
        return None, ordered, [];
      }
      chosen := chosen + [SelectionOf(steps[i], metadata.value)];
    }
    assert steps[..|steps|] == steps;
    selections := chosen;
    draft := Some(Loaded(p.name, chosen));
    if UniqueIds(p.graph.steps) && forall s :: s in p.graph.steps ==> ContractId(s.id) {
      ResolvedAreNamed(steps, catalog, chosen);
    }
  }

  // ---------- Chains come back in order ----------

  /** The steps, in order, of a chain whose list and edges may have been permuted. */
  ghost predicate ChainOf(g: Graph, order: seq<Step>) {
    && order != [] && multiset(g.steps) == multiset(order)
    && LinksInOrder(g.edges, IdsOf(order))
  }

  lemma OrderPlaces(g: Graph, order: seq<Step>, s: Step) returns (k: nat)
    requires ChainOf(g, order) && s in g.steps
    ensures k < |order| && order[k] == s
  {
    SameElements(g.steps, order);
    k :| 0 <= k < |order| && order[k] == s;
  }

  lemma SameIdInOrder(order: seq<Step>, i: nat, j: nat)
    requires Distinct(IdsOf(order)) && i < |order| && j < |order| && order[i].id == order[j].id
    ensures i == j
  {
    assert IdsOf(order)[i] == IdsOf(order)[j];
  }

  lemma HeadOfChain(g: Graph, order: seq<Step>)
    requires ChainOf(g, order)
    ensures FindHead(g.steps, Targets(g.edges)) == Some(order[0])
  {
    var head := FindHead(g.steps, Targets(g.edges));
    SameElements(g.edges, Links(IdsOf(order)));
    SameElements(g.steps, order);
    assert order[0] in g.steps;
    assert order[0].id !in Targets(g.edges) by {
      forall e | e in g.edges ensures e.to != IdsOf(order)[0] {
        var i :| 0 <= i < |Links(IdsOf(order))| && Links(IdsOf(order))[i] == e;
        assert IdsOf(order)[i + 1] != IdsOf(order)[0];
      }
    }
    forall k | 0 < k < |order| ensures order[k].id in Targets(g.edges) {
      ChainLink(g.edges, IdsOf(order), k - 1);
      assert Edge(IdsOf(order)[k - 1], IdsOf(order)[k - 1 + 1]) in g.edges;
    }
    if head.Some? {
      var k := OrderPlaces(g, order, head.value);
    }
  }

  lemma NextInChain(g: Graph, order: seq<Step>, i: nat)
    requires ChainOf(g, order) && i < |order|
    ensures NextStep(g.steps, g.edges, order[i].id) == if i + 1 < |order| then Some(order[i + 1]) else None
  {
    var ids := IdsOf(order);
    NextIdsMembers(g.edges, ids[i]);
    if i + 1 < |order| {
      ChainLink(g.edges, ids, i);
      ChainEdge(g.edges, ids, Edge(ids[i], NextIds(g.edges)[ids[i]]), i);
      StepsByIdMembers(g.steps, ids[i + 1]);
      SameElements(g.steps, order);
      assert order[i + 1] in g.steps;
      var k := OrderPlaces(g, order, StepsById(g.steps)[ids[i + 1]]);
      SameIdInOrder(order, i + 1, k);
    } else {
      ChainFollows(g.edges, ids);
    }
  }

  lemma {:induction false} OrderIsPrefix(g: Graph, order: seq<Step>, ordered: seq<Step>, n: nat)
    requires ChainOf(g, order) && OrderedBy(g, ordered) && n < |ordered|
    ensures n < |order| && ordered[n] == order[n]
  {
    HeadOfChain(g, order);
    if n > 0 {
      OrderIsPrefix(g, order, ordered, n - 1);
      assert NextStep(g.steps, g.edges, ordered[n - 1].id) == Some(ordered[n - 1 + 1]);
      NextInChain(g, order, n - 1);
    }
  }

  /** However the lists of a chain are permuted, following the edges gives back the chain. */
  lemma OrderIsChain(g: Graph, order: seq<Step>, ordered: seq<Step>)
    requires ChainOf(g, order) && OrderedBy(g, ordered)
    ensures ordered == order
  {
    HeadOfChain(g, order);
    forall n | 0 <= n < |ordered| ensures n < |order| && ordered[n] == order[n] {
      OrderIsPrefix(g, order, ordered, n);
    }
    OrderIsPrefix(g, order, ordered, |ordered| - 1);
    NextInChain(g, order, |ordered| - 1);
  }

  // ---------- Drafts come back ----------

  ghost predicate SlotsFit(d: Draft) {
    && (d.source.Some? ==> d.source.value.metadata.kind.Source?)
    && (forall t :: t in d.transforms ==> t.metadata.kind.Transform?)
    && (d.sink.Some? ==> d.sink.value.metadata.kind.Export?)
  }

  /** Every slot has its own contract identifier and holds a component of its kind. */
  ghost predicate DraftOk(d: Draft) {
    && SlotsFit(d)
    && UniqueIds(StepsOf(Selections(d)))
    && forall s :: s in Selections(d) ==> ContractId(s.id)
  }

  /** The catalog lists each component under its kind, with a key of its own. */
  ghost predicate Listed(catalog: map<Kind, seq<Metadata>>, m: Metadata) {
    && m.kind in catalog && m in catalog[m.kind]
    && forall other :: other in catalog[m.kind] && other.componentType == m.componentType && other.version == m.version ==>
         other == m
  }

  lemma {:induction false} FindsListed(components: seq<Metadata>, m: Metadata, s: Step)
    requires m in components && s.componentType == m.componentType && s.componentVersion == m.version
    requires forall other :: other in components && other.componentType == m.componentType && other.version == m.version ==>
               other == m
    ensures FindComponent(components, s) == Some(m)
  {
    if components[0] != m {
      assert components[0] in components;
      assert components == [components[0]] + components[1..];
      FindsListed(components[1..], m, s);
    }
  }

  lemma SelectionsComeBack(selections: seq<Selection>, catalog: map<Kind, seq<Metadata>>, resolved: seq<Selection>)
    requires forall s :: s in selections ==> Listed(catalog, s.metadata)
    ensures forall s :: s in StepsOf(selections) ==> Resolve(catalog, s).Some?
    ensures AllResolved(StepsOf(selections), catalog, resolved) ==> resolved == selections
  {
    forall i | 0 <= i < |selections|
      ensures Resolve(catalog, StepsOf(selections)[i]) == Some(selections[i].metadata)
    {
      assert selections[i] in selections;
      FindsListed(catalog[selections[i].metadata.kind], selections[i].metadata, StepsOf(selections)[i]);
    }
  }

  lemma FilterFirst(first: Selection, rest: seq<Selection>, kind: Kind)
    ensures FilterKind([first] + rest, kind) == (if first.metadata.kind == kind then [first] else []) + FilterKind(rest, kind)
  {
    assert ([first] + rest)[1..] == rest;
  }

  lemma Associates<T>(a: seq<T>, b: seq<T>, c: seq<T>)
    ensures a + (b + c) == a + b + c
  {
  }

  lemma {:induction false} KindsJoin(left: seq<Selection>, right: seq<Selection>, kind: Kind)
    ensures FilterKind(left + right, kind) == FilterKind(left, kind) + FilterKind(right, kind)
  {
    if left == [] {
      assert left + right == right;
    } else {
      var first, rest := left[0], left[1..];
      assert left == [first] + rest;
      KindsJoin(rest, right, kind);
      FilterFirst(first, rest, kind);
      FilterFirst(first, rest + right, kind);
      Associates([first], rest, right);
      Associates(if first.metadata.kind == kind then [first] else [], FilterKind(rest, kind), FilterKind(right, kind));
    }
  }

  lemma {:induction false} FirstOfKind(left: seq<Selection>, right: seq<Selection>, kind: Kind)
    ensures FindKind(left + right, kind) == if FindKind(left, kind).Some? then FindKind(left, kind) else FindKind(right, kind)
  {
    if left == [] {
      assert left + right == right;
    } else {
      FirstOfKind(left[1..], right, kind);
      assert (left + right)[1..] == left[1..] + right;
    }
  }

  lemma {:induction false} OneKind(selections: seq<Selection>, kind: Kind, wanted: Kind)
    requires forall s :: s in selections ==> s.metadata.kind == kind
    ensures kind == wanted ==> FilterKind(selections, wanted) == selections
    ensures kind != wanted ==> FilterKind(selections, wanted) == [] && FindKind(selections, wanted) == None
  {
    if selections != [] {
      assert selections[0] in selections;
      OneKind(selections[1..], kind, wanted);
      assert selections == [selections[0]] + selections[1..];
    }
  }

  lemma SlotsComeBack(d: Draft)
    requires SlotsFit(d)
    ensures FindKind(Selections(d), Source) == d.source
    ensures FilterKind(Selections(d), Transform) == d.transforms
    ensures FindKind(Selections(d), Export) == d.sink
  {
    var first, last := Filled(d.source), Filled(d.sink);
    SlotComesBack(first, d.transforms, last, Source);
    SlotComesBack(first, d.transforms, last, Transform);
    SlotComesBack(first, d.transforms, last, Export);
    assert [] + d.transforms + [] == d.transforms;
  }

  lemma SlotComesBack(first: seq<Selection>, middle: seq<Selection>, last: seq<Selection>, wanted: Kind)
    requires forall s :: s in first ==> s.metadata.kind == Source
    requires forall s :: s in middle ==> s.metadata.kind == Transform
    requires forall s :: s in last ==> s.metadata.kind == Export
    ensures wanted == Source ==> FindKind(first + middle + last, wanted) == FindKind(first, wanted)
    ensures wanted == Transform ==> FilterKind(first + middle + last, wanted) == [] + middle + []
    ensures wanted == Export ==> FindKind(first + middle + last, wanted) == FindKind(last, wanted)
  {
    OneKind(first, Source, wanted);
    OneKind(middle, Transform, wanted);
    OneKind(last, Export, wanted);
    KindsJoin(first, middle, wanted);
    KindsJoin(first + middle, last, wanted);
    FirstOfKind(first, middle, wanted);
    FirstOfKind(first + middle, last, wanted);
  }

  /**
   * A draft that was saved, its steps and edges stored in any order, is read back as it was: only the dirty flag is
   * cleared and the name is the saved one.
   */
  lemma DraftRoundTrip(d: Draft, p: Pipeline, catalog: map<Kind, seq<Metadata>>, ordered: seq<Step>,
                       selections: seq<Selection>)
    requires DraftOk(d) && forall s :: s in Selections(d) ==> Listed(catalog, s.metadata)
    requires multiset(p.graph.steps) == multiset(DeriveGraph(d).steps)
    requires multiset(p.graph.edges) == multiset(DeriveGraph(d).edges)
    requires OrderedBy(p.graph, ordered)
    ensures forall s :: s in ordered ==> Resolve(catalog, s).Some?
    ensures AllResolved(ordered, catalog, selections) ==> Loaded(p.name, selections) == d.(dirty := false, name := p.name)
  {
    var steps := StepsOf(Selections(d));
    if steps == [] {
      assert |multiset(p.graph.steps)| == |p.graph.steps|;
      assert p.graph.steps == [];
    } else {
      assert Distinct(IdsOf(steps));
      OrderIsChain(p.graph, steps, ordered);
    }
    assert ordered == steps;
    SelectionsComeBack(Selections(d), catalog, selections);
    SlotsComeBack(d);
  }

  // ---------- A complete draft can be saved ----------

  predicate Complete(d: Draft) {
    d.source.Some? && d.sink.Some?
  }

  /** The graph of a draft passes the save validation exactly when both ends are chosen. */
  lemma CompleteIsSavable(d: Draft)
    requires DraftOk(d)
    ensures SaveValid(DeriveGraph(d)) <==> Complete(d)
  {
    var all := Selections(d);
    var steps := StepsOf(all);
    if Complete(d) {
      assert forall s :: s in steps ==> ContractId(s.id) by {
        forall s | s in steps ensures ContractId(s.id) {
          var i :| 0 <= i < |steps| && steps[i] == s;
          assert all[i] in all;
        }
      }
      assert forall i :: 0 < i < |all| - 1 ==> all[i] == d.transforms[i - 1];
      ChainIsSaved(steps);
    } else {
      NoKindWithoutSlot(d);
    }
  }

  lemma NoKindWithoutSlot(d: Draft)
    requires SlotsFit(d)
    ensures d.source.None? ==> !HasKind(DeriveGraph(d), Source)
    ensures d.sink.None? ==> !HasKind(DeriveGraph(d), Export)
  {
    forall s | s in DeriveGraph(d).steps
      ensures (d.source.None? ==> !s.kind.Source?) && (d.sink.None? ==> !s.kind.Export?)
    {
      var i :| 0 <= i < |Selections(d)| && StepsOf(Selections(d))[i] == s;
      assert Selections(d)[i] in Selections(d);
    }
  }

  // ---------- Editing (pipeline-builder-draft.ts) ----------

  const EmptyDraft := Draft(false, "", None, [], None)

  datatype Edit =
    | Rename(name: string)
    | SetSource(metadata: Metadata, newId: Id)
    | SetSourceValues(values: map<string, string>)
    | SetExport(metadata: Metadata, newId: Id)
    | SetExportValues(values: map<string, string>)
    | AddTransform(metadata: Metadata, newId: Id)
    | SetTransformValues(id: Id, values: map<string, string>)
    | RemoveTransform(id: Id)
    | MoveTransform(id: Id, up: bool)
    | MarkSaved

  /** The same component keeps its configuration; another one keeps only the identity of the slot. */
  function NextSelection(current: Option<Selection>, m: Metadata, newId: Id): Selection {
    if current.Some? && current.value.metadata.componentType == m.componentType && current.value.metadata.version == m.version
    then current.value.(metadata := m)
    else Selection(if current.Some? then current.value.id else newId, m, [], map[])
  }

  function IndexOf(transforms: seq<Selection>, id: Id): (index: Option<nat>)
    ensures index.Some? ==> index.value < |transforms| && transforms[index.value].id == id
    ensures index.Some? ==> forall i :: 0 <= i < index.value ==> transforms[i].id != id
    ensures index.None? ==> forall i :: 0 <= i < |transforms| ==> transforms[i].id != id
  {
    if transforms == [] then None
    else if transforms[0].id == id then Some(0)
    else match IndexOf(transforms[1..], id)
      case None => None
      case Some(i) => Some(i + 1)
  }

  function Swapped(transforms: seq<Selection>, i: nat, j: nat): seq<Selection>
    requires i < |transforms| && j < |transforms|
  {
    transforms[i := transforms[j]][j := transforms[i]]
  }

  function WithValues(transforms: seq<Selection>, id: Id, values: map<string, string>): (after: seq<Selection>)
    ensures |after| == |transforms|
    ensures forall i :: 0 <= i < |after| ==>
              after[i] == if transforms[i].id == id then transforms[i].(values := values) else transforms[i]
  {
    seq(|transforms|, i requires 0 <= i < |transforms| =>
      if transforms[i].id == id then transforms[i].(values := values) else transforms[i])
  }

  function Without(transforms: seq<Selection>, id: Id): seq<Selection> {
    if transforms == [] then []
    else (if transforms[0].id != id then [transforms[0]] else []) + Without(transforms[1..], id)
  }

  function Moved(d: Draft, id: Id, up: bool): Draft {
    match IndexOf(d.transforms, id)
    case None => d
    case Some(i) =>
      var target := if up then i - 1 else i + 1;
      if target < 0 || target >= |d.transforms| then d
      else d.(transforms := Swapped(d.transforms, i, target), dirty := true)
  }

  function Apply(d: Draft, e: Edit): Draft {
    match e
    case Rename(name) => d.(name := name, dirty := true)
    case SetSource(m, newId) => d.(source := Some(NextSelection(d.source, m, newId)), dirty := true)
    case SetSourceValues(values) =>
      if d.source.None? then d else d.(source := Some(d.source.value.(values := values)), dirty := true)
    case SetExport(m, newId) => d.(sink := Some(NextSelection(d.sink, m, newId)), dirty := true)
    case SetExportValues(values) =>
      if d.sink.None? then d else d.(sink := Some(d.sink.value.(values := values)), dirty := true)
    case AddTransform(m, newId) => d.(transforms := d.transforms + [Selection(newId, m, [], map[])], dirty := true)
    case SetTransformValues(id, values) => d.(transforms := WithValues(d.transforms, id, values), dirty := true)
    case RemoveTransform(id) => d.(transforms := Without(d.transforms, id), dirty := true)
    case MoveTransform(id, up) => Moved(d, id, up)
    case MarkSaved => d.(dirty := false)
  }

  /** The wizard offers components of the slot's kind, and generated identifiers are new. */
  ghost predicate Offered(d: Draft, e: Edit) {
    match e
    case SetSource(m, newId) => m.kind.Source? && NewId(d, newId)
    case SetExport(m, newId) => m.kind.Export? && NewId(d, newId)
    case AddTransform(m, newId) => m.kind.Transform? && NewId(d, newId)
    case _ => true
  }

  ghost predicate NewId(d: Draft, id: Id) {
    ContractId(id) && forall s :: s in Selections(d) ==> s.id != id
  }

  /** The identifiers of the slots, in order. */
  function SlotIds(selections: seq<Selection>): (ids: seq<Id>)
    ensures |ids| == |selections| && forall i :: 0 <= i < |ids| ==> ids[i] == selections[i].id
  {
    seq(|selections|, i requires 0 <= i < |selections| => selections[i].id)
  }

  ghost predicate SlotsNamed(selections: seq<Selection>) {
    Distinct(SlotIds(selections)) && forall s :: s in selections ==> ContractId(s.id)
  }

  lemma NamedMeansUnique(d: Draft)
    ensures DraftOk(d) <==> SlotsFit(d) && SlotsNamed(Selections(d))
  {
    var steps, ids := StepsOf(Selections(d)), SlotIds(Selections(d));
    assert forall i :: 0 <= i < |steps| ==> steps[i].id == ids[i];
  }

  /** Slots with the same identifiers as named ones are named. */
  lemma SameNames(before: seq<Selection>, after: seq<Selection>)
    requires SlotsNamed(before) && SlotIds(after) == SlotIds(before)
    ensures SlotsNamed(after)
  {
    forall s | s in after ensures ContractId(s.id) {
      var i :| 0 <= i < |after| && after[i] == s;
      assert s.id == SlotIds(after)[i] == before[i].id;
      assert before[i] in before;
    }
  }

  lemma OneMoreSlot(before: seq<Selection>, i: nat, s: Selection)
    requires SlotsNamed(before) && i <= |before| && ContractId(s.id) && forall b :: b in before ==> b.id != s.id
    ensures SlotsNamed(before[..i] + [s] + before[i..])
  {
    var after, ids := before[..i] + [s] + before[i..], SlotIds(before);
    forall k | 0 <= k < |ids| ensures ids[k] != s.id {
      assert before[k] in before;
    }
    DistinctWith(ids, i, s.id);
    assert SlotIds(after) == ids[..i] + [s.id] + ids[i..];
  }

  lemma DistinctWith<T>(ids: seq<T>, i: nat, x: T)
    requires Distinct(ids) && i <= |ids| && forall k :: 0 <= k < |ids| ==> ids[k] != x
    ensures Distinct(ids[..i] + [x] + ids[i..])
  {
  }

  lemma FewerSlots(before: seq<Selection>, i: nat)
    requires SlotsNamed(before) && i < |before|
    ensures SlotsNamed(before[..i] + before[i + 1..])
  {
    var after, ids := before[..i] + before[i + 1..], SlotIds(before);
    DistinctWithout(ids, i);
    assert SlotIds(after) == ids[..i] + ids[i + 1..];
  }

  lemma DistinctWithout<T>(ids: seq<T>, i: nat)
    requires Distinct(ids) && i < |ids|
    ensures Distinct(ids[..i] + ids[i + 1..])
  {
  }

  lemma SwappedSlots(before: seq<Selection>, i: nat, j: nat)
    requires SlotsNamed(before) && i < |before| && j < |before|
    ensures SlotsNamed(Swapped(before, i, j))
  {
    var after, ids := Swapped(before, i, j), SlotIds(before);
    DistinctSwapped(ids, i, j);
    assert SlotIds(after) == ids[i := ids[j]][j := ids[i]];
    forall s | s in after ensures s in before {
      var k :| 0 <= k < |after| && after[k] == s;
    }
  }

  lemma DistinctSwapped<T>(ids: seq<T>, i: nat, j: nat)
    requires Distinct(ids) && i < |ids| && j < |ids|
    ensures Distinct(ids[i := ids[j]][j := ids[i]])
  {
  }

  lemma SetSourceKeeps(d: Draft, s: Selection)
    requires SlotsNamed(Selections(d)) && if d.source.Some? then s.id == d.source.value.id else NewId(d, s.id)
    ensures SlotsNamed(Selections(d.(source := Some(s))))
  {
    var before, after := Selections(d), Selections(d.(source := Some(s)));
    if d.source.Some? {
      SameNames(before, after);
    } else {
      OneMoreSlot(before, 0, s);
      assert after == before[..0] + [s] + before[0..];
    }
  }

  lemma SetSinkKeeps(d: Draft, s: Selection)
    requires SlotsNamed(Selections(d)) && if d.sink.Some? then s.id == d.sink.value.id else NewId(d, s.id)
    ensures SlotsNamed(Selections(d.(sink := Some(s))))
  {
    var before, after := Selections(d), Selections(d.(sink := Some(s)));
    if d.sink.Some? {
      SameNames(before, after);
    } else {
      OneMoreSlot(before, |before|, s);
      assert after == before[..|before|] + [s] + before[|before|..];
    }
  }

  lemma AddTransformKeeps(d: Draft, s: Selection)
    requires SlotsNamed(Selections(d)) && NewId(d, s.id)
    ensures SlotsNamed(Selections(d.(transforms := d.transforms + [s])))
  {
    var before := Selections(d);
    var i := |Filled(d.source)| + |d.transforms|;
    OneMoreSlot(before, i, s);
    assert Selections(d.(transforms := d.transforms + [s])) == before[..i] + [s] + before[i..];
  }

  lemma SetValuesKeeps(d: Draft, id: Id, values: map<string, string>)
    requires SlotsNamed(Selections(d))
    ensures SlotsNamed(Selections(d.(transforms := WithValues(d.transforms, id, values))))
  {
    SameNames(Selections(d), Selections(d.(transforms := WithValues(d.transforms, id, values))));
  }

  lemma Shifted<T>(head: seq<T>, first: T, rest: seq<T>, tail: seq<T>)
    ensures head + [first] + rest + tail == head + ([first] + rest) + tail
  {
  }

  lemma {:induction false} WithoutKeeps(head: seq<Selection>, transforms: seq<Selection>, tail: seq<Selection>, id: Id)
    requires SlotsNamed(head + transforms + tail)
    ensures SlotsNamed(head + Without(transforms, id) + tail)
    ensures forall t :: t in Without(transforms, id) ==> t in transforms
    decreases transforms
  {
    if transforms != [] {
      var all, first, rest := head + transforms + tail, transforms[0], transforms[1..];
      assert transforms == [first] + rest;
      if first.id == id {
        FewerSlots(all, |head|);
        assert all[..|head|] + all[|head| + 1..] == head + rest + tail;
        WithoutKeeps(head, rest, tail, id);
        assert Without(transforms, id) == Without(rest, id);
      } else {
        Shifted(head, first, rest, tail);
        WithoutKeeps(head + [first], rest, tail, id);
        Shifted(head, first, Without(rest, id), tail);
      }
    }
  }

  lemma MoveKeeps(d: Draft, i: nat, j: nat)
    requires SlotsNamed(Selections(d)) && i < |d.transforms| && j < |d.transforms|
    ensures SlotsNamed(Selections(d.(transforms := Swapped(d.transforms, i, j))))
  {
    var first := |Filled(d.source)|;
    SwappedSlots(Selections(d), first + i, first + j);
    SwappedInside(Filled(d.source), d.transforms, Filled(d.sink), i, j);
  }

  lemma SwappedInside(head: seq<Selection>, transforms: seq<Selection>, tail: seq<Selection>, i: nat, j: nat)
    requires i < |transforms| && j < |transforms|
    ensures head + Swapped(transforms, i, j) + tail == Swapped(head + transforms + tail, |head| + i, |head| + j)
  {
  }

  predicate OnTransforms(e: Edit) {
    e.AddTransform? || e.SetTransformValues? || e.RemoveTransform? || e.MoveTransform?
  }

  lemma TransformEditKeepsNames(d: Draft, e: Edit)
    requires SlotsNamed(Selections(d)) && Offered(d, e) && OnTransforms(e)
    ensures SlotsNamed(Selections(Apply(d, e)))
  {
    match e {
      case AddTransform(m, newId) =>
        AddTransformKeeps(d, Selection(newId, m, [], map[]));
      case SetTransformValues(id, values) =>
        SetValuesKeeps(d, id, values);
      case RemoveTransform(id) =>
        WithoutKeeps(Filled(d.source), d.transforms, Filled(d.sink), id);
      case MoveTransform(id, up) =>
        MovedKeeps(d, id, up);
    }
  }

  lemma MovedKeeps(d: Draft, id: Id, up: bool)
    requires SlotsNamed(Selections(d))
    ensures SlotsNamed(Selections(Moved(d, id, up)))
  {
    var i := IndexOf(d.transforms, id);
    if i.Some? {
      var place: int := i.value;
      var target := if up then place - 1 else place + 1;
      if 0 <= target < |d.transforms| {
        MoveKeeps(d, place, target);
      }
    }
  }

  /** The identifiers stay distinct whatever slots an edit fills, empties or moves. */
  lemma EditKeepsNames(d: Draft, e: Edit)
    requires SlotsNamed(Selections(d)) && Offered(d, e)
    ensures SlotsNamed(Selections(Apply(d, e)))
  {
    match e {
      case SetSource(m, newId) =>
        SetSourceKeeps(d, NextSelection(d.source, m, newId));
      case SetSourceValues(values) =>
        if d.source.Some? {
          SetSourceKeeps(d, d.source.value.(values := values));
        }
      case SetExport(m, newId) =>
        SetSinkKeeps(d, NextSelection(d.sink, m, newId));
      case SetExportValues(values) =>
        if d.sink.Some? {
          SetSinkKeeps(d, d.sink.value.(values := values));
        }
      case Rename(_) =>
      case MarkSaved =>
      case _ =>
        TransformEditKeepsNames(d, e);
    }
  }

  lemma WithValuesKinds(transforms: seq<Selection>, id: Id, values: map<string, string>)
    requires forall t :: t in transforms ==> t.metadata.kind.Transform?
    ensures forall t :: t in WithValues(transforms, id, values) ==> t.metadata.kind.Transform?
  {
    forall t | t in WithValues(transforms, id, values) ensures t.metadata.kind.Transform? {
      var i :| 0 <= i < |transforms| && WithValues(transforms, id, values)[i] == t;
      assert transforms[i] in transforms;
    }
  }

  lemma EditKeepsKinds(d: Draft, e: Edit)
    requires SlotsFit(d) && SlotsNamed(Selections(d)) && Offered(d, e)
    ensures SlotsFit(Apply(d, e))
  {
    match e {
      case SetTransformValues(id, values) => WithValuesKinds(d.transforms, id, values);
      case RemoveTransform(id) =>
        WithoutKeeps(Filled(d.source), d.transforms, Filled(d.sink), id);
      case _ =>
    }
  }

  // ---------- Sessions ----------

  lemma {:induction false} FilterMembers(selections: seq<Selection>, kind: Kind)
    ensures forall s :: s in FilterKind(selections, kind) ==> s in selections && s.metadata.kind == kind
    ensures FindKind(selections, kind).Some? ==>
              FindKind(selections, kind).value in selections && FindKind(selections, kind).value.metadata.kind == kind
  {
    if selections != [] {
      FilterMembers(selections[1..], kind);
      assert selections == [selections[0]] + selections[1..];
    }
  }

  lemma NamedRest(selections: seq<Selection>)
    requires SlotsNamed(selections) && selections != []
    ensures SlotsNamed(selections[1..]) && forall s :: s in selections[1..] ==> s.id != selections[0].id
  {
    var ids, rest := SlotIds(selections), selections[1..];
    forall i, j | 0 <= i < j < |rest| ensures SlotIds(rest)[i] != SlotIds(rest)[j] {
      assert ids[i + 1] != ids[j + 1];
    }
    forall s | s in rest ensures s.id != selections[0].id {
      var i :| 0 <= i < |rest| && rest[i] == s;
      assert ids[0] != ids[i + 1];
    }
  }

  lemma NamedInFront(s: Selection, rest: seq<Selection>)
    requires SlotsNamed(rest) && ContractId(s.id) && forall t :: t in rest ==> t.id != s.id
    ensures SlotsNamed([s] + rest)
  {
    OneMoreSlot(rest, 0, s);
    assert rest[..0] + [s] + rest[0..] == [s] + rest;
  }

  lemma {:induction false} FilterNamed(selections: seq<Selection>, kind: Kind)
    requires SlotsNamed(selections)
    ensures SlotsNamed(FilterKind(selections, kind))
  {
    if selections != [] {
      NamedRest(selections);
      FilterNamed(selections[1..], kind);
      FilterMembers(selections[1..], kind);
      if selections[0].metadata.kind == kind {
        NamedInFront(selections[0], FilterKind(selections[1..], kind));
      } else {
        assert FilterKind(selections, kind) == FilterKind(selections[1..], kind);
      }
    }
  }

  /** Slots of different kinds among named ones have different identifiers. */
  lemma KindsApart(selections: seq<Selection>, s: Selection, t: Selection)
    requires SlotsNamed(selections) && s in selections && t in selections && s.metadata.kind != t.metadata.kind
    ensures s.id != t.id
  {
    var i :| 0 <= i < |selections| && selections[i] == s;
    var j :| 0 <= j < |selections| && selections[j] == t;
    assert SlotIds(selections)[i] != SlotIds(selections)[j];
  }

  lemma ResolvedAreNamed(ordered: seq<Step>, catalog: map<Kind, seq<Metadata>>, selections: seq<Selection>)
    requires AllResolved(ordered, catalog, selections) && UniqueIds(ordered) && forall s :: s in ordered ==> ContractId(s.id)
    ensures SlotsNamed(selections)
  {
    assert forall i :: 0 <= i < |selections| ==> selections[i].id == ordered[i].id && ordered[i] in ordered;
  }

  lemma LoadedTail(selections: seq<Selection>)
    requires SlotsNamed(selections)
    ensures var rest := FilterKind(selections, Transform) + Filled(FindKind(selections, Export));
            SlotsNamed(rest) && forall t :: t in rest ==> t in selections && !t.metadata.kind.Source?
  {
    var transforms, sink := FilterKind(selections, Transform), FindKind(selections, Export);
    FilterMembers(selections, Transform);
    FilterMembers(selections, Export);
    FilterNamed(selections, Transform);
    if sink.Some? {
      forall t | t in transforms ensures t.id != sink.value.id {
        KindsApart(selections, t, sink.value);
      }
      OneMoreSlot(transforms, |transforms|, sink.value);
      assert transforms[..|transforms|] + [sink.value] + transforms[|transforms|..] == transforms + [sink.value];
    } else {
      assert transforms + [] == transforms;
    }
  }

  /** A draft loaded from any pipeline whose steps have contract identifiers of their own can be edited further. */
  lemma LoadedIsOk(name: string, selections: seq<Selection>)
    requires SlotsNamed(selections)
    ensures DraftOk(Loaded(name, selections))
  {
    var d := Loaded(name, selections);
    FilterMembers(selections, Source);
    FilterMembers(selections, Transform);
    FilterMembers(selections, Export);
    LoadedTail(selections);
    NamedMeansUnique(d);
    var rest := d.transforms + Filled(d.sink);
    assert Selections(d) == Filled(d.source) + rest;
    if d.source.Some? {
      forall t | t in rest ensures t.id != d.source.value.id {
        KindsApart(selections, t, d.source.value);
      }
      NamedInFront(d.source.value, rest);
    } else {
      assert [] + rest == rest;
    }
  }

  /** Where a session starts: at nothing, or at a pipeline loaded for editing. */
  ghost predicate Start(d: Draft) {
    || d == EmptyDraft
    || exists name, selections :: SlotsNamed(selections) && d == Loaded(name, selections)
  }

  /** A draft that the wizard can arrive at. */
  ghost predicate EditedTo(start: Draft, edits: seq<Edit>, d: Draft)
    decreases edits
  {
    if edits == [] then d == start
    else
      var last := |edits| - 1;
      exists before :: EditedTo(start, edits[..last], before) && Offered(before, edits[last]) && d == Apply(before, edits[last])
  }

  lemma StartIsOk(d: Draft)
    requires Start(d)
    ensures DraftOk(d)
  {
    if d != EmptyDraft {
      var name, selections :| SlotsNamed(selections) && d == Loaded(name, selections);
      LoadedIsOk(name, selections);
    }
  }

  lemma {:induction false} EditedIsOk(start: Draft, edits: seq<Edit>, d: Draft)
    requires Start(start) && EditedTo(start, edits, d)
    ensures DraftOk(d)
    decreases edits
  {
    if edits == [] {
      StartIsOk(start);
    } else {
      var last := |edits| - 1;
      var before :| EditedTo(start, edits[..last], before) && Offered(before, edits[last]) && d == Apply(before, edits[last]);
      EditedIsOk(start, edits[..last], before);
      NamedMeansUnique(d);
      NamedMeansUnique(before);
      EditKeepsNames(before, edits[last]);
      EditKeepsKinds(before, edits[last]);
    }
  }

  /** The pipeline is stored as the request says, its steps and edges in any order. */
  ghost predicate StoredAs(p: Pipeline, request: Pipeline) {
    && p.name == request.name
    && multiset(p.graph.steps) == multiset(request.graph.steps)
    && multiset(p.graph.edges) == multiset(request.graph.edges)
  }

  lemma StoredIsAcyclic(d: Draft, p: Pipeline)
    requires DraftOk(d) && multiset(p.graph.edges) == multiset(DeriveGraph(d).edges)
    ensures Acyclic(EdgeSet(p.graph.edges))
  {
    var ids := IdsOf(DeriveGraph(d).steps);
    assert LinksInOrder(p.graph.edges, ids);
    ChainHasNoCycle(p.graph.edges, ids);
  }

  /**
   * Whatever is edited in the wizard, from nothing or from a loaded pipeline: once both ends are chosen the draft can
   * be saved, it comes back as it was with its name trimmed, and saving that again sends the same request.
   */
  lemma WizardRoundTrip(start: Draft, edits: seq<Edit>, d: Draft, p: Pipeline, catalog: map<Kind, seq<Metadata>>,
                        ordered: seq<Step>, selections: seq<Selection>)
    requires Start(start) && EditedTo(start, edits, d) && Complete(d) && StoredAs(p, Request(d))
    requires forall s :: s in Selections(d) ==> Listed(catalog, s.metadata)
    ensures SaveValid(Request(d).graph) && Acyclic(EdgeSet(p.graph.edges))
    ensures OrderedBy(p.graph, ordered) && AllResolved(ordered, catalog, selections) ==>
              && Loaded(p.name, selections) == d.(dirty := false, name := Trim(d.name))
              && Request(Loaded(p.name, selections)) == Request(d)
  {
    EditedIsOk(start, edits, d);
    CompleteIsSavable(d);
    StoredIsAcyclic(d, p);
    if OrderedBy(p.graph, ordered) {
      DraftRoundTrip(d, p, catalog, ordered, selections);
      TrimTwice(d.name);
    }
  }

  lemma TransformsNamed(d: Draft, i: nat, j: nat)
    requires SlotsNamed(Selections(d)) && i < |d.transforms| && j < |d.transforms| && d.transforms[i].id == d.transforms[j].id
    ensures i == j
  {
    var ids, first := SlotIds(Selections(d)), |Filled(d.source)|;
    assert ids[first + i] == d.transforms[i].id && ids[first + j] == d.transforms[j].id;
  }

  lemma FoundAt(d: Draft, k: nat)
    requires SlotsNamed(Selections(d)) && k < |d.transforms|
    ensures IndexOf(d.transforms, d.transforms[k].id) == Some(k)
  {
    var found := IndexOf(d.transforms, d.transforms[k].id);
    if found.Some? {
      TransformsNamed(d, k, found.value);
    }
  }

  lemma MovedNames(d: Draft, id: Id, up: bool, i: nat, target: nat)
    requires SlotsNamed(Selections(d)) && IndexOf(d.transforms, id) == Some(i) && target < |d.transforms|
    requires target == if up then i - 1 else i + 1
    ensures Moved(d, id, up).transforms == Swapped(d.transforms, i, target)
    ensures IndexOf(Moved(d, id, up).transforms, id) == Some(target)
  {
    var swapped := d.(transforms := Swapped(d.transforms, i, target));
    MoveKeeps(d, i, target);
    FoundAt(swapped, target);
  }

  /** Moving a transform and moving it back restores the order. */
  lemma MoveIsUndone(d: Draft, id: Id, up: bool)
    requires DraftOk(d) && Moved(d, id, up).transforms != d.transforms
    ensures Moved(Moved(d, id, up), id, !up).transforms == d.transforms
  {
    NamedMeansUnique(d);
    var i: int := IndexOf(d.transforms, id).value;
    var target := if up then i - 1 else i + 1;
    MovedNames(d, id, up, i, target);
    SwappedTwice(d.transforms, i, target);
  }

  lemma SwappedTwice(transforms: seq<Selection>, i: nat, j: nat)
    requires i < |transforms| && j < |transforms|
    ensures Swapped(Swapped(transforms, i, j), j, i) == transforms
  {
  }
}
