/** What each edit in the wizard does to the draft, and what saving and loading do to its slots. */
module BuilderEdits {
  import opened Wrappers
  import opened Graphs
  import opened SaveValidation
  import opened Chains
  import opened Builder

  // ---------- The edits (pipeline-builder-draft.ts) ----------

  /** A slot after a component is chosen for it: the same component keeps its configuration, another one only the identity. */
  ghost predicate Chosen(slot: Option<Selection>, slot': Option<Selection>, m: Metadata, newId: Id) {
    && slot'.Some? && slot'.value.metadata == m
    && (slot.None? ==> slot'.value.id == newId && slot'.value.secretBindings == [] && slot'.value.values == map[])
    && (slot.Some? ==> slot'.value.id == slot.value.id)
    && (slot.Some? && slot.value.metadata.componentType == m.componentType && slot.value.metadata.version == m.version ==>
          slot'.value.secretBindings == slot.value.secretBindings && slot'.value.values == slot.value.values)
    && (slot.Some? && !(slot.value.metadata.componentType == m.componentType && slot.value.metadata.version == m.version) ==>
          slot'.value.secretBindings == [] && slot'.value.values == map[])
  }

  lemma SourceIsChosen(d: Draft, m: Metadata, newId: Id)
    ensures var after := Apply(d, SetSource(m, newId));
            && Chosen(d.source, after.source, m, newId)
            && after == Draft(true, d.name, after.source, d.transforms, d.sink)
  {
  }

  lemma ExportIsChosen(d: Draft, m: Metadata, newId: Id)
    ensures var after := Apply(d, SetExport(m, newId));
            && Chosen(d.sink, after.sink, m, newId)
            && after == Draft(true, d.name, d.source, d.transforms, after.sink)
  {
  }

  /** Values are replaced in a slot that is filled; a draft without it is not touched. */
  lemma ValuesAreSet(d: Draft, values: map<string, string>)
    ensures Apply(d, SetSourceValues(values))
         == match d.source
            case None => d
            case Some(s) => Draft(true, d.name, Some(Selection(s.id, s.metadata, s.secretBindings, values)), d.transforms, d.sink)
    ensures Apply(d, SetExportValues(values))
         == match d.sink
            case None => d
            case Some(s) => Draft(true, d.name, d.source, d.transforms, Some(Selection(s.id, s.metadata, s.secretBindings, values)))
  {
  }

  /** Renaming and saving touch no slot; only saving clears the dirty flag. */
  lemma SlotsAreLeft(d: Draft, name: string)
    ensures Apply(d, Rename(name)) == Draft(true, name, d.source, d.transforms, d.sink)
    ensures Apply(d, MarkSaved) == Draft(false, d.name, d.source, d.transforms, d.sink)
  {
  }

  /** A new transform comes last, with nothing configured. */
  lemma TransformIsAdded(d: Draft, m: Metadata, newId: Id)
    ensures var after := Apply(d, AddTransform(m, newId));
            && |after.transforms| == |d.transforms| + 1 && d.transforms <= after.transforms
            && after.transforms[|d.transforms|] == Selection(newId, m, [], map[])
            && after == Draft(true, d.name, d.source, after.transforms, d.sink)
  {
  }

  lemma {:induction false} WithoutAbsent(transforms: seq<Selection>, id: Id)
    requires forall k :: 0 <= k < |transforms| ==> transforms[k].id != id
    ensures Without(transforms, id) == transforms
  {
    if transforms != [] {
      WithoutAbsent(transforms[1..], id);
      assert transforms == [transforms[0]] + transforms[1..];
    }
  }

  lemma {:induction false} WithoutOne(transforms: seq<Selection>, id: Id, i: nat)
    requires i < |transforms| && transforms[i].id == id
    requires forall k :: 0 <= k < |transforms| && k != i ==> transforms[k].id != id
    ensures Without(transforms, id) == transforms[..i] + transforms[i + 1..]
    decreases transforms
  {
    var first, rest := transforms[0], transforms[1..];
    if i == 0 {
      WithoutAbsent(rest, id);
      assert Without(transforms, id) == [] + rest;
    } else {
      WithoutOne(rest, id, i - 1);
      assert [first] + (rest[..i - 1] + rest[i..]) == transforms[..i] + transforms[i + 1..];
    }
  }

  lemma FoundAlone(d: Draft, id: Id, i: nat)
    requires DraftOk(d) && i < |d.transforms| && d.transforms[i].id == id
    ensures forall k :: 0 <= k < |d.transforms| && k != i ==> d.transforms[k].id != id
  {
    NamedMeansUnique(d);
    forall k | 0 <= k < |d.transforms| && k != i ensures d.transforms[k].id != id {
      if d.transforms[k].id == id {
        TransformsNamed(d, k, i);
      }
    }
  }

  /** One transform goes and the others close up. An identity that is not there takes none, but the draft counts as edited. */
  lemma TransformIsRemoved(d: Draft, id: Id)
    requires DraftOk(d)
    ensures var after := Apply(d, RemoveTransform(id));
            && after == Draft(true, d.name, d.source, after.transforms, d.sink)
            && (match IndexOf(d.transforms, id)
                case None => after.transforms == d.transforms
                case Some(i) => after.transforms == d.transforms[..i] + d.transforms[i + 1..])
  {
    match IndexOf(d.transforms, id) {
      case None => WithoutAbsent(d.transforms, id);
      case Some(i) =>
        FoundAlone(d, id, i);
        WithoutOne(d.transforms, id, i);
    }
  }

  /** The values of one transform are replaced. An identity that is not there changes none, but the draft counts as edited. */
  lemma TransformValuesAreSet(d: Draft, id: Id, values: map<string, string>)
    requires DraftOk(d)
    ensures var after := Apply(d, SetTransformValues(id, values));
            && after == Draft(true, d.name, d.source, after.transforms, d.sink)
            && (match IndexOf(d.transforms, id)
                case None => after.transforms == d.transforms
                case Some(i) =>
                  var t := d.transforms[i];
                  after.transforms == d.transforms[i := Selection(t.id, t.metadata, t.secretBindings, values)])
  {
    var found := IndexOf(d.transforms, id);
    if found.Some? {
      FoundAlone(d, id, found.value);
    }
  }

  /** A transform changes places with its neighbour; at the end of the list, or if it is not there, nothing happens. */
  lemma TransformIsMoved(d: Draft, id: Id, up: bool)
    ensures var after := Apply(d, MoveTransform(id, up));
            match IndexOf(d.transforms, id)
            case None => after == d
            case Some(i) =>
              && (up && i == 0 ==> after == d)
              && (up && i > 0 ==>
                    after == Draft(true, d.name, d.source,
                                   d.transforms[..i - 1] + [d.transforms[i], d.transforms[i - 1]] + d.transforms[i + 1..], d.sink))
              && (!up && i + 1 == |d.transforms| ==> after == d)
              && (!up && i + 1 < |d.transforms| ==>
                    after == Draft(true, d.name, d.source,
                                   d.transforms[..i] + [d.transforms[i + 1], d.transforms[i]] + d.transforms[i + 2..], d.sink))
  {
    var found := IndexOf(d.transforms, id);
    if found.Some? {
      var i := found.value;
      if up && i > 0 {
        NeighboursSwap(d.transforms, i - 1);
        assert Swapped(d.transforms, i, i - 1) == Swapped(d.transforms, i - 1, i);
      }
      if !up && i + 1 < |d.transforms| {
        NeighboursSwap(d.transforms, i);
      }
    }
  }

  lemma NeighboursSwap(transforms: seq<Selection>, i: nat)
    requires i + 1 < |transforms|
    ensures Swapped(transforms, i, i + 1) == transforms[..i] + [transforms[i + 1], transforms[i]] + transforms[i + 2..]
  {
  }

  // ---------- The name ----------

  /** The blanks by their codes: tabs, line ends and spaces, the no-break spaces and the byte order mark. */
  lemma BlankCodes(c: char)
    ensures Blank(c) <==>
            || 9 <= c as int <= 13 || 8192 <= c as int <= 8202
            || c as int in {32, 160, 5760, 8232, 8233, 8239, 8287, 12288, 65279}
  {
  }

  ghost predicate AllBlank(text: string) {
    forall i :: 0 <= i < |text| ==> Blank(text[i])
  }

  lemma {:induction false} StartIsCut(name: string) returns (front: string)
    ensures name == front + TrimStart(name) && AllBlank(front)
    ensures TrimStart(name) == "" || !Blank(TrimStart(name)[0])
  {
    if name != "" && Blank(name[0]) {
      var more := StartIsCut(name[1..]);
      front := [name[0]] + more;
      assert name == [name[0]] + name[1..];
    } else {
      front := "";
    }
  }

  lemma {:induction false} EndIsCut(name: string) returns (back: string)
    ensures name == TrimEnd(name) + back && AllBlank(back)
    ensures TrimEnd(name) == "" || !Blank(TrimEnd(name)[|TrimEnd(name)| - 1])
  {
    if name != "" && Blank(name[|name| - 1]) {
      var last := |name| - 1;
      var more := EndIsCut(name[..last]);
      back := more + [name[last]];
      assert name == name[..last] + [name[last]];
      assert TrimEnd(name) + more + [name[last]] == TrimEnd(name) + back;
    } else {
      back := "";
    }
  }

  /** The trimmed name is the name without what is blank in front of it and behind it, and itself begins and ends otherwise. */
  lemma TrimmedInside(name: string) returns (front: string, back: string)
    ensures name == front + Trim(name) + back && AllBlank(front) && AllBlank(back)
    ensures Trim(name) == "" || (!Blank(Trim(name)[0]) && !Blank(Trim(name)[|Trim(name)| - 1]))
  {
    front := StartIsCut(name);
    back := EndIsCut(TrimStart(name));
    assert name == front + (Trim(name) + back);
    assert Trim(name) != "" ==> TrimStart(name)[0] == Trim(name)[0];
  }

  // ---------- The graph that is saved ----------

  predicate Holds(step: Step, s: Selection) {
    && step.id == s.id && step.kind == s.metadata.kind
    && step.componentType == s.metadata.componentType && step.componentVersion == s.metadata.version
    && step.configuration.values == s.values && step.configuration.secretBindings == s.secretBindings
  }

  lemma SlotsInOrder(d: Draft)
    ensures var all, first, n := Selections(d), if d.source.Some? then 1 else 0, |d.transforms|;
            && |all| == first + n + (if d.sink.Some? then 1 else 0)
            && (d.source.Some? ==> all[0] == d.source.value)
            && (forall i :: first <= i < first + n ==> all[i] == d.transforms[i - first])
            && (d.sink.Some? ==> all[first + n] == d.sink.value)
  {
  }

  /** Source, transforms and Export in this order. */
  lemma StepsInOrder(d: Draft)
    ensures var steps, first, n := DeriveGraph(d).steps, if d.source.Some? then 1 else 0, |d.transforms|;
            && |steps| == first + n + (if d.sink.Some? then 1 else 0)
            && (d.source.Some? ==> Holds(steps[0], d.source.value))
            && (forall i :: first <= i < first + n ==> Holds(steps[i], d.transforms[i - first]))
            && (d.sink.Some? ==> Holds(steps[first + n], d.sink.value))
  {
    SlotsInOrder(d);
    var steps, all := DeriveGraph(d).steps, Selections(d);
    assert forall i :: 0 <= i < |steps| ==> Holds(steps[i], all[i]);
  }

  /** Each step is linked to the next, and there is no other edge. */
  lemma EdgesInOrder(d: Draft)
    ensures var g := DeriveGraph(d);
            && |g.edges| == (if g.steps == [] then 0 else |g.steps| - 1)
            && forall i :: 0 <= i < |g.edges| ==> g.edges[i].from == g.steps[i].id && g.edges[i].to == g.steps[i + 1].id
  {
  }

  // ---------- The slots that are loaded ----------

  predicate MadeFrom(s: Step, m: Metadata) {
    s.componentType == m.componentType && s.componentVersion == m.version
  }

  /** The first listed component of the step's type and version is the one that is found; without one, none. */
  lemma {:induction false} FirstListed(components: seq<Metadata>, s: Step)
    ensures match FindComponent(components, s)
            case None => forall i :: 0 <= i < |components| ==> !MadeFrom(s, components[i])
            case Some(m) =>
              exists i :: 0 <= i < |components| && components[i] == m && MadeFrom(s, m)
                          && forall k :: 0 <= k < i ==> !MadeFrom(s, components[k])
  {
    if components != [] && !MadeFrom(s, components[0]) {
      FirstListed(components[1..], s);
      var found := FindComponent(components[1..], s);
      if found.Some? {
        var i :| 0 <= i < |components[1..]| && components[1..][i] == found.value && MadeFrom(s, found.value)
                 && forall k :: 0 <= k < i ==> !MadeFrom(s, components[1..][k]);
        assert components[i + 1] == found.value;
        assert forall k :: 0 < k < i + 1 ==> components[k] == components[1..][k - 1];
      }
    }
  }

  lemma {:induction false} FirstIsFound(selections: seq<Selection>, kind: Kind, i: nat)
    requires i < |selections| && selections[i].metadata.kind == kind
    requires forall k :: 0 <= k < i ==> selections[k].metadata.kind != kind
    ensures FindKind(selections, kind) == Some(selections[i])
    decreases selections
  {
    if i > 0 {
      FirstIsFound(selections[1..], kind, i - 1);
    }
  }

  lemma {:induction false} NoneIsFound(selections: seq<Selection>, kind: Kind)
    requires forall k :: 0 <= k < |selections| ==> selections[k].metadata.kind != kind
    ensures FindKind(selections, kind) == None && FilterKind(selections, kind) == []
  {
    if selections != [] {
      NoneIsFound(selections[1..], kind);
    }
  }

  /** A component of the slot's kind fills it, the first one if there are several. */
  lemma SlotsAreFilled(name: string, selections: seq<Selection>, i: nat)
    requires i < |selections|
    ensures selections[i].metadata.kind == Source && (forall k :: 0 <= k < i ==> selections[k].metadata.kind != Source) ==>
              Loaded(name, selections).source == Some(selections[i])
    ensures selections[i].metadata.kind == Export && (forall k :: 0 <= k < i ==> selections[k].metadata.kind != Export) ==>
              Loaded(name, selections).sink == Some(selections[i])
    ensures Loaded(name, selections).name == name && !Loaded(name, selections).dirty
  {
    if selections[i].metadata.kind == Source && forall k :: 0 <= k < i ==> selections[k].metadata.kind != Source {
      FirstIsFound(selections, Source, i);
    }
    if selections[i].metadata.kind == Export && forall k :: 0 <= k < i ==> selections[k].metadata.kind != Export {
      FirstIsFound(selections, Export, i);
    }
  }

  lemma SlotsStayEmpty(name: string, selections: seq<Selection>)
    ensures (forall k :: 0 <= k < |selections| ==> selections[k].metadata.kind != Source) ==> Loaded(name, selections).source == None
    ensures (forall k :: 0 <= k < |selections| ==> selections[k].metadata.kind != Export) ==> Loaded(name, selections).sink == None
  {
    if forall k :: 0 <= k < |selections| ==> selections[k].metadata.kind != Source {
      NoneIsFound(selections, Source);
    }
    if forall k :: 0 <= k < |selections| ==> selections[k].metadata.kind != Export {
      NoneIsFound(selections, Export);
    }
  }

  /** All Transforms are loaded, in their order, and nothing else is among them. */
  lemma TransformsAreLoaded(name: string, front: seq<Selection>, s: Selection, back: seq<Selection>)
    ensures Loaded(name, []).transforms == []
    ensures Loaded(name, front + [s] + back).transforms
         == Loaded(name, front).transforms + (if s.metadata.kind == Transform then [s] else []) + Loaded(name, back).transforms
  {
    KindsJoin(front + [s], back, Transform);
    KindsJoin(front, [s], Transform);
    assert [s][1..] == [];
  }

  // ---------- Edges and steps by identity (pipeline-builder-persistence.ts) ----------

  /** Of several edges from one step the last one counts. */
  lemma {:induction false} LastEdgeCounts(edges: seq<Edge>, i: nat)
    requires i < |edges| && forall k :: i < k < |edges| ==> edges[k].from != edges[i].from
    ensures edges[i].from in NextIds(edges) && NextIds(edges)[edges[i].from] == edges[i].to
    decreases |edges|
  {
    var last := |edges| - 1;
    if i < last {
      assert edges[last].from != edges[i].from;
      LastEdgeCounts(edges[..last], i);
    }
  }

  /** Of several steps with one identity the last one counts. */
  lemma {:induction false} LastStepCounts(steps: seq<Step>, i: nat)
    requires i < |steps| && forall k :: i < k < |steps| ==> steps[k].id != steps[i].id
    ensures steps[i].id in StepsById(steps) && StepsById(steps)[steps[i].id] == steps[i]
    decreases |steps|
  {
    var last := |steps| - 1;
    if i < last {
      assert steps[last].id != steps[i].id;
      LastStepCounts(steps[..last], i);
    }
  }
}
