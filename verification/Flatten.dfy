/** Turning JSON documents into table rows (workers/python/components/transforms/document.py). */
module Flatten {
  import opened Wrappers

  datatype Json = Null | Bool(flag: bool) | Num(number: real) | Str(text: string) | Arr(items: seq<Json>) | Obj(fields: seq<Field>)

  datatype Field = Field(key: string, value: Json)

  /** Arrays become compact JSON text, or one row for each element. */
  datatype ArrayMode = JsonText | Explode

  datatype Config = Config(mode: ArrayMode, separator: string)

  /** What a column holds: a scalar as it is, or the text of an array. */
  datatype Cell = Scalar(value: Json) | TextOf(items: seq<Json>)

  datatype Entry = Entry(column: string, cell: Cell)

  /** A row with its columns in order. */
  type Record = seq<Entry>

  datatype FlattenError = EmptyKey | NestedArray | Conflict | PathUnavailable | NotARecord | NotAllObjects

  // ---------- What a document means as a table ----------

  datatype Leaf = Leaf(path: seq<string>, cell: Cell)

  function CellOf(v: Json): Cell {
    if v.Arr? then TextOf(v.items) else Scalar(v)
  }

  /** Everything below `v` that is not an object, with the keys that lead to it. */
  function Leaves(v: Json, path: seq<string>): seq<Leaf>
    decreases v
  {
    if v.Obj? then FieldLeaves(v.fields, path) else [Leaf(path, CellOf(v))]
  }

  function FieldLeaves(fields: seq<Field>, path: seq<string>): seq<Leaf>
    decreases fields
  {
    if fields == [] then []
    else
      var last := |fields| - 1;
      FieldLeaves(fields[..last], path) + Leaves(fields[last].value, path + [fields[last].key])
  }

  function Joined(path: seq<string>, separator: string): string {
    if path == [] then ""
    else if |path| == 1 then path[0]
    else Joined(path[..|path| - 1], separator) + separator + path[|path| - 1]
  }

  function RecordOf(leaves: seq<Leaf>, separator: string): (record: Record)
    ensures |record| == |leaves|
    ensures forall i :: 0 <= i < |leaves| ==> record[i] == Entry(Joined(leaves[i].path, separator), leaves[i].cell)
  {
    seq(|leaves|, i requires 0 <= i < |leaves| => Entry(Joined(leaves[i].path, separator), leaves[i].cell))
  }

  ghost predicate DistinctColumns(record: Record) {
    forall i, j :: 0 <= i < j < |record| ==> record[i].column != record[j].column
  }

  /** All pairs in lexicographic order. */
  function Pairs<A, B>(xs: seq<A>, ys: seq<B>): seq<(A, B)> {
    if xs == [] then [] else Pairs(xs[..|xs| - 1], ys) + PairsWith(xs[|xs| - 1], ys)
  }

  function PairsWith<A, B>(x: A, ys: seq<B>): (pairs: seq<(A, B)>)
    ensures |pairs| == |ys|
    ensures forall j :: 0 <= j < |ys| ==> pairs[j] == (x, ys[j])
  {
    seq(|ys|, j requires 0 <= j < |ys| => (x, ys[j]))
  }

  /** The values `v` stands for when each array in it is replaced by one of its elements, in order. */
  function Expand(v: Json, mode: ArrayMode): seq<Json>
    decreases v
  {
    match v
    case Obj(fields) => Objects(ExpandFields(fields, mode))
    case Arr(items) => if mode.JsonText? then [v] else ExpandItems(items, mode)
    case _ => [v]
  }

  function Objects(all: seq<seq<Field>>): (objects: seq<Json>)
    ensures |objects| == |all|
    ensures forall i :: 0 <= i < |all| ==> objects[i] == Obj(all[i])
  {
    seq(|all|, i requires 0 <= i < |all| => Obj(all[i]))
  }

  function ExpandItems(items: seq<Json>, mode: ArrayMode): seq<Json>
    decreases items
  {
    if items == [] then []
    else ExpandItems(items[..|items| - 1], mode) + Expand(items[|items| - 1], mode)
  }

  function ExpandFields(fields: seq<Field>, mode: ArrayMode): seq<seq<Field>>
    decreases fields
  {
    if fields == [] then [[]]
    else
      var last := |fields| - 1;
      Extended(Pairs(ExpandFields(fields[..last], mode), Expand(fields[last].value, mode)), fields[last].key)
  }

  function Extended(pairs: seq<(seq<Field>, Json)>, key: string): (all: seq<seq<Field>>)
    ensures |all| == |pairs|
    ensures forall i :: 0 <= i < |pairs| ==> all[i] == pairs[i].0 + [Field(key, pairs[i].1)]
  {
    seq(|pairs|, i requires 0 <= i < |pairs| => pairs[i].0 + [Field(key, pairs[i].1)])
  }

  function RowAt(v: Json, path: seq<string>, separator: string): Record {
    RecordOf(Leaves(v, path), separator)
  }

  function FieldsRow(fields: seq<Field>, path: seq<string>, separator: string): Record {
    RecordOf(FieldLeaves(fields, path), separator)
  }

  function Rows(vs: seq<Json>, path: seq<string>, separator: string): (rows: seq<Record>)
    ensures |rows| == |vs|
    ensures forall i :: 0 <= i < |vs| ==> rows[i] == RowAt(vs[i], path, separator)
  {
    seq(|vs|, i requires 0 <= i < |vs| => RowAt(vs[i], path, separator))
  }

  function FieldsRows(all: seq<seq<Field>>, path: seq<string>, separator: string): (rows: seq<Record>)
    ensures |rows| == |all|
    ensures forall i :: 0 <= i < |all| ==> rows[i] == FieldsRow(all[i], path, separator)
  {
    seq(|all|, i requires 0 <= i < |all| => FieldsRow(all[i], path, separator))
  }

  /** The rows of an object as far as its first `n` fields go. */
  function PrefixRows(fields: seq<Field>, n: nat, path: seq<string>, c: Config): seq<Record>
    requires n <= |fields|
  {
    FieldsRows(ExpandFields(fields[..n], c.mode), path, c.separator)
  }

  function FieldAlternatives(field: Field, path: seq<string>, c: Config): seq<Record> {
    Rows(Expand(field.value, c.mode), path + [field.key], c.separator)
  }

  // ---------- When a document has a meaning ----------

  /** No key on any path is empty. In text mode the inside of arrays is not looked at. */
  predicate KeysOk(v: Json, mode: ArrayMode) {
    match v
    case Obj(fields) => forall i :: 0 <= i < |fields| ==> fields[i].key != "" && KeysOk(fields[i].value, mode)
    case Arr(items) => mode.JsonText? || forall i :: 0 <= i < |items| ==> KeysOk(items[i], mode)
    case _ => true
  }

  /** No array stands directly in an array that is exploded. */
  predicate ArraysOk(v: Json, mode: ArrayMode) {
    match v
    case Obj(fields) => forall i :: 0 <= i < |fields| ==> ArraysOk(fields[i].value, mode)
    case Arr(items) => mode.JsonText? || forall i :: 0 <= i < |items| ==> !items[i].Arr? && ArraysOk(items[i], mode)
    case _ => true
  }

  predicate Fruitful(fields: seq<Field>, mode: ArrayMode) {
    forall i :: 0 <= i < |fields| ==> Expand(fields[i].value, mode) != []
  }

  ghost predicate AllDistinct(rows: seq<Record>) {
    forall i :: 0 <= i < |rows| ==> DistinctColumns(rows[i])
  }

  /**
   * In every object the rows that its fields combine to have distinct columns, as far as the fields have
   * alternatives: after a field that stands for no value the others are not combined.
   */
  ghost predicate ColumnsOk(v: Json, path: seq<string>, c: Config) {
    match v
    case Obj(fields) =>
      && (forall i :: 0 <= i < |fields| ==> ColumnsOk(fields[i].value, path + [fields[i].key], c))
      && FieldsCombine(fields, path, c)
    case Arr(items) => c.mode.JsonText? || forall i :: 0 <= i < |items| ==> ColumnsOk(items[i], path, c)
    case _ => true
  }

  ghost predicate FieldsCombine(fields: seq<Field>, path: seq<string>, c: Config) {
    forall n: nat :: n <= |fields| && Fruitful(fields[..n], c.mode) ==> AllDistinct(PrefixRows(fields, n, path, c))
  }

  ghost predicate Clean(v: Json, path: seq<string>, c: Config) {
    KeysOk(v, c.mode) && ArraysOk(v, c.mode) && ColumnsOk(v, path, c)
  }

  /** An error names something that is wrong with the value. */
  ghost predicate Blames(error: FlattenError, v: Json, path: seq<string>, c: Config) {
    match error
    case EmptyKey => !KeysOk(v, c.mode)
    case NestedArray => !ArraysOk(v, c.mode)
    case Conflict => !ColumnsOk(v, path, c)
    case _ => false
  }

  // ---------- Merging two branches of a record ----------

  predicate HasColumn(record: Record, column: string) {
    exists i :: 0 <= i < |record| && record[i].column == column
  }

  predicate Conflicting(left: Record, right: Record) {
    exists j :: 0 <= j < |right| && HasColumn(left, right[j].column)
  }

  /** An assignment to a dictionary: an existing column keeps its place and loses its value. */
  function Put(record: Record, entry: Entry): Record {
    if HasColumn(record, entry.column) then
      seq(|record|, i requires 0 <= i < |record| => if record[i].column == entry.column then entry else record[i])
    else record + [entry]
  }

  function Update(left: Record, right: Record): Record {
    if right == [] then left else Put(Update(left, right[..|right| - 1]), right[|right| - 1])
  }

  function MergeRecords(left: Record, right: Record): Result<Record, FlattenError> {
    if Conflicting(left, right) then Err(Conflict) else Ok(Update(left, right))
  }

  lemma {:induction false} UpdateAppends(left: Record, right: Record)
    requires DistinctColumns(right) && !Conflicting(left, right)
    ensures Update(left, right) == left + right
  {
    if right != [] {
      var last := |right| - 1;
      UpdateAppends(left, right[..last]);
      AbsentFromBoth(left, right[..last], right[last].column);
      assert right == right[..last] + [right[last]];
    }
  }

  lemma AbsentFromBoth(left: Record, right: Record, column: string)
    requires !HasColumn(left, column) && !HasColumn(right, column)
    ensures !HasColumn(left + right, column)
  {
  }

  /** A merge succeeds exactly when no column would be overwritten, and then keeps both sides whole. */
  lemma MergeKeepsBoth(left: Record, right: Record)
    requires DistinctColumns(left) && DistinctColumns(right)
    ensures MergeRecords(left, right).Ok? <==> DistinctColumns(left + right)
    ensures MergeRecords(left, right).Ok? ==> MergeRecords(left, right).value == left + right
  {
    var both := left + right;
    if Conflicting(left, right) {
      var j :| 0 <= j < |right| && HasColumn(left, right[j].column);
      var i :| 0 <= i < |left| && left[i].column == right[j].column;
      assert both[i].column == both[|left| + j].column;
    } else {
      forall i, j | 0 <= i < j < |both| ensures both[i].column != both[j].column {
        if i < |left| <= j {
          assert !HasColumn(left, right[j - |left|].column);
        }
      }
      UpdateAppends(left, right);
    }
  }

  // ---------- Pairs ----------

  /** Lexicographic order: the pair of the i-th and the j-th stands at i * |ys| + j. */
  lemma {:induction false} PairsAt<A, B>(xs: seq<A>, ys: seq<B>, i: nat, j: nat)
    requires i < |xs| && j < |ys|
    ensures |Pairs(xs, ys)| == |xs| * |ys| && i * |ys| + j < |xs| * |ys|
    ensures Pairs(xs, ys)[i * |ys| + j] == (xs[i], ys[j])
  {
    var last := |xs| - 1;
    PairsCount(xs[..last], ys);
    assert last * |ys| + |ys| == |xs| * |ys|;
    if i < last {
      PairsAt(xs[..last], ys, i, j);
    }
  }

  lemma {:induction false} PairsCount<A, B>(xs: seq<A>, ys: seq<B>)
    ensures |Pairs(xs, ys)| == |xs| * |ys|
  {
    if xs != [] {
      PairsCount(xs[..|xs| - 1], ys);
      assert (|xs| - 1) * |ys| + |ys| == |xs| * |ys|;
    }
  }

  /** The k-th pairs of two products of the same sizes are made at the same two positions. */
  lemma {:induction false} SamePlaces<A, B, C, D>(xs: seq<A>, ys: seq<B>, us: seq<C>, vs: seq<D>, k: nat)
      returns (i: nat, j: nat)
    requires |xs| == |us| && |ys| == |vs| && k < |Pairs(xs, ys)|
    ensures k < |Pairs(us, vs)| && i < |xs| && j < |ys|
    ensures Pairs(xs, ys)[k] == (xs[i], ys[j]) && Pairs(us, vs)[k] == (us[i], vs[j])
  {
    var last := |xs| - 1;
    PairsCount(xs[..last], ys);
    PairsCount(us[..last], vs);
    if k < |Pairs(xs[..last], ys)| {
      i, j := SamePlaces(xs[..last], ys, us[..last], vs, k);
    } else {
      i, j := last, k - |Pairs(xs[..last], ys)|;
    }
  }

  // ---------- Rows of an object, field by field ----------

  lemma RecordsJoin(left: seq<Leaf>, right: seq<Leaf>, separator: string)
    ensures RecordOf(left + right, separator) == RecordOf(left, separator) + RecordOf(right, separator)
  {
  }

  lemma FieldAdds(fields: seq<Field>, field: Field, path: seq<string>, separator: string)
    ensures FieldsRow(fields + [field], path, separator)
         == FieldsRow(fields, path, separator) + RowAt(field.value, path + [field.key], separator)
  {
    assert (fields + [field])[..|fields|] == fields;
    RecordsJoin(FieldLeaves(fields, path), Leaves(field.value, path + [field.key]), separator);
  }

  /** One more field: each row so far with each row of the field, in lexicographic order. */
  lemma NextField(fields: seq<Field>, n: nat, path: seq<string>, c: Config)
    requires n < |fields|
    ensures var pairs := Pairs(PrefixRows(fields, n, path, c), FieldAlternatives(fields[n], path, c));
            && |PrefixRows(fields, n + 1, path, c)| == |pairs|
            && forall k :: 0 <= k < |pairs| ==> PrefixRows(fields, n + 1, path, c)[k] == pairs[k].0 + pairs[k].1
  {
    var heads, values := ExpandFields(fields[..n], c.mode), Expand(fields[n].value, c.mode);
    var rows, alternatives := PrefixRows(fields, n, path, c), FieldAlternatives(fields[n], path, c);
    assert fields[..n + 1][..n] == fields[..n];
    PairsCount(heads, values);
    PairsCount(rows, alternatives);
    forall k | 0 <= k < |Pairs(rows, alternatives)|
      ensures PrefixRows(fields, n + 1, path, c)[k] == Pairs(rows, alternatives)[k].0 + Pairs(rows, alternatives)[k].1
    {
      var i, j := SamePlaces(heads, values, rows, alternatives, k);
      FieldAdds(heads[i], Field(fields[n].key, values[j]), path, c.separator);
    }
  }

  // ---------- Alternatives of a clean value ----------

  lemma RowsJoin(left: seq<Json>, right: seq<Json>, path: seq<string>, separator: string)
    ensures Rows(left + right, path, separator) == Rows(left, path, separator) + Rows(right, path, separator)
  {
  }

  /** The rows of an object are the rows of its fields combined. */
  lemma ObjectRows(fields: seq<Field>, path: seq<string>, c: Config)
    ensures Rows(Expand(Obj(fields), c.mode), path, c.separator) == PrefixRows(fields, |fields|, path, c)
  {
    assert fields[..|fields|] == fields;
  }

  lemma {:induction false} BarrenField(fields: seq<Field>, i: nat, mode: ArrayMode)
    requires i < |fields| && Expand(fields[i].value, mode) == []
    ensures ExpandFields(fields, mode) == []
  {
    var last := |fields| - 1;
    PairsCount(ExpandFields(fields[..last], mode), Expand(fields[last].value, mode));
    if i < last {
      BarrenField(fields[..last], i, mode);
    }
  }

  /** Every row of a value that flattens has distinct columns. */
  lemma {:induction false} RowsAreDistinct(v: Json, path: seq<string>, c: Config)
    requires ColumnsOk(v, path, c)
    ensures AllDistinct(Rows(Expand(v, c.mode), path, c.separator))
    decreases v, 1
  {
    match v {
      case Obj(fields) =>
        ObjectRows(fields, path, c);
        if Fruitful(fields, c.mode) {
          assert fields[..|fields|] == fields;
        } else {
          var i :| 0 <= i < |fields| && Expand(fields[i].value, c.mode) == [];
          BarrenField(fields, i, c.mode);
        }
      case Arr(items) =>
        if c.mode.Explode? {
          ItemsAreDistinct(v, |items|, path, c);
          assert items[..|items|] == items;
        }
      case _ =>
    }
  }

  lemma {:induction false} ItemsAreDistinct(v: Json, n: nat, path: seq<string>, c: Config)
    requires v.Arr? && n <= |v.items| && c.mode.Explode? && ColumnsOk(v, path, c)
    ensures AllDistinct(Rows(ExpandItems(v.items[..n], c.mode), path, c.separator))
    decreases v, 0, n
  {
    if n > 0 {
      ItemsAreDistinct(v, n - 1, path, c);
      RowsAreDistinct(v.items[n - 1], path, c);
      assert v.items[..n][..n - 1] == v.items[..n - 1];
      RowsJoin(ExpandItems(v.items[..n - 1], c.mode), Expand(v.items[n - 1], c.mode), path, c.separator);
    }
  }

  // ---------- The transform ----------

  /** Each row so far with each alternative, unless a column occurs in both. */
  method MergeEach(left: Record, alternatives: seq<Record>) returns (merged: Result<seq<Record>, FlattenError>)
    requires DistinctColumns(left) && AllDistinct(alternatives)
    ensures merged.Ok? <==> forall j :: 0 <= j < |alternatives| ==> DistinctColumns(left + alternatives[j])
    ensures merged.Ok? ==> |merged.value| == |alternatives|
    ensures merged.Ok? ==> forall j :: 0 <= j < |alternatives| ==> merged.value[j] == left + alternatives[j]
    ensures merged.Err? ==> merged.error.Conflict?
  {
    var rows: seq<Record> := [];
    for j := 0 to |alternatives|
      invariant |rows| == j
      invariant forall k :: 0 <= k < j ==> rows[k] == left + alternatives[k] && DistinctColumns(rows[k])
    {
      MergeKeepsBoth(left, alternatives[j]);
      var row := MergeRecords(left, alternatives[j]);
      if row.Err? {
        return Err(row.error);
      }
      rows := rows + [row.value];
    }
    merged := Ok(rows);
  }

  ghost predicate Merges(pairs: seq<(Record, Record)>) {
    forall k :: 0 <= k < |pairs| ==> DistinctColumns(pairs[k].0 + pairs[k].1)
  }

  ghost predicate AreMerged(rows: seq<Record>, pairs: seq<(Record, Record)>) {
    |rows| == |pairs| && forall k :: 0 <= k < |pairs| ==> rows[k] == pairs[k].0 + pairs[k].1
  }

  method MergeProduct(rows: seq<Record>, alternatives: seq<Record>) returns (merged: Result<seq<Record>, FlattenError>)
    requires AllDistinct(rows) && AllDistinct(alternatives)
    ensures merged.Ok? <==> Merges(Pairs(rows, alternatives))
    ensures merged.Ok? ==> AreMerged(merged.value, Pairs(rows, alternatives))
    ensures merged.Err? ==> merged.error.Conflict?
  {
    var all: seq<Record> := [];
    for i := 0 to |rows|
      invariant Merges(Pairs(rows[..i], alternatives))
      invariant AreMerged(all, Pairs(rows[..i], alternatives))
    {
      var some := MergeEach(rows[i], alternatives);
      PairsGrow(rows, i, alternatives);
      if some.Err? {
        return Err(some.error);
      }
      all := all + some.value;
    }
    assert rows[..|rows|] == rows;
    merged := Ok(all);
  }

  /** The pairs of the first `i` rows come first, then those of row `i`; none of them disappears later. */
  lemma {:induction false} PairsGrow(rows: seq<Record>, i: nat, alternatives: seq<Record>)
    requires i < |rows|
    ensures Pairs(rows[..i + 1], alternatives) == Pairs(rows[..i], alternatives) + PairsWith(rows[i], alternatives)
    ensures Merges(Pairs(rows, alternatives)) ==>
              forall j :: 0 <= j < |alternatives| ==> DistinctColumns(rows[i] + alternatives[j])
  {
    assert rows[..i + 1][..i] == rows[..i];
    forall j | Merges(Pairs(rows, alternatives)) && 0 <= j < |alternatives|
      ensures DistinctColumns(rows[i] + alternatives[j])
    {
      PairsAt(rows, alternatives, i, j);
    }
  }

  lemma StepMerges(fields: seq<Field>, n: nat, path: seq<string>, c: Config)
    requires n < |fields|
    ensures var pairs := Pairs(PrefixRows(fields, n, path, c), FieldAlternatives(fields[n], path, c));
            && AreMerged(PrefixRows(fields, n + 1, path, c), pairs)
            && (Merges(pairs) <==> AllDistinct(PrefixRows(fields, n + 1, path, c)))
  {
    NextField(fields, n, path, c);
  }

  /** The first `n` fields all have alternatives, and combine without repeating a column. */
  ghost predicate CombinedSoFar(fields: seq<Field>, n: nat, path: seq<string>, c: Config) {
    n <= |fields| && Fruitful(fields[..n], c.mode) && forall m :: 0 <= m <= n ==> AllDistinct(PrefixRows(fields, m, path, c))
  }

  lemma CombineStops(fields: seq<Field>, n: nat, path: seq<string>, c: Config)
    requires CombinedSoFar(fields, n, path, c) && n < |fields| && FieldAlternatives(fields[n], path, c) == []
    ensures FieldsCombine(fields, path, c) && PrefixRows(fields, |fields|, path, c) == []
  {
    assert forall m | n < m <= |fields| :: fields[..m][n] == fields[n];
    BarrenField(fields[..|fields|], n, c.mode);
  }

  lemma FruitfulOneMore(fields: seq<Field>, n: nat, mode: ArrayMode)
    requires n < |fields| && Fruitful(fields[..n], mode) && Expand(fields[n].value, mode) != []
    ensures Fruitful(fields[..n + 1], mode)
  {
    assert forall i :: 0 <= i < n ==> fields[..n + 1][i] == fields[..n][i];
  }

  lemma CombineGoesOn(fields: seq<Field>, n: nat, path: seq<string>, c: Config)
    requires CombinedSoFar(fields, n, path, c) && n < |fields| && FieldAlternatives(fields[n], path, c) != []
    ensures if Merges(Pairs(PrefixRows(fields, n, path, c), FieldAlternatives(fields[n], path, c)))
            then CombinedSoFar(fields, n + 1, path, c) else !FieldsCombine(fields, path, c)
  {
    StepMerges(fields, n, path, c);
    FruitfulOneMore(fields, n, c.mode);
  }

  /** Combines the rows of the fields, stopping at a field that has none. */
  method CombineFragments(fields: seq<Field>, fragments: seq<seq<Record>>, ghost path: seq<string>, c: Config)
      returns (rows: Result<seq<Record>, FlattenError>)
    requires |fragments| == |fields|
    requires forall i :: 0 <= i < |fields| ==> fragments[i] == FieldAlternatives(fields[i], path, c)
    requires forall i :: 0 <= i < |fields| ==> AllDistinct(fragments[i])
    ensures rows.Ok? <==> FieldsCombine(fields, path, c)
    ensures rows.Ok? ==> rows.value == PrefixRows(fields, |fields|, path, c)
    ensures rows.Err? ==> rows.error.Conflict?
  {
    var all: seq<Record> := [[]];
    for n := 0 to |fragments|
      invariant all == PrefixRows(fields, n, path, c) && CombinedSoFar(fields, n, path, c)
    {
      if fragments[n] == [] {
        CombineStops(fields, n, path, c);
        return Ok([]);
      }
      CombineGoesOn(fields, n, path, c);
      StepMerges(fields, n, path, c);
      var merged := MergeProduct(all, fragments[n]);
      if merged.Err? {
        return Err(merged.error);
      }
      all := merged.value;
    }
    rows := Ok(all);
  }

  /** The column of a key below a prefix. At the top there is no prefix, and no separator. */
  function ColumnBelow(prefix: string, key: string, separator: string): string {
    if prefix != "" then prefix + separator + key else key
  }

  predicate NamesPath(prefix: string, path: seq<string>, separator: string) {
    prefix == Joined(path, separator) && (path != [] ==> path[|path| - 1] != "")
  }

  lemma ColumnNamesPath(prefix: string, path: seq<string>, key: string, separator: string)
    requires NamesPath(prefix, path, separator) && key != ""
    ensures NamesPath(ColumnBelow(prefix, key, separator), path + [key], separator)
  {
    assert (path + [key])[..|path|] == path;
  }

  lemma LeafRow(v: Json, path: seq<string>, separator: string)
    requires !v.Obj?
    ensures Rows([v], path, separator) == [[Entry(Joined(path, separator), CellOf(v))]]
  {
    assert RowAt(v, path, separator) == [Entry(Joined(path, separator), CellOf(v))];
  }

  method FlattenValue(v: Json, column: string, ghost path: seq<string>, c: Config)
      returns (rows: Result<seq<Record>, FlattenError>)
    requires NamesPath(column, path, c.separator) && path != []
    ensures rows.Ok? <==> Clean(v, path, c)
    ensures rows.Ok? ==> rows.value == Rows(Expand(v, c.mode), path, c.separator)
    ensures rows.Err? ==> Blames(rows.error, v, path, c)
    decreases v
  {
    match v {
      case Obj(fields) =>
        rows := FlattenObject(fields, column, path, c);
      case Arr(items) =>
        if c.mode.JsonText? {
          rows := Ok([[Entry(column, TextOf(items))]]);
          LeafRow(v, path, c.separator);
        } else {
          rows := ExplodeArray(items, column, path, c);
        }
      case _ =>
        LeafRow(v, path, c.separator);
        rows := Ok([[Entry(column, Scalar(v))]]);
    }
  }

  method FlattenObject(fields: seq<Field>, prefix: string, ghost path: seq<string>, c: Config)
      returns (rows: Result<seq<Record>, FlattenError>)
    requires NamesPath(prefix, path, c.separator)
    ensures rows.Ok? <==> Clean(Obj(fields), path, c)
    ensures rows.Ok? ==> rows.value == Rows(Expand(Obj(fields), c.mode), path, c.separator)
    ensures rows.Err? ==> Blames(rows.error, Obj(fields), path, c)
    decreases fields
  {
    var fragments: seq<seq<Record>> := [];
    for i := 0 to |fields|
      invariant |fragments| == i
      invariant forall k :: 0 <= k < i ==> fields[k].key != "" && Clean(fields[k].value, path + [fields[k].key], c)
      invariant forall k :: 0 <= k < i ==> fragments[k] == FieldAlternatives(fields[k], path, c)
      invariant forall k :: 0 <= k < i ==> AllDistinct(fragments[k])
    {
      if fields[i].key == "" {
        return Err(EmptyKey);
      }
      ColumnNamesPath(prefix, path, fields[i].key, c.separator);
      var below := path + [fields[i].key];
      var some := FlattenValue(fields[i].value, ColumnBelow(prefix, fields[i].key, c.separator), below, c);
      if some.Err? {
        return Err(some.error);
      }
      RowsAreDistinct(fields[i].value, below, c);
      fragments := fragments + [some.value];
    }
    ObjectRows(fields, path, c);
    rows := CombineFragments(fields, fragments, path, c);
  }

  lemma OneMoreItem(items: seq<Json>, i: nat, path: seq<string>, c: Config)
    requires i < |items|
    ensures Rows(ExpandItems(items[..i + 1], c.mode), path, c.separator)
         == Rows(ExpandItems(items[..i], c.mode), path, c.separator) + Rows(Expand(items[i], c.mode), path, c.separator)
  {
    assert items[..i + 1][..i] == items[..i];
    RowsJoin(ExpandItems(items[..i], c.mode), Expand(items[i], c.mode), path, c.separator);
  }

  method ExplodeArray(items: seq<Json>, column: string, ghost path: seq<string>, c: Config)
      returns (rows: Result<seq<Record>, FlattenError>)
    requires NamesPath(column, path, c.separator) && path != [] && c.mode.Explode?
    ensures rows.Ok? <==> Clean(Arr(items), path, c)
    ensures rows.Ok? ==> rows.value == Rows(Expand(Arr(items), c.mode), path, c.separator)
    ensures rows.Err? ==> Blames(rows.error, Arr(items), path, c)
    decreases items
  {
    var all: seq<Record> := [];
    for i := 0 to |items|
      invariant forall k :: 0 <= k < i ==> !items[k].Arr? && Clean(items[k], path, c)
      invariant all == Rows(ExpandItems(items[..i], c.mode), path, c.separator)
    {
      OneMoreItem(items, i, path, c);
      match items[i] {
        case Arr(_) =>
          return Err(NestedArray);
        case Obj(fields) =>
          var some := FlattenObject(fields, column, path, c);
          if some.Err? {
            return Err(some.error);
          }
          all := all + some.value;
        case _ =>
          LeafRow(items[i], path, c.separator);
          all := all + [[Entry(column, Scalar(items[i]))]];
      }
    }
    assert items[..|items|] == items;
    rows := Ok(all);
  }

  function Lookup(fields: seq<Field>, key: string): (value: Option<Json>)
    ensures value.None? <==> forall i :: 0 <= i < |fields| ==> fields[i].key != key
    ensures value.Some? ==>
              exists i :: 0 <= i < |fields| && fields[i] == Field(key, value.value) && forall k :: 0 <= k < i ==> fields[k].key != key
  {
    if fields == [] then None else if fields[0].key == key then Some(fields[0].value) else Lookup(fields[1..], key)
  }

  /** What stands below a document along a path of object keys. */
  function Below(document: Json, path: seq<string>): Option<Json>
    decreases path
  {
    if path == [] then Some(document)
    else
      var last := |path| - 1;
      match Below(document, path[..last])
      case None => None
      case Some(v) => if v.Obj? then Lookup(v.fields, path[last]) else None
  }

  method ResolveRecordPath(document: Json, recordPath: seq<string>) returns (target: Result<Json, FlattenError>)
    ensures target == match Below(document, recordPath) case None => Err(PathUnavailable) case Some(v) => Ok(v)
  {
    var current := document;
    for i := 0 to |recordPath|
      invariant Below(document, recordPath[..i]) == Some(current)
    {
      assert recordPath[..i + 1][..i] == recordPath[..i];
      var next := if current.Obj? then Lookup(current.fields, recordPath[i]) else None;
      if next.None? {
        Unavailable(document, recordPath, i + 1);
        return Err(PathUnavailable);
      }
      current := next.value;
    }
    assert recordPath[..|recordPath|] == recordPath;
    target := Ok(current);
  }

  lemma {:induction false} Unavailable(document: Json, path: seq<string>, i: nat)
    requires i <= |path| && Below(document, path[..i]).None?
    ensures Below(document, path).None?
    decreases |path| - i
  {
    if i < |path| {
      assert path[..i + 1][..i] == path[..i];
      Unavailable(document, path, i + 1);
    } else {
      assert path[..i] == path;
    }
  }

  /** The records of a document: one object, or an array of nothing but objects. */
  function Records(target: Json): Option<seq<Json>> {
    match target
    case Obj(_) => Some([target])
    case Arr(items) => if forall i :: 0 <= i < |items| ==> items[i].Obj? then Some(items) else None
    case _ => None
  }

  /** An object is the only record; an array that holds nothing but objects holds the records, in order; else there are none. */
  lemma RecordsAre(target: Json)
    ensures target.Obj? ==> Records(target) == Some([target])
    ensures target.Arr? && (forall i :: 0 <= i < |target.items| ==> target.items[i].Obj?) ==> Records(target) == Some(target.items)
    ensures target.Arr? && (exists i :: 0 <= i < |target.items| && !target.items[i].Obj?) ==> Records(target) == None
    ensures !target.Obj? && !target.Arr? ==> Records(target) == None
  {
  }

  /** What never flattens: an empty key, and an array directly in an array that is exploded. */
  lemma RefusedValues(fields: seq<Field>, items: seq<Json>, i: nat, path: seq<string>, c: Config)
    ensures i < |fields| && fields[i].key == "" ==> !Clean(Obj(fields), path, c)
    ensures i < |fields| && !Clean(fields[i].value, path + [fields[i].key], c) ==> !Clean(Obj(fields), path, c)
    ensures c.mode == Explode && i < |items| && items[i].Arr? ==> !Clean(Arr(items), path, c)
    ensures c.mode == Explode && i < |items| && !Clean(items[i], path, c) ==> !Clean(Arr(items), path, c)
    ensures c.mode == JsonText ==> Clean(Arr(items), path, c)
  {
  }

  /** The first records are all clean. */
  ghost predicate CleanSoFar(records: seq<Json>, n: nat, c: Config)
    requires n <= |records|
  {
    forall i :: 0 <= i < n ==> Clean(records[i], [], c)
  }

  lemma OneMoreClean(records: seq<Json>, n: nat, c: Config)
    requires n < |records| && CleanSoFar(records, n, c) && Clean(records[n], [], c)
    ensures CleanSoFar(records, n + 1, c)
  {
  }

  method FlattenRecords(records: seq<Json>, c: Config) returns (rows: Result<seq<Record>, FlattenError>)
    requires forall i :: 0 <= i < |records| ==> records[i].Obj?
    ensures rows.Ok? <==> forall i :: 0 <= i < |records| ==> Clean(records[i], [], c)
    ensures rows.Ok? ==> rows.value == Rows(ExpandItems(records, c.mode), [], c.separator)
    ensures rows.Err? ==> exists i :: 0 <= i < |records| && Blames(rows.error, records[i], [], c)
  {
    var all: seq<Record> := [];
    for i := 0 to |records|
      invariant CleanSoFar(records, i, c)
      invariant all == Rows(ExpandItems(records[..i], c.mode), [], c.separator)
    {
      var record := records[i];
      assert record == Obj(record.fields);
      var some := FlattenObject(record.fields, "", [], c);
      if some.Err? {
        assert Blames(some.error, records[i], [], c);
        return Err(some.error);
      }
      OneMoreItem(records, i, [], c);
      OneMoreClean(records, i, c);
      all := all + some.value;
    }
    assert records[..|records|] == records;
    rows := Ok(all);
  }

  /** A document flattens exactly when its records are found and all clean, into the rows of all their choices. */
  method FlattenDocument(document: Json, recordPath: seq<string>, c: Config)
      returns (rows: Result<seq<Record>, FlattenError>)
    ensures var target := Below(document, recordPath);
            if target.None? then rows == Err(PathUnavailable)
            else if !target.value.Obj? && !target.value.Arr? then rows == Err(NotARecord)
            else if Records(target.value).None? then rows == Err(NotAllObjects)
            else
              var records := Records(target.value).value;
              && (rows.Ok? <==> forall i :: 0 <= i < |records| ==> Clean(records[i], [], c))
              && (rows.Ok? ==> rows.value == Rows(ExpandItems(records, c.mode), [], c.separator))
              && (rows.Err? ==> exists i :: 0 <= i < |records| && Blames(rows.error, records[i], [], c))
  {
    var target := ResolveRecordPath(document, recordPath);
    if target.Err? {
      return Err(target.error);
    }
    var records: seq<Json> := [];
    match target.value {
      case Obj(_) =>
        records := [target.value];
      case Arr(items) =>
        for i := 0 to |items|
          invariant records == items[..i]
          invariant forall k :: 0 <= k < i ==> items[k].Obj?
        {
          if !items[i].Obj? {
            return Err(NotAllObjects);
          }
          records := records + [items[i]];
        }
        assert items[..|items|] == items;
      case _ =>
        return Err(NotARecord);
    }
    rows := FlattenRecords(records, c);
  }

  lemma BelowOneMore(document: Json, path: seq<string>, key: string)
    ensures Below(document, path + [key])
         == match Below(document, path)
            case None => None
            case Some(v) => if v.Obj? then Lookup(v.fields, key) else None
  {
    assert (path + [key])[..|path|] == path;
  }

  /** The keys of a record path are followed one after the other, and the document itself stands at the empty path. */
  lemma {:induction false} BelowInTurn(document: Json, first: seq<string>, rest: seq<string>)
    ensures Below(document, []) == Some(document)
    ensures Below(document, first + rest)
         == match Below(document, first) case None => None case Some(v) => Below(v, rest)
    decreases |rest|
  {
    if rest == [] {
      assert first + rest == first;
    } else {
      var some, key := rest[..|rest| - 1], rest[|rest| - 1];
      BelowInTurn(document, first, some);
      BelowOneMore(document, first + some, key);
      assert first + rest == first + some + [key];
      var v := Below(document, first);
      if v.Some? {
        BelowOneMore(v.value, some, key);
        assert rest == some + [key];
      }
    }
  }

  // ---------- Text mode ----------

  lemma {:induction false} TextModeExpandsToItself(v: Json)
    ensures Expand(v, JsonText) == [v]
    decreases v, 1
  {
    if v.Obj? {
      TextModeFields(v, |v.fields|);
      assert v.fields[..|v.fields|] == v.fields;
    }
  }

  lemma {:induction false} TextModeFields(v: Json, n: nat)
    requires v.Obj? && n <= |v.fields|
    ensures ExpandFields(v.fields[..n], JsonText) == [v.fields[..n]]
    decreases v, 0, n
  {
    if n > 0 {
      TextModeFields(v, n - 1);
      TextModeExpandsToItself(v.fields[n - 1].value);
      assert v.fields[..n][..n - 1] == v.fields[..n - 1];
      PairsAt([v.fields[..n - 1]], [v.fields[n - 1].value], 0, 0);
      assert v.fields[..n] == v.fields[..n - 1] + [v.fields[n - 1]];
    }
  }

  lemma DistinctParts(left: Record, right: Record)
    requires DistinctColumns(left + right)
    ensures DistinctColumns(left) && DistinctColumns(right)
  {
    forall i, j | 0 <= i < j < |left| ensures left[i].column != left[j].column {
      assert (left + right)[i].column != (left + right)[j].column;
    }
    forall i, j | 0 <= i < j < |right| ensures right[i].column != right[j].column {
      assert (left + right)[|left| + i].column != (left + right)[|left| + j].column;
    }
  }

  lemma {:induction false} PrefixIsDistinct(fields: seq<Field>, n: nat, path: seq<string>, c: Config)
    requires n <= |fields| && DistinctColumns(FieldsRow(fields, path, c.separator))
    ensures DistinctColumns(FieldsRow(fields[..n], path, c.separator))
    ensures n > 0 ==> DistinctColumns(RowAt(fields[n - 1].value, path + [fields[n - 1].key], c.separator))
    decreases |fields| - n
  {
    if n < |fields| {
      PrefixIsDistinct(fields, n + 1, path, c);
      assert fields[..n + 1] == fields[..n] + [fields[n]];
      FieldAdds(fields[..n], fields[n], path, c.separator);
      DistinctParts(FieldsRow(fields[..n], path, c.separator),
                    RowAt(fields[n].value, path + [fields[n].key], c.separator));
    } else {
      assert fields[..n] == fields;
    }
    if n > 0 {
      assert fields[..n] == fields[..n - 1] + [fields[n - 1]];
      FieldAdds(fields[..n - 1], fields[n - 1], path, c.separator);
      DistinctParts(FieldsRow(fields[..n - 1], path, c.separator),
                    RowAt(fields[n - 1].value, path + [fields[n - 1].key], c.separator));
    }
  }

  lemma {:induction false} TextModeColumns(v: Json, path: seq<string>, c: Config)
    requires c.mode.JsonText? && DistinctColumns(RowAt(v, path, c.separator))
    ensures ColumnsOk(v, path, c)
    decreases v
  {
    if v.Obj? {
      forall i | 0 <= i < |v.fields| ensures ColumnsOk(v.fields[i].value, path + [v.fields[i].key], c) {
        PrefixIsDistinct(v.fields, i + 1, path, c);
        TextModeColumns(v.fields[i].value, path + [v.fields[i].key], c);
      }
      forall n: nat | n <= |v.fields| ensures AllDistinct(PrefixRows(v.fields, n, path, c)) {
        TextModeFields(v, n);
        PrefixIsDistinct(v.fields, n, path, c);
      }
    }
  }

  lemma {:induction false} TextModeArrays(v: Json)
    ensures ArraysOk(v, JsonText)
  {
    if v.Obj? {
      forall i | 0 <= i < |v.fields| ensures ArraysOk(v.fields[i].value, JsonText) {
        TextModeArrays(v.fields[i].value);
      }
    }
  }

  /**
   * With arrays as text a record flattens exactly when no key is empty and all joined leaf paths differ; there is
   * then one row, which maps each joined path to its leaf.
   */
  lemma TextModeIsOneRow(record: Json, c: Config)
    requires c.mode.JsonText?
    ensures Clean(record, [], c) <==> KeysOk(record, JsonText) && DistinctColumns(RowAt(record, [], c.separator))
    ensures Rows(Expand(record, c.mode), [], c.separator) == [RowAt(record, [], c.separator)]
  {
    TextModeExpandsToItself(record);
    TextModeArrays(record);
    if ColumnsOk(record, [], c) {
      RowsAreDistinct(record, [], c);
      assert Rows(Expand(record, c.mode), [], c.separator)[0] == RowAt(record, [], c.separator);
    }
    if DistinctColumns(RowAt(record, [], c.separator)) {
      TextModeColumns(record, [], c);
    }
  }

  // ---------- Explode mode ----------

  /** `w` is `v` with each array replaced by a choice of one of its elements. */
  ghost predicate IsChoice(w: Json, v: Json, mode: ArrayMode)
    decreases v
  {
    match v
    case Obj(fields) => w.Obj? && AreChoices(w.fields, fields, mode)
    case Arr(items) => if mode.JsonText? then w == v else exists i :: 0 <= i < |items| && IsChoice(w, items[i], mode)
    case _ => w == v
  }

  ghost predicate AreChoices(ws: seq<Field>, fields: seq<Field>, mode: ArrayMode)
    decreases fields
  {
    |ws| == |fields| && forall i :: 0 <= i < |fields| ==> FieldChosen(ws[i], fields[i], mode)
  }

  ghost predicate FieldChosen(w: Field, field: Field, mode: ArrayMode)
    decreases field
  {
    w.key == field.key && IsChoice(w.value, field.value, mode)
  }

  lemma {:induction false} ExpandIsEveryChoice(v: Json, mode: ArrayMode, w: Json)
    ensures w in Expand(v, mode) <==> IsChoice(w, v, mode)
    decreases v, 1
  {
    match v {
      case Obj(fields) =>
        if w.Obj? {
          FieldsAreEveryChoice(v, |fields|, mode, w.fields);
          assert fields[..|fields|] == fields;
        }
        ObjectsContain(ExpandFields(fields, mode), w);
      case Arr(items) =>
        if mode.Explode? {
          ItemsAreEveryChoice(v, |items|, mode, w);
          assert items[..|items|] == items;
        }
      case _ =>
    }
  }

  lemma ObjectsContain(all: seq<seq<Field>>, w: Json)
    ensures w in Objects(all) <==> w.Obj? && w.fields in all
  {
    if w.Obj? && w.fields in all {
      var i :| 0 <= i < |all| && all[i] == w.fields;
      assert Objects(all)[i] == w;
    }
  }

  lemma {:induction false} ItemsAreEveryChoice(v: Json, n: nat, mode: ArrayMode, w: Json)
    requires v.Arr? && n <= |v.items|
    ensures w in ExpandItems(v.items[..n], mode) <==> exists i :: 0 <= i < n && IsChoice(w, v.items[i], mode)
    decreases v, 0, n
  {
    if n > 0 {
      ItemsAreEveryChoice(v, n - 1, mode, w);
      ExpandIsEveryChoice(v.items[n - 1], mode, w);
      assert v.items[..n][..n - 1] == v.items[..n - 1];
    }
  }

  lemma {:induction false} FieldsAreEveryChoice(v: Json, n: nat, mode: ArrayMode, ws: seq<Field>)
    requires v.Obj? && n <= |v.fields|
    ensures ws in ExpandFields(v.fields[..n], mode) <==> AreChoices(ws, v.fields[..n], mode)
    decreases v, 0, n
  {
    if n > 0 {
      var init, last := v.fields[..n - 1], v.fields[n - 1];
      assert v.fields[..n][..n - 1] == init;
      var heads, values := ExpandFields(init, mode), Expand(last.value, mode);
      if ws != [] {
        var head, end := ws[..|ws| - 1], ws[|ws| - 1];
        FieldsAreEveryChoice(v, n - 1, mode, head);
        ExpandIsEveryChoice(last.value, mode, end.value);
        LastFieldChosen(ws, v.fields[..n], mode);
      }
      if ws in Extended(Pairs(heads, values), last.key) {
        ExtendedFrom(heads, values, last.key, ws);
      } else if AreChoices(ws, v.fields[..n], mode) {
        ExtendedTo(heads, values, last.key, ws);
      }
    }
  }

  lemma LastFieldChosen(ws: seq<Field>, fields: seq<Field>, mode: ArrayMode)
    requires ws != [] && fields != []
    ensures var w, n := |ws| - 1, |fields| - 1;
            AreChoices(ws, fields, mode) <==>
              AreChoices(ws[..w], fields[..n], mode) && FieldChosen(ws[w], fields[n], mode)
  {
    var w, n := |ws| - 1, |fields| - 1;
    if AreChoices(ws[..w], fields[..n], mode) && FieldChosen(ws[w], fields[n], mode) {
      forall i | 0 <= i <= n ensures FieldChosen(ws[i], fields[i], mode) {
        assert i < n ==> ws[i] == ws[..w][i] && fields[i] == fields[..n][i];
      }
    }
    if AreChoices(ws, fields, mode) {
      forall i | 0 <= i < n ensures FieldChosen(ws[..w][i], fields[..n][i], mode) {
        assert FieldChosen(ws[i], fields[i], mode);
      }
    }
  }

  lemma ExtendedFrom(heads: seq<seq<Field>>, values: seq<Json>, key: string, ws: seq<Field>)
    requires ws in Extended(Pairs(heads, values), key)
    ensures ws != [] && ws[..|ws| - 1] in heads && ws[|ws| - 1].key == key && ws[|ws| - 1].value in values
  {
    var pairs := Pairs(heads, values);
    var k :| 0 <= k < |pairs| && ws == Extended(pairs, key)[k];
    var i, j := SamePlaces(heads, values, heads, values, k);
    assert ws == heads[i] + [Field(key, values[j])];
    assert ws[..|ws| - 1] == heads[i];
  }

  lemma ExtendedTo(heads: seq<seq<Field>>, values: seq<Json>, key: string, ws: seq<Field>)
    requires ws != [] && ws[..|ws| - 1] in heads && ws[|ws| - 1].key == key && ws[|ws| - 1].value in values
    ensures ws in Extended(Pairs(heads, values), key)
  {
    var i :| 0 <= i < |heads| && heads[i] == ws[..|ws| - 1];
    var j :| 0 <= j < |values| && values[j] == ws[|ws| - 1].value;
    PairsAt(heads, values, i, j);
    var k := i * |values| + j;
    assert ws == heads[i] + [Field(key, values[j])];
    assert Extended(Pairs(heads, values), key)[k] == ws;
  }

  /** The choices of an object stand in lexicographic order: those of its last field vary fastest. */
  lemma LastFieldVariesFastest(fields: seq<Field>, field: Field, mode: ArrayMode, i: nat, j: nat)
    requires i < |ExpandFields(fields, mode)| && j < |Expand(field.value, mode)|
    ensures var heads, values := ExpandFields(fields, mode), Expand(field.value, mode);
            && |ExpandFields(fields + [field], mode)| == |heads| * |values|
            && i * |values| + j < |heads| * |values|
            && ExpandFields(fields + [field], mode)[i * |values| + j] == heads[i] + [Field(field.key, values[j])]
  {
    var heads, values := ExpandFields(fields, mode), Expand(field.value, mode);
    assert (fields + [field])[..|fields|] == fields;
    ExtendedAt(heads, values, field.key, i, j, i * |values| + j);
  }

  lemma ExtendedAt(heads: seq<seq<Field>>, values: seq<Json>, key: string, i: nat, j: nat, k: nat)
    requires i < |heads| && j < |values| && k == i * |values| + j
    ensures |Extended(Pairs(heads, values), key)| == |heads| * |values| && k < |Extended(Pairs(heads, values), key)|
    ensures Extended(Pairs(heads, values), key)[k] == heads[i] + [Field(key, values[j])]
  {
    PairsAt(heads, values, i, j);
    ExtendedIs(Pairs(heads, values), key, k, heads[i], values[j]);
  }

  lemma ExtendedIs(pairs: seq<(seq<Field>, Json)>, key: string, k: nat, head: seq<Field>, value: Json)
    requires k < |pairs| && pairs[k] == (head, value)
    ensures Extended(pairs, key)[k] == head + [Field(key, value)]
  {
  }

  /** The choices of an array: those of its elements, in the order of the elements. */
  lemma ItemsInOrder(items: seq<Json>, item: Json)
    ensures Expand(Arr([]), Explode) == []
    ensures Expand(Arr(items + [item]), Explode) == Expand(Arr(items), Explode) + Expand(item, Explode)
  {
    assert (items + [item])[..|items|] == items;
  }

  /** How many rows a value makes: a scalar one, an object the product of its fields, an array the sum of its elements. */
  function RowCount(v: Json): nat {
    match v
    case Obj(fields) => Product(fields)
    case Arr(items) => Sum(items)
    case _ => 1
  }

  function Product(fields: seq<Field>): nat {
    if fields == [] then 1 else Product(fields[..|fields| - 1]) * RowCount(fields[|fields| - 1].value)
  }

  function Sum(items: seq<Json>): nat {
    if items == [] then 0 else Sum(items[..|items| - 1]) + RowCount(items[|items| - 1])
  }

  lemma {:induction false} ExplodeCounts(v: Json)
    ensures |Expand(v, Explode)| == RowCount(v)
    decreases v, 1
  {
    match v {
      case Obj(fields) =>
        FieldsCount(v, |fields|);
        assert fields[..|fields|] == fields;
      case Arr(items) =>
        ItemsCount(v, |items|);
        assert items[..|items|] == items;
      case _ =>
    }
  }

  lemma {:induction false} FieldsCount(v: Json, n: nat)
    requires v.Obj? && n <= |v.fields|
    ensures |ExpandFields(v.fields[..n], Explode)| == Product(v.fields[..n])
    decreases v, 0, n
  {
    if n > 0 {
      FieldsCount(v, n - 1);
      ExplodeCounts(v.fields[n - 1].value);
      assert v.fields[..n][..n - 1] == v.fields[..n - 1];
      PairsCount(ExpandFields(v.fields[..n - 1], Explode), Expand(v.fields[n - 1].value, Explode));
    }
  }

  lemma {:induction false} ItemsCount(v: Json, n: nat)
    requires v.Arr? && n <= |v.items|
    ensures |ExpandItems(v.items[..n], Explode)| == Sum(v.items[..n])
    decreases v, 0, n
  {
    if n > 0 {
      ItemsCount(v, n - 1);
      ExplodeCounts(v.items[n - 1]);
      assert v.items[..n][..n - 1] == v.items[..n - 1];
    }
  }

  /**
   * In explode mode the rows of a record that flattens are its choices, one each: distinct columns in every row,
   * as many rows as the shape of the record says, and nothing that is not a choice.
   */
  lemma ExplodedRows(record: Json, c: Config)
    requires c.mode.Explode? && Clean(record, [], c)
    ensures var rows := Rows(Expand(record, c.mode), [], c.separator);
            && AllDistinct(rows)
            && |rows| == RowCount(record)
            && (forall w :: IsChoice(w, record, c.mode) ==> RowAt(w, [], c.separator) in rows)
            && (forall row :: row in rows ==> exists w :: IsChoice(w, record, c.mode) && row == RowAt(w, [], c.separator))
  {
    var choices := Expand(record, c.mode);
    var rows := Rows(choices, [], c.separator);
    RowsAreDistinct(record, [], c);
    ExplodeCounts(record);
    forall w | IsChoice(w, record, c.mode) ensures RowAt(w, [], c.separator) in rows {
      ExpandIsEveryChoice(record, c.mode, w);
      var i :| 0 <= i < |choices| && choices[i] == w;
      assert rows[i] == RowAt(w, [], c.separator);
    }
    forall row | row in rows ensures exists w :: IsChoice(w, record, c.mode) && row == RowAt(w, [], c.separator) {
      var i :| 0 <= i < |rows| && rows[i] == row;
      ExpandIsEveryChoice(record, c.mode, choices[i]);
    }
  }
}
