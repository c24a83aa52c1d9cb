/** The column names of a flattened document, and when no two of them can conflict. */
module Columns {
  import opened Wrappers
  import opened Flatten

  // ---------- What a column is made of ----------

  /** Where the i-th key begins in a column: behind the keys before it, each with a separator after it. */
  function KeyOffset(path: seq<string>, separator: string, i: nat): nat
    requires i <= |path|
  {
    if i == 0 then 0 else KeyOffset(path, separator, i - 1) + |path[i - 1]| + |separator|
  }

  lemma {:induction false} OffsetsAgree(path: seq<string>, longer: seq<string>, separator: string, i: nat)
    requires i <= |path| && path <= longer
    ensures KeyOffset(longer, separator, i) == KeyOffset(path, separator, i)
    decreases i
  {
    if i > 0 {
      OffsetsAgree(path, longer, separator, i - 1);
    }
  }

  lemma {:induction false} JoinedLength(path: seq<string>, separator: string)
    requires path != []
    ensures |Joined(path, separator)| == KeyOffset(path, separator, |path| - 1) + |path[|path| - 1]|
  {
    var last := |path| - 1;
    if last > 0 {
      JoinedLength(path[..last], separator);
      OffsetsAgree(path[..last], path, separator, last - 1);
    }
  }

  predicate OccursAt(part: string, text: string, p: nat) {
    p + |part| <= |text| && text[p..p + |part|] == part
  }

  lemma StillOccurs(part: string, text: string, more: string, p: nat)
    requires OccursAt(part, text, p)
    ensures OccursAt(part, text + more, p)
  {
  }

  lemma {:induction false} KeyLies(path: seq<string>, separator: string, i: nat)
    requires i < |path|
    ensures OccursAt(path[i], Joined(path, separator), KeyOffset(path, separator, i))
    decreases |path|
  {
    var last := |path| - 1;
    if i < last {
      KeyLies(path[..last], separator, i);
      OffsetsAgree(path[..last], path, separator, i);
      StillOccurs(path[i], Joined(path[..last], separator), separator, KeyOffset(path, separator, i));
      StillOccurs(path[i], Joined(path[..last], separator) + separator, path[last], KeyOffset(path, separator, i));
    } else {
      JoinedLength(path, separator);
    }
  }

  lemma {:induction false} SeparatorLies(path: seq<string>, separator: string, i: nat)
    requires i + 1 < |path|
    ensures OccursAt(separator, Joined(path, separator), KeyOffset(path, separator, i) + |path[i]|)
    decreases |path|
  {
    var last := |path| - 1;
    var front := Joined(path[..last], separator);
    OffsetsAgree(path[..last], path, separator, i);
    if i + 1 < last {
      SeparatorLies(path[..last], separator, i);
      StillOccurs(separator, front, separator, KeyOffset(path, separator, i) + |path[i]|);
    } else {
      JoinedLength(path[..last], separator);
      assert OccursAt(separator, front + separator, |front|);
    }
    StillOccurs(separator, front + separator, path[last], KeyOffset(path, separator, i) + |path[i]|);
  }

  /** A column is its keys in order with the separator between any two of them, and nothing else. */
  lemma ColumnLies(path: seq<string>, separator: string, i: nat)
    requires i < |path|
    ensures var column, start := Joined(path, separator), KeyOffset(path, separator, i); var end := start + |path[i]|;
            && OccursAt(path[i], column, start)
            && (i == 0 ==> start == 0)
            && (i + 1 < |path| ==> OccursAt(separator, column, end) && KeyOffset(path, separator, i + 1) == end + |separator|)
            && (i + 1 == |path| ==> end == |column|)
  {
    KeyLies(path, separator, i);
    if i + 1 < |path| {
      SeparatorLies(path, separator, i);
    } else {
      JoinedLength(path, separator);
    }
  }

  /** The same from the front: the first key, the separator, and the column of the rest. */
  lemma {:induction false} JoinedFront(key: string, rest: seq<string>, separator: string)
    requires rest != []
    ensures Joined([key] + rest, separator) == key + separator + Joined(rest, separator)
    decreases |rest|
  {
    var path, last := [key] + rest, |rest| - 1;
    assert path[..|path| - 1] == [key] + rest[..last] && path[|path| - 1] == rest[last];
    if last > 0 {
      JoinedFront(key, rest[..last], separator);
      var inner := Joined(rest[..last], separator);
      assert key + separator + inner + separator + rest[last] == key + separator + (inner + separator + rest[last]);
    } else {
      assert Joined([key], separator) == key;
    }
  }

  /** The separator is found nowhere in the key, and nowhere across its end when it follows. */
  predicate Separable(key: string, separator: string) {
    forall p :: 0 <= p < |key| ==> !OccursAt(separator, key + separator, p)
  }

  predicate AllSeparable(path: seq<string>, separator: string) {
    forall i :: 0 <= i < |path| ==> Separable(path[i], separator)
  }

  lemma SeparatorComesFirst(key: string, rest: string, separator: string, p: nat)
    requires Separable(key, separator) && separator != "" && p < |key|
    ensures !OccursAt(separator, key + separator + rest, p)
  {
    assert !OccursAt(separator, key + separator, p);
    assert (key + separator + rest)[p..p + |separator|] == (key + separator)[p..p + |separator|];
  }

  lemma SeparatorAfterKey(key: string, rest: string, separator: string)
    ensures OccursAt(separator, key + separator + rest, |key|)
    ensures (key + separator + rest)[|key| + |separator|..] == rest && (key + separator + rest)[..|key|] == key
  {
  }

  lemma SameFirstKey(a: string, left: string, b: string, right: string, separator: string)
    requires separator != "" && Separable(a, separator) && Separable(b, separator)
    requires a + separator + left == b + separator + right
    ensures a == b && left == right
  {
    SeparatorAfterKey(a, left, separator);
    SeparatorAfterKey(b, right, separator);
    if |a| < |b| {
      SeparatorComesFirst(b, right, separator, |a|);
    } else if |b| < |a| {
      SeparatorComesFirst(a, left, separator, |b|);
    }
  }

  lemma KeyHasNoSeparator(key: string, left: string, right: string, separator: string)
    requires separator != "" && Separable(key, separator)
    ensures key != left + separator + right
  {
    if key == left + separator + right {
      SeparatorAfterKey(left, right, separator);
      StillOccurs(separator, key, separator, |left|);
    }
  }

  /** Over such keys a column can be read back: different paths have different columns. */
  lemma {:induction false} ColumnsTellPathsApart(a: seq<string>, b: seq<string>, separator: string)
    requires separator != "" && a != [] && b != [] && AllSeparable(a, separator) && AllSeparable(b, separator)
    requires Joined(a, separator) == Joined(b, separator)
    ensures a == b
    decreases |a|
  {
    assert a == [a[0]] + a[1..] && b == [b[0]] + b[1..];
    if |a| > 1 { JoinedFront(a[0], a[1..], separator); }
    if |b| > 1 { JoinedFront(b[0], b[1..], separator); }
    if |a| > 1 && |b| > 1 {
      SameFirstKey(a[0], Joined(a[1..], separator), b[0], Joined(b[1..], separator), separator);
      ColumnsTellPathsApart(a[1..], b[1..], separator);
    } else if |a| > 1 {
      KeyHasNoSeparator(b[0], a[0], Joined(a[1..], separator), separator);
    } else if |b| > 1 {
      KeyHasNoSeparator(a[0], b[0], Joined(b[1..], separator), separator);
    }
  }

  // ---------- Records that cannot conflict ----------

  /** No object has a key twice, and every key is separable. In text mode the inside of arrays is not looked at. */
  predicate KeysApart(v: Json, separator: string, mode: ArrayMode) {
    match v
    case Obj(fields) =>
      && (forall i, j :: 0 <= i < j < |fields| ==> fields[i].key != fields[j].key)
      && (forall i :: 0 <= i < |fields| ==> Separable(fields[i].key, separator) && KeysApart(fields[i].value, separator, mode))
    case Arr(items) => mode.JsonText? || forall i :: 0 <= i < |items| ==> KeysApart(items[i], separator, mode)
    case _ => true
  }

  /** A leaf of one of the first `n` fields: its path goes on from here with that field's key. */
  ghost predicate GoesOn(leaf: Leaf, path: seq<string>, fields: seq<Field>, n: nat, separator: string)
    requires n <= |fields|
  {
    && |leaf.path| > |path| && path <= leaf.path && AllSeparable(leaf.path, separator)
    && exists k :: 0 <= k < n && leaf.path[|path|] == fields[k].key
  }

  lemma {:induction false} LeavesGoOn(v: Json, path: seq<string>, separator: string)
    requires KeysApart(v, separator, JsonText) && AllSeparable(path, separator)
    ensures forall i :: 0 <= i < |Leaves(v, path)| ==>
              path <= Leaves(v, path)[i].path && AllSeparable(Leaves(v, path)[i].path, separator)
    decreases v, 1
  {
    if v.Obj? {
      FieldLeavesGoOn(v, |v.fields|, path, separator);
      assert v.fields[..|v.fields|] == v.fields;
    }
  }

  lemma {:induction false} FieldLeavesGoOn(v: Json, n: nat, path: seq<string>, separator: string)
    requires v.Obj? && n <= |v.fields| && KeysApart(v, separator, JsonText) && AllSeparable(path, separator)
    ensures forall i :: 0 <= i < |FieldLeaves(v.fields[..n], path)| ==>
              GoesOn(FieldLeaves(v.fields[..n], path)[i], path, v.fields, n, separator)
    decreases v, 0, n
  {
    if n > 0 {
      var field := v.fields[n - 1];
      var below := path + [field.key];
      FieldLeavesGoOn(v, n - 1, path, separator);
      LeavesGoOn(field.value, below, separator);
      assert v.fields[..n][..n - 1] == v.fields[..n - 1];
      var earlier, last := FieldLeaves(v.fields[..n - 1], path), Leaves(field.value, below);
      forall i | 0 <= i < |earlier + last| ensures GoesOn((earlier + last)[i], path, v.fields, n, separator) {
        if i < |earlier| {
          assert GoesOn(earlier[i], path, v.fields, n - 1, separator);
        } else {
          BelowGoesOn(last[i - |earlier|].path, path, field.key);
        }
      }
    }
  }

  lemma BelowGoesOn(longer: seq<string>, path: seq<string>, key: string)
    requires path + [key] <= longer
    ensures |longer| > |path| && path <= longer && longer[|path|] == key
  {
    assert (path + [key])[|path|] == key;
  }

  ghost predicate PathsApart(leaves: seq<Leaf>) {
    forall i, j :: 0 <= i < j < |leaves| ==> leaves[i].path != leaves[j].path
  }

  lemma {:induction false} LeavesApart(v: Json, path: seq<string>, separator: string)
    requires KeysApart(v, separator, JsonText) && AllSeparable(path, separator)
    ensures PathsApart(Leaves(v, path))
    decreases v, 1
  {
    if v.Obj? {
      FieldLeavesApart(v, |v.fields|, path, separator);
      assert v.fields[..|v.fields|] == v.fields;
    }
  }

  lemma {:induction false} FieldLeavesApart(v: Json, n: nat, path: seq<string>, separator: string)
    requires v.Obj? && n <= |v.fields| && KeysApart(v, separator, JsonText) && AllSeparable(path, separator)
    ensures PathsApart(FieldLeaves(v.fields[..n], path))
    decreases v, 0, n
  {
    if n > 0 {
      var field := v.fields[n - 1];
      var below := path + [field.key];
      FieldLeavesApart(v, n - 1, path, separator);
      FieldLeavesGoOn(v, n - 1, path, separator);
      LeavesApart(field.value, below, separator);
      LeavesGoOn(field.value, below, separator);
      assert v.fields[..n][..n - 1] == v.fields[..n - 1];
      var earlier, last := FieldLeaves(v.fields[..n - 1], path), Leaves(field.value, below);
      forall i, j | 0 <= i < |earlier| && 0 <= j < |last| ensures earlier[i].path != last[j].path {
        assert GoesOn(earlier[i], path, v.fields, n - 1, separator);
        BelowGoesOn(last[j].path, path, field.key);
      }
      JoinApart(earlier, last);
    }
  }

  lemma JoinApart(left: seq<Leaf>, right: seq<Leaf>)
    requires PathsApart(left) && PathsApart(right)
    requires forall i, j :: 0 <= i < |left| && 0 <= j < |right| ==> left[i].path != right[j].path
    ensures PathsApart(left + right)
  {
  }

  lemma RecordApart(leaves: seq<Leaf>, separator: string)
    requires PathsApart(leaves) && separator != ""
    requires forall i :: 0 <= i < |leaves| ==> leaves[i].path != [] && AllSeparable(leaves[i].path, separator)
    ensures DistinctColumns(RecordOf(leaves, separator))
  {
    var record := RecordOf(leaves, separator);
    forall i, j | 0 <= i < j < |record| ensures record[i].column != record[j].column {
      if record[i].column == record[j].column {
        ColumnsTellPathsApart(leaves[i].path, leaves[j].path, separator);
      }
    }
  }

  lemma {:induction false} ChoiceKeepsKeys(w: Json, v: Json, separator: string, mode: ArrayMode)
    requires IsChoice(w, v, mode) && KeysApart(v, separator, mode)
    ensures KeysApart(w, separator, JsonText)
    decreases v
  {
    match v {
      case Obj(fields) =>
        forall i | 0 <= i < |fields|
          ensures w.fields[i].key == fields[i].key && KeysApart(w.fields[i].value, separator, JsonText)
        {
          assert FieldChosen(w.fields[i], fields[i], mode);
          ChoiceKeepsKeys(w.fields[i].value, fields[i].value, separator, mode);
        }
      case Arr(items) =>
        if mode.Explode? {
          var i :| 0 <= i < |items| && IsChoice(w, items[i], mode);
          ChoiceKeepsKeys(w, items[i], separator, mode);
        }
      case _ =>
    }
  }

  lemma FieldsApart(fields: seq<Field>, n: nat, separator: string, mode: ArrayMode)
    requires n <= |fields| && KeysApart(Obj(fields), separator, mode)
    ensures KeysApart(Obj(fields[..n]), separator, mode)
  {
  }

  lemma PrefixRowsApart(fields: seq<Field>, n: nat, path: seq<string>, c: Config)
    requires n <= |fields| && KeysApart(Obj(fields), c.separator, c.mode) && AllSeparable(path, c.separator) && c.separator != ""
    ensures AllDistinct(PrefixRows(fields, n, path, c))
  {
    var all := ExpandFields(fields[..n], c.mode);
    FieldsApart(fields, n, c.separator, c.mode);
    forall k | 0 <= k < |all| ensures DistinctColumns(FieldsRow(all[k], path, c.separator)) {
      FieldsAreEveryChoice(Obj(fields), n, c.mode, all[k]);
      var w := Obj(all[k]);
      ChoiceKeepsKeys(w, Obj(fields[..n]), c.separator, c.mode);
      FieldLeavesApart(w, |all[k]|, path, c.separator);
      FieldLeavesGoOn(w, |all[k]|, path, c.separator);
      assert w.fields[..|all[k]|] == all[k];
      LeavesLeadOn(FieldLeaves(all[k], path), path, all[k], c.separator);
      RecordApart(FieldLeaves(all[k], path), c.separator);
    }
  }

  lemma LeavesLeadOn(leaves: seq<Leaf>, path: seq<string>, fields: seq<Field>, separator: string)
    requires forall i :: 0 <= i < |leaves| ==> GoesOn(leaves[i], path, fields, |fields|, separator)
    ensures forall i :: 0 <= i < |leaves| ==> leaves[i].path != [] && AllSeparable(leaves[i].path, separator)
  {
  }

  /** With a separator that no key contains, not even across a key's end, no two columns of a value can conflict. */
  lemma {:induction false} SeparableNeverConflicts(v: Json, path: seq<string>, c: Config)
    requires c.separator != "" && KeysApart(v, c.separator, c.mode) && AllSeparable(path, c.separator)
    ensures ColumnsOk(v, path, c)
    decreases v
  {
    match v {
      case Obj(fields) =>
        forall i | 0 <= i < |fields| ensures ColumnsOk(fields[i].value, path + [fields[i].key], c) {
          SeparableNeverConflicts(fields[i].value, path + [fields[i].key], c);
        }
        forall n: nat | n <= |fields| ensures AllDistinct(PrefixRows(fields, n, path, c)) {
          PrefixRowsApart(fields, n, path, c);
        }
      case Arr(items) =>
        if c.mode.Explode? {
          forall i | 0 <= i < |items| ensures ColumnsOk(items[i], path, c) {
            SeparableNeverConflicts(items[i], path, c);
          }
        }
      case _ =>
    }
  }

  // ---------- Columns by example ----------

  lemma OneFieldRow(key: string, v: Json, path: seq<string>, separator: string)
    ensures FieldsRow([Field(key, v)], path, separator) == RowAt(v, path + [key], separator)
  {
    FieldAdds([], Field(key, v), path, separator);
    assert [] + [Field(key, v)] == [Field(key, v)];
  }

  /** A value that is no object stands in one column: text for an array, anything else as it is. */
  lemma LeafColumn(key: string, leaf: Json, separator: string)
    requires !leaf.Obj?
    ensures FieldsRow([Field(key, leaf)], [], separator)
         == [Entry(key, if leaf.Arr? then TextOf(leaf.items) else Scalar(leaf))]
  {
    OneFieldRow(key, leaf, [], separator);
    assert [] + [key] == [key];
  }

  lemma InnerColumn(outer: string, inner: string, leaf: Json, separator: string)
    requires !leaf.Obj?
    ensures FieldsRow([Field(outer, Obj([Field(inner, leaf)]))], [], separator)
         == [Entry(outer + separator + inner, if leaf.Arr? then TextOf(leaf.items) else Scalar(leaf))]
  {
    OneFieldRow(outer, Obj([Field(inner, leaf)]), [], separator);
    OneFieldRow(inner, leaf, [outer], separator);
    assert [] + [outer] == [outer] && [outer] + [inner] == [outer, inner] && [outer, inner][..1] == [outer];
    assert Joined([outer], separator) == outer;
  }

  /** The record of a leaf below two keys and another value beside it. */
  function NestedRecord(outer: string, inner: string, leaf: Json, other: string, beside: Json): Json {
    Obj([Field(outer, Obj([Field(inner, leaf)])), Field(other, beside)])
  }

  /** Its row: the two keys with the separator between them, then the column of the other leaf. */
  lemma NestedColumns(outer: string, inner: string, leaf: Json, other: string, beside: Json, separator: string)
    requires !leaf.Obj? && !beside.Obj?
    ensures RowAt(NestedRecord(outer, inner, leaf, other, beside), [], separator)
         == [Entry(outer + separator + inner, if leaf.Arr? then TextOf(leaf.items) else Scalar(leaf)),
             Entry(other, if beside.Arr? then TextOf(beside.items) else Scalar(beside))]
  {
    var first, second := Field(outer, Obj([Field(inner, leaf)])), Field(other, beside);
    assert [first] + [second] == [first, second];
    FieldAdds([first], second, [], separator);
    InnerColumn(outer, inner, leaf, separator);
    OneFieldRow(other, beside, [], separator);
    LeafColumn(other, beside, separator);
  }

  lemma InnerColumns(outer: string, inner: string, x: Json, outer': string, inner': string, y: Json, separator: string)
    requires !x.Obj? && !y.Obj?
    ensures var row := RowAt(NestedRecord(outer, inner, x, outer', Obj([Field(inner', y)])), [], separator);
            |row| == 2 && row[0].column == outer + separator + inner && row[1].column == outer' + separator + inner'
  {
    var first, second := Field(outer, Obj([Field(inner, x)])), Field(outer', Obj([Field(inner', y)]));
    assert [first] + [second] == [first, second];
    FieldAdds([first], second, [], separator);
    InnerColumn(outer, inner, x, separator);
    OneFieldRow(outer', Obj([Field(inner', y)]), [], separator);
    InnerColumn(outer', inner', y, separator);
  }

  lemma RepeatedColumn(record: Json, separator: string)
    requires var row := RowAt(record, [], separator); |row| == 2 && row[0].column == row[1].column
    ensures !ColumnsOk(record, [], Config(JsonText, separator))
  {
    TextModeExpandsToItself(record);
    var rows := Rows(Expand(record, JsonText), [], separator);
    assert rows[0] == RowAt(record, [], separator);
    assert !DistinctColumns(rows[0]);
    if ColumnsOk(record, [], Config(JsonText, separator)) {
      RowsAreDistinct(record, [], Config(JsonText, separator));
    }
  }

  /** A key with the separator in it can conflict; and so can keys that no separator occurs in, across their ends. */
  lemma ConflictingColumns(x: Json, y: Json)
    requires !x.Obj? && !y.Obj?
    ensures !ColumnsOk(NestedRecord("a", "b", x, "a.b", y), [], Config(JsonText, "."))
    ensures !ColumnsOk(NestedRecord("a.", "b", x, "a", Obj([Field(".b", y)])), [], Config(JsonText, ".."))
  {
    NestedColumns("a", "b", x, "a.b", y, ".");
    assert "a" + "." + "b" == "a.b";
    RepeatedColumn(NestedRecord("a", "b", x, "a.b", y), ".");
    InnerColumns("a.", "b", x, "a", ".b", y, "..");
    assert "a." + ".." + "b" == "a" + ".." + ".b";
    RepeatedColumn(NestedRecord("a.", "b", x, "a", Obj([Field(".b", y)])), "..");
  }
}
