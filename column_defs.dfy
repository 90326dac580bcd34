/**
 * The meaning of patching a batch of columns into a `columnDefs` list, as
 * `add_link_headers_to_grid_options` does, stated on values: the step for one field,
 * the whole pass in field order, an independent description of its outcome, and
 * idempotence.
 */
module ColumnDefs {
  import opened Values

  /** `col.get("field") == field`: an entry without a `field` key never matches. */
  predicate Matches(col: ColumnDef, field: string)
    ensures "field" !in col ==> !Matches(col, field)
  {
    "field" in col && col["field"] == Str(field)
  }

  /** The index the linear scan stops at: the first entry whose `field` is `field`. */
  function FirstIndex(defs: seq<ColumnDef>, field: string): (r: Option<nat>)
    ensures r.Some? ==> r.value < |defs| && Matches(defs[r.value], field)
    ensures r.Some? ==> forall j :: 0 <= j < r.value ==> !Matches(defs[j], field)
    ensures r.None? ==> forall j :: 0 <= j < |defs| ==> !Matches(defs[j], field)
  {
    if |defs| == 0 then None
    else if Matches(defs[0], field) then Some(0)
    else
      match FirstIndex(defs[1..], field)
      case None => None
      case Some(i) => Some(i + 1)
  }

  /**
   * One field's step: `dict.update` of the first matching entry with the new column
   * (its keys win, the entry's other keys stay), or `append` when nothing matches.
   */
  function Upsert(defs: seq<ColumnDef>, field: string, column: ColumnDef): (r: seq<ColumnDef>)
    ensures |defs| <= |r| <= |defs| + 1
    ensures forall j :: 0 <= j < |defs| && !Matches(defs[j], field) ==> r[j] == defs[j]
  {
    match FirstIndex(defs, field)
    case Some(i) => defs[i := defs[i] + column]
    case None => defs + [column]
  }

  /** Every field to patch has a column in the batch. */
  predicate Covers(fields: seq<string>, columns: map<string, ColumnDef>)
  {
    forall f :: f in fields ==> f in columns
  }

  /** Every field to patch has a column in the batch, and that column's `field` is the field itself. */
  predicate ColumnsFor(fields: seq<string>, columns: map<string, ColumnDef>)
  {
    forall f :: f in fields ==> f in columns && Matches(columns[f], f)
  }

  /** The whole pass: one `Upsert` per field, in the batch's iteration order. */
  function UpsertAll(defs: seq<ColumnDef>, fields: seq<string>, columns: map<string, ColumnDef>)
    : (r: seq<ColumnDef>)
    requires Covers(fields, columns)
    ensures |defs| <= |r| <= |defs| + |fields|
  {
    if |fields| == 0 then defs
    else
      var n := |fields| - 1;
      assert fields[n] in fields;
      Upsert(UpsertAll(defs, fields[..n], columns), fields[n], columns[fields[n]])
  }

  /** One more field of the pass: the pass over a longer prefix is one more `Upsert`. */
  lemma UpsertAllStep(defs: seq<ColumnDef>, fields: seq<string>, columns: map<string, ColumnDef>, i: nat)
    requires Covers(fields, columns)
    requires i < |fields|
    ensures fields[i] in columns
    ensures Covers(fields[..i], columns) && Covers(fields[..i + 1], columns)
    ensures UpsertAll(defs, fields[..i + 1], columns)
         == Upsert(UpsertAll(defs, fields[..i], columns), fields[i], columns[fields[i]])
  {
    assert fields[..i + 1][..i] == fields[..i];
  }

  /**
   * Reference outcome for the entry at index `j` of the original list: it takes the
   * column of its field exactly when the batch names that field and `j` is the first
   * entry carrying it; every other entry is left as it was.
   */
  function PatchedEntry(defs: seq<ColumnDef>, j: nat, fields: seq<string>, columns: map<string, ColumnDef>)
    : ColumnDef
    requires j < |defs|
    requires Covers(fields, columns)
  {
    var col := defs[j];
    if "field" in col && col["field"].Str? && col["field"].s in fields && FirstIndex(defs, col["field"].s) == Some(j)
    then col + columns[col["field"].s]
    else col
  }

  /** Reference outcome for the original entries, index by index. */
  function Patched(defs: seq<ColumnDef>, fields: seq<string>, columns: map<string, ColumnDef>)
    : (r: seq<ColumnDef>)
    requires Covers(fields, columns)
    ensures |r| == |defs|
  {
    seq(|defs|, j requires 0 <= j < |defs| => PatchedEntry(defs, j, fields, columns))
  }

  /** Reference outcome for the appended part: the columns of the fields no entry carried, in field order. */
  function Absent(defs: seq<ColumnDef>, fields: seq<string>, columns: map<string, ColumnDef>)
    : (r: seq<ColumnDef>)
    requires Covers(fields, columns)
    ensures |r| <= |fields|
  {
    if |fields| == 0 then []
    else
      var n := |fields| - 1;
      assert fields[n] in fields;
      Absent(defs, fields[..n], columns) + (if FirstIndex(defs, fields[n]).None? then [columns[fields[n]]] else [])
  }

  /** An entry carries at most one field. */
  lemma MatchesOneField(col: ColumnDef, field: string, other: string)
    requires Matches(col, field) && Matches(col, other)
    ensures field == other
  {
  }

  /** A present field: only its first matching entry changes, and it becomes the old entry merged with the new column. */
  lemma UpsertFirstMatch(defs: seq<ColumnDef>, field: string, column: ColumnDef, i: nat)
    requires i < |defs| && Matches(defs[i], field)
    requires forall j :: 0 <= j < i ==> !Matches(defs[j], field)
    ensures |Upsert(defs, field, column)| == |defs|
    ensures Upsert(defs, field, column)[i] == defs[i] + column
    ensures forall j :: 0 <= j < |defs| && j != i ==> Upsert(defs, field, column)[j] == defs[j]
  {
  }

  /** An absent field: its column goes at the end and nothing else changes. */
  lemma UpsertNoMatch(defs: seq<ColumnDef>, field: string, column: ColumnDef)
    requires forall j :: 0 <= j < |defs| ==> !Matches(defs[j], field)
    ensures Upsert(defs, field, column) == defs + [column]
  {
  }

  /**
   * `FirstIndex` depends only on which entries match: a list that agrees with `d1`
   * on matching over `d1`'s indices finds the same first match.
   */
  lemma FirstIndexAgrees(d1: seq<ColumnDef>, d2: seq<ColumnDef>, field: string)
    requires |d1| <= |d2|
    requires forall j :: 0 <= j < |d1| ==> Matches(d2[j], field) == Matches(d1[j], field)
    ensures FirstIndex(d1, field).Some? ==> FirstIndex(d2, field) == FirstIndex(d1, field)
    ensures (FirstIndex(d1, field).None? && forall j :: |d1| <= j < |d2| ==> !Matches(d2[j], field))
              ==> FirstIndex(d2, field).None?
  {
  }

  /** Merging a column for `field` into an entry matching `field` does not change what the entry matches. */
  lemma MergeKeepsMatches(col: ColumnDef, column: ColumnDef, field: string, other: string)
    requires Matches(col, field) && Matches(column, field)
    ensures Matches(col + column, other) == Matches(col, other)
  {
  }

  /** Upserting a column for `field` changes no entry's `field`, so no other field's first match moves. */
  lemma UpsertKeepsOtherMatches(defs: seq<ColumnDef>, field: string, column: ColumnDef, other: string)
    requires Matches(column, field)
    ensures |Upsert(defs, field, column)| >= |defs|
    ensures forall j :: 0 <= j < |defs| ==> Matches(Upsert(defs, field, column)[j], other) == Matches(defs[j], other)
    ensures other != field ==> FirstIndex(Upsert(defs, field, column), other) == FirstIndex(defs, other)
  {
    match FirstIndex(defs, field)
    case Some(i) =>
      MergeKeepsMatches(defs[i], column, field, other);
    case None =>
  }

  /** Patching keeps what every original entry matches. */
  lemma PatchedKeepsMatches(defs: seq<ColumnDef>, fields: seq<string>, columns: map<string, ColumnDef>,
                            j: nat, other: string)
    requires ColumnsFor(fields, columns)
    requires j < |defs|
    ensures Matches(Patched(defs, fields, columns)[j], other) == Matches(defs[j], other)
  {
    var col := defs[j];
    if "field" in col && col["field"].Str? && col["field"].s in fields {
      MergeKeepsMatches(col, columns[col["field"].s], col["field"].s, other);
    }
  }

  /** Every appended column belongs to one of the patched fields. */
  lemma AbsentFields(defs: seq<ColumnDef>, fields: seq<string>, columns: map<string, ColumnDef>, k: nat, other: string)
    requires ColumnsFor(fields, columns)
    requires k < |Absent(defs, fields, columns)|
    requires Matches(Absent(defs, fields, columns)[k], other)
    ensures other in fields
  {
    var n := |fields| - 1;
    var prefix := fields[..n];
    assert fields == prefix + [fields[n]];
    if k < |Absent(defs, prefix, columns)| {
      AbsentFields(defs, prefix, columns, k, other);
    } else {
      assert Matches(columns[fields[n]], fields[n]);
    }
  }

  /**
   * After a pass over `prefix`, a field the prefix does not name is first matched
   * where it was first matched in the original list (or still nowhere).
   */
  lemma FirstIndexAfterPass(defs: seq<ColumnDef>, prefix: seq<string>, columns: map<string, ColumnDef>, field: string)
    requires ColumnsFor(prefix, columns)
    requires field !in prefix
    ensures FirstIndex(Patched(defs, prefix, columns) + Absent(defs, prefix, columns), field) == FirstIndex(defs, field)
  {
    var before := Patched(defs, prefix, columns) + Absent(defs, prefix, columns);
    forall j | 0 <= j < |defs|
      ensures Matches(before[j], field) == Matches(defs[j], field)
    {
      PatchedKeepsMatches(defs, prefix, columns, j, field);
    }
    forall k | |defs| <= k < |before|
      ensures !Matches(before[k], field)
    {
      if Matches(before[k], field) {
        AbsentFields(defs, prefix, columns, k - |defs|, field);
      }
    }
    FirstIndexAgrees(defs, before, field);
  }

  /** Adding a field the prefix does not name patches only that field's first match, with that field's column. */
  lemma PatchedStep(defs: seq<ColumnDef>, prefix: seq<string>, field: string, columns: map<string, ColumnDef>, j: nat)
    requires Covers(prefix + [field], columns)
    requires field !in prefix
    requires j < |defs|
    ensures Covers(prefix, columns)
    ensures Patched(defs, prefix + [field], columns)[j] ==
      if FirstIndex(defs, field) == Some(j) then defs[j] + columns[field] else Patched(defs, prefix, columns)[j]
  {
    var fields := prefix + [field];
    assert forall f :: f in prefix ==> f in fields;
    var col := defs[j];
    if "field" in col && col["field"].Str? {
      var name := col["field"].s;
      assert name in fields <==> name in prefix || name == field;
    }
  }

  lemma UpdateInPrefix<T>(p: seq<T>, a: seq<T>, i: nat, v: T)
    requires i < |p|
    ensures (p + a)[i := v] == p[i := v] + a
  {
  }

  /** Adding a field whose first match is at `i` patches exactly entry `i` with that field's column. */
  lemma PatchedFound(defs: seq<ColumnDef>, prefix: seq<string>, field: string, columns: map<string, ColumnDef>, i: nat)
    requires Covers(prefix + [field], columns)
    requires field !in prefix
    requires FirstIndex(defs, field) == Some(i)
    ensures Covers(prefix, columns)
    ensures Patched(defs, prefix, columns)[i] == defs[i]
    ensures Patched(defs, prefix + [field], columns) == Patched(defs, prefix, columns)[i := defs[i] + columns[field]]
  {
    assert forall f :: f in prefix ==> f in prefix + [field];
    var p0 := Patched(defs, prefix, columns);
    var p1 := Patched(defs, prefix + [field], columns);
    forall j | 0 <= j < |defs|
      ensures p1[j] == if j == i then defs[j] + columns[field] else p0[j]
    {
      PatchedStep(defs, prefix, field, columns, j);
    }
    assert Matches(defs[i], field);
  }

  /** The inductive step of `UpsertAllShape` for a field some original entry carries. */
  lemma ShapeStepFound(defs: seq<ColumnDef>, prefix: seq<string>, field: string, columns: map<string, ColumnDef>, i: nat)
    requires ColumnsFor(prefix + [field], columns)
    requires field !in prefix
    requires FirstIndex(defs, field) == Some(i)
    ensures ColumnsFor(prefix, columns)
    ensures Upsert(Patched(defs, prefix, columns) + Absent(defs, prefix, columns), field, columns[field])
         == Patched(defs, prefix + [field], columns) + Absent(defs, prefix, columns)
  {
    assert forall f :: f in prefix ==> f in prefix + [field];
    var p0 := Patched(defs, prefix, columns);
    var a0 := Absent(defs, prefix, columns);
    FirstIndexAfterPass(defs, prefix, columns, field);
    PatchedFound(defs, prefix, field, columns, i);
    UpdateInPrefix(p0, a0, i, defs[i] + columns[field]);
  }

  /** The inductive step of `UpsertAllShape` for a field no original entry carries. */
  lemma ShapeStepAbsent(defs: seq<ColumnDef>, prefix: seq<string>, field: string, columns: map<string, ColumnDef>)
    requires ColumnsFor(prefix + [field], columns)
    requires field !in prefix
    requires FirstIndex(defs, field).None?
    ensures ColumnsFor(prefix, columns)
    ensures Upsert(Patched(defs, prefix, columns) + Absent(defs, prefix, columns), field, columns[field])
         == Patched(defs, prefix + [field], columns) + (Absent(defs, prefix, columns) + [columns[field]])
  {
    var fields := prefix + [field];
    assert forall f :: f in prefix ==> f in fields;
    var p0 := Patched(defs, prefix, columns);
    var p1 := Patched(defs, fields, columns);
    FirstIndexAfterPass(defs, prefix, columns, field);
    forall j | 0 <= j < |defs|
      ensures p1[j] == p0[j]
    {
      PatchedStep(defs, prefix, field, columns, j);
    }
    assert p1 == p0;
  }

  /**
   * The outcome of the whole pass, described independently of its order of steps:
   * the original entries patched in place (`Patched`), followed by the columns of
   * the fields no entry carried (`Absent`), in field order.
   */
  lemma {:induction false} UpsertAllShape(defs: seq<ColumnDef>, fields: seq<string>, columns: map<string, ColumnDef>)
    requires Distinct(fields)
    requires ColumnsFor(fields, columns)
    ensures UpsertAll(defs, fields, columns) == Patched(defs, fields, columns) + Absent(defs, fields, columns)
    ensures |UpsertAll(defs, fields, columns)| == |defs| + |Absent(defs, fields, columns)|
  {
    if |fields| == 0 {
      assert Patched(defs, fields, columns) == defs;
    } else {
      var n := |fields| - 1;
      var prefix, field := fields[..n], fields[n];
      SplitLast(fields, columns);
      UpsertAllShape(defs, prefix, columns);
      match FirstIndex(defs, field)
      case Some(i) =>
        ShapeStepFound(defs, prefix, field, columns, i);
      case None =>
        ShapeStepAbsent(defs, prefix, field, columns);
    }
  }

  /** A batch of distinct fields is its prefix plus a last field the prefix does not name. */
  lemma SplitLast(fields: seq<string>, columns: map<string, ColumnDef>)
    requires |fields| > 0
    requires Distinct(fields)
    requires ColumnsFor(fields, columns)
    ensures fields == fields[..|fields| - 1] + [fields[|fields| - 1]]
    ensures Distinct(fields[..|fields| - 1]) && fields[|fields| - 1] !in fields[..|fields| - 1]
    ensures ColumnsFor(fields[..|fields| - 1], columns)
  {
    var n := |fields| - 1;
    assert forall f :: f in fields[..n] ==> f in fields;
  }

  /** Patching an empty list appends every column, in field order. */
  lemma {:induction false} FreshColumnsInOrder(fields: seq<string>, columns: map<string, ColumnDef>)
    requires Distinct(fields)
    requires ColumnsFor(fields, columns)
    ensures UpsertAll([], fields, columns) == seq(|fields|, k requires 0 <= k < |fields| => columns[fields[k]])
  {
    UpsertAllShape([], fields, columns);
    AbsentFromEmpty(fields, columns);
  }

  lemma {:induction false} AbsentFromEmpty(fields: seq<string>, columns: map<string, ColumnDef>)
    requires Covers(fields, columns)
    ensures Absent([], fields, columns) == seq(|fields|, k requires 0 <= k < |fields| => columns[fields[k]])
  {
    if |fields| > 0 {
      var n := |fields| - 1;
      assert forall f :: f in fields[..n] ==> f in fields;
      AbsentFromEmpty(fields[..n], columns);
    }
  }

  /** The fields of the batch that no entry of `defs` carries. */
  function NewFields(defs: seq<ColumnDef>, fields: seq<string>): set<string>
  {
    set f | f in fields && FirstIndex(defs, f).None?
  }

  /** One appended column per field no entry carried. */
  lemma {:induction false} AbsentCount(defs: seq<ColumnDef>, fields: seq<string>, columns: map<string, ColumnDef>)
    requires Distinct(fields)
    requires Covers(fields, columns)
    ensures |Absent(defs, fields, columns)| == |NewFields(defs, fields)|
  {
    if |fields| > 0 {
      var n := |fields| - 1;
      var prefix, field := fields[..n], fields[n];
      NewFieldsStep(defs, fields, columns);
      AbsentCount(defs, prefix, columns);
    }
  }

  /** The new fields of a batch are those of its prefix, plus the last field when no entry carries it. */
  lemma NewFieldsStep(defs: seq<ColumnDef>, fields: seq<string>, columns: map<string, ColumnDef>)
    requires |fields| > 0
    requires Distinct(fields)
    requires Covers(fields, columns)
    ensures Distinct(fields[..|fields| - 1]) && Covers(fields[..|fields| - 1], columns)
    ensures fields[|fields| - 1] !in NewFields(defs, fields[..|fields| - 1])
    ensures NewFields(defs, fields)
         == NewFields(defs, fields[..|fields| - 1])
          + (if FirstIndex(defs, fields[|fields| - 1]).None? then {fields[|fields| - 1]} else {})
  {
    var n := |fields| - 1;
    var prefix := fields[..n];
    assert fields == prefix + [fields[n]];
    assert forall f :: f in prefix ==> f in fields;
  }

  /** The list grows by exactly the number of batch fields no entry carried. */
  lemma UpsertAllLength(defs: seq<ColumnDef>, fields: seq<string>, columns: map<string, ColumnDef>)
    requires Distinct(fields)
    requires ColumnsFor(fields, columns)
    ensures |UpsertAll(defs, fields, columns)| == |defs| + |NewFields(defs, fields)|
  {
    UpsertAllShape(defs, fields, columns);
    AbsentCount(defs, fields, columns);
  }

  /** Entries without a `field` key, or whose field is not patched, come out unchanged. */
  lemma UnmatchedEntriesUntouched(defs: seq<ColumnDef>, fields: seq<string>, columns: map<string, ColumnDef>, j: nat)
    requires Distinct(fields)
    requires ColumnsFor(fields, columns)
    requires j < |defs|
    requires forall f :: f in fields ==> !Matches(defs[j], f)
    ensures UpsertAll(defs, fields, columns)[j] == defs[j]
  {
    UpsertAllShape(defs, fields, columns);
    var col := defs[j];
    if "field" in col && col["field"].Str? && col["field"].s in fields {
      assert Matches(col, col["field"].s);
    }
  }

  /** `col` already holds every key of `column` with the same value. */
  predicate Includes(col: ColumnDef, column: ColumnDef)
  {
    forall k :: k in column ==> k in col && col[k] == column[k]
  }

  /** Every field already has a first match that includes its column: a pass changes nothing. */
  predicate Settled(defs: seq<ColumnDef>, fields: seq<string>, columns: map<string, ColumnDef>)
    requires Covers(fields, columns)
  {
    forall f :: f in fields ==>
      FirstIndex(defs, f).Some? && Includes(defs[FirstIndex(defs, f).value], columns[f])
  }

  lemma MergeIncluded(col: ColumnDef, column: ColumnDef)
    requires Includes(col, column)
    ensures col + column == col
  {
  }

  /** On a settled list the pass is the identity. */
  lemma {:induction false} SettledIsFixpoint(defs: seq<ColumnDef>, fields: seq<string>, columns: map<string, ColumnDef>)
    requires Covers(fields, columns)
    requires Settled(defs, fields, columns)
    ensures UpsertAll(defs, fields, columns) == defs
  {
    if |fields| > 0 {
      var n := |fields| - 1;
      var field := fields[n];
      assert forall f :: f in fields[..n] ==> f in fields;
      SettledIsFixpoint(defs, fields[..n], columns);
      assert field in fields;
      var i := FirstIndex(defs, field).value;
      MergeIncluded(defs[i], columns[field]);
      assert defs[i := defs[i] + columns[field]] == defs;
    }
  }

  /** After the step for `field`, `field` is settled. */
  lemma UpsertSettlesField(defs: seq<ColumnDef>, field: string, column: ColumnDef)
    requires Matches(column, field)
    ensures FirstIndex(Upsert(defs, field, column), field).Some?
    ensures Includes(Upsert(defs, field, column)[FirstIndex(Upsert(defs, field, column), field).value], column)
  {
    var after := Upsert(defs, field, column);
    UpsertKeepsOtherMatches(defs, field, column, field);
    match FirstIndex(defs, field)
    case Some(i) =>
      FirstIndexAgrees(defs, after, field);
    case None =>
      FirstIndexAgrees(defs, after, field);
      assert after == defs + [column];
      assert FirstIndex(after, field) == Some(|defs|) by {
        assert Matches(after[|defs|], field);
      }
  }

  /** The step for `field` leaves another settled field settled. */
  lemma UpsertKeepsSettled(defs: seq<ColumnDef>, field: string, column: ColumnDef, other: string, otherColumn: ColumnDef)
    requires Matches(column, field)
    requires other != field
    requires FirstIndex(defs, other).Some? && Includes(defs[FirstIndex(defs, other).value], otherColumn)
    ensures FirstIndex(Upsert(defs, field, column), other) == FirstIndex(defs, other)
    ensures Includes(Upsert(defs, field, column)[FirstIndex(defs, other).value], otherColumn)
  {
    UpsertKeepsOtherMatches(defs, field, column, other);
  }

  /** After a pass every field is settled. */
  lemma {:induction false} UpsertAllSettles(defs: seq<ColumnDef>, fields: seq<string>, columns: map<string, ColumnDef>)
    requires Distinct(fields)
    requires ColumnsFor(fields, columns)
    ensures Settled(UpsertAll(defs, fields, columns), fields, columns)
  {
    if |fields| > 0 {
      var n := |fields| - 1;
      var prefix := fields[..n];
      var field := fields[n];
      assert fields == prefix + [field];
      assert forall f :: f in prefix ==> f in fields;
      UpsertAllSettles(defs, prefix, columns);
      var before := UpsertAll(defs, prefix, columns);
      var column := columns[field];
      assert Upsert(before, field, column) == UpsertAll(defs, fields, columns);
      forall g | g in fields
        ensures FirstIndex(Upsert(before, field, column), g).Some?
        ensures Includes(Upsert(before, field, column)[FirstIndex(Upsert(before, field, column), g).value], columns[g])
      {
        if g == field {
          UpsertSettlesField(before, field, column);
        } else {
          assert g in prefix;
          UpsertKeepsSettled(before, field, column, g, columns[g]);
        }
      }
    }
  }

  /** Patching the same batch twice gives what patching it once gives. */
  lemma UpsertAllIdempotent(defs: seq<ColumnDef>, fields: seq<string>, columns: map<string, ColumnDef>)
    requires Distinct(fields)
    requires ColumnsFor(fields, columns)
    ensures UpsertAll(UpsertAll(defs, fields, columns), fields, columns) == UpsertAll(defs, fields, columns)
  {
    UpsertAllSettles(defs, fields, columns);
    SettledIsFixpoint(UpsertAll(defs, fields, columns), fields, columns);
  }
}
