/**
 * The module-level functions of `link_header_builder.py`: patching link columns into
 * a caller's grid options in place, and the two convenience wrappers.
 */
module LinkHeaders {
  import opened Values
  import opened LinkHeaderBuilder
  import opened ColumnDefs

  /**
   * A grid-options mapping owned by the caller. `settings` holds every top-level key
   * except `columnDefs`; `columnDefs` is the list under that key when `hasColumnDefs`.
   */
  class GridOptions {
    var settings: map<string, Value>
    var hasColumnDefs: bool
    var columnDefs: seq<ColumnDef>

    ghost predicate Valid()
      reads this
    {
      "columnDefs" !in settings && (!hasColumnDefs ==> columnDefs == [])
    }

    /** Grid options with the given top-level keys and, optionally, a `columnDefs` list. */
    constructor (settings: map<string, Value>, columnDefs: Option<seq<ColumnDef>>)
      requires "columnDefs" !in settings
      ensures Valid()
      ensures this.settings == settings
      ensures hasColumnDefs == columnDefs.Some?
      ensures columnDefs.Some? ==> this.columnDefs == columnDefs.value
    {
      this.settings := settings;
      this.hasColumnDefs := columnDefs.Some?;
      this.columnDefs := if columnDefs.Some? then columnDefs.value else [];
    }
  }

  /** Keyword overrides Python accepts for `add_link_headers_to_grid_options` with this configuration. */
  predicate GridKwargs(linkConfig: LinkConfig, overrides: map<string, Value>)
  {
    BatchKwargs(linkConfig, overrides) && "grid_options" !in overrides
  }

  /** The batch of link columns suits the patch: distinct fields, each with its own column. */
  lemma BatchSuitsPatch(linkConfig: LinkConfig, overrides: map<string, Value>)
    requires DistinctFields(linkConfig)
    requires EntryKwargs(linkConfig, overrides)
    ensures Distinct(FieldOrder(linkConfig))
    ensures ColumnsFor(FieldOrder(linkConfig), LinkColumns(linkConfig, overrides))
  {
    var fields := FieldOrder(linkConfig);
    DistinctFieldOrder(linkConfig);
    forall f | f in fields
      ensures f in LinkColumns(linkConfig, overrides) && Matches(LinkColumns(linkConfig, overrides)[f], f)
    {
      var k :| 0 <= k < |fields| && fields[k] == f;
      LinkColumnsAt(linkConfig, overrides, k);
    }
  }

  /** The outcome of the pass over a link configuration's batch: its shape and its length. */
  lemma PatchOutcome(defs: seq<ColumnDef>, linkConfig: LinkConfig, overrides: map<string, Value>)
    requires DistinctFields(linkConfig)
    requires EntryKwargs(linkConfig, overrides)
    ensures Covers(FieldOrder(linkConfig), LinkColumns(linkConfig, overrides))
    ensures UpsertAll(defs, FieldOrder(linkConfig), LinkColumns(linkConfig, overrides))
         == Patched(defs, FieldOrder(linkConfig), LinkColumns(linkConfig, overrides))
          + Absent(defs, FieldOrder(linkConfig), LinkColumns(linkConfig, overrides))
    ensures |UpsertAll(defs, FieldOrder(linkConfig), LinkColumns(linkConfig, overrides))|
         == |defs| + |NewFields(defs, FieldOrder(linkConfig))|
  {
    BatchSuitsPatch(linkConfig, overrides);
    UpsertAllShape(defs, FieldOrder(linkConfig), LinkColumns(linkConfig, overrides));
    UpsertAllLength(defs, FieldOrder(linkConfig), LinkColumns(linkConfig, overrides));
  }

  /** The linear scan with `break`: the index of the first entry whose `field` is `field`, if any. */
  method FindField(defs: seq<ColumnDef>, field: string) returns (existingIndex: Option<nat>)
    ensures existingIndex == FirstIndex(defs, field)
  {
    existingIndex := None;
    var i := 0;
    while i < |defs|
      invariant 0 <= i <= |defs|
      invariant existingIndex == None
      invariant forall j :: 0 <= j < i ==> !Matches(defs[j], field)
    {
      if "field" in defs[i] && defs[i]["field"] == Str(field) {
        existingIndex := Some(i);
        break;
      }
      i := i + 1;
    }
  }

  /**
   * One link field of the patch: the first entry with that field is updated with the
   * new column (`dict.update`), or the column is appended when there is none.
   */
  method PutColumn(gridOptions: GridOptions, field: string, columnDef: ColumnDef)
    requires gridOptions.Valid() && gridOptions.hasColumnDefs
    modifies gridOptions
    ensures gridOptions.Valid() && gridOptions.hasColumnDefs
    ensures gridOptions.settings == old(gridOptions.settings)
    ensures gridOptions.columnDefs == Upsert(old(gridOptions.columnDefs), field, columnDef)
  {
    var existingIndex := FindField(gridOptions.columnDefs, field);
    if existingIndex.Some? {
      var k := existingIndex.value;
      gridOptions.columnDefs := gridOptions.columnDefs[k := gridOptions.columnDefs[k] + columnDef];
    } else {
      gridOptions.columnDefs := gridOptions.columnDefs + [columnDef];
    }
  }

  /** The loop over the batch: one update-or-append per field, in the batch's order. */
  method PutColumns(gridOptions: GridOptions, fields: seq<string>, linkColumns: map<string, ColumnDef>)
    requires gridOptions.Valid() && gridOptions.hasColumnDefs
    requires Covers(fields, linkColumns)
    modifies gridOptions
    ensures gridOptions.Valid() && gridOptions.hasColumnDefs
    ensures gridOptions.settings == old(gridOptions.settings)
    ensures gridOptions.columnDefs == UpsertAll(old(gridOptions.columnDefs), fields, linkColumns)
  {
    assert fields[..0] == [];
    for i := 0 to |fields|
      invariant gridOptions.Valid() && gridOptions.hasColumnDefs
      invariant gridOptions.settings == old(gridOptions.settings)
      invariant Covers(fields[..i], linkColumns)
      invariant gridOptions.columnDefs == UpsertAll(old(gridOptions.columnDefs), fields[..i], linkColumns)
    {
      UpsertAllStep(old(gridOptions.columnDefs), fields, linkColumns, i);
      PutColumn(gridOptions, fields[i], linkColumns[fields[i]]);
    }
    assert fields[..|fields|] == fields;
  }

  /**
   * `add_link_headers_to_grid_options`: creates `columnDefs` when it is missing, then
   * for each link field in order updates the first entry with that field or appends
   * the new column; returns the same object.
   */
  method AddLinkHeadersToGridOptions(gridOptions: GridOptions, linkConfig: LinkConfig, overrides: map<string, Value>)
    returns (result: GridOptions)
    requires gridOptions.Valid()
    requires DistinctFields(linkConfig)
    requires GridKwargs(linkConfig, overrides)
    modifies gridOptions
    ensures result == gridOptions
    ensures gridOptions.Valid() && gridOptions.hasColumnDefs
    ensures gridOptions.settings == old(gridOptions.settings)
    ensures gridOptions.columnDefs
         == UpsertAll(old(gridOptions.columnDefs), FieldOrder(linkConfig), LinkColumns(linkConfig, overrides))
    ensures gridOptions.columnDefs
         == Patched(old(gridOptions.columnDefs), FieldOrder(linkConfig), LinkColumns(linkConfig, overrides))
          + Absent(old(gridOptions.columnDefs), FieldOrder(linkConfig), LinkColumns(linkConfig, overrides))
    ensures |gridOptions.columnDefs| == |old(gridOptions.columnDefs)| + |NewFields(old(gridOptions.columnDefs), FieldOrder(linkConfig))|
  {
    if !gridOptions.hasColumnDefs {
      gridOptions.columnDefs := [];
      gridOptions.hasColumnDefs := true;
    }
    ghost var start := gridOptions.columnDefs;
    var linkColumns := CreateLinkColumnsFromDict(linkConfig, overrides);
    var fields := FieldOrder(linkConfig);
    PatchOutcome(start, linkConfig, overrides);
    PutColumns(gridOptions, fields, linkColumns);
    result := gridOptions;
  }

  /** Running the patch a second time with the same link configuration and overrides changes nothing. */
  method AddLinkHeadersTwice(gridOptions: GridOptions, linkConfig: LinkConfig, overrides: map<string, Value>)
    requires gridOptions.Valid()
    requires DistinctFields(linkConfig)
    requires GridKwargs(linkConfig, overrides)
    modifies gridOptions
    ensures gridOptions.settings == old(gridOptions.settings)
    ensures gridOptions.columnDefs
         == UpsertAll(old(gridOptions.columnDefs), FieldOrder(linkConfig), LinkColumns(linkConfig, overrides))
  {
    var once := AddLinkHeadersToGridOptions(gridOptions, linkConfig, overrides);
    ghost var afterOnce := gridOptions.columnDefs;
    var twice := AddLinkHeadersToGridOptions(gridOptions, linkConfig, overrides);
    BatchSuitsPatch(linkConfig, overrides);
    UpsertAllIdempotent(old(gridOptions.columnDefs), FieldOrder(linkConfig), LinkColumns(linkConfig, overrides));
  }

  /** The wrapper `create_link_column`: the builder's column, with everything the builder promises. */
  function CreateLinkColumnWrapper(field: string, headerName: string, url: string, overrides: map<string, Value>)
    : (r: ColumnDef)
    requires ColumnKwargs(overrides)
    ensures r == LinkHeaderBuilder.CreateLinkColumn(field, headerName, url, overrides)
    ensures r.Keys == BuilderKeys + overrides.Keys
    ensures r["field"] == Str(field)
    ensures forall k :: k in overrides ==> r[k] == overrides[k]
  {
    CreateLinkColumnContents(field, headerName, url, overrides);
    LinkHeaderBuilder.CreateLinkColumn(field, headerName, url, overrides)
  }

  /** The wrapper `create_link_columns`: the builder's batch, keyed by exactly the configured fields. */
  method CreateLinkColumns(linkConfig: LinkConfig, overrides: map<string, Value>)
    returns (columns: map<string, ColumnDef>)
    requires DistinctFields(linkConfig)
    requires BatchKwargs(linkConfig, overrides)
    ensures columns == LinkColumns(linkConfig, overrides)
    ensures columns.Keys == Fields(linkConfig)
  {
    columns := CreateLinkColumnsFromDict(linkConfig, overrides);
    LinkColumnsKeys(linkConfig, overrides);
  }
}
