/**
 * The static methods of class `LinkHeaderBuilder`: one link column, and a batch of
 * link columns built from an ordered `{field_name: url}` mapping.
 */
module LinkHeaderBuilder {
  import opened Values
  import Text

  /** The tag by which the grid resolves the link-icon header renderer. */
  const LinkHeaderTag: string := "linkHeaderComponent"

  /** The four grid-behaviour flags a link column gets unless the caller overrides them. */
  const DefaultConfig: map<string, Value> :=
    map["sortable" := Bool(true), "filter" := Bool(true), "resizable" := Bool(true),
        "suppressHeaderContextMenu" := Bool(false)]

  /** The keys every link column carries besides the caller's own. */
  const BuilderKeys: set<string> :=
    {"field", "headerName", "headerComponentParams", "sortable", "filter", "resizable",
     "suppressHeaderContextMenu"}

  /**
   * Keyword overrides Python accepts for `create_link_column`: a keyword that names
   * one of its parameters would be passed twice and raise a TypeError.
   */
  predicate ColumnKwargs(overrides: map<string, Value>)
  {
    "field" !in overrides && "header_name" !in overrides && "url" !in overrides
  }

  /**
   * The batch forwards its overrides to `create_link_column` once per entry, so a
   * repeated parameter name is an error only when there is an entry.
   */
  predicate EntryKwargs(linkConfig: LinkConfig, overrides: map<string, Value>)
  {
    |linkConfig| > 0 ==> ColumnKwargs(overrides)
  }

  /** Keyword overrides Python accepts for `create_link_columns_from_dict` with this configuration. */
  predicate BatchKwargs(linkConfig: LinkConfig, overrides: map<string, Value>)
  {
    EntryKwargs(linkConfig, overrides) && "link_config" !in overrides
  }

  /** The `headerComponentParams` block of a link column. */
  function HeaderParams(url: string, headerName: string): (r: Value)
    ensures r.Obj? && r.fields.Keys == {"innerHeaderComponent", "url", "headerName"}
    ensures r.fields["innerHeaderComponent"] == Str(LinkHeaderTag)
    ensures r.fields["url"] == Str(url) && r.fields["headerName"] == Str(headerName)
  {
    Obj(map["innerHeaderComponent" := Str(LinkHeaderTag), "url" := Str(url), "headerName" := Str(headerName)])
  }

  /**
   * `LinkHeaderBuilder.create_link_column`: the defaults are merged under the
   * overrides, and that merged block is unpacked AFTER the builder's own keys.
   */
  function CreateLinkColumn(field: string, headerName: string, url: string, overrides: map<string, Value>)
    : (r: ColumnDef)
    requires ColumnKwargs(overrides)
    ensures "field" in r && r["field"] == Str(field)
    ensures forall k :: k in overrides ==> k in r && r[k] == overrides[k]
  {
    var columnConfig := DefaultConfig + overrides;
    map["field" := Str(field), "headerName" := Str(headerName),
        "headerComponentParams" := HeaderParams(url, headerName)] + columnConfig
  }

  /**
   * What a link column holds: the builder's seven keys and the overrides' keys; every
   * override wins, over the default flags and, because it is unpacked last, over
   * `headerName` and `headerComponentParams` too. Only `field` is always the
   * argument, because it cannot be an override.
   */
  lemma CreateLinkColumnContents(field: string, headerName: string, url: string, overrides: map<string, Value>)
    requires ColumnKwargs(overrides)
    ensures CreateLinkColumn(field, headerName, url, overrides).Keys == BuilderKeys + overrides.Keys
    ensures forall k :: k in overrides ==> CreateLinkColumn(field, headerName, url, overrides)[k] == overrides[k]
    ensures CreateLinkColumn(field, headerName, url, overrides)["field"] == Str(field)
    ensures "headerName" !in overrides ==> CreateLinkColumn(field, headerName, url, overrides)["headerName"] == Str(headerName)
    ensures "headerComponentParams" !in overrides ==>
      CreateLinkColumn(field, headerName, url, overrides)["headerComponentParams"] == HeaderParams(url, headerName)
    ensures forall k :: k in DefaultConfig && k !in overrides ==>
      CreateLinkColumn(field, headerName, url, overrides)[k] == DefaultConfig[k]
  {
  }

  /** Without overrides a link column is exactly the seven builder keys with their defaults. */
  lemma CreateLinkColumnDefaults(field: string, headerName: string, url: string)
    ensures CreateLinkColumn(field, headerName, url, map[]) ==
      map["field" := Str(field), "headerName" := Str(headerName),
          "headerComponentParams" := HeaderParams(url, headerName),
          "sortable" := Bool(true), "filter" := Bool(true), "resizable" := Bool(true),
          "suppressHeaderContextMenu" := Bool(false)]
  {
  }

  /** The column the batch builder makes for one `(field, url)` entry. */
  function LinkColumn(field: string, url: string, overrides: map<string, Value>): (r: ColumnDef)
    requires ColumnKwargs(overrides)
    ensures "field" in r && r["field"] == Str(field)
  {
    CreateLinkColumn(field, Text.DisplayName(field), url, overrides)
  }

  /** The batch `create_link_columns_from_dict` returns, built as its loop builds it. */
  function LinkColumns(linkConfig: LinkConfig, overrides: map<string, Value>): (r: map<string, ColumnDef>)
    requires EntryKwargs(linkConfig, overrides)
    ensures forall k :: 0 <= k < |linkConfig| ==> linkConfig[k].0 in r
  {
    if |linkConfig| == 0 then map[]
    else
      var n := |linkConfig| - 1;
      LinkColumns(linkConfig[..n], overrides)[linkConfig[n].0 := LinkColumn(linkConfig[n].0, linkConfig[n].1, overrides)]
  }

  /** The batch has exactly the configured fields as keys. */
  lemma {:induction false} LinkColumnsKeys(linkConfig: LinkConfig, overrides: map<string, Value>)
    requires EntryKwargs(linkConfig, overrides)
    ensures LinkColumns(linkConfig, overrides).Keys == Fields(linkConfig)
  {
    if |linkConfig| > 0 {
      var n := |linkConfig| - 1;
      LinkColumnsKeys(linkConfig[..n], overrides);
      assert linkConfig == linkConfig[..n] + [linkConfig[n]];
    }
  }

  /**
   * Each configured field maps to its link column: the field, the header name derived
   * from it, its url and the shared overrides.
   */
  lemma {:induction false} LinkColumnsAt(linkConfig: LinkConfig, overrides: map<string, Value>, k: nat)
    requires DistinctFields(linkConfig)
    requires EntryKwargs(linkConfig, overrides)
    requires k < |linkConfig|
    ensures linkConfig[k].0 in LinkColumns(linkConfig, overrides)
    ensures LinkColumns(linkConfig, overrides)[linkConfig[k].0] == LinkColumn(linkConfig[k].0, linkConfig[k].1, overrides)
  {
    var n := |linkConfig| - 1;
    if k < n {
      var prefix := linkConfig[..n];
      DistinctPrefix(linkConfig, n);
      assert prefix[k] == linkConfig[k];
      LinkColumnsAt(prefix, overrides, k);
      assert linkConfig[k].0 != linkConfig[n].0;
    }
  }

  /** The worked example: the link column for `user_name` is headed `User Name`. */
  lemma UserNameColumn(url: string)
    ensures "user_name" in LinkColumns([("user_name", url)], map[])
    ensures LinkColumns([("user_name", url)], map[])["user_name"]["headerName"] == Str("User Name")
  {
    LinkColumnsAt([("user_name", url)], map[], 0);
    Text.UserNameExample();
    CreateLinkColumnContents("user_name", "User Name", url, map[]);
  }

  /** `LinkHeaderBuilder.create_link_columns_from_dict`: fills a fresh dict, one field at a time. */
  method CreateLinkColumnsFromDict(linkConfig: LinkConfig, overrides: map<string, Value>)
    returns (columns: map<string, ColumnDef>)
    requires DistinctFields(linkConfig)
    requires BatchKwargs(linkConfig, overrides)
    ensures columns == LinkColumns(linkConfig, overrides)
  {
    columns := map[];
    for i := 0 to |linkConfig|
      invariant columns == LinkColumns(linkConfig[..i], overrides)
    {
      var (field, url) := linkConfig[i];
      var headerName := Text.DisplayName(field);
      columns := columns[field := CreateLinkColumn(field, headerName, url, overrides)];
      assert linkConfig[..i + 1][..i] == linkConfig[..i];
    }
    assert linkConfig[..|linkConfig|] == linkConfig;
  }
}
