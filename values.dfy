/**
 * The JSON-like values a column definition or a grid-options mapping holds,
 * as Python dictionaries and literals hold them.
 */
module Values {

  /** One value of a column-definition key (floats are not modelled). */
  datatype Value =
    | Null
    | Bool(b: bool)
    | Int(i: int)
    | Str(s: string)
    | List(items: seq<Value>)
    | Obj(fields: map<string, Value>)

  /** A column definition: a mapping from key to value (key order inside it is not modelled). */
  type ColumnDef = map<string, Value>

  /** An ordered Python dict `{field_name: url}`, in its iteration order. */
  type LinkConfig = seq<(string, string)>

  datatype Option<T> = None | Some(value: T)

  /** No name occurs twice in `names`. */
  predicate Distinct(names: seq<string>)
  {
    forall i, j :: 0 <= i < j < |names| ==> names[i] != names[j]
  }

  /** Python dict keys are unique: no field name occurs twice in a link configuration. */
  predicate DistinctFields(linkConfig: LinkConfig)
  {
    forall i, j :: 0 <= i < j < |linkConfig| ==> linkConfig[i].0 != linkConfig[j].0
  }

  /** Every prefix of a link configuration has distinct field names too. */
  lemma DistinctPrefix(linkConfig: LinkConfig, n: nat)
    requires DistinctFields(linkConfig)
    requires n <= |linkConfig|
    ensures DistinctFields(linkConfig[..n])
  {
    var prefix := linkConfig[..n];
    forall i, j | 0 <= i < j < |prefix| ensures prefix[i].0 != prefix[j].0 {
      assert prefix[i] == linkConfig[i] && prefix[j] == linkConfig[j];
    }
  }

  /** The field names of a link configuration, in its iteration order. */
  function FieldOrder(linkConfig: LinkConfig): (r: seq<string>)
    ensures |r| == |linkConfig|
    ensures forall k :: 0 <= k < |linkConfig| ==> r[k] == linkConfig[k].0
  {
    seq(|linkConfig|, k requires 0 <= k < |linkConfig| => linkConfig[k].0)
  }

  /** Distinct fields, stated on the pairs, is distinctness of the field sequence. */
  lemma DistinctFieldOrder(linkConfig: LinkConfig)
    ensures DistinctFields(linkConfig) <==> Distinct(FieldOrder(linkConfig))
  {
    var names := FieldOrder(linkConfig);
    assert forall i :: 0 <= i < |linkConfig| ==> names[i] == linkConfig[i].0;
  }

  /** The set of field names of a link configuration (the dict's keys). */
  function Fields(linkConfig: LinkConfig): set<string>
  {
    set p | p in linkConfig :: p.0
  }
}
