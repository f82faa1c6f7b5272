/** The model metadata the adapter receives from the analysis pipeline:
    per-column typing statistics and the list of predicted columns. */
module Metadata {
  import opened Wrappers

  /** The closed set of data subtypes the analysis pipeline assigns to a column. */
  datatype DataSubtype =
    | Int | Float | Binary | Date | Timestamp
    | Single | Multiple | Image | Video | Audio | Short | Rich | Array

  /** The `data_subtype` of a column's `typing`: one of the known subtypes,
      some other value, or nothing because the key is absent. */
  datatype Subtype = Known(tag: DataSubtype) | Unmapped(text: string) | Absent

  /** A column's `typing` entry: its `data_subtype` and its `data_type`
      (None when that key is absent). */
  datatype Typing = Typing(subtype: Subtype, dataType: Option<string>)

  /** One entry of `data_analysis`: the column name (the dictionary key) and
      its `typing` entry (None when the column has none). */
  datatype ColumnStats = ColumnStats(name: string, typing: Option<Typing>)

  /** `stats[name]['typing']['data_subtype']`, where a missing `typing` entry
      and a missing `data_subtype` key both make the lookup fail. */
  function ColumnSubtype(c: ColumnStats): Subtype
  {
    if c.typing.None? then Absent else c.typing.value.subtype
  }

  /** One element of `model_data_arr`. `dataAnalysis` lists the dictionary's
      entries in insertion order. */
  datatype ModelMeta = ModelMeta(name: string, dataAnalysis: seq<ColumnStats>, predict: seq<string>)

  /** The exceptions the column-list code can raise. */
  datatype Error =
    | KeyError(key: string)            // a dictionary lookup that fails
    | UnboundLocal(variable: string)   // a local read before it is assigned

  /** `data_analysis[col]`: the entry named `col`, if there is one. */
  function Find(stats: seq<ColumnStats>, col: string): (r: Option<ColumnStats>)
    ensures r.Some? <==> exists i :: 0 <= i < |stats| && stats[i].name == col
    ensures r.Some? ==> r.value in stats && r.value.name == col
  {
    if stats == [] then None
    else if stats[0].name == col then Some(stats[0])
    else
      var r := Find(stats[1..], col);
      assert forall i :: 1 <= i < |stats| ==> stats[i] == stats[1..][i - 1];
      r
  }
}
