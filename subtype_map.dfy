/** The fixed table from data subtypes to PostgreSQL column types. */
module SubtypeMap {
  import opened Wrappers
  import opened Metadata

  /** `subtype_map`, with the leading space of the integer type kept as written. */
  const PostgresTypes: map<DataSubtype, string> := map[
    Int := " int8",
    Float := "float8",
    Binary := "bool",
    Date := "date",
    Timestamp := "timestamp",
    Single := "text",
    Multiple := "text",
    Image := "text",
    Video := "text",
    Audio := "text",
    Short := "text",
    Rich := "text",
    Array := "text"
  ]

  /** The subtypes that are stored as plain text. */
  predicate IsTextual(t: DataSubtype) {
    t !in {Int, Float, Binary, Date, Timestamp}
  }

  /** `subtype_map[col_subtype]`: None where the lookup raises, that is for a
      value outside the map or a missing subtype. */
  function PostgresType(s: Subtype): (r: Option<string>)
    ensures r.Some? <==> s.Known?
    ensures r.Some? ==> r.value != []
  {
    if s.Known? then SubtypeMapComplete(s.tag); Some(PostgresTypes[s.tag]) else None
  }

  /** Every subtype has exactly one, non-empty, column type. */
  lemma SubtypeMapComplete(t: DataSubtype)
    ensures t in PostgresTypes && PostgresTypes[t] != []
  {
  }

  /** The five subtypes with a dedicated type, and text for the other eight. */
  lemma SubtypeMapValues(t: DataSubtype)
    ensures t == Int ==> PostgresTypes[t] == " int8"
    ensures t == Float ==> PostgresTypes[t] == "float8"
    ensures t == Binary ==> PostgresTypes[t] == "bool"
    ensures t == Date ==> PostgresTypes[t] == "date"
    ensures t == Timestamp ==> PostgresTypes[t] == "timestamp"
    ensures IsTextual(t) <==> PostgresTypes[t] == "text"
  {
  }
}
