/** The DDL that `register_predictors` and `unregister_predictor` build: the
    column list of a model's foreign table, the CREATE statement for it and
    the DROP statement that removes it. */
module ForeignTable {
  import opened Wrappers
  import opened Metadata
  import opened Identifier
  import opened SubtypeMap
  import opened ColumnDeclarations
  import opened Sequences

  /** `"name<suffix>" type`, as in `f',"{col}_confidence" float8'` without the comma. */
  function Column(name: string, suffix: string, pgType: string): string
  {
    "\"" + name + suffix + "\" " + pgType
  }

  /** The two columns every model table has after its mapped columns. */
  const FixedColumns: seq<string> := ["\"select_data_query\" text", "\"external_datasource\" text"]

  /** The columns one predicted column adds: `_confidence`, then `_min` and
      `_max` when its data type is `Numeric`, then `_explain`. The lookup
      `data_analysis[col]['typing']['data_type']` fails with the first key
      that is missing. */
  function PredictionColumns(stats: seq<ColumnStats>, col: string): (r: Result<seq<string>, Error>)
    ensures r.Err? <==> Find(stats, col).None? || Find(stats, col).value.typing.None?
                        || Find(stats, col).value.typing.value.dataType.None?
    ensures Find(stats, col).None? ==> r == Err(KeyError(col))
    ensures Find(stats, col).Some? && Find(stats, col).value.typing.None? ==> r == Err(KeyError("typing"))
    ensures (Find(stats, col).Some? && Find(stats, col).value.typing.Some?
             && Find(stats, col).value.typing.value.dataType.None?) ==> r == Err(KeyError("data_type"))
    ensures r.Ok? ==>
      var numeric := Find(stats, col).value.typing.value.dataType == Some("Numeric");
      |r.value| == (if numeric then 4 else 2)
      && r.value[0] == Column(col, "_confidence", "float8")
      && r.value[|r.value| - 1] == Column(col, "_explain", "text")
      && (numeric ==> r.value[1] == Column(col, "_min", "float8") && r.value[2] == Column(col, "_max", "float8"))
  {
    match Find(stats, col)
    case None => Err(KeyError(col))
    case Some(c) =>
      match c.typing
      case None => Err(KeyError("typing"))
      case Some(typing) =>
        match typing.dataType
        case None => Err(KeyError("data_type"))
        case Some(dataType) =>
          Ok([Column(col, "_confidence", "float8")]
             + (if dataType == "Numeric" then [Column(col, "_min", "float8"), Column(col, "_max", "float8")] else [])
             + [Column(col, "_explain", "text")])
  }

  /** The columns all predicted columns add, in the order of `predict`; the
      first failing lookup is the error. */
  function PredictionsColumns(stats: seq<ColumnStats>, predict: seq<string>): Result<seq<string>, Error>
  {
    if predict == [] then Ok([])
    else
      match PredictionsColumns(stats, predict[..|predict| - 1])
      case Err(e) => Err(e)
      case Ok(before) =>
        match PredictionColumns(stats, predict[|predict| - 1])
        case Err(e) => Err(e)
        case Ok(these) => Ok(before + these)
  }

  /** Every entry of a model table's column list, in order. */
  function ColumnEntries(m: ModelMeta): Result<seq<string>, Error>
  {
    match PredictionsColumns(m.dataAnalysis, m.predict)
    case Err(e) => Err(e)
    case Ok(predictions) => Ok(Declarations(m.dataAnalysis, m.predict) + FixedColumns + predictions)
  }

  /** Total length of `parts`. */
  function TotalLength(parts: seq<string>): nat
  {
    if parts == [] then 0 else TotalLength(parts[..|parts| - 1]) + |parts[|parts| - 1]|
  }

  /** `sep.join(parts)`: the parts with one separator between each two. */
  function Join(sep: string, parts: seq<string>): (r: string)
    ensures parts != [] ==> |parts[|parts| - 1]| <= |r| && r[|r| - |parts[|parts| - 1]|..] == parts[|parts| - 1]
  {
    if parts == [] then ""
    else if |parts| == 1 then parts[0]
    else Join(sep, parts[..|parts| - 1]) + sep + parts[|parts| - 1]
  }

  /** Each part preceded by a comma, as the source appends `',' + entry`. */
  function CommaPrefixed(parts: seq<string>): (r: string)
    ensures |r| == TotalLength(parts) + |parts|
  {
    if parts == [] then "" else CommaPrefixed(parts[..|parts| - 1]) + "," + parts[|parts| - 1]
  }

  /** `columns_sql` as the source builds it: the joined declarations, then
      every further entry with a comma in front, whether or not any
      declaration came before. */
  function ColumnsSqlAsWritten(decls: seq<string>, extras: seq<string>): (r: string)
    ensures |r| == |Join(",", decls + extras)| + (if decls == [] && extras != [] then 1 else 0)
  {
    TotalLengthAppend(decls, extras);
    JoinLength(decls);
    JoinLength(decls + extras);
    assert decls == [] ==> decls + extras == extras;
    Join(",", decls) + CommaPrefixed(extras)
  }

  /** The comma-join is as long as the parts, plus one comma between each two. */
  lemma {:induction false} JoinLength(parts: seq<string>)
    ensures |Join(",", parts)| == if parts == [] then 0 else TotalLength(parts) + |parts| - 1
  {
    if |parts| > 1 {
      JoinLength(parts[..|parts| - 1]);
    }
  }

  lemma {:induction false} TotalLengthAppend(a: seq<string>, b: seq<string>)
    ensures TotalLength(a + b) == TotalLength(a) + TotalLength(b)
  {
    if b == [] {
      assert a + b == a;
    } else {
      var init := b[..|b| - 1];
      TotalLengthAppend(a, init);
      assert (a + b)[..|a + b| - 1] == a + init;
    }
  }

  lemma JoinSnoc(sep: string, parts: seq<string>, last: string)
    requires parts != []
    ensures Join(sep, parts + [last]) == Join(sep, parts) + sep + last
  {
    assert (parts + [last])[..|parts|] == parts;
  }

  lemma {:induction false} JoinFirst(sep: string, parts: seq<string>)
    requires parts != [] && parts[0] != []
    ensures Join(sep, parts) != [] && Join(sep, parts)[0] == parts[0][0]
  {
    if |parts| > 1 {
      JoinFirst(sep, parts[..|parts| - 1]);
    }
  }

  lemma {:induction false} JoinThenPrefixed(decls: seq<string>, extras: seq<string>)
    requires decls != []
    ensures Join(",", decls) + CommaPrefixed(extras) == Join(",", decls + extras)
  {
    if extras == [] {
      assert decls + extras == decls;
    } else {
      var init, last := extras[..|extras| - 1], extras[|extras| - 1];
      assert extras == init + [last];
      CommaPrefixedSnoc(init, last);
      JoinThenPrefixed(decls, init);
      JoinSnoc(",", decls + init, last);
      AppendAssoc(decls, init, [last]);
      AppendAssoc(Join(",", decls), CommaPrefixed(init) + ",", last);
      AppendAssoc(Join(",", decls), CommaPrefixed(init), ",");
    }
  }

  /** When some column has a type, the source's string is the comma-join of
      all entries. */
  lemma AsWrittenAgreesWhenMapped(decls: seq<string>, extras: seq<string>)
    requires decls != []
    ensures ColumnsSqlAsWritten(decls, extras) == Join(",", decls + extras)
  {
    JoinThenPrefixed(decls, extras);
  }

  /** When no column has a type, the source's string starts with a comma: the
      column list of the CREATE statement opens with an empty entry. */
  lemma AsWrittenLeadingComma(stats: seq<ColumnStats>, predict: seq<string>, extras: seq<string>)
    requires MappedCount(stats) == 0 && extras != []
    ensures var sql := ColumnsSqlAsWritten(Declarations(stats, predict), extras);
            sql != [] && sql[0] == ','
  {
    NoDeclarationsIffNoneMapped(stats, predict);
    var init := extras[..|extras| - 1];
    assert CommaPrefixed(extras) == CommaPrefixed(init) + "," + extras[|extras| - 1];
    CommaPrefixedFirst(init);
  }

  lemma {:induction false} CommaPrefixedFirst(parts: seq<string>)
    ensures parts != [] ==> CommaPrefixed(parts) != [] && CommaPrefixed(parts)[0] == ','
  {
    if parts != [] {
      CommaPrefixedFirst(parts[..|parts| - 1]);
    }
  }

  /** The corrected column list always starts with a column of its own: a
      declaration (which starts with a space) or a fixed column (which starts
      with a quote), never a comma. */
  lemma ColumnListStartsWithColumn(m: ModelMeta)
    requires ColumnEntries(m).Ok?
    ensures var sql := Join(",", ColumnEntries(m).value);
            sql != [] && (sql[0] == ' ' || sql[0] == '"')
  {
    var decls := Declarations(m.dataAnalysis, m.predict);
    var es := ColumnEntries(m).value;
    if decls == [] {
      assert es[0] == FixedColumns[0];
    } else {
      var i :| 0 <= i < |m.dataAnalysis| && ColumnDecls(m.dataAnalysis[i], m.predict) != [] by {
        FirstDeclarationHasColumn(m.dataAnalysis, m.predict);
      }
      FirstDeclarationIsDeclaration(m.dataAnalysis, m.predict);
      assert es[0] == decls[0];
    }
    JoinFirst(",", es);
  }

  lemma {:induction false} FirstDeclarationHasColumn(stats: seq<ColumnStats>, predicted: seq<string>)
    requires Declarations(stats, predicted) != []
    ensures exists i :: 0 <= i < |stats| && ColumnDecls(stats[i], predicted) != []
  {
    var init := stats[..|stats| - 1];
    if ColumnDecls(stats[|stats| - 1], predicted) == [] {
      FirstDeclarationHasColumn(init, predicted);
      var i :| 0 <= i < |init| && ColumnDecls(init[i], predicted) != [];
      assert stats[i] == init[i];
    }
  }

  lemma {:induction false} FirstDeclarationIsDeclaration(stats: seq<ColumnStats>, predicted: seq<string>)
    requires Declarations(stats, predicted) != []
    ensures Declarations(stats, predicted)[0] != [] && Declarations(stats, predicted)[0][0] == ' '
  {
    var init := stats[..|stats| - 1];
    if Declarations(init, predicted) != [] {
      FirstDeclarationIsDeclaration(init, predicted);
    }
  }

  /** Once the lookup for some predicted column fails, the columns after it
      change nothing: that first failure is the result. */
  lemma {:induction false} FailurePersists(stats: seq<ColumnStats>, predict: seq<string>, k: nat)
    requires k <= |predict| && PredictionsColumns(stats, predict[..k]).Err?
    ensures PredictionsColumns(stats, predict) == PredictionsColumns(stats, predict[..k])
  {
    if k < |predict| {
      var init := predict[..|predict| - 1];
      assert init[..k] == predict[..k];
      FailurePersists(stats, init, k);
    } else {
      assert predict[..k] == predict;
    }
  }

  /** Building the prediction columns fails exactly when some predicted
      column cannot be looked up, and the error is that of the first such
      column. */
  lemma {:induction false} PredictionsColumnsFailure(stats: seq<ColumnStats>, predict: seq<string>)
    ensures PredictionsColumns(stats, predict).Err?
        <==> exists i :: 0 <= i < |predict| && PredictionColumns(stats, predict[i]).Err?
    ensures PredictionsColumns(stats, predict).Err? ==>
      exists i :: 0 <= i < |predict| && PredictionColumns(stats, predict[i]) == PredictionsColumns(stats, predict)
        && forall j :: 0 <= j < i ==> PredictionColumns(stats, predict[j]).Ok?
  {
    if predict != [] {
      var init, last := predict[..|predict| - 1], predict[|predict| - 1];
      PredictionsColumnsFailure(stats, init);
      assert forall i :: 0 <= i < |init| ==> init[i] == predict[i];
    }
  }

  /** Each predicted column adds two columns, or four when it is numeric. */
  lemma {:induction false} PredictionsColumnsLength(stats: seq<ColumnStats>, predict: seq<string>)
    requires PredictionsColumns(stats, predict).Ok?
    ensures 2 * |predict| <= |PredictionsColumns(stats, predict).value| <= 4 * |predict|
  {
    if predict != [] {
      PredictionsColumnsLength(stats, predict[..|predict| - 1]);
    }
  }

  /** The column list of the model's table, built as `register_predictors`
      builds `columns_sql`, except that the comma before the fixed columns is
      written only when some declaration precedes it. */
  method ColumnsSql(m: ModelMeta) returns (r: Result<string, Error>)
    ensures r.Ok? <==> ColumnEntries(m).Ok?
    ensures r.Ok? ==> r.value == Join(",", ColumnEntries(m).value)
    ensures r.Err? ==> r.error == ColumnEntries(m).error
  {
    var stats := m.dataAnalysis;
    var decls := ToPostgresTable(stats, m.predict);
    var sql := Join(",", decls);
    if decls != [] {
      sql := sql + ",";
    }
    sql := sql + FixedColumns[0];
    sql := sql + "," + FixedColumns[1];
    FixedColumnsJoined(decls);
    ghost var head := sql;
    assert m.predict[..0] == [];
    assert PredictionsColumns(stats, m.predict[..0]) == Ok([]);
    assert sql == head + CommaPrefixed([]);
    for i := 0 to |m.predict|
      invariant PredictionsColumns(stats, m.predict[..i]).Ok?
      invariant sql == head + CommaPrefixed(PredictionsColumns(stats, m.predict[..i]).value)
    {
      var col := m.predict[i];
      var next := AppendPredictionColumns(stats, col, sql);
      PredictionsPrefixStep(stats, m.predict, i);
      if next.Err? {
        return Err(next.error);
      }
      SqlStep(head, sql, PredictionsColumns(stats, m.predict[..i]).value, PredictionColumns(stats, col).value);
      sql := next.value;
    }
    assert m.predict[..|m.predict|] == m.predict;
    JoinThenPrefixed(decls + FixedColumns, PredictionsColumns(stats, m.predict).value);
    return Ok(sql);
  }

  /** One pass of the loop over `predict`: appends `_confidence`, then `_min`
      and `_max` for a numeric column, then `_explain`, each after a comma,
      or fails where the lookup of the column, its typing or its data type
      fails. */
  method AppendPredictionColumns(stats: seq<ColumnStats>, col: string, sql: string) returns (r: Result<string, Error>)
    ensures r.Ok? <==> PredictionColumns(stats, col).Ok?
    ensures r.Ok? ==> r.value == sql + CommaPrefixed(PredictionColumns(stats, col).value)
    ensures r.Err? ==> r.error == PredictionColumns(stats, col).error
  {
    var s := sql;
    ghost var added: seq<string> := [];
    var entry := Column(col, "_confidence", "float8");
    AppendStep(sql, s, added, entry);
    s := s + "," + entry;
    added := added + [entry];
    var c := Find(stats, col);
    if c.None? {
      return Err(KeyError(col));
    }
    var typing := c.value.typing;
    if typing.None? {
      return Err(KeyError("typing"));
    }
    var dataType := typing.value.dataType;
    if dataType.None? {
      return Err(KeyError("data_type"));
    }
    if dataType.value == "Numeric" {
      entry := Column(col, "_min", "float8");
      AppendStep(sql, s, added, entry);
      s := s + "," + entry;
      added := added + [entry];
      entry := Column(col, "_max", "float8");
      AppendStep(sql, s, added, entry);
      s := s + "," + entry;
      added := added + [entry];
    }
    entry := Column(col, "_explain", "text");
    AppendStep(sql, s, added, entry);
    s := s + "," + entry;
    added := added + [entry];
    assert added == [Column(col, "_confidence", "float8")]
      + (if dataType.value == "Numeric" then [Column(col, "_min", "float8"), Column(col, "_max", "float8")] else [])
      + [Column(col, "_explain", "text")];
    return Ok(s);
  }

  /** The two fixed columns, after the joined declarations and a comma when
      there are any, are the join of the declarations and the fixed columns. */
  lemma FixedColumnsJoined(decls: seq<string>)
    ensures (if decls != [] then Join(",", decls) + "," else "") + FixedColumns[0] + "," + FixedColumns[1]
         == Join(",", decls + FixedColumns)
  {
    if decls != [] {
      JoinSnoc(",", decls, FixedColumns[0]);
      JoinSnoc(",", decls + [FixedColumns[0]], FixedColumns[1]);
      assert decls + [FixedColumns[0]] + [FixedColumns[1]] == decls + FixedColumns;
    } else {
      assert decls + FixedColumns == FixedColumns;
      assert FixedColumns[..1] == [FixedColumns[0]];
    }
  }

  /** Bookkeeping for one `columns_sql += ',' + entry`. */
  lemma AppendStep(before: string, sql: string, added: seq<string>, entry: string)
    requires sql == before + CommaPrefixed(added)
    ensures sql + "," + entry == before + CommaPrefixed(added + [entry])
  {
    CommaPrefixedSnoc(added, entry);
  }

  lemma CommaPrefixedSnoc(parts: seq<string>, entry: string)
    ensures CommaPrefixed(parts + [entry]) == CommaPrefixed(parts) + "," + entry
  {
    assert (parts + [entry])[..|parts|] == parts;
  }

  lemma {:induction false} CommaPrefixedAppend(a: seq<string>, b: seq<string>)
    ensures CommaPrefixed(a + b) == CommaPrefixed(a) + CommaPrefixed(b)
  {
    if b == [] {
      assert a + b == a;
    } else {
      var init, last := b[..|b| - 1], b[|b| - 1];
      calc {
        CommaPrefixed(a + b);
        { assert a + b == (a + init) + [last]; }
        CommaPrefixed((a + init) + [last]);
        { CommaPrefixedSnoc(a + init, last); }
        CommaPrefixed(a + init) + "," + last;
        { CommaPrefixedAppend(a, init); }
        (CommaPrefixed(a) + CommaPrefixed(init)) + "," + last;
        CommaPrefixed(a) + (CommaPrefixed(init) + "," + last);
        { CommaPrefixedSnoc(init, last); assert init + [last] == b; }
        CommaPrefixed(a) + CommaPrefixed(b);
      }
    }
  }


  /** Step of `PredictionsColumns` at position `i` of `predict`, once the
      columns before it have succeeded: either the column at `i` fails and
      its error is the result, or its columns extend the prefix's. */
  lemma PredictionsPrefixStep(stats: seq<ColumnStats>, predict: seq<string>, i: nat)
    requires i < |predict| && PredictionsColumns(stats, predict[..i]).Ok?
    ensures PredictionColumns(stats, predict[i]).Err? ==>
      PredictionsColumns(stats, predict) == Err(PredictionColumns(stats, predict[i]).error)
    ensures PredictionColumns(stats, predict[i]).Ok? ==>
      PredictionsColumns(stats, predict[..i + 1])
      == Ok(PredictionsColumns(stats, predict[..i]).value + PredictionColumns(stats, predict[i]).value)
  {
    assert predict[..i + 1][..i] == predict[..i];
    assert predict[..i + 1][i] == predict[i];
    if PredictionColumns(stats, predict[i]).Err? {
      FailurePersists(stats, predict, i + 1);
    }
  }

  /** Bookkeeping for one pass of the loop over `predict`. */
  lemma SqlStep(head: string, sql: string, prev: seq<string>, these: seq<string>)
    requires sql == head + CommaPrefixed(prev)
    ensures sql + CommaPrefixed(these) == head + CommaPrefixed(prev + these)
  {
    CommaPrefixedAppend(prev, these);
  }


  const CreatePrefix: string := "CREATE FOREIGN TABLE mindsdb."
  const DropPrefix: string := "DROP FOREIGN TABLE IF EXISTS mindsdb."

  /** The statement `register_predictors` issues for model `name`. */
  function CreateStatement(name: string, columnsSql: string): (r: string)
    ensures |r| > |CreatePrefix| && r[..|CreatePrefix|] == CreatePrefix
    ensures r[|r| - 3..] == "');"
  {
    CreatePrefix + EscapeTableName(name) + CreateTail(name, columnsSql)
  }

  /** What follows the table identifier in the CREATE statement. */
  function CreateTail(name: string, columnsSql: string): string
  {
    " (" + columnsSql + ") SERVER mindsdb_server OPTIONS (dbname 'mindsdb', " + RemoteTableOption(name)
  }

  /** The remote table option, which carries the name unescaped. */
  function RemoteTableOption(name: string): string
  {
    "table_name '" + name + "');"
  }

  /** The statement `unregister_predictor` issues for model `name`. */
  function DropStatement(name: string): (r: string)
    ensures |r| == |DropPrefix| + |name| + QuoteCount(name) + 3
    ensures r[..|DropPrefix|] == DropPrefix && r[|r| - 1] == ';'
  {
    DropPrefix + EscapeTableName(name) + ";"
  }

  /** The table a statement that starts with `prefix` names, read as an SQL
      lexer reads a delimited identifier. */
  function TargetTable(prefix: string, q: string): Option<string>
  {
    if |q| >= |prefix| && q[..|prefix|] == prefix then
      match ReadDelimitedIdentifier(q[|prefix|..])
      case None => None
      case Some((id, _)) => Some(id)
    else None
  }

  lemma TargetOfEscaped(prefix: string, name: string, rest: string)
    requires rest == [] || rest[0] != Quote
    ensures TargetTable(prefix, prefix + EscapeTableName(name) + rest) == Some(name)
  {
    var q := prefix + EscapeTableName(name) + rest;
    assert q[..|prefix|] == prefix;
    assert q[|prefix|..] == EscapeTableName(name) + rest;
    ReadEscapedName(name, rest);
  }

  /** The CREATE statement names exactly the model's table in schema
      `mindsdb`, whatever the name holds, and the remote table is the raw
      name. */
  lemma CreateStatementTarget(name: string, columnsSql: string)
    ensures TargetTable(CreatePrefix, CreateStatement(name, columnsSql)) == Some(name)
    ensures var q := CreateStatement(name, columnsSql);
            var remote := "table_name '" + name + "');";
            |q| >= |remote| && q[|q| - |remote|..] == remote
  {
    var tail := CreateTail(name, columnsSql);
    assert tail[0] == ' ';
    TargetOfEscaped(CreatePrefix, name, tail);
    var q := CreateStatement(name, columnsSql);
    var remote := RemoteTableOption(name);
    var front := CreatePrefix + EscapeTableName(name);
    var options := " (" + columnsSql + ") SERVER mindsdb_server OPTIONS (dbname 'mindsdb', ";
    assert tail == options + remote;
    AppendAssoc(front, options, remote);
    ThreeParts(front, options, remote);
  }

  /** The DROP statement names exactly the model's table. */
  lemma DropStatementTarget(name: string)
    ensures TargetTable(DropPrefix, DropStatement(name)) == Some(name)
  {
    TargetOfEscaped(DropPrefix, name, ";");
  }

  /** Dropping a model removes the table registering it created, and no
      other model's table. */
  lemma DropMatchesCreate(name: string, other: string, columnsSql: string)
    ensures TargetTable(DropPrefix, DropStatement(other)) == TargetTable(CreatePrefix, CreateStatement(name, columnsSql))
        <==> other == name
  {
    CreateStatementTarget(name, columnsSql);
    DropStatementTarget(other);
  }

  /** The statement registering `m`, or the error that stops it. */
  function CreateStatementFor(m: ModelMeta): (r: Result<string, Error>)
    ensures r.Ok? ==> TargetTable(CreatePrefix, r.value) == Some(m.name)
  {
    match ColumnEntries(m)
    case Err(e) => Err(e)
    case Ok(entries) =>
      CreateStatementTarget(m.name, Join(",", entries));
      Ok(CreateStatement(m.name, Join(",", entries)))
  }

  /** Registering a model fails exactly when the lookup of one of its
      predicted columns fails, and with the error of that lookup. */
  lemma CreateStatementForFailure(m: ModelMeta)
    ensures CreateStatementFor(m).Err?
        <==> exists i :: 0 <= i < |m.predict| && PredictionColumns(m.dataAnalysis, m.predict[i]).Err?
    ensures CreateStatementFor(m).Err? ==>
      exists i :: 0 <= i < |m.predict| && PredictionColumns(m.dataAnalysis, m.predict[i]) == Err(CreateStatementFor(m).error)
  {
    PredictionsColumnsFailure(m.dataAnalysis, m.predict);
  }

  /** The outcome of `ColumnsSql` decides the statement registering `m`. */
  lemma StatementOfColumns(m: ModelMeta, columnsSql: Result<string, Error>)
    requires columnsSql.Ok? <==> ColumnEntries(m).Ok?
    requires columnsSql.Ok? ==> columnsSql.value == Join(",", ColumnEntries(m).value)
    requires columnsSql.Err? ==> columnsSql.error == ColumnEntries(m).error
    ensures columnsSql.Ok? ==> CreateStatementFor(m) == Ok(CreateStatement(m.name, columnsSql.value))
    ensures columnsSql.Err? ==> CreateStatementFor(m) == Err(columnsSql.error)
  {
  }

  /** `register_predictors`: the statements issued, one per model in order,
      up to the first model whose column list fails; the statements already
      issued stand. */
  method RegisterPredictors(models: seq<ModelMeta>) returns (issued: seq<string>, failure: Option<Error>)
    ensures |issued| <= |models|
    ensures forall i :: 0 <= i < |issued| ==> CreateStatementFor(models[i]) == Ok(issued[i])
    ensures failure.None? <==> |issued| == |models|
    ensures failure.Some? ==> CreateStatementFor(models[|issued|]) == Err(failure.value)
  {
    issued, failure := [], None;
    for i := 0 to |models|
      invariant |issued| == i
      invariant forall j :: 0 <= j < i ==> CreateStatementFor(models[j]) == Ok(issued[j])
    {
      var m := models[i];
      var columnsSql := ColumnsSql(m);
      StatementOfColumns(m, columnsSql);
      if columnsSql.Err? {
        failure := Some(columnsSql.error);
        return;
      }
      issued := issued + [CreateStatement(m.name, columnsSql.value)];
    }
  }

  /** A numeric integer column `y` that is predicted gets `y` and
      `y_original` as int8, the two fixed columns, and `y_confidence`,
      `y_min`, `y_max` (float8) and `y_explain` (text). */
  lemma NumericPredictionExample()
    ensures ColumnEntries(ModelMeta("m", [ColumnStats("y", Some(Typing(Known(Int), Some("Numeric"))))], ["y"]))
         == Ok([" \"y\"  int8 ", " \"y_original\"  int8 ",
                "\"select_data_query\" text", "\"external_datasource\" text",
                "\"y_confidence\" float8", "\"y_min\" float8", "\"y_max\" float8", "\"y_explain\" text"])
  {
    var stats := [ColumnStats("y", Some(Typing(Known(Int), Some("Numeric"))))];
    var decls := [" \"y\"  int8 ", " \"y_original\"  int8 "];
    var predictions := ["\"y_confidence\" float8", "\"y_min\" float8", "\"y_max\" float8", "\"y_explain\" text"];
    ExampleDeclarations(stats, decls);
    ExamplePredictions(stats, predictions);
    assert decls + FixedColumns + predictions
        == [" \"y\"  int8 ", " \"y_original\"  int8 ",
            "\"select_data_query\" text", "\"external_datasource\" text",
            "\"y_confidence\" float8", "\"y_min\" float8", "\"y_max\" float8", "\"y_explain\" text"];
  }

  lemma ExampleDeclarations(stats: seq<ColumnStats>, decls: seq<string>)
    requires stats == [ColumnStats("y", Some(Typing(Known(Int), Some("Numeric"))))]
    requires decls == [" \"y\"  int8 ", " \"y_original\"  int8 "]
    ensures Declarations(stats, ["y"]) == decls
  {
    var c, t := stats[0], " int8";
    assert PostgresType(ColumnSubtype(c)) == Some(t) by {
      SubtypeMapValues(Int);
    }
    assert ColumnDecls(c, ["y"]) == [Declaration("y", t), OriginalDeclaration("y", t)];
    assert stats[..0] == [];
    ExampleDeclarationTexts();
  }

  lemma ExampleDeclarationTexts()
    ensures Declaration("y", " int8") == " \"y\"  int8 "
    ensures OriginalDeclaration("y", " int8") == " \"y_original\"  int8 "
  {
  }

  lemma ExamplePredictions(stats: seq<ColumnStats>, predictions: seq<string>)
    requires stats == [ColumnStats("y", Some(Typing(Known(Int), Some("Numeric"))))]
    requires predictions == ["\"y_confidence\" float8", "\"y_min\" float8", "\"y_max\" float8", "\"y_explain\" text"]
    ensures PredictionsColumns(stats, ["y"]) == Ok(predictions)
  {
    assert Find(stats, "y") == Some(stats[0]);
    assert Column("y", "_confidence", "float8") == predictions[0];
    assert Column("y", "_min", "float8") == predictions[1];
    assert Column("y", "_max", "float8") == predictions[2];
    assert Column("y", "_explain", "text") == predictions[3];
    assert [predictions[0]] + [predictions[1], predictions[2]] + [predictions[3]] == predictions;
    assert PredictionColumns(stats, "y") == Ok(predictions);
    assert ["y"][..0] == [];
    assert [] + predictions == predictions;
  }
}
