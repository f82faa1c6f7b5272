# PostgreSQL predictor-table DDL, modelled in Dafny

The PostgreSQL integration of MindsDB publishes every trained predictor as a
foreign table in schema `mindsdb` of a PostgreSQL server, through the
`mysql_fdw` foreign-data wrapper. Apart from the database plumbing, its logic is
string building. This project models that part and proves what it promises:

- **Identifier escaping** (`_escape_table_name`). A model name becomes an SQL
  delimited identifier, as section 5.2 of ISO/IEC 9075-2 (SQL:2011) defines
  `<delimited identifier>`: each embedded `"` is doubled and the result is
  wrapped in `"`. Module `Identifier` proves the length and shape of the
  result and the round trip. It also proves that the escaped names are exactly
  the well-formed delimited identifiers. Finally, it models how an SQL lexer
  reads a delimited identifier (`ReadDelimitedIdentifier`) and proves that
  this lexer reads back exactly the model name, whatever the name contains.
  The lexer has no identifier length limit and accepts an empty identifier;
  PostgreSQL has both limits (see "## Left out").
- **Subtype-to-type mapping** (`subtype_map`). Module `SubtypeMap` holds the
  fixed table from the 13 data subtypes to PostgreSQL types. The integer type
  keeps its leading space (`' int8'`), as the source writes it.
- **Column declarations** (`_to_postgres_table`). Module `ColumnDeclarations`
  has the loop as a method, proved against a specification function. A column
  whose subtype has no type is skipped, and the columns after it still count.
- **Column list and statements** (`register_predictors`,
  `unregister_predictor`). Module `ForeignTable` covers:
  - the `columns_sql` loop, which appends the two fixed columns and the
    per-prediction columns;
  - the `CREATE FOREIGN TABLE` and `DROP FOREIGN TABLE IF EXISTS` statements;
  - the loop over models. It stops at the first model whose column list
    fails, and the statements issued before that stay issued.

Module `Metadata` holds the input types. `data_analysis` is a sequence of
entries in dictionary order. Each entry has a `typing` entry or none. A
`typing` entry has a `data_subtype` (one of the 13 known subtypes, an unknown
value, or absent) and a `data_type` (a string or absent). Module `Sequences` holds small facts
about concatenation. Module `Wrappers` holds `Option` and `Result`.

The model follows the code where it is explicit:
- The declaration of an integer column is ` "y"  int8 ` (two spaces), not `y int8`.
- `predict` is a list that the code walks in order, not a set.
- The lookups the code performs fail with the key it lacks: `KeyError(col)`,
  `KeyError('typing')` or `KeyError('data_type')`.

Two inputs make the code raise or build invalid SQL, although the code itself
shows that it means to carry on. The try/except at lines 31-38 logs a column
it cannot type and goes on to the next one, and the table is still created
without the skipped columns (see "## Left out" and "## Findings"). On these two inputs,
`ColumnDeclarations.ToPostgresTable`, `ForeignTable.ColumnsSql` and
`ForeignTable.RegisterPredictors` implement the corrected behaviour.
`ColumnDeclarations.DeclarationsAsWritten` and
`ForeignTable.ColumnsSqlAsWritten` model the code as written.

## Model

| member | source | states |
|---|---|---|
| `Identifier.DoubleQuotes` | mindsdb/integrations/postgres/postgres.py:43 | `name.replace('"', '""')` lengthens the name by one character per double quote |
| `Identifier.EscapeTableName` | mindsdb/integrations/postgres/postgres.py:42-43 | the escaped name starts and ends with `"` and has length `len(name) + 2 + (number of quotes in name)` |
| `Identifier.EscapeRoundTrip` | mindsdb/integrations/postgres/postgres.py:43 | stripping the outer quotes and replacing each `""` by `"` gives back the original name |
| `Identifier.EscapeInjective` | mindsdb/integrations/postgres/postgres.py:43 | two names have the same escaped identifier if and only if they are equal |
| `Identifier.UndoubleQuotes` | mindsdb/integrations/postgres/postgres.py:43 | the inverse of the doubling never lengthens a string and leaves a string without quotes unchanged; `Identifier.UndoubleDoubled` proves that it undoes `DoubleQuotes` |
| `Identifier.Unescape` | mindsdb/integrations/postgres/postgres.py:42-43 | the inverse of the escaping is defined exactly on strings wrapped in quotes, gives a name at least two characters shorter, and gives back the interior unchanged when the interior has no quotes |
| `Identifier.EscapedIsDelimited` | mindsdb/integrations/postgres/postgres.py:43 | inside the outer quotes every `"` is one of an adjacent pair, so no lone quote can close the identifier early |
| `Identifier.DelimitedIsEscaped` | mindsdb/integrations/postgres/postgres.py:43 | every quoted string whose interior quotes are paired is the escape of the name it unescapes to |
| `Identifier.EscapedIffDelimited` | mindsdb/integrations/postgres/postgres.py:43 | a string is some name's escape if and only if it is quoted with paired interior quotes |
| `Identifier.ReadEscapedName` | mindsdb/integrations/postgres/postgres.py:43 | an SQL lexer reading the escaped name followed by any text that does not start with a quote reads exactly the name and leaves that text untouched |
| `Identifier.EscapeExample` | mindsdb/integrations/postgres/postgres.py:43 | `a"b` escapes to `"a""b"` |
| `SubtypeMap.PostgresType` | mindsdb/integrations/postgres/postgres.py:13-33 | the map lookup yields a type if and only if the subtype is one of the 13 known ones, and the type is never empty |
| `SubtypeMap.SubtypeMapComplete` | mindsdb/integrations/postgres/postgres.py:13-27 | every one of the 13 subtypes is in the map with a non-empty type |
| `SubtypeMap.SubtypeMapValues` | mindsdb/integrations/postgres/postgres.py:13-27 | INT maps to `' int8'`, FLOAT to `float8`, BINARY to `bool`, DATE to `date`, TIMESTAMP to `timestamp`; a subtype maps to `text` if and only if it is one of the other eight |
| `Metadata.Find` | mindsdb/integrations/postgres/postgres.py:141 | the lookup `data_analysis[col]` finds an entry if and only if some entry is named `col`, and the entry it finds has that name |
| `ColumnDeclarations.ToPostgresTable` | mindsdb/integrations/postgres/postgres.py:29-40 | the loop returns exactly `Declarations`: each column in `stats` order, skipping columns without a type. This is the corrected behaviour: a first column without `typing` is skipped, where the source raises `UnboundLocalError` (Findings row 1) |
| `ColumnDeclarations.DeclarationsAppend` | mindsdb/integrations/postgres/postgres.py:30-39 | the declarations of two runs of columns are those of the first run followed by those of the second |
| `ColumnDeclarations.DeclarationsSplit` | mindsdb/integrations/postgres/postgres.py:30-39 | at any column, the declarations are those of the columns before it, then the column's own, then those of the columns after it; a skipped column does not stop the loop |
| `ColumnDeclarations.ColumnDeclarationAt` | mindsdb/integrations/postgres/postgres.py:33-36 | a column with a type gives exactly one ` "name" type ` at its position, followed immediately by ` "name_original" type ` of the same type when it is predicted; a column without a type adds nothing |
| `ColumnDeclarations.DeclarationsLength` | mindsdb/integrations/postgres/postgres.py:29-40 | the number of declarations is the number of columns with a type plus the number of those that are predicted |
| `ColumnDeclarations.PredictedAmongMapped` | mindsdb/integrations/postgres/postgres.py:35-36 | at most one `_original` declaration per column with a type |
| `ColumnDeclarations.NoDeclarationsIffNoneMapped` | mindsdb/integrations/postgres/postgres.py:29-40 | the declaration list is empty if and only if no column has a type |
| `ColumnDeclarations.DeclarationsAsWritten` | mindsdb/integrations/postgres/postgres.py:29-40 | the function as written: the only exception that escapes it is `UnboundLocalError` on `col_subtype`, and only when no earlier column bound `col_subtype` and the first column has no subtype |
| `ColumnDeclarations.AsWrittenFailsOnFirstColumn` | mindsdb/integrations/postgres/postgres.py:31-38 | the function as written raises if and only if the first column has no subtype at all; otherwise it returns the declarations of the corrected loop |
| `ColumnDeclarations.AbsentFirstColumnExample` | mindsdb/integrations/postgres/postgres.py:32-38 | a single column without typing makes the source raise `UnboundLocalError`, while the corrected loop skips it |
| `ForeignTable.PredictionColumns` | mindsdb/integrations/postgres/postgres.py:139-144 | a predicted column adds `_confidence float8` first and `_explain text` last, with `_min` and `_max float8` between them if and only if its data type is `Numeric`. A missing column, `typing` entry or `data_type` key is a `KeyError` naming that key, checked in that order |
| `ForeignTable.PredictionsColumnsFailure` | mindsdb/integrations/postgres/postgres.py:139-141 | building the prediction columns fails if and only if some predicted column's lookup fails, and the error is that of the first such column |
| `ForeignTable.FailurePersists` | mindsdb/integrations/postgres/postgres.py:139-141 | once a lookup fails, the later predicted columns do not change the outcome |
| `ForeignTable.PredictionsColumnsLength` | mindsdb/integrations/postgres/postgres.py:139-144 | each predicted column adds between two and four entries |
| `ForeignTable.AppendPredictionColumns` | mindsdb/integrations/postgres/postgres.py:140-144 | one pass of the loop over `predict` appends, each after a comma, exactly the columns of that prediction, or fails with the same `KeyError` as their lookup (column, `typing` or `data_type`) |
| `ForeignTable.Join` | mindsdb/integrations/postgres/postgres.py:136 | `sep.join(parts)` ends with the last part |
| `ForeignTable.JoinLength` | mindsdb/integrations/postgres/postgres.py:136 | `','.join(parts)` is as long as the parts together plus one comma between each two parts |
| `ForeignTable.ColumnsSqlAsWritten` | mindsdb/integrations/postgres/postgres.py:136-144 | the string the source builds is exactly as long as the comma-join of all entries, except that it is one character longer when no column is mapped |
| `ForeignTable.ColumnsSql` | mindsdb/integrations/postgres/postgres.py:136-144 | `columns_sql` is the comma-join of the mapped declarations, `select_data_query text`, `external_datasource text` and every prediction's columns in order, or the first lookup error. This is the corrected behaviour: with no mapped column there is no leading comma (Findings row 2) |
| `ForeignTable.AsWrittenAgreesWhenMapped` | mindsdb/integrations/postgres/postgres.py:136-138 | when some column has a type, the string the source builds equals the comma-join of all entries |
| `ForeignTable.AsWrittenLeadingComma` | mindsdb/integrations/postgres/postgres.py:136-137 | when no column has a type, the string the source builds starts with a comma |
| `ForeignTable.ColumnListStartsWithColumn` | mindsdb/integrations/postgres/postgres.py:136-137 | the corrected column list starts with a column (a space or a quote), never with a comma |
| `ForeignTable.NumericPredictionExample` | mindsdb/integrations/postgres/postgres.py:136-144 | a predicted numeric INT column `y` yields `y` and `y_original` as int8, the two fixed columns, `y_confidence`, `y_min`, `y_max` as float8, and `y_explain` as text |
| `ForeignTable.CreateStatement` | mindsdb/integrations/postgres/postgres.py:146-152 | the CREATE statement starts with `CREATE FOREIGN TABLE mindsdb.` and ends with the `table_name` option closed by `');` |
| `ForeignTable.DropStatement` | mindsdb/integrations/postgres/postgres.py:156-158 | the DROP statement starts with `DROP FOREIGN TABLE IF EXISTS mindsdb.`, ends with `;`, and is as long as the prefix, the escaped name and the `;` |
| `ForeignTable.CreateStatementFor` | mindsdb/integrations/postgres/postgres.py:133-152 | the statement registering a model names that model's table, as the lexer reads it |
| `ForeignTable.CreateStatementForFailure` | mindsdb/integrations/postgres/postgres.py:136-144 | registering a model fails if and only if the lookup of one of its predicted columns fails, and with that lookup's error |
| `ForeignTable.CreateStatementTarget` | mindsdb/integrations/postgres/postgres.py:146-151 | the CREATE statement names exactly the model's table after `mindsdb.`, and its remote `table_name` option carries the raw name |
| `ForeignTable.DropStatementTarget` | mindsdb/integrations/postgres/postgres.py:155-159 | the DROP statement names exactly the model's table after `mindsdb.` |
| `ForeignTable.DropMatchesCreate` | mindsdb/integrations/postgres/postgres.py:147-157 | as read by a lexer without an identifier length limit, unregistering a model drops the table that registering it created, and no other model's table |
| `ForeignTable.RegisterPredictors` | mindsdb/integrations/postgres/postgres.py:132-153 | one CREATE statement per model, in order, up to the first model whose column list fails; that model's error is reported and the statements already issued stay. Its column lists are the corrected ones of `ForeignTable.ColumnsSql` (Findings row 2) |

## Left out

- `_query` (mindsdb/integrations/postgres/postgres.py:45-68): it opens a pg8000 connection, executes, fetches and commits. This is database I/O through a foreign library. The model produces the statement texts that would be executed.
- `ForeignTable.RegisterPredictors`: a database error raised while executing a statement is not modelled. Only the lookup failures that stop a column list are.
- `setup` (mindsdb/integrations/postgres/postgres.py:70-130): a fixed sequence of DDL statements sent to the server. Whether it is idempotent depends on PostgreSQL's `IF EXISTS` and `CASCADE`, which the model cannot see.
- `check_connection` (mindsdb/integrations/postgres/postgres.py:161-175): a network probe that maps every exception to `False`.
- Execution of the generated DDL, the remote schema state, and concurrent DDL from several callers: these are database behaviour, not code logic.
- The `print` on an unmapped subtype (line 38): only its effect is modelled, which is that the column is skipped.
- Whitespace of the statements: `CreateStatement` and `DropStatement` drop the whitespace at both ends of the statement and inside the parentheses around the column list. They use a single space for the other newlines with indentation, the one before `(` and the one before `OPTIONS`. PostgreSQL ignores this whitespace. So the exact length in `DropStatement`'s contract is that of the statement without the f-string's leading and trailing newline and indentation.
- Values placed inside quoted SQL literals (host, port, credentials, and the raw remote `table_name`) and the column names inside declarations are not escaped by the source. The model keeps them raw and proves nothing about them.
- `DATA_SUBTYPES` lives in `mindsdb_native`, which is not part of this model. Its 13 constants are a datatype here, and any other value is `Unmapped`. This assumes that the 13 constants are distinct values. If two of them were equal, the dictionary literal at lines 13-27 would keep only the later entry, so the source's dictionary would have fewer keys than `SubtypeMap.PostgresTypes`, and the earlier subtype would get the later subtype's type.
- Missing top-level keys of a model (`name`, `data_analysis`, `predict`) are not modelled: `ModelMeta` always has them.
- Metadata.Find: `data_analysis` is a dictionary, so names are unique. The model takes the first entry with the name, which is the only one.

- ColumnDeclarations.ToPostgresTable: skips a first column without `typing`, where the source raises `UnboundLocalError`. This is the corrected behaviour of Findings row 1. `ColumnDeclarations.DeclarationsAsWritten` models the source as written.
- ForeignTable.ColumnsSql: writes no comma before the fixed columns when no column is mapped, where the source writes one. This is the corrected behaviour of Findings row 2. `ForeignTable.ColumnsSqlAsWritten` models the source as written.
- ForeignTable.RegisterPredictors: issues the corrected statements of `ColumnsSql`, so it differs from the source on both Findings inputs.
- Identifier.ReadDelimitedIdentifier: the lexer has no identifier length limit and accepts the empty identifier `""`. PostgreSQL truncates identifiers to 63 bytes and rejects a zero-length delimited identifier. So the results about this lexer do not cover two model names that share their first 63 bytes, or the empty model name, whose CREATE and DROP PostgreSQL rejects.
- ForeignTable.DropMatchesCreate: holds for the lexer above. Under PostgreSQL's 63-byte truncation, unregistering a model whose name shares its first 63 bytes with another model's name drops that other model's table too.

## Findings

| source | as written | input that shows it | evidently intended | confidence | as-written member | corrected member |
|---|---|---|---|---|---|---|
| mindsdb/integrations/postgres/postgres.py:31-38 | when the lookup on line 32 fails, the handler's message reads `col_subtype`; if no earlier column assigned it, `UnboundLocalError` escapes and the whole registration fails | `data_analysis` whose first column has no `typing` entry, e.g. `{"x": {}}` | the column is skipped and logged, like a column with an unmapped subtype | not executed | `ColumnDeclarations.AsWrittenFailsOnFirstColumn` (about `DeclarationsAsWritten`) | `ColumnDeclarations.ToPostgresTable` (with `DeclarationsSplit`) |
| mindsdb/integrations/postgres/postgres.py:136-137 | `','.join([])` is empty, yet line 137 still puts a comma before `"select_data_query" text`, so the column list opens with an empty entry and the CREATE statement is not valid SQL | a model whose every column has an unmapped subtype, e.g. one column `y` of subtype `Quantity` | the comma separates entries only, and the table is created without the unmapped columns | not executed | `ForeignTable.AsWrittenLeadingComma` (about `ColumnsSqlAsWritten`) | `ForeignTable.ColumnsSql` (with `ColumnListStartsWithColumn`) |
