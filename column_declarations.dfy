/** `_to_postgres_table`: one column declaration per analysed column whose
    subtype has a PostgreSQL type, in the order of `data_analysis`, each
    predicted column followed by an `_original` twin of the same type. */
module ColumnDeclarations {
  import opened Wrappers
  import opened Metadata
  import opened SubtypeMap
  import opened Sequences

  /** ` "name" type `, with the spaces the source puts around it. */
  function Declaration(name: string, pgType: string): string
  {
    " \"" + name + "\" " + pgType + " "
  }

  /** ` "name_original" type `. */
  function OriginalDeclaration(name: string, pgType: string): string
  {
    Declaration(name + "_original", pgType)
  }

  /** What one loop iteration appends for column `c`. */
  function ColumnDecls(c: ColumnStats, predicted: seq<string>): seq<string>
  {
    match PostgresType(ColumnSubtype(c))
    case None => []
    case Some(t) =>
      [Declaration(c.name, t)] + (if c.name in predicted then [OriginalDeclaration(c.name, t)] else [])
  }

  /** The declarations for `stats`, each column in turn. */
  function Declarations(stats: seq<ColumnStats>, predicted: seq<string>): seq<string>
  {
    if stats == [] then []
    else Declarations(stats[..|stats| - 1], predicted) + ColumnDecls(stats[|stats| - 1], predicted)
  }

  /** Number of columns whose subtype has a PostgreSQL type. */
  function MappedCount(stats: seq<ColumnStats>): nat
  {
    if stats == [] then 0
    else MappedCount(stats[..|stats| - 1]) + (if PostgresType(ColumnSubtype(stats[|stats| - 1])).Some? then 1 else 0)
  }

  /** Number of those columns that are also predicted. */
  function MappedPredictedCount(stats: seq<ColumnStats>, predicted: seq<string>): nat
  {
    if stats == [] then 0
    else
      var c := stats[|stats| - 1];
      MappedPredictedCount(stats[..|stats| - 1], predicted)
      + (if PostgresType(ColumnSubtype(c)).Some? && c.name in predicted then 1 else 0)
  }

  /** `_to_postgres_table(stats, predicted_cols)`. A column whose subtype has
      no type is skipped and the loop goes on with the next one. */
  method ToPostgresTable(stats: seq<ColumnStats>, predicted: seq<string>) returns (decls: seq<string>)
    ensures decls == Declarations(stats, predicted)
  {
    decls := [];
    for i := 0 to |stats|
      invariant decls == Declarations(stats[..i], predicted)
    {
      var c := stats[i];
      assert stats[..i + 1][..i] == stats[..i];
      var newType := PostgresType(ColumnSubtype(c));
      if newType.Some? {
        decls := decls + [Declaration(c.name, newType.value)];
        if c.name in predicted {
          decls := decls + [OriginalDeclaration(c.name, newType.value)];
        }
      }
    }
    assert stats[..|stats|] == stats;
  }

  lemma DeclarationsSnoc(stats: seq<ColumnStats>, c: ColumnStats, predicted: seq<string>)
    ensures Declarations(stats + [c], predicted) == Declarations(stats, predicted) + ColumnDecls(c, predicted)
  {
    Snoc(stats, c);
  }

  lemma {:induction false} DeclarationsAppend(a: seq<ColumnStats>, b: seq<ColumnStats>, predicted: seq<string>)
    ensures Declarations(a + b, predicted) == Declarations(a, predicted) + Declarations(b, predicted)
  {
    if b == [] {
      assert a + b == a;
    } else {
      var b', last := b[..|b| - 1], b[|b| - 1];
      assert b == b' + [last];
      AppendAssoc(a, b', [last]);
      DeclarationsSnoc(a + b', last, predicted);
      DeclarationsSnoc(b', last, predicted);
      DeclarationsAppend(a, b', predicted);
      AppendAssoc(Declarations(a, predicted), Declarations(b', predicted), ColumnDecls(last, predicted));
    }
  }

  /** The declarations split at any column: those of the columns before it,
      what the column itself adds, and those of the columns after it. So a
      skipped column never stops the columns after it from being declared. */
  lemma {:induction false} DeclarationsSplit(stats: seq<ColumnStats>, predicted: seq<string>, i: nat)
    requires i < |stats|
    ensures Declarations(stats, predicted)
         == Declarations(stats[..i], predicted) + ColumnDecls(stats[i], predicted)
            + Declarations(stats[i + 1..], predicted)
  {
    assert stats == stats[..i] + [stats[i]] + stats[i + 1..];
    DeclarationsAppend(stats[..i] + [stats[i]], stats[i + 1..], predicted);
    DeclarationsAppend(stats[..i], [stats[i]], predicted);
    assert Declarations([stats[i]], predicted) == ColumnDecls(stats[i], predicted) by {
      assert [stats[i]][..0] == [];
    }
  }

  /** A column whose subtype has a type gives its declaration, immediately
      followed by the `_original` twin of the same type when it is predicted
      and by nothing else of its own; a column without a type gives nothing. */
  lemma {:induction false} ColumnDeclarationAt(stats: seq<ColumnStats>, predicted: seq<string>, i: nat)
    requires i < |stats|
    ensures var k := |Declarations(stats[..i], predicted)|;
            var ds := Declarations(stats, predicted);
            var c := stats[i];
            match PostgresType(ColumnSubtype(c))
            case None =>
              ds == Declarations(stats[..i], predicted) + Declarations(stats[i + 1..], predicted)
            case Some(t) =>
              k < |ds| && ds[k] == Declaration(c.name, t)
              && (c.name in predicted ==> k + 1 < |ds| && ds[k + 1] == OriginalDeclaration(c.name, t))
              && ds[..k] == Declarations(stats[..i], predicted)
              && ds[k + (if c.name in predicted then 2 else 1)..] == Declarations(stats[i + 1..], predicted)
  {
    DeclarationsSplit(stats, predicted, i);
    ThreeParts(Declarations(stats[..i], predicted), ColumnDecls(stats[i], predicted),
               Declarations(stats[i + 1..], predicted));
  }

  /** One declaration per column with a type, plus one per such column that
      is predicted. */
  lemma {:induction false} DeclarationsLength(stats: seq<ColumnStats>, predicted: seq<string>)
    ensures |Declarations(stats, predicted)| == MappedCount(stats) + MappedPredictedCount(stats, predicted)
  {
    if stats != [] {
      DeclarationsLength(stats[..|stats| - 1], predicted);
    }
  }

  /** No declarations at all exactly when no column has a type. */
  lemma {:induction false} NoDeclarationsIffNoneMapped(stats: seq<ColumnStats>, predicted: seq<string>)
    ensures Declarations(stats, predicted) == [] <==> MappedCount(stats) == 0
  {
    DeclarationsLength(stats, predicted);
    PredictedAmongMapped(stats, predicted);
  }

  lemma {:induction false} PredictedAmongMapped(stats: seq<ColumnStats>, predicted: seq<string>)
    ensures MappedPredictedCount(stats, predicted) <= MappedCount(stats)
  {
    if stats != [] {
      PredictedAmongMapped(stats[..|stats| - 1], predicted);
    }
  }

  /** `_to_postgres_table` as the source writes it. A column without a
      `typing` entry or `data_subtype` key fails at the lookup of
      `col_subtype`; the handler's message then reads `col_subtype`, which
      raises again unless an earlier column assigned it. `subtypeBound` says
      whether one did. */
  function DeclarationsAsWritten(stats: seq<ColumnStats>, predicted: seq<string>, subtypeBound: bool)
    : (r: Result<seq<string>, Error>)
    ensures r.Err? ==> r.error == UnboundLocal("col_subtype")
    ensures r.Err? ==> !subtypeBound && stats != [] && ColumnSubtype(stats[0]).Absent?
  {
    if stats == [] then Ok([])
    else if ColumnSubtype(stats[0]).Absent? && !subtypeBound then Err(UnboundLocal("col_subtype"))
    else
      match DeclarationsAsWritten(stats[1..], predicted, subtypeBound || !ColumnSubtype(stats[0]).Absent?)
      case Err(e) => Err(e)
      case Ok(rest) => Ok(ColumnDecls(stats[0], predicted) + rest)
  }

  lemma {:induction false} AsWrittenOnceAssigned(stats: seq<ColumnStats>, predicted: seq<string>)
    ensures DeclarationsAsWritten(stats, predicted, true) == Ok(Declarations(stats, predicted))
  {
    if stats != [] {
      AsWrittenOnceAssigned(stats[1..], predicted);
      assert DeclarationsAsWritten(stats, predicted, true)
          == Ok(ColumnDecls(stats[0], predicted) + Declarations(stats[1..], predicted));
      FrontDecomposition(stats, predicted);
    }
  }

  lemma {:induction false} FrontDecomposition(stats: seq<ColumnStats>, predicted: seq<string>)
    requires stats != []
    ensures Declarations(stats, predicted)
         == ColumnDecls(stats[0], predicted) + Declarations(stats[1..], predicted)
  {
    assert stats == [stats[0]] + stats[1..];
    DeclarationsAppend([stats[0]], stats[1..], predicted);
    DeclarationsSnoc([], stats[0], predicted);
    assert [] + [stats[0]] == [stats[0]];
  }

  /** The source raises exactly when the first column has no subtype at all;
      otherwise it gives the declarations of the corrected loop, which skips
      every column without a type. */
  lemma {:induction false} AsWrittenFailsOnFirstColumn(stats: seq<ColumnStats>, predicted: seq<string>)
    ensures DeclarationsAsWritten(stats, predicted, false).Err?
        <==> |stats| > 0 && ColumnSubtype(stats[0]).Absent?
    ensures DeclarationsAsWritten(stats, predicted, false).Ok?
        ==> DeclarationsAsWritten(stats, predicted, false).value == Declarations(stats, predicted)
  {
    if stats != [] && !ColumnSubtype(stats[0]).Absent? {
      AsWrittenOnceAssigned(stats[1..], predicted);
      FrontDecomposition(stats, predicted);
    }
  }

  /** A concrete input that shows the difference: a model whose only column
      lacks its typing makes the source raise, where the corrected loop skips
      the column. */
  lemma AbsentFirstColumnExample()
    ensures var stats := [ColumnStats("x", None)];
            DeclarationsAsWritten(stats, [], false) == Err(UnboundLocal("col_subtype"))
            && Declarations(stats, []) == []
  {
  }
}
