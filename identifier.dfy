/** Quoting of a model name as an SQL delimited identifier (ISO/IEC 9075-2,
    section 5.2, <delimited identifier>): every embedded double quote is
    doubled and the whole is wrapped in double quotes. */
module Identifier {
  import opened Wrappers
  import opened Sequences

  const Quote: char := '"'

  /** Number of double quotes in `s`. */
  function QuoteCount(s: string): nat
  {
    if s == [] then 0 else (if s[0] == Quote then 1 else 0) + QuoteCount(s[1..])
  }

  /** `s.replace('"', '""')`. */
  function DoubleQuotes(s: string): (r: string)
    ensures |r| == |s| + QuoteCount(s)
  {
    if s == [] then []
    else (if s[0] == Quote then [Quote, Quote] else [s[0]]) + DoubleQuotes(s[1..])
  }

  /** `_escape_table_name`. */
  function EscapeTableName(name: string): (r: string)
    ensures |r| == |name| + 2 + QuoteCount(name)
    ensures r[0] == Quote && r[|r| - 1] == Quote
  {
    [Quote] + DoubleQuotes(name) + [Quote]
  }

  /** `s.replace('""', '"')`: pairs of quotes, read left to right without
      overlap, become one quote. */
  function UndoubleQuotes(s: string): (r: string)
    ensures |r| <= |s|
    ensures QuoteCount(s) == 0 ==> r == s
  {
    if |s| >= 2 && s[0] == Quote && s[1] == Quote then [Quote] + UndoubleQuotes(s[2..])
    else if s == [] then []
    else [s[0]] + UndoubleQuotes(s[1..])
  }

  /** Strips the outer quotes and undoubles the interior; None when `e` is not
      wrapped in quotes. */
  function Unescape(e: string): (r: Option<string>)
    ensures r.Some? <==> |e| >= 2 && e[0] == Quote && e[|e| - 1] == Quote
    ensures r.Some? ==> |r.value| <= |e| - 2
    ensures r.Some? && QuoteCount(e[1..|e| - 1]) == 0 ==> r.value == e[1..|e| - 1]
  {
    if |e| >= 2 && e[0] == Quote && e[|e| - 1] == Quote
    then Some(UndoubleQuotes(e[1..|e| - 1]))
    else None
  }

  /** Every quote in `s` is one of an adjacent pair: no quote in `s` can close
      a delimited identifier. */
  predicate PairedQuotes(s: string)
  {
    if s == [] then true
    else if s[0] != Quote then PairedQuotes(s[1..])
    else |s| >= 2 && s[1] == Quote && PairedQuotes(s[2..])
  }

  /** The shape of every escaped name: quotes outside, paired quotes inside. */
  predicate IsDelimited(e: string)
  {
    |e| >= 2 && e[0] == Quote && e[|e| - 1] == Quote && PairedQuotes(e[1..|e| - 1])
  }

  /** How an SQL lexer reads the body of a delimited identifier once past the
      opening quote: `""` stands for one quote and a lone quote closes the
      identifier. Gives the identifier and the text after the closing quote,
      or None when no closing quote comes. */
  function ReadDelimitedBody(s: string): Option<(string, string)>
  {
    if s == [] then None
    else if s[0] == Quote then
      if |s| >= 2 && s[1] == Quote then
        match ReadDelimitedBody(s[2..])
        case None => None
        case Some((id, rest)) => Some(([Quote] + id, rest))
      else Some(([], s[1..]))
    else
      match ReadDelimitedBody(s[1..])
      case None => None
      case Some((id, rest)) => Some(([s[0]] + id, rest))
  }

  /** Reads a delimited identifier at the start of `s`. */
  function ReadDelimitedIdentifier(s: string): Option<(string, string)>
  {
    if s != [] && s[0] == Quote then ReadDelimitedBody(s[1..]) else None
  }

  lemma {:induction false} UndoubleDoubled(s: string)
    ensures UndoubleQuotes(DoubleQuotes(s)) == s
  {
    if s != [] {
      UndoubleDoubled(s[1..]);
      var d := DoubleQuotes(s[1..]);
      if s[0] == Quote {
        assert DoubleQuotes(s) == [Quote, Quote] + d;
        assert ([Quote, Quote] + d)[2..] == d;
      } else {
        assert DoubleQuotes(s) == [s[0]] + d;
        assert ([s[0]] + d)[1..] == d;
      }
    }
  }

  /** Unescaping an escaped name gives the name back. */
  lemma EscapeRoundTrip(name: string)
    ensures Unescape(EscapeTableName(name)) == Some(name)
  {
    var e := EscapeTableName(name);
    assert e[1..|e| - 1] == DoubleQuotes(name);
    UndoubleDoubled(name);
  }

  /** Two distinct model names never share a table identifier. */
  lemma EscapeInjective(a: string, b: string)
    ensures EscapeTableName(a) == EscapeTableName(b) <==> a == b
  {
    if EscapeTableName(a) == EscapeTableName(b) {
      EscapeRoundTrip(a);
      EscapeRoundTrip(b);
    }
  }

  lemma {:induction false} DoubledIsPaired(s: string)
    ensures PairedQuotes(DoubleQuotes(s))
  {
    if s != [] {
      DoubledIsPaired(s[1..]);
      var d := DoubleQuotes(s[1..]);
      if s[0] == Quote {
        assert ([Quote, Quote] + d)[2..] == d;
      } else {
        assert ([s[0]] + d)[1..] == d;
      }
    }
  }

  lemma {:induction false} PairedIsDoubled(s: string)
    requires PairedQuotes(s)
    ensures DoubleQuotes(UndoubleQuotes(s)) == s
  {
    if s != [] {
      if s[0] == Quote {
        PairedIsDoubled(s[2..]);
        assert s == [Quote, Quote] + s[2..];
      } else {
        PairedIsDoubled(s[1..]);
        assert s == [s[0]] + s[1..];
      }
    }
  }

  /** Every escaped name is quoted outside with paired quotes inside. */
  lemma EscapedIsDelimited(name: string)
    ensures IsDelimited(EscapeTableName(name))
  {
    var e := EscapeTableName(name);
    assert e[1..|e| - 1] == DoubleQuotes(name);
    DoubledIsPaired(name);
  }

  /** Every such quoted string is the escape of the name it unescapes to. */
  lemma DelimitedIsEscaped(e: string)
    requires IsDelimited(e)
    ensures Unescape(e).Some? && EscapeTableName(Unescape(e).value) == e
  {
    var inner := e[1..|e| - 1];
    PairedIsDoubled(inner);
    assert e == [Quote] + inner + [Quote];
  }

  /** The escaped names are exactly the delimited identifiers. */
  lemma EscapedIffDelimited(e: string)
    ensures (exists name :: EscapeTableName(name) == e) <==> IsDelimited(e)
  {
    if IsDelimited(e) {
      DelimitedIsEscaped(e);
    } else if exists name :: EscapeTableName(name) == e {
      var name :| EscapeTableName(name) == e;
      EscapedIsDelimited(name);
    }
  }

  lemma ReadPairedQuote(tail: string)
    ensures ReadDelimitedBody([Quote, Quote] + tail)
         == match ReadDelimitedBody(tail)
            case None => None
            case Some((id, rest)) => Some(([Quote] + id, rest))
  {
    assert ([Quote, Quote] + tail)[2..] == tail;
  }

  lemma ReadOrdinary(c: char, tail: string)
    requires c != Quote
    ensures ReadDelimitedBody([c] + tail)
         == match ReadDelimitedBody(tail)
            case None => None
            case Some((id, rest)) => Some(([c] + id, rest))
  {
    assert ([c] + tail)[1..] == tail;
  }

  lemma DoubledQuoteThen(t: string, rest: string)
    ensures DoubleQuotes([Quote] + t) + [Quote] + rest == [Quote, Quote] + (DoubleQuotes(t) + [Quote] + rest)
  {
    Cons(Quote, t);
  }

  lemma DoubledOrdinaryThen(c: char, t: string, rest: string)
    requires c != Quote
    ensures DoubleQuotes([c] + t) + [Quote] + rest == [c] + (DoubleQuotes(t) + [Quote] + rest)
  {
    Cons(c, t);
  }

  lemma {:induction false} ReadDoubledBody(name: string, rest: string)
    requires rest == [] || rest[0] != Quote
    ensures ReadDelimitedBody(DoubleQuotes(name) + [Quote] + rest) == Some((name, rest))
  {
    if name == [] {
      assert DoubleQuotes(name) + [Quote] + rest == [Quote] + rest;
      Cons(Quote, rest);
    } else {
      var c, t := name[0], name[1..];
      assert name == [c] + t;
      var tail := DoubleQuotes(t) + [Quote] + rest;
      ReadDoubledBody(t, rest);
      if c == Quote {
        DoubledQuoteThen(t, rest);
        ReadPairedQuote(tail);
      } else {
        DoubledOrdinaryThen(c, t, rest);
        ReadOrdinary(c, tail);
      }
    }
  }

  /** Whatever text follows an escaped name (so long as it does not itself
      start with a quote, which no SQL token after an identifier does), an SQL
      lexer reads back exactly the name, and the following text untouched. */
  lemma ReadEscapedName(name: string, rest: string)
    requires rest == [] || rest[0] != Quote
    ensures ReadDelimitedIdentifier(EscapeTableName(name) + rest) == Some((name, rest))
  {
    var s := EscapeTableName(name) + rest;
    assert s[1..] == DoubleQuotes(name) + [Quote] + rest;
    ReadDoubledBody(name, rest);
  }

  /** The escape of `a"b` is `"a""b"`. */
  lemma EscapeExample()
    ensures EscapeTableName("a\"b") == "\"a\"\"b\""
  {
  }
}
