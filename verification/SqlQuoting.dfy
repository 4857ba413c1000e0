/**
 `identifier` and `literal`: quoting a value for SQL by doubling its quotes. Whatever the value is,
 the lexer reads the result back as exactly one token, and the value can be recovered from it.
 */
module SqlQuoting {
  import opened Prelude
  import opened ConstraintText
  import opened ConstraintLexing

  datatype Invalid = InvalidSqlIdentifier | InvalidSqlLiteral

  /** `value.replace(q, q + q)` for a one-character `q`. */
  function Doubled(value: string, q: char): string {
    if value == "" then ""
    else (if value[0] == q then [q, q] else [value[0]]) + Doubled(value[1..], q)
  }

  function SqlIdentifier(value: string): Result<string, Invalid> {
    if '\0' in value then Err(InvalidSqlIdentifier) else Ok("\"" + Doubled(value, '"') + "\"")
  }

  function SqlLiteral(value: string): Result<string, Invalid> {
    if '\0' in value then Err(InvalidSqlLiteral) else Ok("'" + Doubled(value, '\'') + "'")
  }

  /** What SQL reads between the quotes: each pair of quotes is one. */
  function Undoubled(text: string, q: char): string {
    if text == "" then ""
    else if |text| > 1 && text[0] == q && text[1] == q then [q] + Undoubled(text[2..], q)
    else [text[0]] + Undoubled(text[1..], q)
  }

  lemma {:induction false} DoubledReadBack(value: string, q: char)
    ensures Undoubled(Doubled(value, q), q) == value
  {
    if value != "" {
      var rest := Doubled(value[1..], q);
      DoubledReadBack(value[1..], q);
      if value[0] == q {
        assert ([q, q] + rest)[2..] == rest;
      } else {
        assert ([value[0]] + rest)[1..] == rest;
      }
    }
  }

  lemma {:induction false} QuoteEndStep(q: char, c: char, x: string)
    ensures QuoteEnd([q, q] + x, q, false) == 2 + QuoteEnd(x, q, false)
    ensures c != q ==> QuoteEnd([c] + x, q, false) == 1 + QuoteEnd(x, q, false)
    ensures x == "" || x[0] != q ==> QuoteEnd([q] + x, q, false) == 1
  {
  }

  /** The scan of a quoted text stops at the closing quote, whatever the value holds. */
  lemma {:induction false} DoubledEnd(value: string, q: char, u: string)
    requires u == "" || u[0] != q
    ensures QuoteEnd(Doubled(value, q) + ([q] + u), q, false) == |Doubled(value, q)| + 1
  {
    hide QuoteEnd;
    var tail := [q] + u;
    if value == "" {
      QuoteEndStep(q, q, u);
      assert "" + tail == tail;
    } else {
      var rest := Doubled(value[1..], q);
      DoubledEnd(value[1..], q, u);
      QuoteEndStep(q, value[0], rest + tail);
      assert ([q, q] + rest) + tail == [q, q] + (rest + tail);
      assert ([value[0]] + rest) + tail == [value[0]] + (rest + tail);
    }
  }

  lemma {:induction false} QuotedToken(value: string, q: char, u: string)
    requires Quote(q) && (u == "" || u[0] != q)
    ensures var text := [q] + Doubled(value, q) + [q];
            && text[1..|text| - 1] == Doubled(value, q)
            && AtToken(text + u)
            && Tokens(text + u) == [Token(if q == '\'' then Literal else Opaque, text)] + Tokens(u)
  {
    var text := [q] + Doubled(value, q) + [q];
    DoubledEnd(value, q, u);
    assert (text + u)[0] == q && (text + u)[1..] == Doubled(value, q) + ([q] + u);
    HeadIs(text, u);
  }

  /** `literal` refuses exactly the values with a NUL; every other value becomes one literal token that means it. */
  lemma {:induction false} LiteralIsOneToken(value: string, u: string)
    requires u == "" || u[0] != '\''
    ensures SqlLiteral(value) == Err(InvalidSqlLiteral) <==> '\0' in value
    ensures SqlLiteral(value).Ok? ==>
              var text := SqlLiteral(value).value;
              && Tokens(text + u) == [Token(Literal, text)] + Tokens(u)
              && |text| >= 2 && Undoubled(text[1..|text| - 1], '\'') == value
              && Closed(text)
  {
    if '\0' !in value {
      hide Scan, Tokens, QuoteEnd;
      QuotedToken(value, '\'', u);
      DoubledReadBack(value, '\'');
      DoubledEnd(value, '\'', ":");
      var text := SqlLiteral(value).value;
      assert text == ['\''] + Doubled(value, '\'') + ['\''];
      assert text[1..] + ":" == Doubled(value, '\'') + (['\''] + ":");
    }
  }

  /** `identifier` refuses exactly the values with a NUL; every other value becomes one opaque token that means it. */
  lemma {:induction false} IdentifierIsOneToken(value: string, u: string)
    requires u == "" || u[0] != '"'
    ensures SqlIdentifier(value) == Err(InvalidSqlIdentifier) <==> '\0' in value
    ensures SqlIdentifier(value).Ok? ==>
              var text := SqlIdentifier(value).value;
              && Tokens(text + u) == [Token(Opaque, text)] + Tokens(u)
              && |text| >= 2 && Undoubled(text[1..|text| - 1], '"') == value
  {
    if '\0' !in value {
      hide Scan, Tokens, QuoteEnd;
      QuotedToken(value, '"', u);
      DoubledReadBack(value, '"');
      assert SqlIdentifier(value).value == ['"'] + Doubled(value, '"') + ['"'];
    }
  }
}
