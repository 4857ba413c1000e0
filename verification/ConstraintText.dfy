/**
 The hand-written lexer that splits a PostgreSQL constraint definition into words, symbols,
 string literals and opaque stretches (comments, quoted identifiers, escape and dollar strings).

 `Scan` is the first token of a text, so the whole lexer is a recursion over suffixes; the method
 `ConstraintTokens` is the cursor loop and is proved equal to it.
 */
module ConstraintText {
  import opened Prelude

  datatype Kind = Opaque | Literal | Word | Symbol

  datatype Token = Token(kind: Kind, text: string)

  /** A token with the half-open range of cursor positions it was read from. */
  datatype Lexeme = Lexeme(token: Token, start: nat, end: nat)

  predicate Letter(c: char) {
    'A' <= c <= 'Z' || 'a' <= c <= 'z' || c == '_'
  }

  predicate IdentChar(c: char) {
    Letter(c) || '0' <= c <= '9'
  }

  predicate WordChar(c: char) {
    IdentChar(c) || c == '$'
  }

  predicate Quote(c: char) {
    c == '\'' || c == '"'
  }

  function Take(s: string, n: nat): string {
    if n <= |s| then s[..n] else s
  }

  // ---------------------------------------------------------------------------
  // The pieces of a token
  // ---------------------------------------------------------------------------

  /** `s.find(p)`. */
  function Find(s: string, p: string): (r: Option<nat>)
    ensures r.Some? ==> r.value + |p| <= |s| && p <= s[r.value..]
  {
    if p <= s then Some(0)
    else if s == "" then None
    else match Find(s[1..], p)
      case None => None
      case Some(k) => Some(k + 1)
  }

  /** How much of `s` a block comment still `depth` levels open takes. */
  function CommentEnd(s: string, depth: nat): (n: nat)
    ensures n <= |s|
  {
    if s == "" || depth == 0 then 0
    else if "/*" <= s then 2 + CommentEnd(s[2..], depth + 1)
    else if "*/" <= s then 2 + CommentEnd(s[2..], depth - 1)
    else 1 + CommentEnd(s[1..], depth)
  }

  /** How far the cursor moves over a quoted text after its opening quote; a final backslash steps past the end. */
  function QuoteEnd(s: string, quote: char, escaped: bool): (n: nat)
    ensures n <= |s| + 1
  {
    if s == "" then 0
    else if escaped && s[0] == '\\' then
      if |s| == 1 then 2 else 2 + QuoteEnd(s[2..], quote, escaped)
    else if s[0] == quote then
      if |s| > 1 && s[1] == quote then 2 + QuoteEnd(s[2..], quote, escaped) else 1
    else 1 + QuoteEnd(s[1..], quote, escaped)
  }

  /** Identifier characters up to and including a dollar sign. */
  function TagRest(s: string): (r: Option<nat>)
    ensures r.Some? ==> 1 <= r.value <= |s|
  {
    if s == "" then None
    else if s[0] == '$' then Some(1)
    else if !IdentChar(s[0]) then None
    else match TagRest(s[1..])
      case None => None
      case Some(m) => Some(m + 1)
  }

  /** What follows the first dollar sign of a dollar-quote delimiter. */
  function Tag(s: string): (r: Option<nat>)
    ensures r.Some? ==> 1 <= r.value <= |s|
  {
    if s != "" && (s[0] == '$' || Letter(s[0])) then TagRest(s) else None
  }

  function WordRun(s: string): (n: nat)
    ensures n <= |s|
  {
    if s == "" || !WordChar(s[0]) then 0 else 1 + WordRun(s[1..])
  }

  predicate EscapeOpens(s: string) {
    |s| > 1 && (s[0] == 'E' || s[0] == 'e') && s[1] == '\''
  }

  /** Where a dollar-quoted text whose delimiter has length `m` ends. */
  function DollarEnd(s: string, m: nat): (n: nat)
    requires m <= |s|
    ensures m <= n <= |s|
  {
    match Find(s[m..], s[..m])
    case None => |s|
    case Some(k) => m + k + m
  }

  /** The kind of the token at the head of `s` and how far the cursor moves over it. */
  function Scan(s: string): (r: (Kind, nat))
    requires s != "" && !IsSpace(s[0])
    ensures 1 <= r.1 <= |s| + 1
  {
    if "--" <= s then (Opaque, match Find(s[2..], "\n") case None => |s| case Some(k) => 2 + k)
    else if "/*" <= s then (Opaque, 2 + CommentEnd(s[2..], 1))
    else if EscapeOpens(s) then (Opaque, 2 + QuoteEnd(s[2..], '\'', true))
    else if Quote(s[0]) then
      (if s[0] == '\'' then Literal else Opaque, 1 + QuoteEnd(s[1..], s[0], false))
    else if s[0] == '$' && Tag(s[1..]).Some? then (Opaque, DollarEnd(s, 1 + Tag(s[1..]).value))
    else if Letter(s[0]) then (Word, WordRun(s))
    else if "::" <= s then (Symbol, 2)
    else (Symbol, 1)
  }

  predicate AtToken(s: string) {
    s != "" && !IsSpace(s[0])
  }

  function Head(s: string): Token
    requires AtToken(s)
  {
    Token(Scan(s).0, Take(s, Scan(s).1))
  }

  /** The text after its first token. */
  function After(s: string): (r: string)
    requires AtToken(s)
    ensures |r| < |s|
  {
    Drop(s, Scan(s).1)
  }

  /** The tokens of a text. */
  function Tokens(s: string): seq<Token>
    decreases |s|
  {
    if s == "" then []
    else if IsSpace(s[0]) then Tokens(s[1..])
    else [Head(s)] + Tokens(After(s))
  }

  /** The tokens of a text that starts at cursor position `offset`, with their positions. */
  function Lexemes(s: string, offset: nat): seq<Lexeme>
    decreases |s|
  {
    if s == "" then []
    else if IsSpace(s[0]) then Lexemes(s[1..], offset + 1)
    else [Lexeme(Head(s), offset, offset + Scan(s).1)] + Lexemes(After(s), offset + Scan(s).1)
  }

  // ---------------------------------------------------------------------------
  // The cursor loop
  // ---------------------------------------------------------------------------

  lemma {:induction false} CommentStep(s: string, i: nat, depth: nat)
    requires i < |s| && depth > 0
    ensures CommentEnd(s[i..], depth)
         == if "/*" <= s[i..] then 2 + CommentEnd(s[i + 2..], depth + 1)
            else if "*/" <= s[i..] then 2 + CommentEnd(s[i + 2..], depth - 1)
            else 1 + CommentEnd(s[i + 1..], depth)
  {
  }

  lemma {:induction false} CommentOver(s: string)
    ensures forall i, depth: nat {:trigger CommentEnd(s[i..], depth)} ::
              0 <= i <= |s| && (i == |s| || depth == 0) ==> CommentEnd(s[i..], depth) == 0
  {
  }

  method SkipComment(expression: string, from: nat) returns (cursor: nat)
    requires from <= |expression|
    ensures cursor == from + CommentEnd(expression[from..], 1)
  {
    hide CommentEnd;
    CommentOver(expression);
    var depth: nat := 1;
    cursor := from;
    while cursor < |expression| && depth > 0
      invariant from <= cursor <= |expression|
      invariant cursor + CommentEnd(expression[cursor..], depth) == from + CommentEnd(expression[from..], 1)
    {
      CommentStep(expression, cursor, depth);
      if "/*" <= expression[cursor..] {
        depth, cursor := depth + 1, cursor + 2;
      } else if "*/" <= expression[cursor..] {
        depth, cursor := depth - 1, cursor + 2;
      } else {
        cursor := cursor + 1;
      }
    }
  }

  method SkipQuoted(expression: string, from: nat, quote: char, escaped: bool) returns (cursor: nat)
    requires from <= |expression|
    ensures cursor == from + QuoteEnd(expression[from..], quote, escaped)
  {
    cursor := from;
    while cursor < |expression|
      invariant from <= cursor <= |expression| + 1
      invariant cursor + QuoteEnd(Drop(expression, cursor), quote, escaped)
             == from + QuoteEnd(expression[from..], quote, escaped)
    {
      ghost var rest := expression[cursor..];
      assert rest[1..] == expression[cursor + 1..];
      if |rest| > 1 {
        assert rest[2..] == expression[cursor + 2..] && rest[1] == expression[cursor + 1];
      }
      if escaped && expression[cursor] == '\\' {
        cursor := cursor + 2;
      } else if expression[cursor] == quote {
        cursor := cursor + 1;
        if cursor < |expression| && expression[cursor] == quote {
          cursor := cursor + 1;
        } else {
          break;
        }
      } else {
        cursor := cursor + 1;
      }
    }
  }

  /** One turn of the loop: the kind of the token at `start` and the cursor after it. */
  method ReadToken(expression: string, start: nat) returns (kind: Kind, cursor: nat)
    requires start < |expression| && !IsSpace(expression[start])
    ensures kind == Scan(expression[start..]).0 && cursor == start + Scan(expression[start..]).1
  {
    hide Find, CommentEnd, QuoteEnd, TagRest, WordRun, IsSpace;
    cursor := start;
    kind := Symbol;
    var c := expression[cursor];
    ghost var rest := expression[start..];
    assert rest[1..] == expression[start + 1..];
    if |rest| > 1 {
      assert rest[2..] == expression[start + 2..] && rest[1] == expression[start + 1];
    }
    if "--" <= expression[cursor..] {
      var end := Find(expression[cursor + 2..], "\n");
      cursor := if end.None? then |expression| else cursor + 2 + end.value;
      kind := Opaque;
    } else if "/*" <= expression[cursor..] {
      cursor := SkipComment(expression, cursor + 2);
      kind := Opaque;
    } else if Quote(c) || EscapeOpens(expression[cursor..]) {
      var escaped := c == 'E' || c == 'e';
      if escaped {
        cursor := cursor + 1;
      }
      var quote := expression[cursor];
      cursor := SkipQuoted(expression, cursor + 1, quote, escaped);
      kind := if quote == '\'' && !escaped then Literal else Opaque;
    } else if c == '$' && Tag(expression[cursor + 1..]).Some? {
      var size := 1 + Tag(expression[cursor + 1..]).value;
      var delimiter := expression[cursor..cursor + size];
      var end := Find(expression[cursor + size..], delimiter);
      assert rest[size..] == expression[start + size..] && rest[..size] == delimiter;
      cursor := if end.None? then |expression| else cursor + size + end.value + |delimiter|;
      kind := Opaque;
    } else if Letter(c) {
      cursor := cursor + WordRun(expression[cursor..]);
      kind := Word;
    } else if "::" <= expression[cursor..] {
      cursor := cursor + 2;
    } else {
      cursor := cursor + 1;
    }
  }

  lemma {:induction false} DropDrop(s: string, m: nat, n: nat)
    requires m <= |s|
    ensures Drop(s[m..], n) == Drop(s, m + n)
  {
  }

  /** The lexemes of a text from a cursor that stands at a space, or at a token. */
  lemma {:induction false} LexemesFrom(s: string, cursor: nat)
    requires cursor < |s|
    ensures var rest := s[cursor..];
            Lexemes(Drop(s, cursor), cursor) ==
            if IsSpace(s[cursor]) then Lexemes(Drop(s, cursor + 1), cursor + 1)
            else
              var end := cursor + Scan(rest).1;
              [Lexeme(Token(Scan(rest).0, s[cursor..Clip(end, |s|)]), cursor, end)] + Lexemes(Drop(s, end), end)
  {
    hide Scan, IsSpace;
    var rest := s[cursor..];
    if IsSpace(s[cursor]) {
      assert rest[1..] == Drop(s, cursor + 1);
    } else {
      var end := cursor + Scan(rest).1;
      DropDrop(s, cursor, Scan(rest).1);
      assert s[cursor..Clip(end, |s|)] == Take(rest, Scan(rest).1);
    }
  }

  lemma {:induction false} NoLexemes(s: string, offset: nat)
    requires s == ""
    ensures Lexemes(s, offset) == []
  {
  }

  lemma {:induction false} LexemeRead(read: seq<Lexeme>, next: Lexeme, rest: seq<Lexeme>)
    ensures read + ([next] + rest) == (read + [next]) + rest
  {
  }

  method ConstraintTokens(expression: string) returns (tokens: seq<Lexeme>)
    ensures tokens == Lexemes(expression, 0)
  {
    hide Scan, IsSpace, Lexemes;
    var cursor: nat := 0;
    tokens := [];
    assert Drop(expression, 0) == expression;
    while cursor < |expression|
      invariant tokens + Lexemes(Drop(expression, cursor), cursor) == Lexemes(expression, 0)
      decreases |expression| + 1 - cursor
    {
      var start := cursor;
      LexemesFrom(expression, start);
      if IsSpace(expression[cursor]) {
        cursor := cursor + 1;
        continue;
      }
      var kind;
      kind, cursor := ReadToken(expression, start);
      var lexeme := Lexeme(Token(kind, expression[start..Clip(cursor, |expression|)]), start, cursor);
      LexemeRead(tokens, lexeme, Lexemes(Drop(expression, cursor), cursor));
      tokens := tokens + [lexeme];
    }
    NoLexemes(Drop(expression, cursor), cursor);
    assert tokens + [] == tokens;
  }

  // ---------------------------------------------------------------------------
  // Positions
  // ---------------------------------------------------------------------------

  /** What is left of a text once its first `k` tokens are read. */
  function Skip(s: string, k: nat): (r: string)
    ensures |r| <= |s|
    ensures k > 0 && s != "" ==> |r| < |s|
    decreases |s|
  {
    if k == 0 || s == "" then s
    else if IsSpace(s[0]) then Skip(s[1..], k)
    else Skip(After(s), k - 1)
  }

  lemma {:induction false} SkipTokens(s: string, k: nat)
    requires k <= |Tokens(s)|
    ensures Tokens(Skip(s, k)) == Tokens(s)[k..]
    decreases |s|
  {
    hide IsSpace, Scan;
    if k == 0 || s == "" {
    } else if IsSpace(s[0]) {
      SkipTokens(s[1..], k);
    } else {
      SkipTokens(After(s), k - 1);
      assert Tokens(s)[k..] == Tokens(After(s))[k - 1..];
    }
  }
}
