/**
 What comparing two constraints by their canonical form is worth: the form is stable, it keeps
 every quoted value and comment, only cast arrays are rewritten, and it acts on the tokens alone
 except where a word touches a rewritten run.
 */
module ConstraintTheorems {
  import opened Prelude
  import opened ConstraintText
  import opened ConstraintLexing
  import opened ConstraintRewrite

  lemma {:induction false} QuotedConcat(a: seq<Token>, b: seq<Token>)
    ensures Quoted(a + b) == Quoted(a) + Quoted(b)
  {
    if a == [] {
      assert a + b == b;
    } else {
      assert (a + b)[0] == a[0] && (a + b)[1..] == a[1..] + b;
      QuotedConcat(a[1..], b);
      var head := if a[0].kind.Literal? || a[0].kind.Opaque? then [a[0]] else [];
      assert head + (Quoted(a[1..]) + Quoted(b)) == (head + Quoted(a[1..])) + Quoted(b);
    }
  }

  function LiteralTokens(literals: seq<string>): seq<Token> {
    seq(|literals|, i requires 0 <= i < |literals| => Token(Literal, literals[i]))
  }

  ghost predicate Unquoted(tokens: seq<Token>) {
    forall i :: 0 <= i < |tokens| ==> tokens[i].kind.Word? || tokens[i].kind.Symbol?
  }

  lemma {:induction false} UnquotedTokens(tokens: seq<Token>)
    requires Unquoted(tokens)
    ensures Quoted(tokens) == []
  {
    if tokens != [] {
      UnquotedTokens(tokens[1..]);
    }
  }

  lemma {:induction false} QuotedCast(literal: string)
    ensures Quoted(CastTokens(literal)) == [Token(Literal, literal)]
  {
    var rest := CastTokens(literal)[2..];
    assert CastTokens(literal) == [Token(Symbol, "("), Token(Literal, literal)] + rest;
    UnquotedTokens(rest);
    QuotedConcat([Token(Symbol, "("), Token(Literal, literal)], rest);
    assert Quoted([Token(Literal, literal)]) == [Token(Literal, literal)] + Quoted([]);
  }

  lemma {:induction false} QuotedJoin(literals: seq<string>)
    ensures Quoted(JoinTokens(literals)) == LiteralTokens(literals)
  {
    hide CastTokens, Quoted;
    if literals == [] {
      UnquotedTokens([]);
    } else {
      QuotedCast(literals[0]);
      if |literals| > 1 {
        QuotedJoin(literals[1..]);
        UnquotedTokens([Token(Symbol, ",")]);
        QuotedConcat(CastTokens(literals[0]), [Token(Symbol, ",")]);
        QuotedConcat(CastTokens(literals[0]) + [Token(Symbol, ",")], JoinTokens(literals[1..]));
      }
    }
  }

  lemma {:induction false} QuotedReplacement(literals: seq<string>)
    ensures Quoted(ReplacementTokens(literals)) == LiteralTokens(literals)
  {
    hide JoinTokens, Quoted;
    var open, close := [Token(Word, "ARRAY"), Token(Symbol, "[")], [Token(Symbol, "]")];
    UnquotedTokens(open);
    UnquotedTokens(close);
    QuotedJoin(literals);
    QuotedConcat(open, JoinTokens(literals));
    QuotedConcat(open + JoinTokens(literals), close);
  }

  /** Every token of a text has the kind its first characters give it, so no symbol of the grammar is quoted. */
  ghost predicate Lexed(tokens: seq<Token>) {
    forall i :: 0 <= i < |tokens| ==> LexedAt(tokens, i)
  }

  ghost predicate LexedAt(tokens: seq<Token>, i: nat)
    requires i < |tokens|
  {
    var t := tokens[i];
    t.text != "" && (t.kind.Literal? || t.kind.Opaque? ==> QuotedText(t.text))
  }

  /** How the text of a literal or opaque token begins. */
  ghost predicate QuotedText(s: string) {
    "--" <= s || "/*" <= s || EscapeOpens(s) || (s != "" && (Quote(s[0]) || (s[0] == '$' && |s| > 1)))
  }

  lemma {:induction false} LexedHead(s: string)
    requires AtToken(s)
    ensures LexedAt([Head(s)], 0)
  {
  }

  lemma {:induction false} TokensAreLexed(s: string)
    ensures Lexed(Tokens(s))
    decreases |s|
  {
    hide Scan, QuotedText;
    if s == "" {
    } else if IsSpace(s[0]) {
      TokensAreLexed(s[1..]);
    } else {
      TokensAreLexed(After(s));
      LexedHead(s);
      forall i | 0 <= i < |Tokens(s)| ensures LexedAt(Tokens(s), i) {
        assert i > 0 ==> LexedAt(Tokens(After(s)), i - 1);
        assert i == 0 ==> LexedAt([Head(s)], 0);
      }
    }
  }

  lemma {:induction false} ExpectedUnquoted(q: nat)
    ensures !QuotedText(Expected(q)) && !QuotedText(",")
  {
  }

  /** The literals an accepted run collects are exactly its quoted tokens. */
  lemma {:induction false} QuotedRun(q: nat, tokens: seq<Token>)
    requires Lexed(tokens) && Accept(q, tokens).Some?
    ensures Quoted(tokens[..Accept(q, tokens).value.count]) == LiteralTokens(Accept(q, tokens).value.literals)
    decreases |tokens|
  {
    hide QuotedText;
    var run := Accept(q, tokens).value;
    if q < FINAL {
      var next := Step(q, tokens[0]).value;
      forall i | 0 <= i < |tokens[1..]| ensures LexedAt(tokens[1..], i) {
        assert LexedAt(tokens, i + 1);
      }
      QuotedRun(next, tokens[1..]);
      assert tokens[..run.count][1..] == tokens[1..][..run.count - 1];
      assert LexedAt(tokens, 0);
      ExpectedUnquoted(q);
      ExpectedUnquoted(12);
    }
  }

  /** The rewrite of tokens keeps the quoted ones, in order. */
  lemma {:induction false} QuotedRewrite(tokens: seq<Token>)
    requires Lexed(tokens)
    ensures Quoted(RewriteTokens(tokens)) == Quoted(tokens)
    decreases |tokens|
  {
    hide LexedAt, ReplacementTokens, Accept;
    if tokens != [] {
      var run := Accept(0, tokens);
      var n := if run.None? then 1 else run.value.count;
      forall i | 0 <= i < |tokens[n..]| ensures LexedAt(tokens[n..], i) {
        LexedShift(tokens, n, i);
      }
      QuotedRewrite(tokens[n..]);
      assert tokens == tokens[..n] + tokens[n..];
      QuotedConcat(tokens[..n], tokens[n..]);
      if run.None? {
        QuotedConcat([tokens[0]], RewriteTokens(tokens[1..]));
        assert tokens[..1] == [tokens[0]];
      } else {
        QuotedRun(0, tokens);
        QuotedReplacement(run.value.literals);
        QuotedConcat(ReplacementTokens(run.value.literals), RewriteTokens(tokens[n..]));
      }
    }
  }

  lemma {:induction false} LexedShift(tokens: seq<Token>, n: nat, i: nat)
    requires Lexed(tokens) && n + i < |tokens|
    ensures LexedAt(tokens[n..], i)
  {
    assert LexedAt(tokens, n + i);
  }

  // ---------------------------------------------------------------------------
  // Re-lexing the output
  // ---------------------------------------------------------------------------

  /** In a text that begins with `ARRAY[`, the word `ARRAY` is a token of its own. */
  lemma {:induction false} ArrayFirst(u: string)
    requires "ARRAY[" <= u
    ensures Tokens(u) == [Token(Word, "ARRAY")] + Tokens(u[5..])
    ensures Canonical(u) == "ARRAY" + Canonical(u[5..])
  {
    hide Tokens, Canonical;
    assert u == "ARRAY" + u[5..] && u[5] == '[';
    KeptWord("ARRAY", u[5..]);
  }

  /** How the tokens of the output relate to the rewritten tokens of the input. */
  ghost predicate Related(output: seq<Token>, rewritten: seq<Token>, glues: nat) {
    && |output| + glues == |rewritten|
    && (glues == 0 ==> output == rewritten)
    && Quoted(output) == Quoted(rewritten)
  }

  lemma {:induction false} RelatedTail(a: seq<Token>, output: seq<Token>, rewritten: seq<Token>, glues: nat)
    requires Related(output, rewritten, glues)
    ensures Related(a + output, a + rewritten, glues)
  {
    QuotedConcat(a, output);
    QuotedConcat(a, rewritten);
  }

  lemma {:induction false} RelatedGlue(w: Token, g: Token, first: Token, rest: seq<Token>, rewritten: seq<Token>,
                                       glues: nat)
    requires w.kind.Word? && g.kind.Word? && first.kind.Word?
    requires Related([first] + rest, rewritten, glues)
    ensures Related([g] + rest, [w] + rewritten, 1 + glues)
  {
  }

  lemma {:induction false} RelexCanonical(s: string)
    ensures Related(Tokens(Canonical(s)), RewriteTokens(Tokens(s)), Glues(s))
    decreases |s|
  {
    hide Scan, Accept, Related, Replacement, ReplacementTokens, GluedHere;
    if s == "" {
      RelatedNothing();
    } else if IsSpace(s[0]) {
      RelexCanonical(s[1..]);
      assert Canonical(s)[0] == s[0] && Canonical(s)[1..] == Canonical(s[1..]);
    } else if RunAt(s).Some? {
      var run := RunAt(s).value;
      RunLiteralsClosed(0, s);
      KeptReplacement(run.literals, Canonical(Skip(s, run.count)));
      RelexCanonical(Skip(s, run.count));
      SkipTokens(s, run.count);
      RelatedTail(ReplacementTokens(run.literals), Tokens(Canonical(Skip(s, run.count))),
                  RewriteTokens(Tokens(Skip(s, run.count))), Glues(Skip(s, run.count)));
    } else {
      RelexToken(s);
    }
  }

  lemma {:induction false} RelatedNothing()
    ensures Related([], [], 0)
  {
  }

  lemma {:induction false} RelexToken(s: string)
    requires AtToken(s) && RunAt(s) == None
    ensures Related(Tokens(Canonical(s)), RewriteTokens(Tokens(s)), Glues(s))
    decreases |s|, 0
  {
    hide Scan, Accept, Related, Replacement, ReplacementTokens;
    HeadOfCanonical(s);
    RelexCanonical(After(s));
    assert Tokens(s)[0] == Head(s) && Tokens(s)[1..] == Tokens(After(s));
    var u := Canonical(After(s));
    if GluedHere(s) {
      ArrayFirst(u);
      RelatedGlue(Head(s), Token(Word, Head(s).text + "ARRAY"), Token(Word, "ARRAY"), Tokens(u[5..]),
                  RewriteTokens(Tokens(After(s))), Glues(After(s)));
    } else {
      RelatedTail([Head(s)], Tokens(u), RewriteTokens(Tokens(After(s))), Glues(After(s)));
    }
  }

  /** Lexing the canonical form gives the same literals and opaque stretches, in the same order. */
  lemma {:induction false} QuotedTextIsKept(s: string)
    ensures Quoted(Tokens(Canonical(s))) == Quoted(Tokens(s))
  {
    RelexCanonical(s);
    TokensAreLexed(s);
    QuotedRewrite(Tokens(s));
  }

  /** Two constraints that differ in a quoted value, a quoted name or a comment never become equal. */
  lemma {:induction false} EqualFormsHaveEqualValues(a: string, b: string)
    requires Canonical(a) == Canonical(b)
    ensures Quoted(Tokens(a)) == Quoted(Tokens(b))
  {
    QuotedTextIsKept(a);
    QuotedTextIsKept(b);
  }

  /** The pass is exactly the rewrite of the token sequence if and only if no word touches a rewritten run. */
  lemma {:induction false} RewritesTokensExactlyWhenNothingIsGlued(s: string)
    ensures Tokens(Canonical(s)) == RewriteTokens(Tokens(s)) <==> Glues(s) == 0
  {
    RelexCanonical(s);
  }

  // ---------------------------------------------------------------------------
  // Idempotence
  // ---------------------------------------------------------------------------

  /** Rewriting the text never completes a run that was not complete before. */
  lemma {:induction false} NoNewRun(q: nat, s: string)
    requires q > 0 && Accept(q, Tokens(Canonical(s))).Some?
    ensures Accept(q, Tokens(s)).Some?
    decreases |s|
  {
    hide Scan, Replacement, JoinTokens;
    if q >= FINAL || s == "" {
    } else if IsSpace(s[0]) {
      assert Canonical(s)[0] == s[0] && Canonical(s)[1..] == Canonical(s[1..]);
      NoNewRun(q, s[1..]);
    } else if RunAt(s).Some? {
      var run := RunAt(s).value;
      RunLiteralsClosed(0, s);
      RunHasLiterals(s);
      KeptReplacement(run.literals, Canonical(Skip(s, run.count)));
      NoRunFromReplacement(q, run.literals, Tokens(Canonical(Skip(s, run.count))));
    } else {
      NoNewRunToken(q, s);
    }
  }

  lemma {:induction false} RunHasLiterals(s: string)
    requires RunAt(s).Some?
    ensures RunAt(s).value.literals != []
  {
    var t := Tokens(s);
    assert Accept(1, t[1..]).Some? && Accept(2, t[1..][1..]).Some? && Accept(3, t[1..][1..][1..]).Some?;
  }

  lemma {:induction false} NoRunFromReplacement(q: nat, literals: seq<string>, rest: seq<Token>)
    requires 0 < q < FINAL && literals != []
    ensures Accept(q, ReplacementTokens(literals) + rest) == None
  {
    var t := ReplacementTokens(literals) + rest;
    assert t[0] == Token(Word, "ARRAY") && t[1..][0] == Token(Symbol, "[");
    assert JoinTokens(literals)[0] == Token(Symbol, "(");
    assert t[1..][1..][0] == Token(Symbol, "(");
    assert Accept(3, t[1..][1..]) == None;
    assert Accept(2, t[1..]) == None;
  }

  lemma {:induction false} NoNewRunToken(q: nat, s: string)
    requires 0 < q < FINAL && AtToken(s) && RunAt(s) == None
    requires Accept(q, Tokens(Canonical(s))).Some?
    ensures Accept(q, Tokens(s)).Some?
    decreases |s|, 0
  {
    hide Scan, Replacement, JoinTokens, RunAt;
    HeadOfCanonical(s);
    var c := Canonical(s);
    assert Tokens(c)[0] == Head(c) && Tokens(c)[1..] == Tokens(After(c));
    assert Tokens(s)[0] == Head(s) && Tokens(s)[1..] == Tokens(After(s));
    GrownWordFits(q, Head(s).text);
    NoNewRun(Step(q, Head(s)).value, After(s));
  }

  /** No state waits for a word that `ARRAY` was appended to. */
  lemma {:induction false} GrownWordFits(q: nat, w: string)
    requires w != ""
    ensures Step(q, Token(Word, w + "ARRAY")) == None
  {
    var g := w + "ARRAY";
    assert g[|g| - 1] == 'Y' && |g| > 5;
  }

  /** A second pass changes nothing. */
  lemma {:induction false} CanonicalIdempotent(s: string)
    ensures Canonical(Canonical(s)) == Canonical(s)
    decreases |s|
  {
    hide Scan, Accept, Replacement;
    if s == "" {
    } else if IsSpace(s[0]) {
      CanonicalIdempotent(s[1..]);
      assert Canonical(s)[0] == s[0] && Canonical(s)[1..] == Canonical(s[1..]);
    } else if RunAt(s).Some? {
      var run := RunAt(s).value;
      RunLiteralsClosed(0, s);
      CanonicalIdempotent(Skip(s, run.count));
      KeptReplacement(run.literals, Canonical(Skip(s, run.count)));
    } else {
      IdempotentToken(s);
    }
  }

  lemma {:induction false} IdempotentToken(s: string)
    requires AtToken(s) && RunAt(s) == None
    ensures Canonical(Canonical(s)) == Canonical(s)
    decreases |s|, 0
  {
    hide Scan, Replacement;
    HeadOfCanonical(s);
    CanonicalIdempotent(After(s));
    var c, u := Canonical(s), Canonical(After(s));
    if GluedHere(s) {
      ArrayFirst(u);
      KeepHead(c);
      assert u == "ARRAY" + u[5..];
    } else {
      assert Tokens(c)[0] == Head(s) && Tokens(c)[1..] == Tokens(u);
      assert Tokens(s)[0] == Head(s) && Tokens(s)[1..] == Tokens(After(s));
      if RunAt(c).Some? {
        NoNewRun(1, After(s));
      }
    }
  }

  // ---------------------------------------------------------------------------
  // What is rewritten
  // ---------------------------------------------------------------------------

  function Rank(q: nat): nat {
    if q < 3 then 20 - q else if q == 3 then 12 else if q < 8 then 20 - q else if q < FINAL then FINAL - q else 0
  }

  /** The token texts of a run from state `q` on: the elements are separated by commas, the casts follow. */
  function Spelled(q: nat, literals: seq<string>): seq<string>
    decreases |literals|, Rank(q)
  {
    if q >= FINAL then []
    else if q == 3 then
      if literals == [] then [] else [literals[0]] + Spelled(4, literals[1..])
    else if q == 7 then
      if literals == [] then ["]"] + Spelled(8, []) else [","] + Spelled(3, literals)
    else [Expected(q)] + Spelled(q + 1, literals)
  }

  function Texts(tokens: seq<Token>): seq<string> {
    if tokens == [] then [] else [tokens[0].text] + Texts(tokens[1..])
  }

  /** Only a complete cast array of varchar literals is rewritten, and the literals come out in their order. */
  lemma {:induction false} OnlyCastArraysAreRewritten(q: nat, tokens: seq<Token>)
    requires q <= FINAL && Accept(q, tokens).Some?
    ensures var run := Accept(q, tokens).value;
            && Texts(tokens[..run.count]) == Spelled(q, run.literals)
            && (q == 3 ==> run.literals != [])
            && (q >= 8 ==> run.literals == [])
    decreases |tokens|
  {
    hide Expected;
    var run := Accept(q, tokens).value;
    if q < FINAL {
      var next := Step(q, tokens[0]).value;
      OnlyCastArraysAreRewritten(next, tokens[1..]);
      assert tokens[..run.count][1..] == tokens[1..][..run.count - 1];
    }
  }
}
