/**
 How lexing behaves under concatenation: which tokens stay the same when the text behind them is
 rewritten, and how the symbols, words and literals of a rewritten array lex.
 */
module ConstraintLexing {
  import opened Prelude
  import opened ConstraintText

  /**
   `u` may stand where `r` stood without changing the token before it, except that a word grows
   when `u` puts `ARRAY[` where `r` had an opening parenthesis.
   */
  ghost predicate Near(r: string, u: string) {
    if r == "" then u == ""
    else
      && u != ""
      && if u[0] == r[0] then WordChar(r[0]) ==> Near(r[1..], u[1..])
         else r[0] == '(' && "ARRAY[" <= u
  }

  lemma {:induction false} NearPrefix(w: string, r: string, u: string)
    requires Near(r, u)
    ensures Near(w + r, w + u)
  {
    if w == "" {
      assert w + r == r && w + u == u;
    } else {
      NearPrefix(w[1..], r, u);
      assert (w + r)[1..] == w[1..] + r && (w + u)[1..] == w[1..] + u;
    }
  }

  /** The character after a token decides as much as the lexer ever looks ahead. */
  ghost predicate Follows(r: string, u: string) {
    r != "" && u != "" && (u[0] == r[0] || (r[0] == '(' && u[0] == 'A'))
  }

  lemma {:induction false} ArrayRun(u: string)
    requires "ARRAY[" <= u
    ensures WordRun(u) == 5 && TagRest(u) == None
  {
    assert u[0] == 'A' && u[1] == 'R' && u[2] == 'R' && u[3] == 'A' && u[4] == 'Y' && u[5] == '[';
    assert WordRun(u[5..]) == 0 && TagRest(u[5..]) == None;
    assert u[4..][1..] == u[5..];
    assert WordRun(u[4..]) == 1 && TagRest(u[4..]) == None;
    assert u[3..][1..] == u[4..];
    assert WordRun(u[3..]) == 2 && TagRest(u[3..]) == None;
    assert u[2..][1..] == u[3..];
    assert WordRun(u[2..]) == 3 && TagRest(u[2..]) == None;
    assert u[1..][1..] == u[2..];
    assert WordRun(u[1..]) == 4 && TagRest(u[1..]) == None;
  }

  lemma {:induction false} NearTag(r: string, u: string)
    requires Near(r, u)
    ensures TagRest(u) == TagRest(r) && Tag(u) == Tag(r)
  {
    if r == "" {
    } else if u[0] == r[0] {
      if WordChar(r[0]) {
        NearTag(r[1..], u[1..]);
      }
    } else {
      ArrayRun(u);
    }
  }

  lemma {:induction false} TagPrefix(x: string, r: string, u: string)
    requires TagRest(x + r).Some? && TagRest(x + r).value <= |x|
    ensures TagRest(x + u) == TagRest(x + r)
  {
    assert (x + r)[0] == x[0] && (x + u)[0] == x[0];
    if x[0] != '$' {
      assert (x + r)[1..] == x[1..] + r && (x + u)[1..] == x[1..] + u;
      TagPrefix(x[1..], r, u);
    }
  }

  lemma {:induction false} FindUnfold(s: string, p: string)
    requires !(p <= s) && s != ""
    ensures Find(s, p) == match Find(s[1..], p) case None => None case Some(k) => Some(k + 1)
  {
  }

  lemma {:induction false} FindHere(s: string, p: string)
    ensures Find(s, p) == Some(0) <==> p <= s
  {
  }

  lemma {:induction false} StartsIn(x: string, r: string, p: string)
    requires |p| <= |x|
    ensures p <= x + r <==> p <= x
  {
    assert (x + r)[..|p|] == x[..|p|];
  }

  lemma {:induction false} FindPrefix(x: string, r: string, u: string, p: string)
    requires p != ""
    requires Find(x + r, p).Some? && Find(x + r, p).value + |p| <= |x|
    ensures Find(x + u, p) == Find(x + r, p)
    decreases |x|
  {
    hide Find;
    StartsIn(x, r, p);
    StartsIn(x, u, p);
    FindHere(x + r, p);
    FindHere(x + u, p);
    if !(p <= x) {
      FindUnfold(x + r, p);
      FindUnfold(x + u, p);
      assert (x + r)[1..] == x[1..] + r && (x + u)[1..] == x[1..] + u;
      FindPrefix(x[1..], r, u, p);
    }
  }

  lemma {:induction false} TwoAhead(x: string, r: string, u: string, p: string)
    requires x != "" && |p| == 2 && p[1] != '(' && p[1] != 'A'
    requires Follows(r, u)
    ensures p <= x + u <==> p <= x + r
  {
  }

  lemma {:induction false} CommentPrefix(x: string, r: string, u: string, depth: nat)
    requires Follows(r, u)
    requires CommentEnd(x + r, depth) == |x|
    ensures CommentEnd(x + u, depth) == |x|
  {
    if x == "" {
      assert x + r == r;
      assert depth == 0;
    } else {
      TwoAhead(x, r, u, "/*");
      TwoAhead(x, r, u, "*/");
      if |x| >= 2 {
        assert (x + r)[2..] == x[2..] + r && (x + u)[2..] == x[2..] + u;
      }
      assert (x + r)[1..] == x[1..] + r && (x + u)[1..] == x[1..] + u;
      if "/*" <= x + r {
        CommentPrefix(x[2..], r, u, depth + 1);
      } else if "*/" <= x + r {
        CommentPrefix(x[2..], r, u, depth - 1);
      } else {
        CommentPrefix(x[1..], r, u, depth);
      }
    }
  }

  lemma {:induction false} QuotePrefix(x: string, r: string, u: string, quote: char, escaped: bool)
    requires r != "" && (u == "" || u[0] != quote || u[0] == r[0])
    requires QuoteEnd(x + r, quote, escaped) == |x|
    ensures QuoteEnd(x + u, quote, escaped) == |x|
  {
    assert x == "" ==> x + r == r;
    assert (x + r)[0] == x[0] && (x + u)[0] == x[0];
    assert (x + r)[1..] == x[1..] + r && (x + u)[1..] == x[1..] + u;
    if |x| >= 2 {
      assert (x + r)[1] == x[1] && (x + u)[1] == x[1];
      assert (x + r)[2..] == x[2..] + r && (x + u)[2..] == x[2..] + u;
    }
    if escaped && x[0] == '\\' {
      QuotePrefix(x[2..], r, u, quote, escaped);
    } else if x[0] == quote {
      if (x + r)[1] == quote {
        QuotePrefix(x[2..], r, u, quote, escaped);
      } else {
        assert |x| == 1 && (x + r)[1] == r[0];
        assert u != "" ==> (x + u)[1] == u[0];
      }
    } else {
      QuotePrefix(x[1..], r, u, quote, escaped);
    }
  }

  ghost predicate AllWord(w: string) {
    forall i :: 0 <= i < |w| ==> WordChar(w[i])
  }

  lemma {:induction false} WordRunAll(s: string)
    ensures AllWord(s[..WordRun(s)])
    ensures WordRun(s) < |s| ==> !WordChar(s[WordRun(s)])
  {
    if s == "" || !WordChar(s[0]) {
    } else {
      WordRunAll(s[1..]);
      forall i | 0 <= i < WordRun(s) ensures WordChar(s[..WordRun(s)][i]) {
        if i > 0 {
          assert s[1..][..WordRun(s[1..])][i - 1] == s[i];
        }
      }
    }
  }

  lemma {:induction false} WordRunPrefix(w: string, u: string)
    requires AllWord(w)
    ensures WordRun(w + u) == |w| + WordRun(u)
  {
    if w == "" {
      assert w + u == u;
    } else {
      assert (w + u)[1..] == w[1..] + u;
      WordRunPrefix(w[1..], u);
    }
  }

  // ---------------------------------------------------------------------------
  // The first token does not depend on the text behind it
  // ---------------------------------------------------------------------------

  /** The first token is a word, and the text behind it now begins with `ARRAY[` instead of `(`. */
  ghost predicate Grows(x: string, r: string, u: string)
    requires AtToken(x + r)
  {
    Scan(x + r).0.Word? && r != "" && r[0] == '(' && "ARRAY[" <= u && u[0] != r[0]
  }

  /** The tests the lexer makes before it commits to a kind of token come out the same. */
  lemma {:induction false} SameTests(x: string, r: string, u: string)
    requires x != "" && Follows(r, u)
    ensures "--" <= x + u <==> "--" <= x + r
    ensures "/*" <= x + u <==> "/*" <= x + r
    ensures "::" <= x + u <==> "::" <= x + r
    ensures EscapeOpens(x + u) <==> EscapeOpens(x + r)
    ensures (x + u)[0] == (x + r)[0] == x[0]
  {
  }

  lemma {:induction false} SameLineComment(x: string, r: string, u: string)
    requires Follows(r, u) && |x| >= 2
    requires Find((x + r)[2..], "\n") == Some(|x| - 2)
    ensures Find((x + u)[2..], "\n") == Some(|x| - 2)
  {
    hide Find;
    var w := x[2..];
    assert (x + r)[2..] == w + r && (x + u)[2..] == w + u;
    assert (w + r)[|w|..] == r;
    assert r[0] == '\n' && u[0] == '\n';
    assert w + r == w + "\n" + r[1..] && w + u == w + "\n" + u[1..];
    FindPrefix(w + "\n", r[1..], u[1..], "\n");
  }

  lemma {:induction false} SameComment(x: string, r: string, u: string)
    requires AtToken(x + r) && Follows(r, u)
    requires "--" <= x + r || "/*" <= x + r
    requires Scan(x + r).1 == |x|
    ensures AtToken(x + u) && Scan(x + u) == Scan(x + r)
  {
    hide Find, TagRest, DollarEnd, CommentEnd, QuoteEnd, WordRun, Tag;
    assert |x| >= 2;
    SameTests(x, r, u);
    if "--" <= x + r {
      assert Find((x + r)[2..], "\n") == Some(|x| - 2);
      SameLineComment(x, r, u);
    } else {
      assert (x + r)[2..] == x[2..] + r && (x + u)[2..] == x[2..] + u;
      CommentPrefix(x[2..], r, u, 1);
    }
  }

  lemma {:induction false} SameQuoted(x: string, r: string, u: string)
    requires AtToken(x + r) && Follows(r, u)
    requires !("--" <= x + r) && !("/*" <= x + r) && (EscapeOpens(x + r) || Quote((x + r)[0]))
    requires Scan(x + r).1 == |x|
    ensures AtToken(x + u) && Scan(x + u) == Scan(x + r)
  {
    assert x != "";
    SameTests(x, r, u);
    if EscapeOpens(x + r) {
      assert |x| >= 2;
      assert (x + r)[2..] == x[2..] + r && (x + u)[2..] == x[2..] + u;
      QuotePrefix(x[2..], r, u, '\'', true);
    } else {
      assert (x + r)[1..] == x[1..] + r && (x + u)[1..] == x[1..] + u;
      QuotePrefix(x[1..], r, u, x[0], false);
    }
  }

  lemma {:induction false} SameDollarEnd(x: string, r: string, u: string, m: nat)
    requires r != "" && 0 < m <= |x| && DollarEnd(x + r, m) == |x|
    ensures DollarEnd(x + u, m) == |x|
  {
    assert (x + r)[m..] == x[m..] + r && (x + u)[m..] == x[m..] + u;
    assert (x + r)[..m] == x[..m] == (x + u)[..m];
    FindPrefix(x[m..], r, u, x[..m]);
  }

  lemma {:induction false} SameDollar(x: string, r: string, u: string)
    requires AtToken(x + r) && Near(r, u) && Follows(r, u)
    requires (x + r)[0] == '$'
    requires Scan(x + r).1 == |x|
    ensures AtToken(x + u) && Scan(x + u) == Scan(x + r)
  {
    hide Find, TagRest, DollarEnd, CommentEnd, QuoteEnd, WordRun;
    assert x != "";
    SameTests(x, r, u);
    assert (x + r)[1..] == x[1..] + r && (x + u)[1..] == x[1..] + u;
    if Tag((x + r)[1..]).Some? {
      var m := 1 + Tag((x + r)[1..]).value;
      SameDollarEnd(x, r, u, m);
      TagPrefix(x[1..], r, u);
    } else {
      assert |x| == 1 && x[1..] + r == r && x[1..] + u == u;
      NearTag(r, u);
    }
  }

  lemma {:induction false} SameWord(x: string, r: string, u: string)
    requires AtToken(x + r) && Near(r, u) && Follows(r, u)
    requires Scan(x + r).0.Word? && Scan(x + r).1 == |x|
    ensures AtToken(x + u)
    ensures Scan(x + u) == (Word, if Grows(x, r, u) then |x| + 5 else |x|)
  {
    assert x != "";
    SameTests(x, r, u);
    WordRunAll(x + r);
    assert (x + r)[..|x|] == x && (x + r)[|x|] == r[0];
    WordRunPrefix(x, u);
    if u[0] != r[0] {
      ArrayRun(u);
    }
  }

  lemma {:induction false} SameSymbol(x: string, r: string, u: string)
    requires AtToken(x + r) && Near(r, u) && Follows(r, u)
    requires Scan(x + r).0.Symbol? && Scan(x + r).1 == |x| && (x + r)[0] != '$'
    ensures AtToken(x + u) && Scan(x + u) == Scan(x + r)
  {
  }

  /** Rewriting the text behind the first token leaves that token alone, unless it is a word that grows. */
  lemma {:induction false} SameHead(x: string, r: string, u: string)
    requires AtToken(x + r) && Near(r, u) && r != ""
    requires Scan(x + r).1 == |x|
    ensures AtToken(x + u)
    ensures Scan(x + u) == if Grows(x, r, u) then (Word, |x| + 5) else Scan(x + r)
  {
    hide CommentEnd, QuoteEnd, Find, TagRest, WordRun, DollarEnd, Tag;
    if "--" <= x + r || "/*" <= x + r {
      SameComment(x, r, u);
    } else if EscapeOpens(x + r) || Quote((x + r)[0]) {
      SameQuoted(x, r, u);
    } else if (x + r)[0] == '$' {
      SameDollar(x, r, u);
    } else if Letter((x + r)[0]) {
      SameWord(x, r, u);
    } else {
      SameSymbol(x, r, u);
    }
  }

  // ---------------------------------------------------------------------------
  // Lexing the pieces of a rewritten array
  // ---------------------------------------------------------------------------

  lemma {:induction false} HeadIs(w: string, v: string)
    requires AtToken(w + v) && Scan(w + v).1 == |w|
    ensures Head(w + v) == Token(Scan(w + v).0, w) && After(w + v) == v
    ensures Tokens(w + v) == [Token(Scan(w + v).0, w)] + Tokens(v)
  {
  }

  lemma {:induction false} BracketToken(c: char, v: string)
    requires c == '(' || c == ')' || c == '[' || c == ']' || c == ','
    ensures AtToken([c] + v) && Head([c] + v) == Token(Symbol, [c]) && After([c] + v) == v
    ensures Tokens([c] + v) == [Token(Symbol, [c])] + Tokens(v)
  {
  }

  lemma {:induction false} ColonsToken(v: string)
    ensures AtToken("::" + v) && Head("::" + v) == Token(Symbol, "::") && After("::" + v) == v
    ensures Tokens("::" + v) == [Token(Symbol, "::")] + Tokens(v)
  {
  }

  lemma {:induction false} WordToken(w: string, v: string)
    requires |w| > 1 && AllWord(w) && Letter(w[0])
    requires v == "" || !WordChar(v[0])
    ensures AtToken(w + v) && Head(w + v) == Token(Word, w) && After(w + v) == v
    ensures Tokens(w + v) == [Token(Word, w)] + Tokens(v)
  {
    hide Find, TagRest, DollarEnd, CommentEnd, QuoteEnd, Tokens;
    assert (w + v)[0] == w[0] && (w + v)[1] == w[1];
    WordRunPrefix(w, v);
    HeadIs(w, v);
  }

  /** A complete string literal: its last quote closes it whatever other character follows. */
  ghost predicate Closed(text: string) {
    |text| >= 2 && text[0] == '\'' && QuoteEnd(text[1..] + ":", '\'', false) == |text| - 1
  }

  lemma {:induction false} LiteralToken(text: string, v: string)
    requires Closed(text) && (v == "" || v[0] != '\'')
    ensures AtToken(text + v) && Head(text + v) == Token(Literal, text) && After(text + v) == v
    ensures Tokens(text + v) == [Token(Literal, text)] + Tokens(v)
  {
    QuotePrefix(text[1..], ":", v, '\'', false);
    assert (text + v)[0] == '\'' && (text + v)[1..] == text[1..] + v;
    HeadIs(text, v);
  }

  /** A literal that something follows is complete. */
  lemma {:induction false} LiteralClosed(s: string)
    requires AtToken(s) && Head(s).kind.Literal? && After(s) != ""
    ensures Closed(Head(s).text)
  {
    var n := Scan(s).1;
    assert s[1..] == s[1..n] + s[n..];
    QuotePrefix(s[1..n], s[n..], ":", '\'', false);
    assert s[..n][1..] == s[1..n];
  }
}
