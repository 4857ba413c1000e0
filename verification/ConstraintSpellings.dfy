/**
 The two spellings PostgreSQL gives a cast array have one canonical form wherever the array stands as
 tokens of its own in a constraint definition, and nowhere else.
 */
module ConstraintSpellings {
  import opened Prelude
  import opened ConstraintText
  import opened ConstraintLexing
  import opened ConstraintRewrite
  import opened ConstraintTheorems

  // ---------------------------------------------------------------------------
  // The two spellings of a cast array
  // ---------------------------------------------------------------------------

  function Elements(literals: seq<string>): string {
    if literals == [] then ""
    else if |literals| == 1 then literals[0] + "::character varying"
    else literals[0] + "::character varying" + (", " + Elements(literals[1..]))
  }

  /** The spelling with one cast around the whole array. */
  function Outer(literals: seq<string>): string {
    "(ARRAY[" + (Elements(literals) + "])::text[]")
  }

  /** From state `q` the automaton accepts at the head of `s`, collects `literals` and leaves `v`. */
  ghost predicate Runs(q: nat, s: string, literals: seq<string>, v: string) {
    && Accept(q, Tokens(s)).Some?
    && Accept(q, Tokens(s)).value.literals == literals
    && Skip(s, Accept(q, Tokens(s)).value.count) == v
  }

  lemma {:induction false} RunsStep(q: nat, s: string, literals: seq<string>, v: string)
    requires q < FINAL && q != 3 && AtToken(s)
    requires Step(q, Head(s)).Some? && Runs(Step(q, Head(s)).value, After(s), literals, v)
    ensures Runs(q, s, literals, v)
  {
  }

  lemma {:induction false} RunsLiteral(s: string, literals: seq<string>, v: string)
    requires AtToken(s) && Head(s).kind.Literal? && Runs(4, After(s), literals, v)
    ensures Runs(3, s, [Head(s).text] + literals, v)
  {
  }

  lemma {:induction false} RunsSpace(q: nat, s: string, literals: seq<string>, v: string)
    requires q < FINAL && Runs(q, s, literals, v)
    ensures Runs(q, " " + s, literals, v)
  {
  }

  lemma {:induction false} RunsBracket(q: nat, c: char, s: string, literals: seq<string>, v: string)
    requires c == '(' || c == ')' || c == '[' || c == ']' || c == ','
    requires q < FINAL && q != 3 && Step(q, Token(Symbol, [c])).Some?
    requires Runs(Step(q, Token(Symbol, [c])).value, s, literals, v)
    ensures Runs(q, [c] + s, literals, v)
  {
    hide Scan, Step, Runs;
    BracketToken(c, s);
    RunsStep(q, [c] + s, literals, v);
  }

  lemma {:induction false} RunsColons(q: nat, s: string, literals: seq<string>, v: string)
    requires (q == 4 || q == 9) && Runs(q + 1, s, literals, v)
    ensures Runs(q, "::" + s, literals, v)
  {
    hide Scan, Runs;
    ColonsToken(s);
    RunsStep(q, "::" + s, literals, v);
  }

  lemma {:induction false} RunsWord(q: nat, w: string, s: string, literals: seq<string>, v: string)
    requires w == Expected(q) && (q == 1 || q == 5 || q == 6 || q == 10)
    requires (s == "" || !WordChar(s[0])) && Runs(q + 1, s, literals, v)
    ensures Runs(q, w + s, literals, v)
  {
    hide Scan, Runs;
    WordToken(w, s);
    RunsStep(q, w + s, literals, v);
  }

  lemma {:induction false} TailText(v: string)
    ensures "])::text[]" + v == "]" + (")" + ("::" + ("text" + ("[" + ("]" + v)))))
  {
  }

  lemma {:induction false} RunsNothing(v: string)
    ensures Runs(FINAL, v, [], v)
  {
  }

  lemma {:induction false} RunsTail(v: string)
    ensures Runs(7, "])::text[]" + v, [], v)
  {
    RunsNothing(v);
    hide Scan, Runs, IsSpace, Accept, Tokens, Skip, Head, After;
    var s := "[" + ("]" + v);
    RunsBracket(12, ']', v, [], v);
    RunsBracket(11, '[', "]" + v, [], v);
    RunsTextCast(s, v);
    RunsBracket(7, ']', ")" + ("::" + ("text" + s)), [], v);
    TailText(v);
  }

  lemma {:induction false} RunsTextCast(s: string, v: string)
    requires Runs(11, s, [], v) && (s == "" || !WordChar(s[0]))
    ensures Runs(8, ")" + ("::" + ("text" + s)), [], v)
  {
    hide Scan, Runs, IsSpace, Accept, Tokens, Skip, Head, After;
    RunsWord(10, "text", s, [], v);
    RunsColons(9, "text" + s, [], v);
    RunsBracket(8, ')', "::" + ("text" + s), [], v);
  }

  lemma {:induction false} RunsElement(literal: string, s: string, literals: seq<string>, v: string)
    requires Closed(literal) && Runs(7, s, literals, v) && (s == "" || !WordChar(s[0]))
    ensures Runs(3, literal + ("::character varying" + s), [literal] + literals, v)
  {
    hide Scan, Runs, IsSpace, Accept, Tokens, Closed;
    RunsWord(6, "varying", s, literals, v);
    RunsSpace(6, "varying" + s, literals, v);
    RunsWord(5, "character", " " + ("varying" + s), literals, v);
    RunsColons(4, "character" + (" " + ("varying" + s)), literals, v);
    TypeText(s);
    LiteralToken(literal, "::character varying" + s);
    RunsLiteral(literal + ("::character varying" + s), literals, v);
  }

  lemma {:induction false} RunsElements(literals: seq<string>, v: string)
    requires literals != [] && AllClosed(literals)
    ensures Runs(3, Elements(literals) + ("])::text[]" + v), literals, v)
  {
    hide Scan, Runs, IsSpace, Accept, Tokens, Closed;
    var tail := "])::text[]" + v;
    if |literals| == 1 {
      RunsTail(v);
      RunsElement(literals[0], tail, [], v);
      assert [literals[0]] + [] == literals;
      assert Elements(literals) + tail == literals[0] + ("::character varying" + tail);
    } else {
      var rest := Elements(literals[1..]) + tail;
      RunsElements(literals[1..], v);
      RunsSpace(3, rest, literals[1..], v);
      RunsBracket(7, ',', " " + rest, literals[1..], v);
      RunsElement(literals[0], "," + (" " + rest), literals[1..], v);
      assert [literals[0]] + literals[1..] == literals;
      ElementsText(literals, tail);
    }
  }

  lemma {:induction false} ElementsText(literals: seq<string>, tail: string)
    requires |literals| > 1
    ensures Elements(literals) + tail
         == literals[0] + ("::character varying" + ("," + (" " + (Elements(literals[1..]) + tail))))
  {
  }

  lemma {:induction false} OuterRuns(literals: seq<string>, v: string)
    requires literals != [] && AllClosed(literals)
    ensures AtToken(Outer(literals) + v) && Runs(0, Outer(literals) + v, literals, v)
  {
    hide Scan, Runs, IsSpace, Accept, Tokens, Closed, Elements;
    var rest := Elements(literals) + ("])::text[]" + v);
    RunsElements(literals, v);
    RunsBracket(2, '[', rest, literals, v);
    RunsWord(1, "ARRAY", "[" + rest, literals, v);
    RunsBracket(0, '(', "ARRAY" + ("[" + rest), literals, v);
    BracketToken('(', "ARRAY" + ("[" + rest));
    assert Outer(literals) + v == "(" + ("ARRAY" + ("[" + rest)) by {
      assert "(ARRAY[" == "(" + "ARRAY" + "[";
    }
  }

  lemma {:induction false} ReplacementText(literals: seq<string>)
    ensures Replacement(literals) == "ARRAY" + ("[" + (Join(literals) + "]"))
  {
  }

  lemma {:induction false} OuterStarts(literals: seq<string>)
    ensures Outer(literals) != "" && Outer(literals)[0] == '('
  {
  }

  /** The first spelling with nothing in front of it. */
  lemma {:induction false} SpellingsAgreeInFront(literals: seq<string>, v: string)
    requires literals != [] && AllClosed(literals)
    ensures Canonical(Outer(literals) + v) == Replacement(literals) + Canonical(v)
    ensures Canonical(Replacement(literals) + v) == Canonical(Outer(literals) + v)
  {
    hide Scan, Accept, Tokens, Closed, Elements, Replacement, Outer;
    OuterRuns(literals, v);
    KeptReplacement(literals, v);
  }

  // ---------------------------------------------------------------------------
  // Text in front of the array
  // ---------------------------------------------------------------------------

  /** The cursor that reads `p + t` comes to stand between the two. */
  ghost predicate Cut(p: string, t: string)
    decreases |p|
  {
    p == "" ||
    if IsSpace(p[0]) then Cut(p[1..], t)
    else Scan(p + t).1 <= |p| && Cut(p[Scan(p + t).1..], t)
  }

  /** The two spellings as the text in front of them sees them. */
  ghost predicate Spellings(r: string, u: string) {
    && AtToken(r) && r[0] == '(' && Head(r) == Token(Symbol, "(")
    && "ARRAY[" <= u && forall q: nat :: 0 < q < FINAL ==> NoRun(q, u)
  }

  ghost predicate NoRun(q: nat, s: string) {
    Accept(q, Tokens(s)) == None
  }

  lemma {:induction false} BothSpellings(literals: seq<string>, v: string)
    requires literals != [] && AllClosed(literals)
    ensures Spellings(Outer(literals) + v, Replacement(literals) + v)
  {
    hide Scan, Tokens, Closed, Join, JoinTokens, Canonical, Accept, AllClosed, Outer, Replacement;
    var r, u := Outer(literals) + v, Replacement(literals) + v;
    OuterStarts(literals);
    assert r == ['('] + r[1..];
    BracketToken('(', r[1..]);
    ReplacementStarts(literals, v);
    KeptReplacement(literals, v);
    forall q: nat | 0 < q < FINAL
      ensures NoRun(q, u)
    {
      NoRunFromReplacement(q, literals, Tokens(v));
    }
  }

  lemma {:induction false} SpellingsNear(r: string, u: string)
    requires Spellings(r, u)
    ensures r != "" && r[0] == '(' && u != "" && u[0] == 'A' && "ARRAY[" <= u && Near(r, u)
  {
    hide Scan, Accept, Tokens;
  }

  /** A token that ends in front of the array is the same in front of both, or a word that `ARRAY` is appended to. */
  lemma {:induction false} HeadInFront(p: string, r: string, u: string)
    requires Spellings(r, u) && AtToken(p) && Scan(p + r).1 <= |p|
    ensures var n, kind := Scan(p + r).1, Scan(p + r).0;
            && Head(p + r) == Token(kind, p[..n]) && After(p + r) == p[n..] + r
            && if n == |p| && kind.Word?
               then Head(p + u) == Token(Word, p + "ARRAY") && After(p + u) == u[5..]
               else Head(p + u) == Head(p + r) && After(p + u) == p[n..] + u && Scan(p + u) == Scan(p + r)
  {
    hide Scan, Spellings, Accept, Tokens;
    var n := Scan(p + r).1;
    var x, y := p[..n], p[n..];
    SpellingsNear(r, u);
    NearPrefix(y, r, u);
    assert p + r == x + (y + r) && p + u == x + (y + u);
    SameHead(x, y + r, y + u);
    HeadIs(x, y + r);
    if n == |p| && Scan(p + r).0.Word? {
      assert y + r == r && y + u == u && x == p;
      assert (p + u)[..|p| + 5] == p + u[..5] && u[..5] == "ARRAY";
      assert (p + u)[|p| + 5..] == u[5..];
    } else {
      HeadIs(x, y + u);
    }
  }

  // ---------------------------------------------------------------------------
  // Runs in front of the array
  // ---------------------------------------------------------------------------

  /** The automaton does the same in front of both spellings, and a run it finds ends at or before the array. */
  ghost predicate SameRun(q: nat, p: string, r: string, u: string, m: nat) {
    var run := Accept(q, Tokens(p + r));
    && Accept(q, Tokens(p + u)) == run
    && (run.Some? ==>
          && m <= |p| && Cut(p[m..], r)
          && Skip(p + r, run.value.count) == p[m..] + r && Skip(p + u, run.value.count) == p[m..] + u)
  }

  lemma {:induction false} RunsInFront(q: nat, p: string, r: string, u: string) returns (m: nat)
    requires q > 0 && Spellings(r, u) && Cut(p, r)
    ensures SameRun(q, p, r, u, m)
    decreases |p|
  {
    hide Scan, Spellings, Step;
    if q >= FINAL {
      m := 0;
      assert p[0..] == p;
    } else if p == "" {
      m := 0;
      NoRunAtArray(q, r, u);
    } else if IsSpace(p[0]) {
      var k := RunsInFront(q, p[1..], r, u);
      m := k + 1;
      assert (p + r)[1..] == p[1..] + r && (p + u)[1..] == p[1..] + u;
      assert k <= |p| - 1 ==> p[1..][k..] == p[k + 1..];
    } else {
      m := TokenInFront(q, p, r, u);
    }
  }

  lemma {:induction false} NoRunAtArray(q: nat, r: string, u: string)
    requires 0 < q < FINAL && Spellings(r, u)
    ensures Accept(q, Tokens("" + r)) == None && Accept(q, Tokens("" + u)) == None
    ensures Accept(q, Tokens(r)) == None && Accept(q, Tokens(u)) == None
  {
    hide Scan;
    assert "" + r == r && "" + u == u;
    assert Tokens(r)[0] == Head(r);
    assert NoRun(q, u);
  }

  lemma {:induction false} TokenInFront(q: nat, p: string, r: string, u: string) returns (m: nat)
    requires q < FINAL && Spellings(r, u) && AtToken(p) && Cut(p, r)
    ensures SameRun(q, p, r, u, m)
    ensures Accept(q, Tokens(p + r)).Some? ==> m > 0
    decreases |p|, 0
  {
    hide Scan, Spellings, Step, Skip, Tokens, Head, After;
    var n := Scan(p + r).1;
    HeadInFront(p, r, u);
    UnfoldTokens(p + r);
    UnfoldTokens(p + u);
    if n == |p| && Scan(p + r).0.Word? {
      m := 0;
      WordAtArray(q, p, r, u);
    } else if Step(q, Head(p + r)).Some? {
      var next := Step(q, Head(p + r)).value;
      assert next > 0 by { StepForward(q, Head(p + r)); }
      var k := RunsInFront(next, p[n..], r, u);
      m := n + k;
      assert k <= |p[n..]| ==> p[n..][k..] == p[n + k..];
    } else {
      m := 0;
    }
  }

  lemma {:induction false} UnfoldTokens(s: string)
    requires AtToken(s)
    ensures Tokens(s) != [] && Tokens(s)[0] == Head(s) && Tokens(s)[1..] == Tokens(After(s))
    ensures forall k: nat {:trigger Skip(After(s), k)} :: Skip(s, k + 1) == Skip(After(s), k)
  {
  }

  lemma {:induction false} StepForward(q: nat, token: Token)
    ensures Step(q, token).Some? ==> Step(q, token).value > 0
  {
  }

  /** A word right in front of the array belongs to no run, and neither does the word it becomes. */
  lemma {:induction false} WordAtArray(q: nat, p: string, r: string, u: string)
    requires q < FINAL && Spellings(r, u) && AtToken(p)
    requires Head(p + r) == Token(Word, p) && After(p + r) == r && Head(p + u) == Token(Word, p + "ARRAY")
    ensures Accept(q, Tokens(p + r)) == None && Accept(q, Tokens(p + u)) == None
  {
    hide Scan, Spellings, Tokens, Skip, Head, After;
    UnfoldTokens(p + r);
    UnfoldTokens(p + u);
    GrownWordFits(q, p);
    WordIsNoBracket(p + r);
    var next := Step(q, Head(p + r));
    if next.Some? {
      NoRunAtArray(next.value, r, u);
    }
  }

  lemma {:induction false} WordIsNoBracket(s: string)
    requires AtToken(s) && Head(s).kind.Word?
    ensures Letter(Head(s).text[0])
  {
  }

  // ---------------------------------------------------------------------------
  // The array inside a quoted text
  // ---------------------------------------------------------------------------

  lemma {:induction false} CommentThrough(x: string, r: string, u: string, depth: nat)
    requires Follows(r, u) && r[0] == '(' && CommentEnd(x + r, depth) > |x|
    ensures CommentEnd(x + u, depth) > |x|
  {
    if x == "" {
      assert x + r == r && x + u == u;
    } else {
      TwoAhead(x, r, u, "/*");
      TwoAhead(x, r, u, "*/");
      if |x| >= 2 {
        assert (x + r)[2..] == x[2..] + r && (x + u)[2..] == x[2..] + u;
      } else {
        assert (x + r)[1] == '(';
      }
      assert (x + r)[1..] == x[1..] + r && (x + u)[1..] == x[1..] + u;
      if "/*" <= x + r {
        CommentThrough(x[2..], r, u, depth + 1);
      } else if "*/" <= x + r {
        CommentThrough(x[2..], r, u, depth - 1);
      } else {
        CommentThrough(x[1..], r, u, depth);
      }
    }
  }

  lemma {:induction false} QuoteThrough(x: string, r: string, u: string, quote: char, escaped: bool)
    requires r != "" && u != "" && r[0] != quote && u[0] != quote
    requires QuoteEnd(x + r, quote, escaped) > |x|
    ensures QuoteEnd(x + u, quote, escaped) > |x|
  {
    if x == "" {
      assert x + r == r && x + u == u;
    } else {
      assert (x + r)[0] == x[0] && (x + u)[0] == x[0];
      assert (x + r)[1..] == x[1..] + r && (x + u)[1..] == x[1..] + u;
      if |x| >= 2 {
        assert (x + r)[1] == x[1] && (x + u)[1] == x[1];
        assert (x + r)[2..] == x[2..] + r && (x + u)[2..] == x[2..] + u;
      } else {
        assert (x + r)[1] == r[0] && (x + u)[1] == u[0];
      }
      if escaped && x[0] == '\\' {
        if |x| >= 2 {
          QuoteThrough(x[2..], r, u, quote, escaped);
        }
      } else if x[0] == quote {
        QuoteThrough(x[2..], r, u, quote, escaped);
      } else {
        QuoteThrough(x[1..], r, u, quote, escaped);
      }
    }
  }

  lemma {:induction false} LineThrough(x: string, r: string, u: string)
    requires |x| >= 2 && r != "" && u != "" && u[0] != '\n'
    requires match Find((x + r)[2..], "\n") case None => true case Some(k) => 2 + k > |x|
    ensures match Find((x + u)[2..], "\n") case None => true case Some(k) => 2 + k > |x|
  {
    hide Find;
    var w := x[2..];
    assert (x + r)[2..] == w + r && (x + u)[2..] == w + u;
    var found := Find(w + u, "\n");
    if found.Some? {
      assert (w + u)[|w|] == u[0];
      if found.value + 1 <= |w| {
        FindPrefix(w, u, r, "\n");
      }
    }
  }

  lemma {:induction false} DollarThrough(x: string, r: string, u: string, m: nat)
    requires u != "" && 0 < m <= |x| && DollarEnd(x + r, m) > |x|
    ensures DollarEnd(x + u, m) > |x|
  {
    hide Find;
    assert (x + r)[m..] == x[m..] + r && (x + u)[m..] == x[m..] + u;
    assert (x + r)[..m] == x[..m] == (x + u)[..m];
    var found := Find(x[m..] + u, x[..m]);
    if found.Some? && found.value + m <= |x[m..]| {
      FindPrefix(x[m..], u, r, x[..m]);
    }
  }

  /** A delimiter ends in front of the array or not at all. */
  lemma {:induction false} TagInFront(x: string, r: string)
    requires r != "" && r[0] == '('
    ensures TagRest(x + r).Some? ==> TagRest(x + r).value <= |x|
    ensures Tag(x + r).Some? ==> Tag(x + r).value <= |x|
  {
    if x == "" {
      assert x + r == r;
    } else {
      assert (x + r)[0] == x[0] && (x + r)[1..] == x[1..] + r;
      TagInFront(x[1..], r);
    }
  }

  lemma {:induction false} DollarScan(p: string, r: string, u: string)
    requires Spellings(r, u) && AtToken(p) && Scan(p + r).1 > |p| && p[0] == '$'
    ensures Scan(p + u).1 > |p| && Scan(p + u).0 == Scan(p + r).0 == Opaque
  {
    hide Spellings, Find, TagRest, Tag, DollarEnd, CommentEnd, QuoteEnd, WordRun;
    SpellingsNear(r, u);
    assert (p + r)[0] == p[0] && (p + u)[0] == p[0];
    assert (p + r)[1..] == p[1..] + r && (p + u)[1..] == p[1..] + u;
    NearPrefix(p[1..], r, u);
    NearTag(p[1..] + r, p[1..] + u);
    TagInFront(p[1..], r);
    DollarThrough(p, r, u, 1 + Tag(p[1..] + r).value);
  }

  lemma {:induction false} QuotedScan(p: string, r: string, u: string)
    requires Spellings(r, u) && AtToken(p) && Scan(p + r).1 > |p|
    requires !("--" <= p + r) && !("/*" <= p + r) && (EscapeOpens(p + r) || Quote(p[0]))
    ensures Scan(p + u).1 > |p| && Scan(p + u).0 == Scan(p + r).0 && (Scan(p + r).0.Opaque? || Scan(p + r).0.Literal?)
  {
    hide Spellings, Find, TagRest, Tag, DollarEnd, CommentEnd, QuoteEnd, WordRun;
    SpellingsNear(r, u);
    SameTests(p, r, u);
    if EscapeOpens(p + r) {
      assert |p| >= 2;
      assert (p + r)[2..] == p[2..] + r && (p + u)[2..] == p[2..] + u;
      QuoteThrough(p[2..], r, u, '\'', true);
    } else {
      assert (p + r)[1..] == p[1..] + r && (p + u)[1..] == p[1..] + u;
      QuoteThrough(p[1..], r, u, p[0], false);
    }
  }

  lemma {:induction false} CommentScan(p: string, r: string, u: string)
    requires Spellings(r, u) && AtToken(p) && Scan(p + r).1 > |p|
    requires "--" <= p + r || "/*" <= p + r
    ensures Scan(p + u).1 > |p| && Scan(p + u).0 == Scan(p + r).0 == Opaque
  {
    hide Spellings, Find, TagRest, Tag, DollarEnd, CommentEnd, QuoteEnd, WordRun;
    SpellingsNear(r, u);
    SameTests(p, r, u);
    assert (p + r)[|p|] == '(' && |p| >= 2;
    if "--" <= p + r {
      LineThrough(p, r, u);
    } else {
      assert (p + r)[2..] == p[2..] + r && (p + u)[2..] == p[2..] + u;
      CommentThrough(p[2..], r, u, 1);
    }
  }

  lemma {:induction false} PlainEnds(p: string, r: string)
    requires r != "" && r[0] == '(' && AtToken(p)
    requires !("--" <= p + r) && !("/*" <= p + r) && !EscapeOpens(p + r) && !Quote(p[0]) && p[0] != '$'
    ensures Scan(p + r).1 <= |p|
  {
    hide Find, TagRest, Tag, DollarEnd, CommentEnd, QuoteEnd, WordRun;
    assert (p + r)[0] == p[0] && (p + r)[|p|] == '(';
    if Letter(p[0]) {
      var n := WordRun(p);
      WordRunAll(p);
      assert p + r == p[..n] + (p[n..] + r);
      WordRunPrefix(p[..n], p[n..] + r);
      WordStops(p[n..] + r);
    }
  }

  lemma {:induction false} WordStops(s: string)
    requires s != "" && !WordChar(s[0])
    ensures WordRun(s) == 0
  {
  }

  /** A token that reaches into the array is quoted, and reaches into either spelling. */
  lemma {:induction false} HeadThrough(p: string, r: string, u: string)
    requires Spellings(r, u) && AtToken(p) && Scan(p + r).1 > |p|
    ensures Scan(p + u).1 > |p| && Scan(p + u).0 == Scan(p + r).0
    ensures Scan(p + r).0.Opaque? || Scan(p + r).0.Literal?
  {
    hide Spellings, Scan, EscapeOpens;
    SpellingsNear(r, u);
    if "--" <= p + r || "/*" <= p + r {
      CommentScan(p, r, u);
    } else if EscapeOpens(p + r) || Quote(p[0]) {
      QuotedScan(p, r, u);
    } else if p[0] == '$' {
      DollarScan(p, r, u);
    } else {
      PlainEnds(p, r);
    }
  }

  /** Inside a quoted text the two spellings are different values. */
  lemma {:induction false} QuotedSpellingsDiffer(p: string, r: string, u: string)
    requires Spellings(r, u) && !Cut(p, r)
    ensures Quoted(Tokens(p + r)) != Quoted(Tokens(p + u))
    decreases |p|
  {
    hide Scan, Spellings, Head, After;
    if IsSpace(p[0]) {
      assert (p + r)[1..] == p[1..] + r && (p + u)[1..] == p[1..] + u;
      QuotedSpellingsDiffer(p[1..], r, u);
    } else {
      UnfoldTokens(p + r);
      UnfoldTokens(p + u);
      if Scan(p + r).1 <= |p| {
        var n := Scan(p + r).1;
        HeadInFront(p, r, u);
        assert p[n..] != "";
        QuotedSpellingsDiffer(p[n..], r, u);
        SameFront(if Head(p + r).kind.Literal? || Head(p + r).kind.Opaque? then [Head(p + r)] else [],
                  Quoted(Tokens(p[n..] + r)), Quoted(Tokens(p[n..] + u)));
      } else {
        HeadThrough(p, r, u);
        HeadsDiffer(p, r, u);
      }
    }
  }

  lemma {:induction false} SameFront(front: seq<Token>, a: seq<Token>, b: seq<Token>)
    requires a != b
    ensures front + a != front + b
  {
    assert (front + a)[|front|..] == a && (front + b)[|front|..] == b;
  }

  lemma {:induction false} HeadsDiffer(p: string, r: string, u: string)
    requires Spellings(r, u) && AtToken(p) && Scan(p + r).1 > |p| && Scan(p + u).1 > |p|
    ensures Head(p + r).text != Head(p + u).text
    ensures Head(p + r).kind == Scan(p + r).0 && Head(p + u).kind == Scan(p + u).0
  {
    hide Scan, Spellings;
    SpellingsNear(r, u);
    assert Head(p + r).text[|p|] == '(' && Head(p + u).text[|p|] == 'A';
  }

  // ---------------------------------------------------------------------------
  // The two spellings in their context
  // ---------------------------------------------------------------------------

  lemma {:induction false} CutSpellingsAgree(p: string, literals: seq<string>, v: string)
    requires literals != [] && AllClosed(literals) && Cut(p, Outer(literals) + v)
    ensures Canonical(p + (Outer(literals) + v)) == Canonical(p + (Replacement(literals) + v))
    decreases |p|
  {
    hide Scan, Spellings, Outer, Replacement, AllClosed, Tokens, Accept;
    var r, u := Outer(literals) + v, Replacement(literals) + v;
    BothSpellings(literals, v);
    if p == "" {
      SpellingsAgreeInFront(literals, v);
      assert p + r == r && p + u == u;
    } else if IsSpace(p[0]) {
      assert (p + r)[1..] == p[1..] + r && (p + u)[1..] == p[1..] + u;
      CutSpellingsAgree(p[1..], literals, v);
    } else {
      var m := TokenInFront(0, p, r, u);
      var run := RunAt(p + r);
      assert RunAt(p + u) == run;
      if run.Some? {
        CutSpellingsAgree(p[m..], literals, v);
      } else {
        NoRunSpellingsAgree(p, literals, v);
      }
    }
  }

  lemma {:induction false} NoRunSpellingsAgree(p: string, literals: seq<string>, v: string)
    requires literals != [] && AllClosed(literals) && Cut(p, Outer(literals) + v) && AtToken(p)
    requires RunAt(p + (Outer(literals) + v)) == None && RunAt(p + (Replacement(literals) + v)) == None
    ensures Canonical(p + (Outer(literals) + v)) == Canonical(p + (Replacement(literals) + v))
    decreases |p|, 0
  {
    hide Scan, Spellings, Outer, Replacement, AllClosed, Tokens, RunAt, Head, After;
    var r, u := Outer(literals) + v, Replacement(literals) + v;
    BothSpellings(literals, v);
    HeadInFront(p, r, u);
    var n := Scan(p + r).1;
    if n == |p| && Scan(p + r).0.Word? {
      SpellingsAgreeInFront(literals, v);
      SpellingsNear(r, u);
      ArrayFirst(u);
      assert p[n..] + r == r && p[..n] == p;
      assert (p + "ARRAY") + Canonical(u[5..]) == p + ("ARRAY" + Canonical(u[5..]));
    } else {
      CutSpellingsAgree(p[n..], literals, v);
    }
  }

  /**
   One cast around the array and one cast on each element have the same canonical form, in any context
   around them, if and only if the array is not part of a quoted text or a comment that begins in front.
   */
  lemma {:induction false} SpellingsAgree(p: string, literals: seq<string>, v: string)
    requires literals != [] && AllClosed(literals)
    ensures Canonical(p + (Outer(literals) + v)) == Canonical(p + (Replacement(literals) + v)) <==>
            Cut(p, Outer(literals) + v)
  {
    hide Canonical, Cut, Outer, Replacement, AllClosed, Spellings;
    if Cut(p, Outer(literals) + v) {
      CutSpellingsAgree(p, literals, v);
    } else {
      BothSpellings(literals, v);
      QuotedSpellingsDiffer(p, Outer(literals) + v, Replacement(literals) + v);
      if Canonical(p + (Outer(literals) + v)) == Canonical(p + (Replacement(literals) + v)) {
        EqualFormsHaveEqualValues(p + (Outer(literals) + v), p + (Replacement(literals) + v));
      }
    }
  }

  /** Text that quotes nothing and opens no comment: what stands in front of most arrays. */
  ghost predicate Plain(p: string) {
    forall i :: 0 <= i < |p| ==> !Quote(p[i]) && p[i] != '$' && p[i] != '-' && p[i] != '/'
  }

  /** Behind plain text an array always stands on its own. */
  lemma {:induction false} PlainContext(p: string, literals: seq<string>, v: string)
    requires literals != [] && AllClosed(literals) && Plain(p)
    ensures Cut(p, Outer(literals) + v)
    decreases |p|
  {
    hide Outer, AllClosed, Scan;
    var r := Outer(literals) + v;
    OuterStarts(literals);
    if p != "" {
      if IsSpace(p[0]) {
        PlainContext(p[1..], literals, v);
      } else {
        PlainStart(p, r);
        PlainEnds(p, r);
        PlainContext(p[Scan(p + r).1..], literals, v);
      }
    }
  }

  lemma {:induction false} PlainStart(p: string, r: string)
    requires p != "" && Plain(p) && r != "" && r[0] == '('
    ensures !("--" <= p + r) && !("/*" <= p + r) && !EscapeOpens(p + r)
  {
    assert (p + r)[0] == p[0] && (p + r)[1] == if |p| > 1 then p[1] else r[0];
  }

  /** Contexts can be put together: what is read up to a cut is read on from there. */
  lemma {:induction false} CutJoins(p: string, w: string, t: string)
    requires Cut(p, w + t) && Cut(w, t)
    ensures Cut(p + w, t)
    decreases |p|
  {
    hide Scan;
    assert p + (w + t) == (p + w) + t;
    if p == "" {
      assert p + w == w;
    } else if IsSpace(p[0]) {
      assert (p + w)[1..] == p[1..] + w;
      CutJoins(p[1..], w, t);
    } else {
      var n := Scan(p + (w + t)).1;
      assert (p + w)[n..] == p[n..] + w;
      CutJoins(p[n..], w, t);
    }
  }

  /** A string literal in front of the array is complete, so it is such a context. */
  lemma {:induction false} LiteralContext(text: string, t: string)
    requires Closed(text) && t != "" && t[0] != '\''
    ensures Cut(text, t)
  {
    QuotePrefix(text[1..], ":", t, '\'', false);
    assert (text + t)[0] == '\'' && (text + t)[1..] == text[1..] + t;
    assert text[|text|..] == "";
  }

  // ---------------------------------------------------------------------------
  // A word that touches the array
  // ---------------------------------------------------------------------------

  /** The canonical form of a cast array with nothing behind it. */
  lemma {:induction false} SpellingsAgreeAlone(literals: seq<string>)
    requires literals != [] && AllClosed(literals)
    ensures Canonical(Outer(literals)) == Replacement(literals) == Canonical(Replacement(literals))
  {
    assert Canonical("") == "";
    hide Canonical, Closed, Elements, Join, Outer, Replacement;
    SpellingsAgreeInFront(literals, "");
    assert Outer(literals) + "" == Outer(literals) && Replacement(literals) + "" == Replacement(literals);
  }

  lemma {:induction false} MoreElements(literals: seq<string>)
    ensures |literals| == 1 ==> Elements(literals) == literals[0] + "::character varying"
    ensures |literals| > 1 ==>
              Elements(literals) == literals[0] + "::character varying" + ", " + Elements(literals[1..])
  {
  }

  lemma {:induction false} MoreCasts(literals: seq<string>)
    ensures |literals| == 1 ==> Join(literals) == Cast(literals[0])
    ensures |literals| > 1 ==> Join(literals) == Cast(literals[0]) + ", " + Join(literals[1..])
  {
  }

  /** Both spellings of a longer array, from those of the shorter one. */
  lemma {:induction false} LongerArray(literals: seq<string>, last: string)
    requires literals != []
    ensures Elements(literals + [last]) == Elements(literals) + ", " + (last + "::character varying")
    ensures Join(literals + [last]) == Join(literals) + ", " + Cast(last)
    decreases |literals|
  {
    hide Elements, Join, Cast;
    var all := literals + [last];
    MoreElements(literals);
    MoreElements(all);
    MoreCasts(literals);
    MoreCasts(all);
    if |literals| == 1 {
      assert all[1..] == [last];
      MoreElements([last]);
      MoreCasts([last]);
    } else {
      assert all[1..] == literals[1..] + [last];
      LongerArray(literals[1..], last);
      var first := literals[0] + "::character varying";
      var rest, end := Elements(literals[1..]), last + "::character varying";
      assert first + ", " + (rest + ", " + end) == (first + ", " + rest) + ", " + end;
    }
  }

  lemma {:induction false} OneElement(literal: string)
    ensures Outer([literal]) == "(ARRAY[" + literal + "::character varying])::text[]"
    ensures Replacement([literal]) == "ARRAY[(" + literal + "::character varying)::text]"
  {
    assert Elements([literal]) == literal + "::character varying" && Join([literal]) == Cast(literal);
    assert "::character varying])::text[]" == "::character varying" + "])::text[]";
    assert "::character varying)::text]" == "::character varying)::text" + "]";
    assert "ARRAY[(" == "ARRAY[" + "(";
  }

  lemma {:induction false} InsideArray(open: string, x: string, y: string, close: string)
    requires open + x + close == open + y + close
    ensures x == y
  {
    assert (open + x + close)[|open|..|open| + |x|] == x;
    assert (open + y + close)[|open|..|open| + |y|] == y;
  }

  lemma {:induction false} LongerOuter(literals: seq<string>, last: string, elements: string)
    requires literals != [] && Outer(literals) == "(ARRAY[" + elements + "])::text[]"
    ensures Outer(literals + [last]) == "(ARRAY[" + elements + ", " + last + "::character varying])::text[]"
  {
    hide Elements, Join;
    assert Outer(literals) == "(ARRAY[" + Elements(literals) + "])::text[]";
    InsideArray("(ARRAY[", Elements(literals), elements, "])::text[]");
    LongerArray(literals, last);
    assert "::character varying])::text[]" == "::character varying" + "])::text[]";
  }

  lemma {:induction false} LongerReplacement(literals: seq<string>, last: string, casts: string)
    requires literals != [] && Replacement(literals) == "ARRAY[" + casts + "]"
    ensures Replacement(literals + [last]) == "ARRAY[" + casts + ", (" + last + "::character varying)::text]"
  {
    hide Elements, Join;
    InsideArray("ARRAY[", Join(literals), casts, "]");
    LongerArray(literals, last);
    assert "::character varying)::text]" == "::character varying)::text" + "]";
  }

  /**
   Written out: a cast array of one literal, and of one literal more than another array, whose elements are
   `elements` in the one spelling and `casts` in the other.
   */
  lemma {:induction false} CanonicalWrittenOut(literals: seq<string>, last: string, elements: string, casts: string)
    requires AllClosed(literals) && Closed(last)
    ensures Canonical("(ARRAY[" + last + "::character varying])::text[]") ==
            "ARRAY[(" + last + "::character varying)::text]"
    ensures literals != [] && Outer(literals) == "(ARRAY[" + elements + "])::text[]"
            && Replacement(literals) == "ARRAY[" + casts + "]" ==>
              Canonical("(ARRAY[" + elements + ", " + last + "::character varying])::text[]") ==
              "ARRAY[" + casts + ", (" + last + "::character varying)::text]"
  {
    hide Canonical, Closed, Outer, Replacement;
    OneElement(last);
    SpellingsAgreeAlone([last]);
    if literals != [] && Outer(literals) == "(ARRAY[" + elements + "])::text[]"
       && Replacement(literals) == "ARRAY[" + casts + "]"
    {
      LongerOuter(literals, last, elements);
      LongerReplacement(literals, last, casts);
      SpellingsAgreeAlone(literals + [last]);
    }
  }

  /** A word in front of the array, written together with it. */
  lemma {:induction false} GluedRewrite(w: string, literals: seq<string>)
    requires |w| > 1 && AllWord(w) && Letter(w[0])
    requires literals != [] && AllClosed(literals)
    ensures Canonical(w + Outer(literals)) == w + Replacement(literals)
    ensures Tokens(w + Outer(literals)) == [Token(Word, w)] + Tokens(Outer(literals))
  {
    hide Canonical, Closed, Elements, Join, Outer, Replacement, Tokens;
    OuterStarts(literals);
    KeptWord(w, Outer(literals));
    SpellingsAgreeAlone(literals);
  }

  lemma {:induction false} GluedSubscript(w: string, literals: seq<string>)
    requires |w| > 1 && AllWord(w) && Letter(w[0])
    requires AllClosed(literals)
    ensures Tokens(w + Replacement(literals))[..1] == [Token(Word, w + "ARRAY")]
  {
    hide Closed, Join, Replacement, Tokens, Canonical;
    var rest := "[" + (Join(literals) + "]");
    ReplacementText(literals);
    assert w + Replacement(literals) == (w + "ARRAY") + rest;
    KeptWord(w + "ARRAY", rest);
  }

  /**
   Where nothing separates a word from a cast array the pass merges the two, so that `w(ARRAY[...])::text[]`
   and the subscript `wARRAY[...]` become equal although their first tokens differ.
   */
  lemma {:induction false} GluedSpellingsCollide(w: string, literals: seq<string>)
    requires |w| > 1 && AllWord(w) && Letter(w[0])
    requires literals != [] && AllClosed(literals)
    ensures Canonical(w + Outer(literals)) == Canonical(w + Replacement(literals))
    ensures Tokens(w + Outer(literals)) != Tokens(w + Replacement(literals))
  {
    hide Closed, Elements, Join, Outer, Replacement, Tokens, Canonical;
    GluedRewrite(w, literals);
    CanonicalIdempotent(w + Outer(literals));
    GluedSubscript(w, literals);
    assert |Token(Word, w + "ARRAY").text| > |Token(Word, w).text|;
  }
}
