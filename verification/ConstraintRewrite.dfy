/**
 The closed rewrite of PostgreSQL's varchar-literal-array cast: dump and restore may turn
 `(ARRAY['a'::character varying, ...])::text[]` into `ARRAY[('a'::character varying)::text, ...]`,
 and `CanonicalConstraint` maps the first spelling to the second.
 */
module ConstraintRewrite {
  import opened Prelude
  import opened ConstraintText
  import opened ConstraintLexing

  /** A rewritten run: the texts of its literals and how many tokens it has. */
  datatype Run = Run(literals: seq<string>, count: nat)

  const FINAL: nat := 13

  /** The token text each state waits for; states 3 and 7 are decided in `Step`. */
  function Expected(q: nat): string {
    match q
    case 0 => "("
    case 1 => "ARRAY"
    case 2 => "["
    case 4 => "::"
    case 5 => "character"
    case 6 => "varying"
    case 8 => ")"
    case 9 => "::"
    case 10 => "text"
    case 11 => "["
    case _ => "]"
  }

  /** The automaton of the closed grammar. */
  function Step(q: nat, token: Token): Option<nat> {
    if q == 3 then if token.kind.Literal? then Some(4) else None
    else if q == 7 then
      if token.text == "," then Some(3) else if token.text == "]" then Some(8) else None
    else if token.text == Expected(q) then Some(q + 1)
    else None
  }

  function Accept(q: nat, tokens: seq<Token>): (r: Option<Run>)
    ensures r.Some? ==> r.value.count <= |tokens| && (q < FINAL ==> r.value.count > 0)
    decreases |tokens|
  {
    if q >= FINAL then Some(Run([], 0))
    else if tokens == [] then None
    else match Step(q, tokens[0])
      case None => None
      case Some(next) =>
        match Accept(next, tokens[1..])
        case None => None
        case Some(run) =>
          Some(Run(if q == 3 then [tokens[0].text] + run.literals else run.literals, run.count + 1))
  }

  function RunAt(s: string): (r: Option<Run>)
    ensures r.Some? ==> 0 < r.value.count <= |Tokens(s)|
  {
    Accept(0, Tokens(s))
  }

  function Cast(literal: string): string {
    "(" + literal + "::character varying)::text"
  }

  /** `", ".join(...)`. */
  function Join(literals: seq<string>): string {
    if literals == [] then ""
    else if |literals| == 1 then Cast(literals[0])
    else Cast(literals[0]) + ", " + Join(literals[1..])
  }

  function Replacement(literals: seq<string>): string {
    "ARRAY[" + Join(literals) + "]"
  }

  /** One left-to-right pass: rewrite every run, keep every other character. */
  function Canonical(s: string): string
    decreases |s|
  {
    if s == "" then ""
    else if IsSpace(s[0]) then [s[0]] + Canonical(s[1..])
    else match RunAt(s)
      case None => Head(s).text + Canonical(After(s))
      case Some(run) => Replacement(run.literals) + Canonical(Skip(s, run.count))
  }

  // ---------------------------------------------------------------------------
  // Tokens of the result
  // ---------------------------------------------------------------------------

  function CastTokens(literal: string): seq<Token> {
    [Token(Symbol, "("), Token(Literal, literal), Token(Symbol, "::"), Token(Word, "character"),
     Token(Word, "varying"), Token(Symbol, ")"), Token(Symbol, "::"), Token(Word, "text")]
  }

  function JoinTokens(literals: seq<string>): seq<Token> {
    if literals == [] then []
    else if |literals| == 1 then CastTokens(literals[0])
    else CastTokens(literals[0]) + [Token(Symbol, ",")] + JoinTokens(literals[1..])
  }

  function ReplacementTokens(literals: seq<string>): seq<Token> {
    [Token(Word, "ARRAY"), Token(Symbol, "[")] + JoinTokens(literals) + [Token(Symbol, "]")]
  }

  /** The rewrite as it acts on tokens. */
  function RewriteTokens(tokens: seq<Token>): seq<Token> {
    if tokens == [] then []
    else match Accept(0, tokens)
      case None => [tokens[0]] + RewriteTokens(tokens[1..])
      case Some(run) => ReplacementTokens(run.literals) + RewriteTokens(tokens[run.count..])
  }

  /** The tokens whose text the rewrite must not touch: literals, quoted names, comments. */
  function Quoted(tokens: seq<Token>): seq<Token> {
    if tokens == [] then []
    else (if tokens[0].kind.Literal? || tokens[0].kind.Opaque? then [tokens[0]] else []) + Quoted(tokens[1..])
  }

  /** A word directly in front of a rewritten run: `ARRAY` is appended to it. */
  ghost predicate GluedHere(s: string)
    requires AtToken(s)
  {
    Head(s).kind.Word? && AtToken(After(s)) && RunAt(After(s)).Some?
  }

  /** How many words of `s` grow. */
  ghost function Glues(s: string): nat
    decreases |s|
  {
    if s == "" then 0
    else if IsSpace(s[0]) then Glues(s[1..])
    else match RunAt(s)
      case None => (if GluedHere(s) then 1 else 0) + Glues(After(s))
      case Some(run) => Glues(Skip(s, run.count))
  }

  ghost predicate AllClosed(literals: seq<string>) {
    forall i :: 0 <= i < |literals| ==> Closed(literals[i])
  }

  /** Every literal of a run is complete, since the run goes on behind it. */
  lemma {:induction false} RunLiteralsClosed(q: nat, s: string)
    requires Accept(q, Tokens(s)).Some?
    ensures AllClosed(Accept(q, Tokens(s)).value.literals)
    ensures q == 3 ==> Accept(q, Tokens(s)).value.literals != []
    decreases |s|
  {
    hide Closed, Scan;
    if q >= FINAL || s == "" {
    } else if IsSpace(s[0]) {
      RunLiteralsClosed(q, s[1..]);
    } else {
      assert Tokens(s)[1..] == Tokens(After(s));
      RunLiteralsClosed(Step(q, Tokens(s)[0]).value, After(s));
      if q == 3 {
        LiteralClosed(s);
      }
    }
  }

  lemma {:induction false} RunStartsWithParenthesis(s: string)
    requires AtToken(s) && RunAt(s).Some?
    ensures s[0] == '('
  {
  }

  lemma {:induction false} ReplacementStarts(literals: seq<string>, v: string)
    ensures "ARRAY[" <= Replacement(literals) + v
  {
  }

  lemma {:induction false} NearCanonical(s: string)
    ensures Near(s, Canonical(s))
    decreases |s|
  {
    hide Scan, Accept, Tokens, Replacement, Skip;
    if s == "" {
    } else if IsSpace(s[0]) {
    } else if RunAt(s).Some? {
      RunStartsWithParenthesis(s);
      ReplacementStarts(RunAt(s).value.literals, Canonical(Skip(s, RunAt(s).value.count)));
    } else {
      NearCanonical(After(s));
      NearPrefix(Head(s).text, After(s), Canonical(After(s)));
      assert s == Head(s).text + After(s);
    }
  }

  // ---------------------------------------------------------------------------
  // The replacement lexes as intended and is left alone by a second pass
  // ---------------------------------------------------------------------------

  /** A token that is not an opening parenthesis starts no run. */
  lemma {:induction false} KeepHead(s: string)
    requires AtToken(s) && Head(s).text != "("
    ensures RunAt(s) == None
    ensures Canonical(s) == Head(s).text + Canonical(After(s))
  {
  }

  /** `w` is lexed on its own in front of `v`, as `added`, and a pass over `w + v` keeps it. */
  ghost predicate Kept(w: string, added: seq<Token>, v: string) {
    Tokens(w + v) == added + Tokens(v) && Canonical(w + v) == w + Canonical(v)
  }

  lemma {:induction false} KeptBracket(c: char, v: string)
    requires c == ')' || c == '[' || c == ']' || c == ','
    ensures Kept([c], [Token(Symbol, [c])], v)
  {
    hide Scan;
    BracketToken(c, v);
    assert [c][0] != "("[0];
    KeepHead([c] + v);
  }

  lemma {:induction false} KeptColons(v: string)
    ensures Kept("::", [Token(Symbol, "::")], v)
  {
    hide Scan;
    ColonsToken(v);
    KeepHead("::" + v);
  }

  lemma {:induction false} KeptWord(w: string, v: string)
    requires |w| > 1 && AllWord(w) && Letter(w[0])
    requires v == "" || !WordChar(v[0])
    ensures Kept(w, [Token(Word, w)], v)
  {
    hide Scan;
    WordToken(w, v);
    KeepHead(w + v);
  }

  lemma {:induction false} KeptSpace(v: string)
    ensures Kept(" ", [], v)
  {
  }

  lemma {:induction false} KeptLiteral(text: string, v: string)
    requires Closed(text) && (v == "" || v[0] != '\'')
    ensures Kept(text, [Token(Literal, text)], v)
  {
    hide Scan;
    LiteralToken(text, v);
    KeepHead(text + v);
  }

  /** A parenthesis starts no run when what follows is not `ARRAY`. */
  lemma {:induction false} KeptParenthesis(v: string)
    requires AtToken(v) && Head(v).text != "ARRAY"
    ensures Kept("(", [Token(Symbol, "(")], v)
  {
    hide Scan;
    BracketToken('(', v);
    assert Tokens(v)[0] == Head(v);
    assert Tokens("(" + v)[1..] == Tokens(v);
    assert Accept(1, Tokens(v)) == None;
    assert RunAt("(" + v) == None;
  }

  lemma {:induction false} TypeText(v: string)
    ensures "::" + ("character" + (" " + ("varying" + v))) == "::character varying" + v
  {
  }

  lemma {:induction false} KeptType(v: string)
    requires v == "" || !WordChar(v[0])
    ensures Kept("::character varying", [Token(Symbol, "::"), Token(Word, "character"), Token(Word, "varying")], v)
  {
    hide Scan, Tokens, Canonical;
    KeptWord("varying", v);
    KeptSpace("varying" + v);
    KeptWord("character", " " + ("varying" + v));
    KeptColons("character" + (" " + ("varying" + v)));
    TypeText(v);
    TypeText(Canonical(v));
  }

  lemma {:induction false} CastText(literal: string, v: string)
    ensures Cast(literal) + v
         == "(" + (literal + ("::character varying" + (")" + ("::" + ("text" + v)))))
  {
  }

  lemma {:induction false} KeptCast(literal: string, v: string)
    requires Closed(literal) && (v == "" || !WordChar(v[0]))
    ensures Kept(Cast(literal), CastTokens(literal), v)
  {
    hide Scan, Tokens, Canonical, Cast;
    KeptWord("text", v);
    KeptColons("text" + v);
    KeptBracket(')', "::" + ("text" + v));
    var rest := ")" + ("::" + ("text" + v));
    KeptType(rest);
    KeptLiteral(literal, "::character varying" + rest);
    LiteralToken(literal, "::character varying" + rest);
    KeptParenthesis(literal + ("::character varying" + rest));
    CastText(literal, v);
    CastText(literal, Canonical(v));
  }

  lemma {:induction false} KeptJoin(literals: seq<string>, v: string)
    requires AllClosed(literals) && (v == "" || !WordChar(v[0]))
    ensures Kept(Join(literals), JoinTokens(literals), v)
  {
    hide Scan, Tokens, Canonical, Cast, CastTokens, Closed;
    if literals == [] {
      assert "" + v == v && "" + Canonical(v) == Canonical(v) && [] + Tokens(v) == Tokens(v);
    } else if |literals| == 1 {
      KeptCast(literals[0], v);
    } else {
      KeptJoin(literals[1..], v);
      KeptElement(literals, v);
    }
  }

  lemma {:induction false} JoinText(literals: seq<string>, v: string)
    requires |literals| > 1
    ensures Join(literals) + v == Cast(literals[0]) + ("," + (" " + (Join(literals[1..]) + v)))
  {
    hide Cast;
  }

  lemma {:induction false} KeptElement(literals: seq<string>, v: string)
    requires |literals| > 1 && Closed(literals[0]) && Kept(Join(literals[1..]), JoinTokens(literals[1..]), v)
    ensures Kept(Join(literals), JoinTokens(literals), v)
  {
    hide Scan, Tokens, Canonical, Cast, CastTokens, Closed, Join;
    var rest := Join(literals[1..]);
    KeptSpace(rest + v);
    KeptBracket(',', " " + (rest + v));
    KeptCast(literals[0], "," + (" " + (rest + v)));
    JoinText(literals, v);
    JoinText(literals, Canonical(v));
  }

  lemma {:induction false} KeptReplacement(literals: seq<string>, v: string)
    requires AllClosed(literals)
    ensures Kept(Replacement(literals), ReplacementTokens(literals), v)
  {
    hide Scan, Tokens, Canonical, Join, JoinTokens, Closed;
    KeptBracket(']', v);
    KeptJoin(literals, "]" + v);
    KeptBracket('[', Join(literals) + ("]" + v));
    KeptWord("ARRAY", "[" + (Join(literals) + ("]" + v)));
    assert forall x :: Replacement(literals) + x == "ARRAY" + ("[" + (Join(literals) + ("]" + x)));
  }

  // ---------------------------------------------------------------------------
  // One token of the input against one token of the output
  // ---------------------------------------------------------------------------

  /** A kept token is again the first token of the output, unless it is a word that `ARRAY` is glued to. */
  lemma {:induction false} HeadOfCanonical(s: string)
    requires AtToken(s) && RunAt(s) == None
    ensures Canonical(s) == Head(s).text + Canonical(After(s)) && AtToken(Canonical(s))
    ensures !GluedHere(s) ==> Head(Canonical(s)) == Head(s) && After(Canonical(s)) == Canonical(After(s))
    ensures GluedHere(s) ==> "ARRAY[" <= Canonical(After(s))
    ensures GluedHere(s) ==> Head(Canonical(s)) == Token(Word, Head(s).text + "ARRAY")
    ensures GluedHere(s) ==> After(Canonical(s)) == Canonical(After(s))[5..]
  {
    hide Scan, Accept, Tokens, Replacement, Skip;
    var x, r, u := Head(s).text, After(s), Canonical(After(s));
    assert s == x + r;
    if r == "" {
      assert x + u == s;
    } else {
      NearCanonical(r);
      SameHead(x, r, u);
      if AtToken(r) && RunAt(r).Some? {
        RunStartsWithParenthesis(r);
        ReplacementStarts(RunAt(r).value.literals, Canonical(Skip(r, RunAt(r).value.count)));
        assert u[0] == 'A';
      } else {
        assert u[0] == r[0];
      }
      if GluedHere(s) {
        assert (x + u)[..|x| + 5] == x + u[..5] && u[..5] == "ARRAY";
        assert (x + u)[|x| + 5..] == u[5..];
      } else {
        HeadIs(x, u);
      }
    }
  }
}
