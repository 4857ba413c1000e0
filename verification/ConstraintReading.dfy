/** Which stretches of SQL text the lexer reads as one token: comments, strings, words and symbols. */
module ConstraintReading {
  import opened Prelude
  import opened ConstraintText
  import opened ConstraintLexing

  /** The text in front of `u` is its first token, of this kind. */
  ghost predicate ReadAs(kind: Kind, text: string, u: string) {
    AtToken(text + u) && Tokens(text + u) == [Token(kind, text)] + Tokens(u)
  }

  lemma {:induction false} ReadByScan(kind: Kind, text: string, u: string)
    requires AtToken(text + u) && Scan(text + u) == (kind, |text|)
    ensures ReadAs(kind, text, u)
  {
    hide Scan, IsSpace;
    HeadIs(text, u);
  }

  ghost predicate Contains(s: string, p: string) {
    exists i :: 0 <= i <= |s| && StartsAt(s, p, i)
  }

  ghost predicate StartsAt(s: string, p: string, i: nat)
    requires i <= |s|
  {
    p <= s[i..]
  }

  lemma {:induction false} FindMeaning(s: string, p: string)
    requires p != ""
    ensures match Find(s, p)
            case None => !Contains(s, p)
            case Some(k) => StartsAt(s, p, k) && forall i :: 0 <= i < k ==> !StartsAt(s, p, i)
  {
    if p <= s {
      assert StartsAt(s, p, 0);
    } else if s != "" {
      FindMeaning(s[1..], p);
      assert forall i :: 0 < i <= |s| ==> s[i..] == s[1..][i - 1..];
      assert forall i :: 0 < i <= |s| ==> (StartsAt(s, p, i) <==> StartsAt(s[1..], p, i - 1));
    }
  }

  // ---------------------------------------------------------------------------
  // Comments
  // ---------------------------------------------------------------------------

  lemma {:induction false} LineEnds(text: string, u: string)
    requires '\n' !in text && (u == "" || u[0] == '\n')
    ensures Find(text + u, "\n") == if u == "" then None else Some(|text|)
  {
    hide Find;
    FindMeaning(text + u, "\n");
    assert forall i :: 0 <= i <= |text + u| && StartsAt(text + u, "\n", i) ==> (text + u)[i] == '\n';
    if u != "" {
      assert (text + u)[|text|..] == u && StartsAt(text + u, "\n", |text|);
    }
  }

  /** A line comment is one opaque token up to the end of its line. */
  lemma {:induction false} LineCommentIsRead(text: string, u: string)
    requires '\n' !in text && (u == "" || u[0] == '\n')
    ensures ReadAs(Opaque, "--" + text, u)
  {
    hide Find;
    var s := "--" + text + u;
    assert s[0] == '-' && s[1] == '-' && s[2..] == text + u;
    LineEnds(text, u);
    ReadByScan(Opaque, "--" + text, u);
  }

  /** What may stand in a block comment: text, and block comments again. */
  datatype Piece = Text(text: string) | Comment(pieces: seq<Piece>)

  /** Text that neither opens nor closes a comment, whatever stands behind it. */
  ghost predicate Harmless(text: string) {
    && (forall i :: 0 <= i < |text| - 1 ==> !(text[i] == '/' && text[i + 1] == '*')
                                            && !(text[i] == '*' && text[i + 1] == '/'))
    && (text != "" ==> text[|text| - 1] != '/' && text[|text| - 1] != '*')
  }

  ghost predicate WellFormed(pieces: seq<Piece>) {
    forall i :: 0 <= i < |pieces| ==>
      match pieces[i] case Text(text) => Harmless(text) case Comment(inner) => WellFormed(inner)
  }

  function Written(pieces: seq<Piece>): string {
    if pieces == [] then ""
    else (match pieces[0] case Text(text) => text case Comment(inner) => "/*" + Written(inner) + "*/")
         + Written(pieces[1..])
  }

  lemma {:induction false} HarmlessTail(text: string)
    requires text != "" && Harmless(text)
    ensures Harmless(text[1..])
  {
  }

  lemma {:induction false} SkipHarmless(text: string, u: string, depth: nat)
    requires Harmless(text) && depth > 0
    ensures CommentEnd(text + u, depth) == |text| + CommentEnd(u, depth)
  {
    if text == "" {
      assert text + u == u;
    } else {
      var s := text + u;
      HarmlessTail(text);
      SkipHarmless(text[1..], u, depth);
      assert s[0] == text[0] && s[1..] == text[1..] + u;
      assert |text| > 1 ==> s[1] == text[1];
    }
  }

  lemma {:induction false} CommentOpens(u: string, depth: nat)
    requires depth > 0
    ensures CommentEnd("/*" + u, depth) == 2 + CommentEnd(u, depth + 1)
  {
    assert ("/*" + u)[2..] == u;
  }

  lemma {:induction false} CommentCloses(u: string, depth: nat)
    requires depth > 0
    ensures CommentEnd("*/" + u, depth) == 2 + CommentEnd(u, depth - 1)
  {
    assert ("*/" + u)[2..] == u && ("*/" + u)[0] == '*';
  }

  lemma {:induction false} NestedText(inner: string, rest: string, u: string)
    ensures "/*" + inner + "*/" + rest + u == "/*" + (inner + ("*/" + (rest + u)))
  {
    assert "/*" + inner + "*/" + rest + u == ("/*" + inner) + ("*/" + (rest + u));
  }

  lemma {:induction false} SkipNested(inner: string, rest: string, u: string, depth: nat)
    requires depth > 0
    requires var behind := "*/" + (rest + u);
             CommentEnd(inner + behind, depth + 1) == |inner| + CommentEnd(behind, depth + 1)
    ensures var text := "/*" + inner + "*/" + rest;
            CommentEnd(text + u, depth) == |text| - |rest| + CommentEnd(rest + u, depth)
  {
    hide CommentEnd;
    CommentOpens(inner + ("*/" + (rest + u)), depth);
    CommentCloses(rest + u, depth + 1);
    NestedText(inner, rest, u);
  }

  lemma {:induction false} SkipPieces(pieces: seq<Piece>, u: string, depth: nat)
    requires WellFormed(pieces) && depth > 0
    ensures CommentEnd(Written(pieces) + u, depth) == |Written(pieces)| + CommentEnd(u, depth)
    decreases pieces
  {
    hide CommentEnd, Harmless;
    if pieces == [] {
      assert Written(pieces) + u == u;
    } else {
      var rest := Written(pieces[1..]);
      SkipPieces(pieces[1..], u, depth);
      match pieces[0]
      case Text(text) =>
        SkipHarmless(text, rest + u, depth);
        assert (text + rest) + u == text + (rest + u);
      case Comment(inner) =>
        SkipPieces(inner, "*/" + (rest + u), depth + 1);
        SkipNested(Written(inner), rest, u, depth);
    }
  }

  /** A block comment with comments nested in it to any depth is one opaque token. */
  lemma {:induction false} BlockCommentIsRead(pieces: seq<Piece>, u: string)
    requires WellFormed(pieces)
    ensures ReadAs(Opaque, "/*" + Written(pieces) + "*/", u)
  {
    hide CommentEnd, Written;
    var text := "/*" + Written(pieces) + "*/";
    var inside := Written(pieces) + ("*/" + u);
    SkipPieces(pieces, "*/" + u, 1);
    CommentCloses(u, 1);
    assert CommentEnd(u, 0) == 0 by { CommentOver(u); assert u[0..] == u; }
    assert text + u == "/*" + inside && (text + u)[0] == '/' && (text + u)[1] == '*' && (text + u)[2..] == inside;
    ReadByScan(Opaque, text, u);
  }

  /** One that is not closed runs to the end. */
  lemma {:induction false} OpenCommentIsRead(pieces: seq<Piece>)
    requires WellFormed(pieces)
    ensures ReadAs(Opaque, "/*" + Written(pieces), "")
  {
    hide CommentEnd, Written;
    var text := "/*" + Written(pieces);
    SkipPieces(pieces, "", 1);
    assert CommentEnd("", 1) == 0 by { CommentOver(""); assert ""[0..] == ""; }
    assert Written(pieces) + "" == Written(pieces);
    assert text + "" == text && text[0] == '/' && text[1] == '*' && text[2..] == Written(pieces);
    ReadByScan(Opaque, text, "");
  }

  // ---------------------------------------------------------------------------
  // Escape strings and dollar-quoted strings
  // ---------------------------------------------------------------------------

  /** What may stand in an escape string: a character, one behind a backslash, or a pair of quotes. */
  datatype Mark = Char(c: char) | Backslash(c: char) | Quotes

  ghost predicate PlainMark(mark: Mark) {
    mark.Char? ==> mark.c != '\\' && mark.c != '\''
  }

  function MarkText(mark: Mark): string {
    match mark
    case Char(c) => [c]
    case Backslash(c) => ['\\', c]
    case Quotes => "''"
  }

  function Spelled(marks: seq<Mark>): string {
    if marks == [] then "" else MarkText(marks[0]) + Spelled(marks[1..])
  }

  lemma {:induction false} SkipMark(mark: Mark, u: string)
    requires PlainMark(mark)
    ensures QuoteEnd(MarkText(mark) + u, '\'', true) == |MarkText(mark)| + QuoteEnd(u, '\'', true)
  {
    match mark
    case Char(c) => assert ([c] + u)[1..] == u;
    case Backslash(c) => assert (['\\', c] + u)[2..] == u;
    case Quotes => assert ("''" + u)[2..] == u;
  }

  lemma {:induction false} SkipMarks(marks: seq<Mark>, u: string)
    requires forall i :: 0 <= i < |marks| ==> PlainMark(marks[i])
    ensures QuoteEnd(Spelled(marks) + u, '\'', true) == |Spelled(marks)| + QuoteEnd(u, '\'', true)
    decreases |marks|
  {
    hide QuoteEnd, PlainMark, MarkText;
    if marks == [] {
      assert Spelled(marks) + u == u;
    } else {
      var first, rest := MarkText(marks[0]), Spelled(marks[1..]);
      SkipMark(marks[0], rest + u);
      SkipMarks(marks[1..], u);
      assert (first + rest) + u == first + (rest + u);
    }
  }

  /** An escape string is one opaque token: a backslash hides the quote behind it. */
  lemma {:induction false} EscapeStringIsRead(e: char, marks: seq<Mark>, u: string)
    requires (e == 'E' || e == 'e') && (forall i :: 0 <= i < |marks| ==> PlainMark(marks[i]))
    requires u == "" || u[0] != '\''
    ensures ReadAs(Opaque, [e, '\''] + Spelled(marks) + "'", u)
  {
    hide Spelled, PlainMark;
    var text := [e, '\''] + Spelled(marks) + "'";
    var inside := Spelled(marks) + ("'" + u);
    SkipMarks(marks, "'" + u);
    assert QuoteEnd("'" + u, '\'', true) == 1;
    assert text + u == [e, '\''] + inside;
    assert (text + u)[0] == e && (text + u)[1] == '\'' && (text + u)[2..] == inside;
    hide QuoteEnd;
    ReadByScan(Opaque, text, u);
  }

  /** The name in a dollar quote: nothing, or a word without dollar signs. */
  ghost predicate TagName(name: string) {
    (forall i :: 0 <= i < |name| ==> IdentChar(name[i])) && (name != "" ==> Letter(name[0]))
  }

  lemma {:induction false} TagIsRead(name: string, u: string)
    requires forall i :: 0 <= i < |name| ==> IdentChar(name[i])
    ensures TagRest(name + "$" + u) == Some(|name| + 1)
  {
    if name == "" {
      assert name + "$" + u == "$" + u;
    } else {
      TagIsRead(name[1..], u);
      assert (name + "$" + u)[1..] == name[1..] + "$" + u;
    }
  }

  lemma {:induction false} DollarScans(s: string, m: nat, k: nat)
    requires s != "" && s[0] == '$' && Tag(s[1..]) == Some(m) && Find(s[1 + m..], s[..1 + m]) == Some(k)
    ensures AtToken(s) && Scan(s) == (Opaque, 1 + m + k + 1 + m)
  {
    hide Tag, TagRest, Find, CommentEnd, QuoteEnd, WordRun;
  }

  lemma {:induction false} DollarText(delimiter: string, body: string, u: string)
    ensures var s := delimiter + body + delimiter + u;
            s[..|delimiter|] == delimiter && s[|delimiter|..] == body + delimiter + u
  {
    assert delimiter + body + delimiter + u == delimiter + (body + delimiter + u);
  }

  lemma {:induction false} TagOpens(name: string, u: string)
    requires TagName(name)
    ensures "$" + name + "$" + u != "" && ("$" + name + "$" + u)[0] == '$'
    ensures Tag(("$" + name + "$" + u)[1..]) == Some(|name| + 1)
  {
    hide TagRest;
    var s := "$" + name + "$" + u;
    assert s[1..] == name + "$" + u;
    TagIsRead(name, u);
    assert s[1..][0] == if name == "" then '$' else name[0];
  }

  /** A dollar-quoted string is one opaque token up to the next occurrence of its delimiter. */
  lemma {:induction false} DollarStringIsRead(name: string, body: string, u: string)
    requires TagName(name)
    requires var delimiter := "$" + name + "$";
             forall i :: 0 <= i < |body| ==> !StartsAt(body + delimiter, delimiter, i)
    ensures var delimiter := "$" + name + "$"; ReadAs(Opaque, delimiter + body + delimiter, u)
  {
    hide Tag, TagRest, Find, Scan, IsSpace, StartsAt, TagName, ReadAs;
    var delimiter := "$" + name + "$";
    DollarEnds(name, body, u);
    DollarText(delimiter, body, u);
    var s, behind := delimiter + body + delimiter + u, body + delimiter + u;
    TagOpens(name, behind);
    assert s == delimiter + behind;
    DollarScans(s, |name| + 1, |body|);
    ReadByScan(Opaque, delimiter + body + delimiter, u);
  }

  lemma {:induction false} DollarEnds(name: string, body: string, u: string)
    requires var delimiter := "$" + name + "$";
             forall i :: 0 <= i < |body| ==> !StartsAt(body + delimiter, delimiter, i)
    ensures var delimiter := "$" + name + "$"; Find(body + delimiter + u, delimiter) == Some(|body|)
  {
    hide Find;
    var delimiter := "$" + name + "$";
    var s := body + delimiter + u;
    FindMeaning(s, delimiter);
    assert s[|body|..] == delimiter + u && StartsAt(s, delimiter, |body|);
    forall i | 0 <= i < |body|
      ensures !StartsAt(s, delimiter, i)
    {
      assert !StartsAt(body + delimiter, delimiter, i);
      assert s[i..][..|delimiter|] == (body + delimiter)[i..][..|delimiter|];
    }
  }

  // ---------------------------------------------------------------------------
  // Words and symbols
  // ---------------------------------------------------------------------------

  lemma {:induction false} WordRunIs(w: string, u: string)
    requires (forall i :: 0 <= i < |w| ==> WordChar(w[i])) && (u == "" || !WordChar(u[0]))
    ensures WordRun(w + u) == |w|
  {
    if w == "" {
      assert w + u == u;
    } else {
      WordRunIs(w[1..], u);
      assert (w + u)[1..] == w[1..] + u;
    }
  }

  /** A word runs as far as letters, digits, underscores and dollar signs go. */
  lemma {:induction false} WordIsRead(w: string, u: string)
    requires w != "" && Letter(w[0]) && (forall i :: 0 <= i < |w| ==> WordChar(w[i]))
    requires u == "" || (!WordChar(u[0]) && !(w in {"E", "e"} && u[0] == '\''))
    ensures ReadAs(Word, w, u)
  {
    hide WordRun;
    var s := w + u;
    WordRunIs(w, u);
    assert s[0] == w[0] && (|s| > 1 ==> s[1] == if |w| > 1 then w[1] else u[0]);
    assert |w| == 1 ==> w == [w[0]];
    ReadByScan(Word, w, u);
  }

  lemma {:induction false} SymbolScans(s: string)
    requires s != "" && !Letter(s[0]) && !Quote(s[0]) && s[0] != '$' && !IsSpace(s[0])
    requires |s| > 1 ==> !(s[0] == '-' && s[1] == '-') && !(s[0] == '/' && s[1] == '*') && !(s[0] == ':' && s[1] == ':')
    ensures Scan(s) == (Symbol, 1)
  {
    hide Tag, Find, CommentEnd, QuoteEnd, WordRun, IsSpace;
  }

  /** Two colons are one symbol; any other character that begins nothing else is one by itself. */
  lemma {:induction false} SymbolIsRead(c: char, u: string)
    requires !IsSpace(c) && !Letter(c) && !Quote(c) && c != '$'
    requires u == "" || !((c == '-' && u[0] == '-') || (c == '/' && u[0] == '*') || (c == ':' && u[0] == ':'))
    ensures ReadAs(Symbol, "::", u) && ReadAs(Symbol, [c], u)
  {
    hide Scan, IsSpace, Letter, Quote;
    ColonsToken(u);
    assert ([c] + u)[0] == c && (u != "" ==> ([c] + u)[1] == u[0]);
    SymbolScans([c] + u);
    ReadByScan(Symbol, [c], u);
  }

  /** White space is skipped. */
  lemma {:induction false} SpaceIsSkipped(c: char, u: string)
    requires IsSpace(c)
    ensures Tokens([c] + u) == Tokens(u)
  {
    assert ([c] + u)[1..] == u;
  }
}
