/**
 `canonical_constraint` as `restore-verify.py` runs it: token positions, a list of replacements, and
 the replacements spliced in from the back. It is proved to compute the one-pass `Canonical`.
 */
module ConstraintCanonical {
  import opened Prelude
  import opened ConstraintText
  import opened ConstraintRewrite

  datatype Patch = Patch(start: nat, end: nat, text: string)

  function TokensOf(lexemes: seq<Lexeme>): (r: seq<Token>)
    ensures |r| == |lexemes|
  {
    seq(|lexemes|, k requires 0 <= k < |lexemes| => lexemes[k].token)
  }

  /** `[token[1] for token in tokens[i:i + n]]`. */
  function TextsAt(lexemes: seq<Lexeme>, i: nat, n: nat): (r: seq<string>)
    ensures |r| <= n && (r != [] || n == 0 || i >= |lexemes|)
    ensures |r| == n ==> n == 0 || i + n <= |lexemes|
    decreases n
  {
    if n == 0 || i >= |lexemes| then [] else [lexemes[i].token.text] + TextsAt(lexemes, i + 1, n - 1)
  }

  // ---------------------------------------------------------------------------
  // Reading one run
  // ---------------------------------------------------------------------------

  ghost function From(lexemes: seq<Lexeme>, i: nat): seq<Token>
    requires i <= |lexemes|
  {
    TokensOf(lexemes)[i..]
  }

  ghost function Shifted(r: Option<Run>, literals: seq<string>, n: nat): Option<Run> {
    match r
    case None => None
    case Some(run) => Some(Run(literals + run.literals, n + run.count))
  }

  ghost function Wanted(q: nat, n: nat): (r: seq<string>)
    ensures |r| == n
    decreases n
  {
    if n == 0 then [] else [Expected(q)] + Wanted(q + 1, n - 1)
  }

  lemma {:induction false} ShiftedTwice(r: Option<Run>, a: seq<string>, m: nat, b: seq<string>, n: nat)
    ensures Shifted(Shifted(r, b, n), a, m) == Shifted(r, a + b, m + n)
    ensures Shifted(r, [], 0) == r
  {
    if r.Some? {
      assert a + (b + r.value.literals) == (a + b) + r.value.literals;
      assert [] + r.value.literals == r.value.literals;
    }
  }

  lemma {:induction false} OneStep(lexemes: seq<Lexeme>, i: nat, q: nat)
    requires i < |lexemes| && q < FINAL
    ensures Accept(q, From(lexemes, i))
         == match Step(q, lexemes[i].token)
            case None => None
            case Some(next) =>
              Shifted(Accept(next, From(lexemes, i + 1)), if q == 3 then [lexemes[i].token.text] else [], 1)
  {
    assert From(lexemes, i)[0] == lexemes[i].token && From(lexemes, i)[1..] == From(lexemes, i + 1);
    if Step(q, lexemes[i].token).Some? {
      ShiftedTwice(Accept(Step(q, lexemes[i].token).value, From(lexemes, i + 1)), [], 0, [], 0);
    }
  }

  /** Comparing a slice of texts is taking that many steps of the automaton. */
  lemma {:induction false} Straight(lexemes: seq<Lexeme>, i: nat, q: nat, n: nat)
    requires i <= |lexemes| && q + n <= FINAL
    requires (q + n <= 3 || q > 3) && (q + n <= 7 || q > 7)
    ensures TextsAt(lexemes, i, n) == Wanted(q, n) ==>
              i + n <= |lexemes| && Accept(q, From(lexemes, i)) == Shifted(Accept(q + n, From(lexemes, i + n)), [], n)
    ensures TextsAt(lexemes, i, n) != Wanted(q, n) ==> Accept(q, From(lexemes, i)) == None
    decreases n
  {
    hide Accept, From, Shifted, Expected;
    if n == 0 {
      ShiftedTwice(Accept(q, From(lexemes, i)), [], 0, [], 0);
    } else if i < |lexemes| {
      OneStep(lexemes, i, q);
      Straight(lexemes, i + 1, q + 1, n - 1);
      assert TextsAt(lexemes, i, n)[1..] == TextsAt(lexemes, i + 1, n - 1);
      assert Wanted(q, n)[1..] == Wanted(q + 1, n - 1);
      if TextsAt(lexemes, i, n) == Wanted(q, n) {
        ShiftedTwice(Accept(q + n, From(lexemes, i + n)), [], 1, [], n - 1);
        var none: seq<string> := [];
        assert none + [] == [];
      } else {
        ShiftedNone([], 1);
      }
    } else {
      AcceptNothing(lexemes, q);
    }
  }

  lemma {:induction false} ShiftedNone(a: seq<string>, m: nat)
    ensures Shifted(None, a, m) == None
  {
  }

  lemma {:induction false} AcceptNothing(lexemes: seq<Lexeme>, q: nat)
    requires q < FINAL
    ensures Accept(q, From(lexemes, |lexemes|)) == None
  {
  }

  lemma {:induction false} WantedTexts()
    ensures Wanted(0, 3) == ["(", "ARRAY", "["]
    ensures Wanted(4, 3) == ["::", "character", "varying"]
    ensures Wanted(8, 5) == [")", "::", "text", "[", "]"]
  {
  }

  /** The tokens of one element of the array. */
  lemma {:induction false} ElementStep(lexemes: seq<Lexeme>, i: nat)
    requires i + 4 < |lexemes|
    ensures Accept(3, From(lexemes, i))
         == if lexemes[i].token.kind.Literal? && TextsAt(lexemes, i + 1, 3) == ["::", "character", "varying"]
            then Shifted(Accept(7, From(lexemes, i + 4)), [lexemes[i].token.text], 4)
            else None
  {
    hide Accept, From, Shifted, Expected, Wanted, TextsAt;
    OneStep(lexemes, i, 3);
    Straight(lexemes, i + 1, 4, 3);
    WantedTexts();
    var text := lexemes[i].token.text;
    ShiftedTwice(Accept(7, From(lexemes, i + 4)), [text], 1, [], 3);
    assert [text] + [] == [text];
    ShiftedNone([text], 1);
  }

  lemma {:induction false} CommaStep(lexemes: seq<Lexeme>, i: nat)
    requires i < |lexemes| && lexemes[i].token.text == ","
    ensures Accept(7, From(lexemes, i)) == Shifted(Accept(3, From(lexemes, i + 1)), [], 1)
  {
    hide Accept, From, Shifted, Expected;
    OneStep(lexemes, i, 7);
  }

  const TAIL: seq<string> := ["]", ")", "::", "text", "[", "]"]

  lemma {:induction false} TailStep(lexemes: seq<Lexeme>, i: nat)
    requires i < |lexemes| && lexemes[i].token.text != ","
    ensures Accept(7, From(lexemes, i)) == if TextsAt(lexemes, i, 6) == TAIL then Some(Run([], 6)) else None
  {
    hide Accept, From, Expected, Wanted;
    OneStep(lexemes, i, 7);
    Straight(lexemes, i + 1, 8, 5);
    WantedTexts();
    var rest := TextsAt(lexemes, i + 1, 5);
    assert TextsAt(lexemes, i, 6) == [lexemes[i].token.text] + rest;
    assert [lexemes[i].token.text] + rest == TAIL <==> lexemes[i].token.text == "]" && rest == TAIL[1..] by {
      assert TAIL == ["]"] + TAIL[1..];
    }
    assert TAIL[1..] == [")", "::", "text", "[", "]"];
    if rest == TAIL[1..] {
      Accepted(lexemes, i + 6);
      ShiftedTwice(Some(Run([], 0)), [], 1, [], 5);
    }
    ShiftedNone([], 1);
  }

  lemma {:induction false} Accepted(lexemes: seq<Lexeme>, i: nat)
    requires i <= |lexemes|
    ensures Accept(FINAL, From(lexemes, i)) == Some(Run([], 0))
  {
  }

  /** A run from its first literal on has at least ten tokens. */
  lemma {:induction false} TooShort(q: nat, tokens: seq<Token>)
    requires 3 <= q < FINAL && Accept(q, tokens).Some?
    ensures |tokens| >= FINAL - q
    decreases |tokens|
  {
    var next := Step(q, tokens[0]).value;
    if next < FINAL {
      TooShort(next, tokens[1..]);
    }
  }

  lemma {:induction false} NoRoom(lexemes: seq<Lexeme>, i: nat)
    requires i <= |lexemes| <= i + 4
    ensures Accept(3, From(lexemes, i)) == None
  {
    if Accept(3, From(lexemes, i)).Some? {
      TooShort(3, From(lexemes, i));
    }
  }

  /** The scan from an opening parenthesis: the literals of the run and the index after its elements. */
  method ReadRun(tokens: seq<Lexeme>, index: nat) returns (found: bool, literals: seq<string>, cursor: nat)
    requires index < |tokens|
    ensures index <= cursor
    ensures found == Accept(0, From(tokens, index)).Some?
    ensures found ==> Accept(0, From(tokens, index)) == Some(Run(literals, cursor + 6 - index))
  {
    hide Accept, TextsAt, Wanted, From, Expected;
    found, literals, cursor := false, [], index;
    Straight(tokens, index, 0, 3);
    WantedTexts();
    if TextsAt(tokens, index, 3) != ["(", "ARRAY", "["] {
      return;
    }
    var valid := true;
    cursor := index + 3;
    ghost var run := Accept(0, From(tokens, index));
    ghost var state := 3;
    while cursor + 4 < |tokens|
      invariant index + 3 <= cursor <= |tokens|
      invariant valid && state == 3
      invariant run == Shifted(Accept(3, From(tokens, cursor)), literals, cursor - index)
    {
      ElementStep(tokens, cursor);
      if !tokens[cursor].token.kind.Literal?
         || TextsAt(tokens, cursor + 1, 3) != ["::", "character", "varying"] {
        valid := false;
        break;
      }
      var text := tokens[cursor].token.text;
      ShiftedTwice(Accept(7, From(tokens, cursor + 4)), literals, cursor - index, [text], 4);
      literals := literals + [text];
      cursor := cursor + 4;
      if tokens[cursor].token.text != "," {
        state := 7;
        break;
      }
      CommaStep(tokens, cursor);
      ShiftedTwice(Accept(3, From(tokens, cursor + 1)), literals, cursor - index, [], 1);
      assert literals + [] == literals;
      cursor := cursor + 1;
    }
    if valid && state == 3 {
      NoRoom(tokens, cursor);
    } else if valid {
      TailStep(tokens, cursor);
      ShiftedTwice(Some(Run([], 6)), literals, cursor - index, [], 0);
      assert literals + [] == literals;
    }
    found := valid && literals != [] && TextsAt(tokens, cursor, 6) == TAIL;
  }

  // ---------------------------------------------------------------------------
  // Positions and patches
  // ---------------------------------------------------------------------------

  lemma {:induction false} TokensOfCons(first: Lexeme, rest: seq<Lexeme>)
    ensures TokensOf([first] + rest) == [first.token] + TokensOf(rest)
  {
  }

  lemma {:induction false} LexemesAreTokens(s: string, offset: nat)
    ensures TokensOf(Lexemes(s, offset)) == Tokens(s)
    decreases |s|
  {
    hide Scan, TokensOf, IsSpace, Lexemes, Tokens, Skip, Head, After;
    SkipUnfold(s, 1);
    if s == "" {
      LexemesNothing(offset);
      TokensOfNothing();
    } else if IsSpace(s[0]) {
      LexemesAreTokens(s[1..], offset + 1);
      LexemesSpace(s, offset, 1);
    } else {
      LexemesAreTokens(After(s), offset + Scan(s).1);
      LexemesStep(s, offset);
      TokensOfCons(Lexeme(Head(s), offset, offset + Scan(s).1), Lexemes(After(s), offset + Scan(s).1));
    }
  }

  lemma {:induction false} LexemesNothing(offset: nat)
    ensures Lexemes("", offset) == []
  {
  }

  lemma {:induction false} TokensOfNothing()
    ensures TokensOf([]) == []
  {
  }

  /** The white space in front of the first token. */
  function Lead(s: string): (n: nat)
    ensures n <= |s|
  {
    if s == "" || !IsSpace(s[0]) then 0 else 1 + Lead(s[1..])
  }

  /** The cursor position after token `k - 1`. */
  function EndOf(lexemes: seq<Lexeme>, k: nat): nat
    requires k <= |lexemes|
  {
    if k == 0 then 0 else lexemes[k - 1].end
  }

  lemma {:induction false} DropTwice(s: string, m: nat, n: nat)
    ensures Drop(Drop(s, m), n) == Drop(s, m + n)
  {
  }

  lemma {:induction false} LexemesStep(s: string, offset: nat)
    requires AtToken(s)
    ensures Lexemes(s, offset)
         == [Lexeme(Head(s), offset, offset + Scan(s).1)] + Lexemes(After(s), offset + Scan(s).1)
    ensures After(s) == Drop(s, Scan(s).1)
    ensures forall k {:trigger Skip(After(s), k)} :: k >= 0 ==> Skip(s, k + 1) == Skip(After(s), k)
  {
  }

  lemma {:induction false} LexemesSpace(s: string, offset: nat, k: nat)
    requires s != "" && IsSpace(s[0]) && k > 0
    ensures Lexemes(s, offset) == Lexemes(s[1..], offset + 1)
    ensures Skip(s, k) == Skip(s[1..], k)
  {
  }

  /** After `k` tokens of `s`, read from `offset` on, the cursor stands at the end of the last of them. */
  ghost predicate CursorAfter(s: string, offset: nat, k: nat)
    requires 0 < k <= |Lexemes(s, offset)|
  {
    var end := Lexemes(s, offset)[k - 1].end;
    && end >= offset
    && Skip(s, k) == Drop(s, end - offset)
    && Lexemes(s, offset)[k..] == Lexemes(Skip(s, k), end)
  }

  lemma {:induction false} PositionAfter(s: string, offset: nat, k: nat)
    requires 0 < k <= |Lexemes(s, offset)|
    ensures CursorAfter(s, offset, k)
    decreases |s|, 1
  {
    hide CursorAfter;
    if IsSpace(s[0]) {
      PositionAfter(s[1..], offset + 1, k);
      PositionSpace(s, offset, k);
    } else {
      PositionToken(s, offset, k);
    }
  }

  lemma {:induction false} PositionSpace(s: string, offset: nat, k: nat)
    requires s != "" && IsSpace(s[0]) && 0 < k <= |Lexemes(s[1..], offset + 1)|
    requires CursorAfter(s[1..], offset + 1, k)
    ensures k <= |Lexemes(s, offset)| && CursorAfter(s, offset, k)
  {
    LexemesSpace(s, offset, k);
    hide Scan, Lexemes, Skip, Drop;
    var end := Lexemes(s, offset)[k - 1].end;
    DropDrop(s, 1, end - offset - 1);
    assert 1 + (end - offset - 1) == end - offset;
  }

  lemma {:induction false} PositionToken(s: string, offset: nat, k: nat)
    requires AtToken(s) && 0 < k <= |Lexemes(s, offset)|
    ensures CursorAfter(s, offset, k)
    decreases |s|, 0
  {
    hide Scan, Lexemes, Skip, Drop, Head;
    var n := Scan(s).1;
    var rest := Lexemes(After(s), offset + n);
    LexemesStep(s, offset);
    ConsSlice(Lexeme(Head(s), offset, offset + n), rest, k);
    assert Skip(s, k) == Skip(After(s), k - 1);
    if k > 1 {
      PositionAfter(After(s), offset + n, k - 1);
      var end := rest[k - 2].end;
      DropTwice(s, n, end - offset - n);
      assert n + (end - offset - n) == end - offset;
    } else {
      SkipNone(After(s));
      assert offset + n - offset == n;
    }
  }

  lemma {:induction false} ConsSlice(first: Lexeme, rest: seq<Lexeme>, k: nat)
    requires 0 < k <= 1 + |rest|
    ensures ([first] + rest)[k..] == rest[k - 1..]
    ensures ([first] + rest)[k - 1] == if k == 1 then first else rest[k - 2]
  {
  }

  lemma {:induction false} SkipNone(s: string)
    ensures Skip(s, 0) == s
  {
  }

  lemma {:induction false} FirstStart(s: string, offset: nat)
    requires Lexemes(s, offset) != []
    ensures Lexemes(s, offset)[0].start == offset + Lead(s)
    decreases |s|
  {
    if IsSpace(s[0]) {
      FirstStart(s[1..], offset + 1);
    }
  }

  /** The state of the scan before token `k`: what is left to read and where it begins. */
  lemma {:induction false} LeftToRead(e: string, k: nat)
    requires k <= |Lexemes(e, 0)|
    ensures e[Clip(EndOf(Lexemes(e, 0), k), |e|)..] == Skip(e, k)
    ensures TokensOf(Lexemes(e, 0))[k..] == Tokens(Skip(e, k))
    ensures k < |Lexemes(e, 0)| ==> Lexemes(e, 0)[k].start == EndOf(Lexemes(e, 0), k) + Lead(Skip(e, k))
    ensures k < |Lexemes(e, 0)| ==> EndOf(Lexemes(e, 0), k) <= |e|
  {
    hide Scan;
    LexemesAreTokens(e, 0);
    SkipTokens(e, k);
    if k > 0 {
      PositionAfter(e, 0, k);
    }
    if k < |Lexemes(e, 0)| {
      FirstStart(Skip(e, k), EndOf(Lexemes(e, 0), k));
      assert Lexemes(e, 0)[k..][0] == Lexemes(e, 0)[k];
    }
  }

  /** The first `p` characters of `e` with the patches put in. */
  ghost function Patched(e: string, patches: seq<Patch>, p: nat): string
    requires p <= |e| && Ordered(e, patches, p)
  {
    if patches == [] then e[..p]
    else
      var last := patches[|patches| - 1];
      Patched(e, patches[..|patches| - 1], last.start) + last.text + e[last.end..p]
  }

  /** The patches lie one behind the other in the first `p` characters. */
  ghost predicate Ordered(e: string, patches: seq<Patch>, p: nat) {
    patches == [] ||
      var last := patches[|patches| - 1];
      last.start <= last.end <= p && Ordered(e, patches[..|patches| - 1], last.start)
  }

  lemma {:induction false} PatchedExtend(e: string, patches: seq<Patch>, p: nat, q: nat)
    requires p <= q <= |e| && Ordered(e, patches, p)
    ensures Ordered(e, patches, q) && Patched(e, patches, q) == Patched(e, patches, p) + e[p..q]
  {
  }

  lemma {:induction false} PatchedAdd(e: string, patches: seq<Patch>, p: nat, patch: Patch)
    requires p <= patch.start <= patch.end <= |e| && Ordered(e, patches, p)
    ensures Ordered(e, patches + [patch], patch.end)
    ensures Patched(e, patches + [patch], patch.end) == Patched(e, patches, p) + e[p..patch.start] + patch.text
  {
  }

  /** What a leading white-space character changes. */
  lemma {:induction false} SpaceInFront(s: string, k: nat)
    requires s != "" && IsSpace(s[0]) && k > 0
    ensures Tokens(s) == Tokens(s[1..]) && Lead(s) == 1 + Lead(s[1..]) && RunAt(s) == RunAt(s[1..])
    ensures Skip(s, k) == Skip(s[1..], k) && Canonical(s) == [s[0]] + Canonical(s[1..])
  {
  }

  /** The first token of a text with the white space in front of it. */
  function Front(s: string): string
    requires Tokens(s) != []
    decreases |s|
  {
    if IsSpace(s[0]) then [s[0]] + Front(s[1..]) else Head(s).text
  }

  lemma {:induction false} FrontIsFirst(s: string)
    requires Tokens(s) != []
    ensures s == Front(s) + Skip(s, 1)
    decreases |s|
  {
    hide Scan;
    if IsSpace(s[0]) {
      FrontIsFirst(s[1..]);
      assert s == [s[0]] + s[1..];
    } else {
      assert Skip(s, 1) == After(s);
    }
  }

  lemma {:induction false} SpaceFront(s: string)
    requires Tokens(s) != [] && IsSpace(s[0])
    ensures Front(s) == [s[0]] + Front(s[1..])
  {
  }

  /** A kept token comes out with the white space in front of it. */
  lemma {:induction false} CanonicalKeeps(s: string)
    requires Tokens(s) != [] && RunAt(s) == None
    ensures Canonical(s) == Front(s) + Canonical(Skip(s, 1))
    decreases |s|
  {
    hide Scan, Accept, Replacement, IsSpace;
    if IsSpace(s[0]) {
      hide Tokens, Skip, Canonical, Front, RunAt;
      SpaceInFront(s, 1);
      CanonicalKeeps(s[1..]);
      SpaceFront(s);
    }
  }

  /** The white space in front of the first token, as text. */
  function Margin(s: string): string {
    if s == "" || !IsSpace(s[0]) then "" else [s[0]] + Margin(s[1..])
  }

  lemma {:induction false} MarginIsLead(s: string)
    ensures Margin(s) == s[..Lead(s)]
  {
    if s != "" && IsSpace(s[0]) {
      MarginIsLead(s[1..]);
      assert s[..Lead(s)] == [s[0]] + s[1..][..Lead(s[1..])];
    }
  }

  lemma {:induction false} MarginUnfold(s: string)
    requires s != ""
    ensures Margin(s) == if IsSpace(s[0]) then [s[0]] + Margin(s[1..]) else ""
  {
  }

  lemma {:induction false} RewriteHere(s: string)
    requires AtToken(s) && RunAt(s).Some?
    ensures Canonical(s) == Replacement(RunAt(s).value.literals) + Canonical(Skip(s, RunAt(s).value.count))
  {
  }

  /** A run comes out as its replacement, with the white space in front of it. */
  lemma {:induction false} CanonicalRewrites(s: string)
    requires Tokens(s) != [] && RunAt(s).Some?
    ensures Canonical(s)
         == Margin(s) + (Replacement(RunAt(s).value.literals) + Canonical(Skip(s, RunAt(s).value.count)))
    decreases |s|
  {
    hide Scan, Accept, Replacement, IsSpace, Head, After, RunAt, Canonical, Skip, Tokens, Margin;
    var run := RunAt(s).value;
    var rest := Replacement(run.literals) + Canonical(Skip(s, run.count));
    SkipUnfold(s, run.count);
    if IsSpace(s[0]) {
      SpaceInFront(s, run.count);
      CanonicalRewrites(s[1..]);
      assert [s[0]] + (Margin(s[1..]) + rest) == ([s[0]] + Margin(s[1..])) + rest;
      assert Margin(s) == [s[0]] + Margin(s[1..]) by { MarginUnfold(s); }
    } else {
      RewriteHere(s);
      MarginUnfold(s);
      assert "" + rest == rest;
    }
  }

  // ---------------------------------------------------------------------------
  // The two loops
  // ---------------------------------------------------------------------------

  /** What the scan has established before it looks at token `index`, with the cursor at `p`. */
  ghost predicate Scanned(e: string, lexemes: seq<Lexeme>, index: nat, patches: seq<Patch>, p: nat) {
    && index <= |lexemes|
    && p == Clip(EndOf(lexemes, index), |e|)
    && Ordered(e, patches, p)
    && Canonical(e) == Patched(e, patches, p) + Canonical(Skip(e, index))
  }

  lemma {:induction false} SkipUnfold(s: string, k: nat)
    ensures Skip(s, 0) == s && (s == "" ==> Tokens(s) == [])
    ensures s != "" && k > 0 ==> Skip(s, k) == if IsSpace(s[0]) then Skip(s[1..], k) else Skip(After(s), k - 1)
    ensures s != "" ==> Tokens(s) == if IsSpace(s[0]) then Tokens(s[1..]) else [Head(s)] + Tokens(After(s))
  {
  }

  lemma {:induction false} SkipPlus(s: string, m: nat, n: nat)
    requires m + n <= |Tokens(s)|
    ensures Skip(Skip(s, m), n) == Skip(s, m + n)
    decreases |s|
  {
    hide Tokens, Skip, Scan, IsSpace, Head, After;
    SkipUnfold(s, m);
    SkipUnfold(s, m + n);
    if m > 0 {
      if IsSpace(s[0]) {
        SkipPlus(s[1..], m, n);
      } else {
        SkipPlus(After(s), m - 1, n);
      }
    }
  }

  lemma {:induction false} KeepToken(e: string, index: nat, patches: seq<Patch>, p: nat)
    requires index < |Lexemes(e, 0)| && Scanned(e, Lexemes(e, 0), index, patches, p)
    requires Accept(0, From(Lexemes(e, 0), index)) == None
    ensures Scanned(e, Lexemes(e, 0), index + 1, patches, Clip(EndOf(Lexemes(e, 0), index + 1), |e|))
  {
    hide Lexemes, Tokens, Skip, Accept, Canonical, Patched, Ordered, Front;
    var s := Skip(e, index);
    var q := Clip(EndOf(Lexemes(e, 0), index + 1), |e|);
    LexemesAreTokens(e, 0);
    LeftToRead(e, index);
    LeftToRead(e, index + 1);
    SkipPlus(e, index, 1);
    CanonicalKeeps(s);
    FrontIsFirst(s);
    SuffixBetween(e, p, q, Front(s));
    PatchedExtend(e, patches, p, q);
    assert Patched(e, patches, p) + (Front(s) + Canonical(Skip(s, 1)))
        == (Patched(e, patches, p) + Front(s)) + Canonical(Skip(s, 1));
  }

  lemma {:induction false} SuffixBetween(e: string, p: nat, q: nat, front: string)
    requires p <= |e| && q <= |e| && e[p..] == front + e[q..]
    ensures p <= q && e[p..q] == front
  {
  }

  lemma {:induction false} FromIs(lexemes: seq<Lexeme>, i: nat)
    requires i <= |lexemes|
    ensures From(lexemes, i) == TokensOf(lexemes)[i..]
    ensures |From(lexemes, i)| == |lexemes| - i
  {
  }

  lemma {:induction false} RewriteRun(e: string, index: nat, patches: seq<Patch>, p: nat, patch: Patch)
    requires index < |Lexemes(e, 0)| && Scanned(e, Lexemes(e, 0), index, patches, p)
    requires Accept(0, From(Lexemes(e, 0), index)).Some?
    requires var run := Accept(0, From(Lexemes(e, 0), index)).value;
             && patch.start == Lexemes(e, 0)[index].start
             && patch.end == Lexemes(e, 0)[index + run.count - 1].end
             && patch.text == Replacement(run.literals)
    ensures var run := Accept(0, From(Lexemes(e, 0), index)).value;
            Scanned(e, Lexemes(e, 0), index + run.count, patches + [patch], patch.end)
  {
    hide Lexemes, Tokens, Skip, Accept, Canonical, Patched, Ordered, Replacement, Margin, Lead, IsSpace, From;
    FromIs(Lexemes(e, 0), index);
    var s, run := Skip(e, index), Accept(0, From(Lexemes(e, 0), index)).value;
    LexemesAreTokens(e, 0);
    LeftToRead(e, index);
    LeftToRead(e, index + run.count);
    SkipPlus(e, index, run.count);
    CanonicalRewrites(s);
    MarginInside(e, p, s);
    SkipPastLead(s, run.count);
    RunEndsWithBracket(0, From(Lexemes(e, 0), index));
    assert TokensOf(Lexemes(e, 0))[index..][run.count - 1] == Lexemes(e, 0)[index + run.count - 1].token;
    BracketInside(e, 0, index + run.count - 1);
    PatchedAdd(e, patches, p, patch);
    var rest := Canonical(Skip(s, run.count));
    assert Patched(e, patches, p) + (Margin(s) + (patch.text + rest))
        == (Patched(e, patches, p) + Margin(s) + patch.text) + rest;
  }

  /** The last token of a run is a bracket, so the cursor stands inside the text after it. */
  lemma {:induction false} RunEndsWithBracket(q: nat, tokens: seq<Token>)
    requires q < FINAL && Accept(q, tokens).Some?
    ensures tokens[Accept(q, tokens).value.count - 1].text == "]"
    decreases |tokens|
  {
    var next := Step(q, tokens[0]).value;
    if next < FINAL {
      RunEndsWithBracket(next, tokens[1..]);
    }
  }

  lemma {:induction false} BracketInside(s: string, offset: nat, k: nat)
    requires k < |Lexemes(s, offset)| && Lexemes(s, offset)[k].token.text == "]"
    ensures Lexemes(s, offset)[k].end <= offset + |s|
    decreases |s|
  {
    hide IsSpace, Scan, Lexemes, Head, After, Tokens, Skip;
    LexemesNothing(offset);
    if IsSpace(s[0]) {
      LexemesSpace(s, offset, 1);
      BracketInside(s[1..], offset + 1, k);
    } else {
      LexemesStep(s, offset);
      if k > 0 {
        LexemesNothing(offset + Scan(s).1);
        AfterLength(s);
        BracketInside(After(s), offset + Scan(s).1, k - 1);
      } else {
        BracketHead(s);
      }
    }
  }

  lemma {:induction false} AfterLength(s: string)
    requires AtToken(s) && After(s) != ""
    ensures |After(s)| == |s| - Scan(s).1
  {
  }

  lemma {:induction false} BracketHead(s: string)
    requires AtToken(s) && Head(s).text == "]"
    ensures Scan(s).1 == 1
  {
  }

  lemma {:induction false} MarginInside(e: string, p: nat, s: string)
    requires p <= |e| && e[p..] == s
    ensures p + Lead(s) <= |e| && e[p..p + Lead(s)] == Margin(s)
  {
    MarginIsLead(s);
    assert e[p..p + Lead(s)] == e[p..][..Lead(s)];
  }

  /** The first token lies behind the leading white space. */
  lemma {:induction false} SkipPastLead(s: string, k: nat)
    requires k > 0
    ensures |Skip(s, k)| + Lead(s) <= |s|
  {
    hide Scan;
    if s != "" && IsSpace(s[0]) {
      SkipPastLead(s[1..], k);
    }
  }

  lemma {:induction false} ScanStart(e: string)
    ensures Scanned(e, Lexemes(e, 0), 0, [], 0)
  {
  }

  lemma {:induction false} ScanEnd(e: string, patches: seq<Patch>, p: nat)
    requires Scanned(e, Lexemes(e, 0), |Lexemes(e, 0)|, patches, p)
    ensures Ordered(e, patches, |e|) && Canonical(e) == Patched(e, patches, |e|)
  {
    hide Lexemes, Patched, Ordered, Accept, Scan;
    LexemesAreTokens(e, 0);
    LeftToRead(e, |Lexemes(e, 0)|);
    PatchedExtend(e, patches, p, |e|);
    var rest := Skip(e, |Lexemes(e, 0)|);
    assert e[p..|e|] == rest;
    NothingLeft(rest);
  }

  /** Text without tokens is white space, which the pass keeps. */
  lemma {:induction false} NothingLeft(s: string)
    requires Tokens(s) == []
    ensures Canonical(s) == s
    decreases |s|
  {
    hide Scan, Accept;
    if s != "" {
      NothingLeft(s[1..]);
    }
  }

  lemma {:induction false} PatchedNothing(e: string)
    ensures forall p :: 0 <= p <= |e| ==> Ordered(e, [], p) && Patched(e, [], p) == e[..p]
  {
  }

  lemma {:induction false} SpliceStep(e: string, patches: seq<Patch>, patch: Patch, bound: nat, tail: string)
    requires bound <= |e| && Ordered(e, patches + [patch], bound)
    ensures Ordered(e, patches, patch.start) && patch.start <= patch.end <= bound
    ensures Patched(e, patches, patch.start) + (patch.text + (e[patch.end..bound] + tail))
         == Patched(e, patches + [patch], bound) + tail
  {
  }

  /** Splicing the replacements in from the back, so that the earlier positions stay valid. */
  method Splice(expression: string, replacements: seq<Patch>) returns (r: string)
    requires Ordered(expression, replacements, |expression|)
    ensures r == Patched(expression, replacements, |expression|)
  {
    hide Patched, Ordered;
    r := expression;
    var k := |replacements|;
    ghost var bound, tail := |expression|, "";
    assert replacements[..k] == replacements;
    PatchedNothing(expression);
    while k > 0
      invariant 0 <= k <= |replacements| && 0 <= bound <= |expression|
      invariant r == expression[..bound] + tail
      invariant Ordered(expression, replacements[..k], bound)
      invariant Patched(expression, replacements[..k], bound) + tail
             == Patched(expression, replacements, |expression|)
    {
      k := k - 1;
      var patch := replacements[k];
      assert replacements[..k + 1] == replacements[..k] + [patch];
      SpliceStep(expression, replacements[..k], patch, bound, tail);
      assert r[..patch.start] == expression[..patch.start];
      assert r[patch.end..] == expression[patch.end..bound] + tail;
      r := r[..patch.start] + patch.text + r[patch.end..];
      tail := patch.text + (expression[patch.end..bound] + tail);
      bound := patch.start;
    }
  }

  /** The scan over the tokens collects one replacement for every run, leftmost first. */
  method CollectReplacements(expression: string) returns (replacements: seq<Patch>)
    ensures Ordered(expression, replacements, |expression|)
    ensures Canonical(expression) == Patched(expression, replacements, |expression|)
  {
    hide Lexemes, Accept, Scanned, Canonical, Patched, Ordered, Replacement;
    var tokens := ConstraintTokens(expression);
    var index := 0;
    replacements := [];
    ghost var p := 0;
    ScanStart(expression);
    while index < |tokens|
      invariant index <= |tokens|
      invariant Scanned(expression, tokens, index, replacements, p)
    {
      var found, literals, cursor := ReadRun(tokens, index);
      if found {
        assert cursor + 6 - index <= |From(tokens, index)|;
        var patch := Patch(tokens[index].start, tokens[cursor + 5].end, Replacement(literals));
        RewriteRun(expression, index, replacements, p, patch);
        replacements := replacements + [patch];
        p := patch.end;
        index := cursor + 6;
      } else {
        KeepToken(expression, index, replacements, p);
        p := Clip(EndOf(tokens, index + 1), |expression|);
        index := index + 1;
      }
    }
    ScanEnd(expression, replacements, p);
  }

  method CanonicalConstraint(expression: string) returns (r: string)
    ensures r == Canonical(expression)
  {
    var replacements := CollectReplacements(expression);
    r := Splice(expression, replacements);
  }
}
