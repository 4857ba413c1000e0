/**
 Structure-aware chunking: a block is cut into overlapping pieces, and consecutive pieces are
 gathered into chunks. `SplitBlocks` is the splitter's nested loop; `Group` is the plain rule it
 implements.
 */
module Chunks {
  import opened Prelude

  const TARGET_CHARS: nat := 2600
  const MAX_CHARS: nat := 4000
  const OVERLAP_CHARS: nat := 240

  datatype Kind = Paragraph | Heading | Table | TableRow | Page | Section | Point

  datatype Block = Block(id: nat, extraction: nat, page: Option<nat>, kind: Kind, anchor: string, text: string)

  /** The characters `start..end` of one block. */
  datatype Piece = Piece(block: Block, start: nat, end: nat)

  /** The pieces of one chunk: at least one. */
  type Gathered = g: seq<Piece> | |g| > 0
    witness [Piece(Block(0, 0, None, Paragraph, "", ""), 0, 0)]

  datatype Range = Range(block: nat, start: nat, end: nat)

  /** A stored chunk. Its identity is an injective hash of `extraction` and `ranges`. */
  datatype Chunk = Chunk(
    ordinal: nat,
    extraction: nat,
    ranges: seq<Range>,
    text: string,
    page: Option<nat>,
    anchor: string
  )

  function Max(a: int, b: int): int {
    if a >= b then a else b
  }

  predicate Tabular(kind: Kind) {
    kind.Table? || kind.TableRow?
  }

  predicate Boundary(kind: Kind) {
    Tabular(kind) || kind.Heading? || kind.Page? || kind.Section?
  }

  // ---------------------------------------------------------------------------
  // Cutting one block
  // ---------------------------------------------------------------------------

  /** Highest position of `c` in `text[lo..hi]`, or -1. */
  function FindLast(text: string, c: char, lo: nat, hi: nat): (i: int)
    requires hi <= |text|
    ensures i == -1 || (lo <= i < hi && text[i] == c)
    ensures forall k :: lo <= k < hi && k > i ==> text[k] != c
    decreases hi
  {
    if hi <= lo then -1
    else if text[hi - 1] == c then hi - 1
    else FindLast(text, c, lo, hi - 1)
  }

  /** Where the piece that begins at `start` ends. */
  function CutEnd(block: Block, start: nat): (end: nat)
    requires start < |block.text|
    ensures start < end <= |block.text| && end <= start + MAX_CHARS
    ensures end < |block.text| ==> end >= start + TARGET_CHARS
  {
    if start + MAX_CHARS >= |block.text| then |block.text|
    else
      var hi := start + MAX_CHARS;
      var first := FindLast(block.text, if block.kind.Table? then '\n' else ' ', start + TARGET_CHARS, hi);
      var split :=
        if first < 0 && block.kind.Table? then FindLast(block.text, ' ', start + TARGET_CHARS, hi) else first;
      if split > start then split else hi
  }

  /** The pieces of a block from `start` on. */
  function Cuts(block: Block, start: nat): seq<Piece>
    requires start <= |block.text|
    decreases |block.text| - start, 1
  {
    if start == |block.text| then []
    else
      var end := CutEnd(block, start);
      [Piece(block, start, end)] + CutsAfter(block, start, end)
  }

  function CutsAfter(block: Block, start: nat, end: nat): seq<Piece>
    requires start < |block.text| && end == CutEnd(block, start)
    decreases |block.text| - start, 0
  {
    if end < |block.text| then Cuts(block, end - OVERLAP_CHARS) else []
  }

  /** `text[start..end]` as Python slices it, for positions in order. */
  function Slice(text: string, start: nat, end: nat): string {
    if start <= end <= |text| then text[start..end] else ""
  }

  function PieceText(p: Piece): string {
    Slice(p.block.text, p.start, p.end)
  }

  ghost predicate PieceOk(p: Piece) {
    p.start < p.end <= |p.block.text| && p.end - p.start <= MAX_CHARS
  }

  /** The last piece of its block. */
  predicate Whole(p: Piece) {
    p.end == |p.block.text|
  }

  /** One piece and the next: a cut advances by at least 2360 and the next piece repeats 240 characters. */
  ghost predicate LinkAt(cuts: seq<Piece>, i: nat)
    requires i + 1 < |cuts|
  {
    && !Whole(cuts[i])
    && cuts[i + 1].start == cuts[i].end - OVERLAP_CHARS
    && cuts[i].end >= cuts[i].start + TARGET_CHARS
  }

  ghost predicate PieceAt(block: Block, cuts: seq<Piece>, i: nat)
    requires i < |cuts|
  {
    PieceOk(cuts[i]) && cuts[i].block == block
  }

  /** Linked pieces that run from `start` to the end of the block. */
  ghost predicate CutsFrom(block: Block, start: nat, cuts: seq<Piece>) {
    && (forall i: nat :: i < |cuts| ==> PieceAt(block, cuts, i))
    && (forall i: nat :: i + 1 < |cuts| ==> LinkAt(cuts, i))
    && (if cuts == [] then start == |block.text| else cuts[0].start == start && Whole(cuts[|cuts| - 1]))
  }

  lemma {:induction false} CutsShape(block: Block, start: nat)
    requires start <= |block.text|
    ensures CutsFrom(block, start, Cuts(block, start))
    decreases |block.text| - start
  {
    if start < |block.text| {
      var end := CutEnd(block, start);
      if end < |block.text| {
        var rest := Cuts(block, end - OVERLAP_CHARS);
        CutsShape(block, end - OVERLAP_CHARS);
        var cuts := Cuts(block, start);
        assert CutsAfter(block, start, end) == rest;
        assert cuts == [Piece(block, start, end)] + rest;
        forall i: nat | i < |cuts|
          ensures PieceAt(block, cuts, i)
        {
          if i > 0 { assert PieceAt(block, rest, i - 1); }
        }
        forall i: nat | i + 1 < |cuts|
          ensures LinkAt(cuts, i)
        {
          if i > 0 { assert LinkAt(rest, i - 1); }
        }
      }
    }
  }

  /** Dropping the overlap from every piece after the first and joining the rest. */
  ghost function Rejoin(cuts: seq<Piece>): string {
    if cuts == [] then ""
    else
      var n := |cuts| - 1;
      if n == 0 then PieceText(cuts[n]) else Rejoin(cuts[..n]) + Drop(PieceText(cuts[n]), OVERLAP_CHARS)
  }

  /** Ends strictly increase, so every piece reaches beyond its overlap. */
  lemma {:induction false} LinkReaches(block: Block, start: nat, cuts: seq<Piece>, i: nat)
    requires CutsFrom(block, start, cuts) && i + 1 < |cuts|
    ensures cuts[i].end < cuts[i + 1].end
    ensures cuts[i + 1].start == cuts[i].end - OVERLAP_CHARS
  {
    assert LinkAt(cuts, i) && PieceAt(block, cuts, i) && PieceAt(block, cuts, i + 1);
    if i + 2 < |cuts| {
      assert LinkAt(cuts, i + 1);
    } else {
      assert Whole(cuts[i + 1]);
    }
  }

  lemma {:induction false} RejoinPrefix(block: Block, cuts: seq<Piece>, n: nat)
    requires CutsFrom(block, 0, cuts) && 0 < n <= |cuts|
    ensures cuts[n - 1].block == block && cuts[n - 1].end <= |block.text|
    ensures Rejoin(cuts[..n]) == block.text[..cuts[n - 1].end]
  {
    assert PieceAt(block, cuts, n - 1);
    if n > 1 {
      RejoinPrefix(block, cuts, n - 1);
      assert cuts[..n][..n - 1] == cuts[..n - 1];
      LinkReaches(block, 0, cuts, n - 2);
      assert Drop(PieceText(cuts[n - 1]), OVERLAP_CHARS) == block.text[cuts[n - 2].end..cuts[n - 1].end];
    }
  }

  /** Cutting loses nothing: without the overlaps the pieces are the block's text, whatever its length. */
  lemma {:induction false} CutsRejoin(block: Block)
    ensures CutsFrom(block, 0, Cuts(block, 0))
    ensures Rejoin(Cuts(block, 0)) == block.text
  {
    var cuts := Cuts(block, 0);
    CutsShape(block, 0);
    if cuts != [] {
      RejoinPrefix(block, cuts, |cuts|);
      assert cuts[..|cuts|] == cuts;
    }
  }

  predicate Covers(p: Piece, offset: nat) {
    p.start <= offset < p.end
  }

  lemma {:induction false} EndsGrow(block: Block, start: nat, cuts: seq<Piece>, i: nat, j: nat)
    requires CutsFrom(block, start, cuts) && i <= j < |cuts|
    ensures cuts[i].end <= cuts[j].end
    ensures i < j ==> !Whole(cuts[i]) && cuts[i].start < cuts[j].start
    ensures i + 2 <= j ==> cuts[i].end <= cuts[j].start
    decreases j - i
  {
    if i < j {
      EndsGrow(block, start, cuts, i, j - 1);
      LinkReaches(block, start, cuts, j - 1);
      assert LinkAt(cuts, j - 1);
      if i + 2 <= j {
        LinkReaches(block, start, cuts, j - 2);
      }
    }
  }

  lemma {:induction false} CoverExists(block: Block, start: nat, offset: nat) returns (i: nat)
    requires start <= offset < |block.text|
    ensures i < |Cuts(block, start)| && Covers(Cuts(block, start)[i], offset)
    decreases |block.text| - start
  {
    var end := CutEnd(block, start);
    if offset < end {
      i := 0;
    } else {
      i := CoverExists(block, end - OVERLAP_CHARS, offset);
      i := i + 1;
    }
  }

  /** Every offset of a block is in at least one of its pieces and in at most two, which are neighbours. */
  lemma {:induction false} CoveredOnceOrTwice(block: Block, offset: nat)
    requires offset < |block.text|
    ensures exists i :: 0 <= i < |Cuts(block, 0)| && Covers(Cuts(block, 0)[i], offset)
    ensures forall i, j | 0 <= i < j < |Cuts(block, 0)| ::
              Covers(Cuts(block, 0)[i], offset) && Covers(Cuts(block, 0)[j], offset) ==> j == i + 1
  {
    var cuts := Cuts(block, 0);
    CutsShape(block, 0);
    var i := CoverExists(block, 0, offset);
    forall i, j | 0 <= i < j < |cuts| && Covers(cuts[i], offset) && Covers(cuts[j], offset)
      ensures j == i + 1
    {
      EndsGrow(block, 0, cuts, i, j);
    }
  }

  // ---------------------------------------------------------------------------
  // Gathering pieces
  // ---------------------------------------------------------------------------

  /** All the pieces of a document, in order. */
  function AllCuts(blocks: seq<Block>): seq<Piece> {
    if blocks == [] then [] else Cuts(blocks[0], 0) + AllCuts(blocks[1..])
  }

  /** Characters gathered, without separators. */
  function Chars(g: seq<Piece>): int {
    if g == [] then 0 else Chars(g[..|g| - 1]) + g[|g| - 1].end - g[|g| - 1].start
  }

  /** Whether a chunk holding `g` takes one more piece. */
  predicate Joins(g: Gathered, p: Piece) {
    var last := g[|g| - 1];
    && g[0].block.extraction == p.block.extraction
    && g[0].block.page == p.block.page
    && !Boundary(p.block.kind)
    && !Tabular(last.block.kind)
    && Whole(last)
    && Chars(g) < TARGET_CHARS
    && Chars(g) + |g| + p.end - p.start <= MAX_CHARS
  }

  /** Take pieces while they join, then begin the next chunk. */
  function Group(pending: seq<Piece>, pieces: seq<Piece>): seq<Gathered>
    decreases |pieces|
  {
    if pieces == [] then (if pending == [] then [] else [pending])
    else if pending != [] && !Joins(pending, pieces[0]) then [pending] + Group([pieces[0]], pieces[1..])
    else Group(pending + [pieces[0]], pieces[1..])
  }

  function Flatten(groups: seq<Gathered>): seq<Piece> {
    if groups == [] then [] else groups[0] + Flatten(groups[1..])
  }

  /** Every piece after a group's first one joined it. */
  ghost predicate Joined(g: Gathered) {
    forall k :: 0 < k < |g| ==> Joins(g[..k], g[k])
  }

  /** Reference definition: `groups` divides `pieces` in order, joining whatever joins and nothing else. */
  ghost predicate IsGrouping(groups: seq<Gathered>, pieces: seq<Piece>) {
    && Flatten(groups) == pieces
    && (forall i :: 0 <= i < |groups| ==> Joined(groups[i]))
    && (forall i :: 0 <= i < |groups| - 1 ==> !Joins(groups[i], groups[i + 1][0]))
  }

  lemma {:induction false} ConsGrouping(g: Gathered, rest: seq<Gathered>, pieces: seq<Piece>)
    requires Joined(g) && IsGrouping(rest, pieces)
    requires rest != [] ==> !Joins(g, rest[0][0])
    ensures IsGrouping([g] + rest, g + pieces)
  {
  }

  lemma {:induction false} NothingGrouped()
    ensures IsGrouping([], [])
  {
  }

  lemma {:induction false} SingleJoined(p: Piece)
    ensures Joined([p])
  {
  }

  lemma {:induction false} JoinedAppend(g: seq<Piece>, p: Piece)
    requires g == [] || (Joined(g) && Joins(g, p))
    ensures Joined(g + [p])
  {
    var more := g + [p];
    forall k | 0 < k < |more|
      ensures Joins(more[..k], more[k])
    {
      if k < |g| {
        assert more[..k] == g[..k];
        assert Joins(g[..k], g[k]);
      } else {
        assert more[..k] == g;
      }
    }
  }

  lemma {:induction false} GroupIsGrouping(pending: seq<Piece>, pieces: seq<Piece>)
    requires pending == [] || Joined(pending)
    ensures IsGrouping(Group(pending, pieces), pending + pieces)
    ensures pending != [] ==> Group(pending, pieces) != [] && pending <= Group(pending, pieces)[0]
    decreases |pieces|
  {
    hide Joins, Joined, IsGrouping;
    if pieces == [] {
      assert pending + pieces == pending;
      NothingGrouped();
      if pending != [] {
        ConsGrouping(pending, [], []);
        assert [pending] + [] == [pending] && pending + [] == pending;
      }
    } else if pending != [] && !Joins(pending, pieces[0]) {
      SingleJoined(pieces[0]);
      GroupIsGrouping([pieces[0]], pieces[1..]);
      assert [pieces[0]] + pieces[1..] == pieces;
      ConsGrouping(pending, Group([pieces[0]], pieces[1..]), pieces);
    } else {
      var more := pending + [pieces[0]];
      JoinedAppend(pending, pieces[0]);
      GroupIsGrouping(more, pieces[1..]);
      assert more + pieces[1..] == pending + pieces;
      assert pending <= more;
    }
  }

  lemma {:induction false} GroupingPiece(groups: seq<Gathered>, pieces: seq<Piece>)
    requires IsGrouping(groups, pieces) && pieces != []
    ensures groups != [] && groups[0] <= pieces
    ensures IsGrouping(groups[1..], pieces[|groups[0]|..])
  {
  }

  lemma {:induction false} NoGroups(groups: seq<Gathered>)
    requires IsGrouping(groups, [])
    ensures groups == []
  {
  }

  /** The reference definition determines the division. */
  lemma {:induction false} GroupingUnique(a: seq<Gathered>, b: seq<Gathered>, pieces: seq<Piece>)
    requires IsGrouping(a, pieces) && IsGrouping(b, pieces)
    ensures a == b
    decreases |pieces|
  {
    if pieces == [] {
      NoGroups(a);
      NoGroups(b);
    } else {
      GroupingPiece(a, pieces);
      GroupingPiece(b, pieces);
      FirstGroupSame(a, b, pieces);
      FirstGroupSame(b, a, pieces);
      assert a[0] == b[0];
      GroupingUnique(a[1..], b[1..], pieces[|a[0]|..]);
      assert a == [a[0]] + a[1..];
      assert b == [b[0]] + b[1..];
    }
  }

  lemma {:induction false} FirstGroupFull(a: seq<Gathered>, pieces: seq<Piece>)
    requires IsGrouping(a, pieces) && a != [] && |a[0]| < |pieces| && a[0] <= pieces
    ensures !Joins(a[0], pieces[|a[0]|])
  {
    var rest := pieces[|a[0]|..];
    assert Joined(a[0]);
    GroupingPiece(a, pieces);
    GroupingPiece(a[1..], rest);
    assert Joined(a[1]);
    assert a[1][0] == rest[0];
    assert !Joins(a[0], a[0 + 1][0]);
  }

  lemma {:induction false} FirstGroupJoins(b: seq<Gathered>, pieces: seq<Piece>, k: nat)
    requires IsGrouping(b, pieces) && b != [] && 0 < k < |b[0]| && b[0] <= pieces
    ensures Joins(pieces[..k], pieces[k])
  {
    assert Joined(b[0]) && Joins(b[0][..k], b[0][k]);
    assert b[0][..k] == pieces[..k];
  }

  lemma {:induction false} FirstGroupSame(a: seq<Gathered>, b: seq<Gathered>, pieces: seq<Piece>)
    requires IsGrouping(a, pieces) && IsGrouping(b, pieces) && pieces != []
    requires a != [] && b != [] && a[0] <= pieces && b[0] <= pieces
    ensures |a[0]| >= |b[0]|
  {
    if |a[0]| < |b[0]| {
      FirstGroupFull(a, pieces);
      assert pieces[..|a[0]|] == a[0];
      FirstGroupJoins(b, pieces, |a[0]|);
    }
  }

  // ---------------------------------------------------------------------------
  // The splitter
  // ---------------------------------------------------------------------------

  function RangesOf(g: seq<Piece>): seq<Range> {
    seq(|g|, i requires 0 <= i < |g| => Range(g[i].block.id, g[i].start, g[i].end))
  }

  /** The pieces' texts joined by newlines. */
  function TextOf(g: seq<Piece>): string {
    if g == [] then ""
    else if |g| == 1 then PieceText(g[0])
    else TextOf(g[..|g| - 1]) + "\n" + PieceText(g[|g| - 1])
  }

  function Emit(ordinal: nat, g: Gathered): Chunk {
    Chunk(ordinal, g[0].block.extraction, RangesOf(g), TextOf(g), g[0].block.page, g[0].block.anchor)
  }

  /** The chunks of `groups`, numbered from `n`. */
  function Emitted(n: nat, groups: seq<Gathered>): seq<Chunk>
    decreases |groups|
  {
    if groups == [] then [] else [Emit(n, groups[0])] + Emitted(n + 1, groups[1..])
  }

  /** `flush`: emit what is pending, if anything. */
  function Flushed(result: seq<Chunk>, pending: seq<Piece>): seq<Chunk> {
    if pending == [] then result else result + [Emit(|result|, pending)]
  }

  /** A gathered chunk that a later block may still join. */
  predicate Open(g: seq<Piece>) {
    g != [] && Whole(g[|g| - 1]) && !Tabular(g[|g| - 1].block.kind) && Chars(g) < TARGET_CHARS
  }

  /** Progress of the splitter: `result` is emitted, `pending` is gathered, `rest` is still to come. */
  ghost predicate Splitting(total: seq<Chunk>, result: seq<Chunk>, pending: seq<Piece>, rest: seq<Piece>) {
    result + Emitted(|result|, Group(pending, rest)) == total
  }

  /** Flushing is right when nothing more joins. */
  lemma {:induction false} FlushStep(total: seq<Chunk>, result: seq<Chunk>, pending: seq<Piece>, rest: seq<Piece>)
    requires Splitting(total, result, pending, rest)
    requires pending == [] || rest == [] || !Joins(pending, rest[0])
    ensures Splitting(total, Flushed(result, pending), [], rest)
  {
    if pending != [] {
      if rest != [] {
        assert [] + [rest[0]] == [rest[0]];
      }
      var groups := Group(pending, rest);
      assert groups == [pending] + Group([], rest);
      assert groups[1..] == Group([], rest);
      assert result + Emitted(|result|, groups) == Flushed(result, pending) + Emitted(|result| + 1, groups[1..]);
    }
  }

  lemma {:induction false} TakeStep(total: seq<Chunk>, result: seq<Chunk>, pending: seq<Piece>, p: Piece,
                                    rest: seq<Piece>)
    requires Splitting(total, result, pending, [p] + rest)
    requires pending == [] || Joins(pending, p)
    ensures Splitting(total, result, pending + [p], rest)
  {
  }

  lemma {:induction false} AllCutsStep(blocks: seq<Block>, i: nat)
    requires i < |blocks|
    ensures AllCuts(blocks[i..]) == Cuts(blocks[i], 0) + AllCuts(blocks[i + 1..])
  {
  }

  /** The splitter's nested loops divide the document's pieces by the plain rule. */
  method SplitBlocks(blocks: seq<Block>) returns (result: seq<Chunk>)
    ensures result == Emitted(0, Group([], AllCuts(blocks)))
  {
    var pending: seq<Piece> := [];
    result := [];
    ghost var total := Emitted(0, Group([], AllCuts(blocks)));
    assert blocks[0..] == blocks;
    for i := 0 to |blocks|
      invariant Splitting(total, result, pending, AllCuts(blocks[i..]))
      invariant pending == [] || Open(pending)
    {
      AllCutsStep(blocks, i);
      var block := blocks[i];
      if block.text != "" {
        result, pending := SplitBlock(block, result, pending, total, AllCuts(blocks[i + 1..]));
      } else {
        assert Cuts(block, 0) + AllCuts(blocks[i + 1..]) == AllCuts(blocks[i + 1..]);
      }
    }
    FlushStep(total, result, pending, []);
    result := Flushed(result, pending);
  }

  lemma {:induction false} CutsStep(block: Block, start: nat, later: seq<Piece>) returns (rest: seq<Piece>)
    requires start < |block.text|
    ensures rest == CutsAfter(block, start, CutEnd(block, start)) + later
    ensures Cuts(block, start) + later == [Piece(block, start, CutEnd(block, start))] + rest
  {
    var p, after := Piece(block, start, CutEnd(block, start)), CutsAfter(block, start, CutEnd(block, start));
    rest := after + later;
    assert ([p] + after) + later == [p] + (after + later);
  }

  /** The adaptive cut: back to the last line break or space of the window, if there is one. */
  method NextCut(block: Block, start: nat) returns (end: nat)
    requires start < |block.text|
    ensures end == CutEnd(block, start)
  {
    var text := block.text;
    end := if |text| < start + MAX_CHARS then |text| else start + MAX_CHARS;
    if end < |text| {
      var split := FindLast(text, if block.kind.Table? then '\n' else ' ', start + TARGET_CHARS, end);
      if split < 0 && block.kind.Table? {
        split := FindLast(text, ' ', start + TARGET_CHARS, end);
      }
      if split > start {
        end := split;
      }
    }
  }

  /** What is pending while a block is being cut at `start`. */
  ghost predicate Cutting(block: Block, start: nat, pending: seq<Piece>) {
    && start <= |block.text|
    && (start == 0 && pending != [] ==>
          && Open(pending) && !Boundary(block.kind)
          && pending[0].block.extraction == block.extraction && pending[0].block.page == block.page)
    && (0 < start < |block.text| ==> pending == [])
    && (0 < start == |block.text| ==>
          pending != [] && pending[|pending| - 1].block == block && Whole(pending[|pending| - 1]))
  }

  /** The body of the splitter's outer loop: one non-empty block. */
  method SplitBlock(block: Block, result0: seq<Chunk>, pending0: seq<Piece>,
                    ghost total: seq<Chunk>, ghost later: seq<Piece>)
      returns (result: seq<Chunk>, pending: seq<Piece>)
    requires block.text != ""
    requires Splitting(total, result0, pending0, Cuts(block, 0) + later)
    requires pending0 == [] || Open(pending0)
    ensures Splitting(total, result, pending, later)
    ensures pending == [] || Open(pending)
  {
    result, pending := EnterBlock(block, result0, pending0, total, later);
    var start := 0;
    while start < |block.text|
      invariant Cutting(block, start, pending)
      invariant Splitting(total, result, pending, Cuts(block, start) + later)
    {
      result, pending, start := TakePiece(block, start, result, pending, total, later);
    }
    assert Cuts(block, start) + later == later;
    if Tabular(block.kind) || Chars(pending) >= TARGET_CHARS {
      FlushStep(total, result, pending, later);
      result, pending := Flushed(result, pending), [];
    }
  }

  /** The flushes before a block: another source or page, a boundary, a table. */
  method EnterBlock(block: Block, result0: seq<Chunk>, pending0: seq<Piece>,
                    ghost total: seq<Chunk>, ghost later: seq<Piece>)
      returns (result: seq<Chunk>, pending: seq<Piece>)
    requires block.text != ""
    requires Splitting(total, result0, pending0, Cuts(block, 0) + later)
    requires pending0 == [] || Open(pending0)
    ensures Splitting(total, result, pending, Cuts(block, 0) + later)
    ensures Cutting(block, 0, pending)
  {
    result, pending := result0, pending0;
    if pending != [] && (pending[0].block.extraction != block.extraction || pending[0].block.page != block.page
                         || Boundary(block.kind)) {
      FlushStep(total, result, pending, Cuts(block, 0) + later);
      result, pending := Flushed(result, pending), [];
    }
    if Tabular(block.kind) {
      FlushStep(total, result, pending, Cuts(block, 0) + later);
      result, pending := Flushed(result, pending), [];
    }
  }

  /** A block's first piece joins what is pending unless it is too long. */
  lemma {:induction false} PendingJoins(block: Block, start: nat, pending: seq<Piece>, p: Piece)
    requires start < |block.text| && Cutting(block, start, pending) && pending != [] && p.block == block
    ensures Joins(pending, p) <==> Chars(pending) + |pending| + p.end - p.start <= MAX_CHARS
  {
  }

  lemma {:induction false} PartJoinsNothing(g: seq<Piece>, p: Piece, rest: seq<Piece>)
    requires !Whole(p) && rest != []
    ensures !Joins(g + [p], rest[0])
  {
  }

  /** The body of the inner loop: cut one piece, gather it, and move `start`. */
  method TakePiece(block: Block, start0: nat, result0: seq<Chunk>, pending0: seq<Piece>,
                   ghost total: seq<Chunk>, ghost later: seq<Piece>)
      returns (result: seq<Chunk>, pending: seq<Piece>, start: nat)
    requires start0 < |block.text| && Cutting(block, start0, pending0)
    requires Splitting(total, result0, pending0, Cuts(block, start0) + later)
    ensures start0 < start && Cutting(block, start, pending)
    ensures Splitting(total, result, pending, Cuts(block, start) + later)
  {
    result, pending := result0, pending0;
    var end := NextCut(block, start0);
    var piece := Piece(block, start0, end);
    ghost var rest := CutsStep(block, start0, later);
    if pending != [] {
      PendingJoins(block, start0, pending, piece);
    }
    var size := Chars(pending) + |pending|;
    if pending != [] && size + end - start0 > MAX_CHARS {
      FlushStep(total, result, pending, [piece] + rest);
      result, pending := Flushed(result, pending), [];
    }
    TakeStep(total, result, pending, piece, rest);
    if end < |block.text| && rest != [] {
      PartJoinsNothing(pending, piece, rest);
    }
    pending := pending + [piece];
    if end < |block.text| {
      FlushStep(total, result, pending, rest);
      result, pending := Flushed(result, pending), [];
      start := Max(start0 + 1, end - OVERLAP_CHARS);
    } else {
      start := end;
    }
  }
}
