/**
 What the splitter returns, in terms of the texts of the blocks: where pieces end, why a chunk ends,
 and what its text is made of.
 */
module ChunkOutcomes {
  import opened Prelude
  import opened Chunks
  import opened ChunkFacts

  // ---------------------------------------------------------------------------
  // Where pieces end
  // ---------------------------------------------------------------------------

  /** The last `c` of the window `lo..hi` is at `i`. */
  ghost predicate LastIn(text: string, c: char, lo: nat, hi: nat, i: nat) {
    lo <= i < hi <= |text| && text[i] == c && forall k :: i < k < hi ==> text[k] != c
  }

  ghost predicate NoneIn(text: string, c: char, lo: nat, hi: nat) {
    hi <= |text| && forall k :: lo <= k < hi ==> text[k] != c
  }

  /** The window `lo..hi` has its last break at `i`, or no break and `i` is its end. */
  ghost predicate BreaksAt(block: Block, lo: nat, hi: nat, i: nat) {
    if block.kind == Table && !NoneIn(block.text, '\n', lo, hi) then LastIn(block.text, '\n', lo, hi, i)
    else if !NoneIn(block.text, ' ', lo, hi) then LastIn(block.text, ' ', lo, hi, i)
    else i == hi
  }

  /**
   A stretch of a block ends with the block if that is near enough, and otherwise at the last break
   between 2600 and 4000 characters, or after 4000 characters if there is none.
   */
  ghost predicate EndsWell(block: Block, start: nat, end: nat) {
    if start + 4000 >= |block.text| then end == |block.text|
    else BreaksAt(block, start + 2600, start + 4000, end)
  }

  lemma {:induction false} FindLastMeaning(text: string, c: char, lo: nat, hi: nat)
    requires lo <= hi <= |text|
    ensures var i := FindLast(text, c, lo, hi);
            if NoneIn(text, c, lo, hi) then i == -1 else i >= 0 && LastIn(text, c, lo, hi, i)
  {
  }

  lemma {:induction false} CutEndsWell(block: Block, start: nat)
    requires start < |block.text|
    ensures EndsWell(block, start, CutEnd(block, start))
  {
    hide FindLast, NoneIn, LastIn;
    if start + MAX_CHARS < |block.text| {
      FindLastMeaning(block.text, '\n', start + TARGET_CHARS, start + MAX_CHARS);
      FindLastMeaning(block.text, ' ', start + TARGET_CHARS, start + MAX_CHARS);
    }
  }

  ghost predicate PieceEndsWell(p: Piece) {
    EndsWell(p.block, p.start, p.end)
  }

  lemma {:induction false} CutsEndWell(block: Block, start: nat, i: nat)
    requires start <= |block.text| && i < |Cuts(block, start)|
    ensures PieceEndsWell(Cuts(block, start)[i])
    decreases |block.text| - start
  {
    hide CutEnd, EndsWell;
    CutEndsWell(block, start);
    if i > 0 {
      CutsEndWell(block, CutEnd(block, start) - OVERLAP_CHARS, i - 1);
    }
  }

  lemma {:induction false} AllCutsEndWell(blocks: seq<Block>, x: nat)
    requires x < |AllCuts(blocks)|
    ensures PieceEndsWell(AllCuts(blocks)[x])
    decreases |blocks|
  {
    hide Cuts, PieceEndsWell;
    var cuts := Cuts(blocks[0], 0);
    if x < |cuts| {
      CutsEndWell(blocks[0], 0, x);
    } else {
      AllCutsEndWell(blocks[1..], x - |cuts|);
    }
  }

  /** The first piece of a document is the beginning of its first block with a text. */
  lemma {:induction false} FirstPiece(blocks: seq<Block>) returns (c: nat)
    requires AllCuts(blocks) != []
    ensures c < |blocks| && AllCuts(blocks)[0].block == blocks[c] && AllCuts(blocks)[0].start == 0
    ensures forall j :: 0 <= j < c ==> blocks[j].text == ""
    decreases |blocks|
  {
    CutsShape(blocks[0], 0);
    if Cuts(blocks[0], 0) == [] {
      c := FirstPiece(blocks[1..]);
      c := c + 1;
      assert forall j :: 0 < j < c ==> blocks[j] == blocks[1..][j - 1];
    } else {
      assert PieceAt(blocks[0], Cuts(blocks[0], 0), 0);
      c := 0;
    }
  }

  /**
   The pieces run through the blocks in order: a piece that ends inside its block is followed by one
   that repeats its last 240 characters, and one that ends its block by the beginning of the next block
   with a text.
   */
  lemma {:induction false} PiecesRunOn(blocks: seq<Block>, x: nat) returns (b: nat, c: nat)
    requires x + 1 < |AllCuts(blocks)|
    ensures b < |blocks| && c < |blocks|
    ensures var p, q := AllCuts(blocks)[x], AllCuts(blocks)[x + 1];
            && p.block == blocks[b] && q.block == blocks[c]
            && if p.end < |blocks[b].text| then c == b && q.start == p.end - 240
               else b < c && q.start == 0 && forall j :: b < j < c ==> blocks[j].text == ""
    decreases |blocks|
  {
    var cuts, rest := Cuts(blocks[0], 0), AllCuts(blocks[1..]);
    CutsShape(blocks[0], 0);
    if x >= |cuts| {
      b, c := PiecesRunOn(blocks[1..], x - |cuts|);
      b, c := b + 1, c + 1;
      assert forall j :: b < j < c ==> blocks[j] == blocks[1..][j - 1];
    } else {
      assert PieceAt(blocks[0], cuts, x);
      b := 0;
      if x + 1 < |cuts| {
        assert PieceAt(blocks[0], cuts, x + 1) && LinkAt(cuts, x);
        c := 0;
      } else {
        c := FirstPiece(blocks[1..]);
        c := c + 1;
        assert forall j :: 0 < j < c ==> blocks[j] == blocks[1..][j - 1];
      }
    }
  }

  // ---------------------------------------------------------------------------
  // What a chunk is made of
  // ---------------------------------------------------------------------------

  /** The range is a stretch of the block that ends where it should. */
  ghost predicate Stretch(block: Block, r: Range) {
    r.block == block.id && r.start < r.end <= |block.text| && EndsWell(block, r.start, r.end)
  }

  /** Where the text of range `k` begins in the text of its chunk: behind the earlier ones and their line breaks. */
  function TextStart(ranges: seq<Range>, k: nat): int
    requires k <= |ranges|
  {
    if k == 0 then 0 else TextStart(ranges, k - 1) + ranges[k - 1].end - ranges[k - 1].start + 1
  }

  /** At its place in the chunk stands the text of the range, followed by a line break unless it is the last. */
  ghost predicate TextOfRange(chunk: Chunk, block: Block, k: nat)
    requires k < |chunk.ranges|
  {
    var r, from := chunk.ranges[k], TextStart(chunk.ranges, k);
    && r.start <= r.end <= |block.text|
    && 0 <= from <= from + (r.end - r.start) <= |chunk.text|
    && chunk.text[from..from + (r.end - r.start)] == block.text[r.start..r.end]
    && if k + 1 == |chunk.ranges| then from + (r.end - r.start) == |chunk.text|
       else from + (r.end - r.start) < |chunk.text| && chunk.text[from + (r.end - r.start)] == '\n'
  }

  lemma {:induction false} StartIsLength(g: seq<Piece>)
    requires g != [] && forall k :: 0 <= k < |g| ==> PieceOk(g[k])
    ensures TextStart(RangesOf(g), |g|) == |TextOf(g)| + 1
    decreases |g|
  {
    var n := |g| - 1;
    assert PieceOk(g[n]);
    if n > 0 {
      StartIsLength(g[..n]);
      StartOfPrefix(g, n, n);
    }
  }

  lemma {:induction false} StartOfPrefix(g: seq<Piece>, n: nat, k: nat)
    requires k <= n <= |g|
    ensures TextStart(RangesOf(g), k) == TextStart(RangesOf(g[..n]), k)
    decreases k
  {
    if k > 0 {
      StartOfPrefix(g, n, k - 1);
    }
  }

  lemma {:induction false} EarlierText(chunk: Chunk, before: Chunk, block: Block, k: nat, last: string)
    requires k < |before.ranges| && TextOfRange(before, block, k)
    requires |chunk.ranges| == |before.ranges| + 1 && chunk.ranges[k] == before.ranges[k]
    requires TextStart(chunk.ranges, k) == TextStart(before.ranges, k)
    requires chunk.text == before.text + "\n" + last
    ensures TextOfRange(chunk, block, k)
  {
    hide TextStart;
    var r, from := chunk.ranges[k], TextStart(chunk.ranges, k);
    var to := from + (r.end - r.start);
    assert chunk.text[from..to] == before.text[from..to];
    assert chunk.text[|before.text|] == '\n';
  }

  /** The texts of a chunk's ranges stand in its text one after the other. */
  lemma {:induction false} TextParts(chunk: Chunk, g: seq<Piece>, k: nat)
    requires k < |g| && (forall i :: 0 <= i < |g| ==> PieceOk(g[i]))
    requires chunk.ranges == RangesOf(g) && chunk.text == TextOf(g)
    ensures TextOfRange(chunk, g[k].block, k)
    decreases |g|
  {
    var n := |g| - 1;
    assert PieceOk(g[n]);
    StartIsLength(g);
    if n > 0 {
      StartIsLength(g[..n]);
      StartOfPrefix(g, n, n);
      if k < n {
        var before := chunk.(ranges := RangesOf(g[..n]), text := TextOf(g[..n]));
        TextParts(before, g[..n], k);
        StartOfPrefix(g, n, k);
        EarlierText(chunk, before, g[k].block, k, PieceText(g[n]));
      }
    }
  }

  /**
   Every range of a chunk is a stretch of one of the blocks that ends where it should; the texts of the
   ranges, with line breaks between them, are the text of the chunk; page and anchor are those of its
   first block.
   */
  lemma {:induction false} ChunkIsMadeOfStretches(blocks: seq<Block>, i: nat, k: nat)
    requires i < |Chunked(blocks)| && k < |Chunked(blocks)[i].ranges|
    ensures |Groups(blocks)| == |Chunked(blocks)| && |Groups(blocks)[i]| == |Chunked(blocks)[i].ranges|
    ensures var chunk, block := Chunked(blocks)[i], Groups(blocks)[i][k].block;
            && block in blocks && Stretch(block, chunk.ranges[k]) && TextOfRange(chunk, block, k)
            && (k == 0 ==> chunk.anchor == block.anchor && chunk.page == block.page)
  {
    hide Group, AllCuts, Joined, TextOf, EndsWell, TextStart, TextOfRange, Slice;
    ChunkAt(blocks, i);
    var g := Groups(blocks)[i];
    forall j | 0 <= j < |g|
      ensures PieceOk(g[j]) && g[j].block in blocks && PieceEndsWell(g[j])
    {
      var x := GroupPiece(blocks, i, j);
      AllCutsEndWell(blocks, x);
    }
    TextParts(Chunked(blocks)[i], g, k);
  }

  // ---------------------------------------------------------------------------
  // Why a chunk ends
  // ---------------------------------------------------------------------------

  /** The characters of a chunk without its line breaks between ranges. */
  function Size(chunk: Chunk): int {
    |chunk.text| - (|chunk.ranges| - 1)
  }

  /** A block of this kind begins a chunk. */
  ghost predicate StartsChunk(kind: Kind) {
    kind in {Table, TableRow, Heading, Page, Section}
  }

  /**
   Why the stretch of `next` does not go into the chunk: it belongs to another extraction or page, its
   block begins a chunk, the chunk is a table or table row or ends inside a block, it has its 2600
   characters, or there is no room.
   */
  ghost predicate Ends(chunk: Chunk, last: Block, next: Block, r: Range)
    requires chunk.ranges != []
  {
    || next.extraction != chunk.extraction || next.page != chunk.page || StartsChunk(next.kind)
    || last.kind in {Table, TableRow} || chunk.ranges[|chunk.ranges| - 1].end < |last.text|
    || Size(chunk) >= 2600 || |chunk.text| + 1 + (r.end - r.start) > 4000
  }

  lemma {:induction false} EndsExactly(g: Gathered, chunk: Chunk, p: Piece, ordinal: nat)
    requires (forall k :: 0 <= k < |g| ==> PieceOk(g[k])) && chunk == Emit(ordinal, g) && PieceOk(p)
    ensures Ends(chunk, g[|g| - 1].block, p.block, Range(p.block.id, p.start, p.end)) <==> !Joins(g, p)
  {
    hide TextOf, Chars;
    TextLength(g);
    assert PieceOk(g[|g| - 1]);
  }

  /** A chunk ends only where it has to: for one of the reasons the next chunk's first stretch did not fit. */
  lemma {:induction false} ChunksEndForAReason(blocks: seq<Block>, i: nat)
    requires i + 1 < |Chunked(blocks)|
    ensures |Groups(blocks)| == |Chunked(blocks)| && Chunked(blocks)[i].ranges != []
    ensures var g, h := Groups(blocks)[i], Groups(blocks)[i + 1];
            && Chunked(blocks)[i + 1].ranges != []
            && Ends(Chunked(blocks)[i], g[|g| - 1].block, h[0].block, Chunked(blocks)[i + 1].ranges[0])
  {
    hide Group, AllCuts, Joined, TextOf, Joins, Ends, Flatten;
    ChunkAt(blocks, i);
    ChunkAt(blocks, i + 1);
    GroupsAreGrouping(blocks);
    var g, h := Groups(blocks)[i], Groups(blocks)[i + 1];
    forall k | 0 <= k < |g|
      ensures PieceOk(g[k])
    {
      var x := GroupPiece(blocks, i, k);
    }
    var y := GroupPiece(blocks, i + 1, 0);
    EndsExactly(g, Chunked(blocks)[i], h[0], i);
  }

  /** And it goes on wherever it can: no stretch in it had a reason to begin another chunk. */
  lemma {:induction false} ChunksGoOn(blocks: seq<Block>, i: nat, k: nat)
    requires i < |Chunked(blocks)| && 0 < k < |Chunked(blocks)[i].ranges|
    ensures |Groups(blocks)| == |Chunked(blocks)| && |Groups(blocks)[i]| == |Chunked(blocks)[i].ranges|
    ensures var g := Groups(blocks)[i];
            !Ends(Emit(i, g[..k]), g[k - 1].block, g[k].block, Chunked(blocks)[i].ranges[k])
  {
    hide Group, AllCuts, TextOf, Joins, Ends, Flatten;
    ChunkAt(blocks, i);
    var g := Groups(blocks)[i];
    forall j | 0 <= j < |g|
      ensures PieceOk(g[j])
    {
      var x := GroupPiece(blocks, i, j);
    }
    var x := GroupPiece(blocks, i, k);
    assert Joins(g[..k], g[k]);
    EndsExactly(g[..k], Emit(i, g[..k]), g[k], i);
  }
}
