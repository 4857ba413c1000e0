/** What the stored chunks of a document guarantee to search and retrieval. */
module ChunkFacts {
  import opened Prelude
  import opened Chunks

  function Groups(blocks: seq<Block>): seq<Gathered> {
    Group([], AllCuts(blocks))
  }

  /** The chunks `SplitBlocks` returns. */
  function Chunked(blocks: seq<Block>): seq<Chunk> {
    Emitted(0, Groups(blocks))
  }

  /** Block identities are primary keys. */
  ghost predicate DistinctIds(blocks: seq<Block>) {
    forall i, j :: 0 <= i < j < |blocks| ==> blocks[i].id != blocks[j].id
  }

  lemma {:induction false} EmittedAt(n: nat, groups: seq<Gathered>, i: nat)
    requires i < |groups|
    ensures |Emitted(n, groups)| == |groups|
    ensures Emitted(n, groups)[i] == Emit(n + i, groups[i])
    decreases |groups|
  {
    if i > 0 {
      EmittedAt(n + 1, groups[1..], i - 1);
    } else if |groups| > 1 {
      EmittedAt(n + 1, groups[1..], 0);
    }
  }

  lemma {:induction false} EmittedLength(n: nat, groups: seq<Gathered>)
    ensures |Emitted(n, groups)| == |groups|
  {
    if groups != [] {
      EmittedAt(n, groups, 0);
    }
  }

  /** Chunk `i` is what was gathered in group `i`, and carries ordinal `i`. */
  lemma {:induction false} ChunkAt(blocks: seq<Block>, i: nat)
    requires i < |Chunked(blocks)|
    ensures |Chunked(blocks)| == |Groups(blocks)|
    ensures Chunked(blocks)[i] == Emit(i, Groups(blocks)[i])
  {
    EmittedLength(0, Groups(blocks));
    EmittedAt(0, Groups(blocks), i);
  }

  // ---------------------------------------------------------------------------
  // Positions of pieces
  // ---------------------------------------------------------------------------

  function Offset(groups: seq<Gathered>, i: nat): nat
    requires i <= |groups|
  {
    if i == 0 then 0 else |groups[0]| + Offset(groups[1..], i - 1)
  }

  lemma {:induction false} FlattenAt(groups: seq<Gathered>, i: nat, k: nat)
    requires i < |groups| && k < |groups[i]|
    ensures Offset(groups, i) + k < |Flatten(groups)|
    ensures Flatten(groups)[Offset(groups, i) + k] == groups[i][k]
    decreases i
  {
    if i > 0 {
      FlattenAt(groups[1..], i - 1, k);
    }
  }

  lemma {:induction false} OffsetGrows(groups: seq<Gathered>, i: nat, j: nat)
    requires i < j <= |groups|
    ensures Offset(groups, i) + |groups[i]| <= Offset(groups, j)
    decreases i
  {
    if i > 0 {
      OffsetGrows(groups[1..], i - 1, j - 1);
    } else {
      assert Offset(groups, j) == |groups[0]| + Offset(groups[1..], j - 1);
    }
  }

  lemma {:induction false} FlattenFind(groups: seq<Gathered>, x: nat) returns (i: nat, k: nat)
    requires x < |Flatten(groups)|
    ensures i < |groups| && k < |groups[i]| && Flatten(groups)[x] == groups[i][k]
    decreases |groups|
  {
    if x < |groups[0]| {
      i, k := 0, x;
    } else {
      i, k := FlattenFind(groups[1..], x - |groups[0]|);
      i := i + 1;
    }
  }

  // ---------------------------------------------------------------------------
  // Pieces of a document
  // ---------------------------------------------------------------------------

  lemma {:induction false} AllCutsMember(blocks: seq<Block>, x: nat)
    requires x < |AllCuts(blocks)|
    ensures PieceOk(AllCuts(blocks)[x]) && AllCuts(blocks)[x].block in blocks
    decreases |blocks|
  {
    var cuts := Cuts(blocks[0], 0);
    if x < |cuts| {
      CutsShape(blocks[0], 0);
      assert PieceAt(blocks[0], cuts, x);
    } else {
      AllCutsMember(blocks[1..], x - |cuts|);
    }
  }

  lemma {:induction false} SplitAllCuts(blocks: seq<Block>, x: nat)
    requires DistinctIds(blocks) && x < |AllCuts(blocks)|
    ensures blocks != [] && DistinctIds(blocks[1..])
    ensures var cuts := Cuts(blocks[0], 0);
            if x < |cuts| then AllCuts(blocks)[x] == cuts[x] && cuts[x].block == blocks[0]
            else && x - |cuts| < |AllCuts(blocks[1..])|
                 && AllCuts(blocks)[x] == AllCuts(blocks[1..])[x - |cuts|]
                 && AllCuts(blocks)[x].block.id != blocks[0].id
  {
    var cuts := Cuts(blocks[0], 0);
    var rest := blocks[1..];
    forall i, j | 0 <= i < j < |rest|
      ensures rest[i].id != rest[j].id
    {
      assert blocks[i + 1].id != blocks[j + 1].id;
    }
    if x < |cuts| {
      CutsShape(blocks[0], 0);
      assert PieceAt(blocks[0], cuts, x);
    } else {
      AllCutsMember(rest, x - |cuts|);
      var b :| 0 <= b < |rest| && rest[b] == AllCuts(blocks)[x].block;
      assert blocks[0].id != blocks[b + 1].id;
    }
  }

  /** Of two pieces of one block the earlier is cut short and starts before the later. */
  lemma {:induction false} PiecesInOrder(blocks: seq<Block>, x: nat, y: nat)
    requires DistinctIds(blocks) && x < y < |AllCuts(blocks)|
    requires AllCuts(blocks)[x].block.id == AllCuts(blocks)[y].block.id
    ensures !Whole(AllCuts(blocks)[x]) && AllCuts(blocks)[x].start < AllCuts(blocks)[y].start
    decreases |blocks|
  {
    SplitAllCuts(blocks, x);
    SplitAllCuts(blocks, y);
    var n := |Cuts(blocks[0], 0)|;
    if x >= n {
      PiecesInOrder(blocks[1..], x - n, y - n);
    } else {
      CutsShape(blocks[0], 0);
      EndsGrow(blocks[0], 0, Cuts(blocks[0], 0), x, y);
    }
  }

  /** A position of a block that two pieces cover is in neighbouring pieces. */
  lemma {:induction false} TwoCover(blocks: seq<Block>, x: nat, y: nat, offset: nat)
    requires DistinctIds(blocks) && x < y < |AllCuts(blocks)|
    requires AllCuts(blocks)[x].block.id == AllCuts(blocks)[y].block.id
    requires Covers(AllCuts(blocks)[x], offset) && Covers(AllCuts(blocks)[y], offset)
    ensures y == x + 1
    decreases |blocks|
  {
    SplitAllCuts(blocks, x);
    SplitAllCuts(blocks, y);
    var n := |Cuts(blocks[0], 0)|;
    if x >= n {
      TwoCover(blocks[1..], x - n, y - n, offset);
    } else {
      CutsShape(blocks[0], 0);
      EndsGrow(blocks[0], 0, Cuts(blocks[0], 0), x, y);
    }
  }

  lemma {:induction false} SomeCover(blocks: seq<Block>, b: nat, offset: nat) returns (x: nat)
    requires b < |blocks| && offset < |blocks[b].text|
    ensures x < |AllCuts(blocks)| && AllCuts(blocks)[x].block == blocks[b] && Covers(AllCuts(blocks)[x], offset)
    decreases b
  {
    var cuts := Cuts(blocks[0], 0);
    if b == 0 {
      x := CoverExists(blocks[0], 0, offset);
      CutsShape(blocks[0], 0);
      assert PieceAt(blocks[0], cuts, x);
    } else {
      x := SomeCover(blocks[1..], b - 1, offset);
      x := x + |cuts|;
    }
  }

  lemma {:induction false} GroupPiece(blocks: seq<Block>, i: nat, k: nat) returns (x: nat)
    requires i < |Groups(blocks)| && k < |Groups(blocks)[i]|
    ensures x == Offset(Groups(blocks), i) + k < |AllCuts(blocks)|
    ensures AllCuts(blocks)[x] == Groups(blocks)[i][k] && PieceOk(Groups(blocks)[i][k])
    ensures Joined(Groups(blocks)[i]) && Groups(blocks)[i][k].block in blocks
  {
    hide Joined, AllCuts, Group, PieceOk, Flatten, Offset;
    GroupsAreGrouping(blocks);
    FlattenAt(Groups(blocks), i, k);
    x := Offset(Groups(blocks), i) + k;
    AllCutsMember(blocks, x);
  }

  lemma {:induction false} GroupsAreGrouping(blocks: seq<Block>)
    ensures IsGrouping(Groups(blocks), AllCuts(blocks))
  {
    hide AllCuts, Group, IsGrouping;
    GroupIsGrouping([], AllCuts(blocks));
    assert [] + AllCuts(blocks) == AllCuts(blocks);
  }

  // ---------------------------------------------------------------------------
  // One chunk
  // ---------------------------------------------------------------------------

  lemma {:induction false} TextLength(g: seq<Piece>)
    requires forall k :: 0 <= k < |g| ==> PieceOk(g[k])
    ensures g != [] ==> |TextOf(g)| == Chars(g) + |g| - 1
    decreases |g|
  {
    if g != [] {
      assert PieceOk(g[|g| - 1]);
      TextLength(g[..|g| - 1]);
    }
  }

  lemma {:induction false} JoinedStep(g: Gathered, k: nat)
    requires Joined(g) && k + 1 < |g|
    ensures g[0].block.extraction == g[k + 1].block.extraction && g[0].block.page == g[k + 1].block.page
    ensures !Boundary(g[k + 1].block.kind) && !Tabular(g[k].block.kind) && Whole(g[k])
  {
  }

  lemma {:induction false} JoinedSize(g: Gathered)
    requires Joined(g) && PieceOk(g[|g| - 1])
    ensures Chars(g) + |g| - 1 <= MAX_CHARS
  {
  }

  /**
   Every chunk fits the size limit with its joining newlines, comes from one extraction and page,
   holds a table or table row alone, and a heading, page or section block only in first place.
   */
  lemma {:induction false} ChunkContents(blocks: seq<Block>, i: nat)
    requires i < |Chunked(blocks)|
    ensures |Chunked(blocks)| == |Groups(blocks)|
    ensures var g, chunk := Groups(blocks)[i], Chunked(blocks)[i];
            && chunk.ordinal == i && 0 < |chunk.text| <= MAX_CHARS
            && (forall k :: 0 <= k < |g| ==> g[k].block.extraction == chunk.extraction && g[k].block.page == chunk.page)
            && (forall k :: 0 < k < |g| ==> !Boundary(g[k].block.kind))
            && (forall k :: 0 <= k < |g| && Tabular(g[k].block.kind) ==> |g| == 1)
  {
    hide Group, AllCuts, Joined, TextOf;
    ChunkAt(blocks, i);
    var g := Groups(blocks)[i];
    forall k | 0 <= k < |g|
      ensures PieceOk(g[k]) && Joined(g)
    {
      var x := GroupPiece(blocks, i, k);
    }
    assert PieceOk(g[0]);
    TextLength(g);
    JoinedSize(g);
    CharsPositive(g);
    forall k | 0 < k < |g|
      ensures g[k].block.extraction == g[0].block.extraction && g[k].block.page == g[0].block.page
      ensures !Boundary(g[k].block.kind)
    {
      JoinedStep(g, k - 1);
    }
    forall k | 0 <= k < |g| && Tabular(g[k].block.kind)
      ensures |g| == 1
    {
      if k + 1 < |g| {
        JoinedStep(g, k);
      }
    }
  }

  lemma {:induction false} CharsPositive(g: seq<Piece>)
    requires forall k :: 0 <= k < |g| ==> PieceOk(g[k])
    ensures Chars(g) >= |g|
    decreases |g|
  {
    if g != [] {
      assert PieceOk(g[|g| - 1]);
      CharsPositive(g[..|g| - 1]);
    }
  }

  /** No chunk holds two ranges of the same block. */
  lemma {:induction false} NoBlockTwice(blocks: seq<Block>, i: nat, j: nat, k: nat)
    requires DistinctIds(blocks) && i < |Groups(blocks)| && j < k < |Groups(blocks)[i]|
    ensures Groups(blocks)[i][j].block.id != Groups(blocks)[i][k].block.id
  {
    var x := GroupPiece(blocks, i, j);
    var y := GroupPiece(blocks, i, k);
    JoinedStep(Groups(blocks)[i], j);
    if Groups(blocks)[i][j].block.id == Groups(blocks)[i][k].block.id {
      PiecesInOrder(blocks, x, y);
    }
  }

  /** The inputs of the chunk identity differ: no two chunks have the same list of ranges. */
  lemma {:induction false} DistinctRanges(blocks: seq<Block>, i: nat, j: nat)
    requires DistinctIds(blocks) && i < j < |Chunked(blocks)|
    ensures Chunked(blocks)[i].ranges != Chunked(blocks)[j].ranges
  {
    ChunkAt(blocks, i);
    ChunkAt(blocks, j);
    var x := GroupPiece(blocks, i, 0);
    var y := GroupPiece(blocks, j, 0);
    OffsetGrows(Groups(blocks), i, j);
    var a, b := Groups(blocks)[i][0], Groups(blocks)[j][0];
    if a.block.id == b.block.id {
      PiecesInOrder(blocks, x, y);
    }
    assert Chunked(blocks)[i].ranges[0] == Range(a.block.id, a.start, a.end);
    assert Chunked(blocks)[j].ranges[0] == Range(b.block.id, b.start, b.end);
  }

  // ---------------------------------------------------------------------------
  // Retrieval
  // ---------------------------------------------------------------------------

  predicate HitBy(ranges: seq<Range>, block: nat, offset: nat) {
    exists k :: 0 <= k < |ranges| && ranges[k].block == block && ranges[k].start <= offset < ranges[k].end
  }

  /** The chunks with a range over the position, by ordinal. */
  function Hits(chunks: seq<Chunk>, block: nat, offset: nat): seq<Chunk> {
    if chunks == [] then []
    else (if HitBy(chunks[0].ranges, block, offset) then [chunks[0]] else []) + Hits(chunks[1..], block, offset)
  }

  /** The lookup of a search match: at most three candidates. */
  function Lookup(chunks: seq<Chunk>, block: nat, offset: nat): seq<Chunk> {
    var hits := Hits(chunks, block, offset);
    if |hits| <= 3 then hits else hits[..3]
  }

  /** A chunk hit at a position has a piece of that block there. */
  lemma {:induction false} HitPiece(blocks: seq<Block>, i: nat, block: nat, offset: nat) returns (x: nat)
    requires i < |Chunked(blocks)| && HitBy(Chunked(blocks)[i].ranges, block, offset)
    ensures i < |Groups(blocks)|
    ensures Offset(Groups(blocks), i) <= x < Offset(Groups(blocks), i) + |Groups(blocks)[i]|
    ensures x < |AllCuts(blocks)| && AllCuts(blocks)[x].block.id == block && Covers(AllCuts(blocks)[x], offset)
  {
    ChunkAt(blocks, i);
    var ranges := Chunked(blocks)[i].ranges;
    var k :| 0 <= k < |ranges| && ranges[k].block == block && ranges[k].start <= offset < ranges[k].end;
    x := GroupPiece(blocks, i, k);
  }

  /** No position is hit by three chunks. */
  lemma {:induction false} NotThreeHits(blocks: seq<Block>, i: nat, j: nat, k: nat, block: nat, offset: nat)
    requires DistinctIds(blocks) && i < j < k < |Chunked(blocks)|
    requires HitBy(Chunked(blocks)[i].ranges, block, offset) && HitBy(Chunked(blocks)[j].ranges, block, offset)
    ensures !HitBy(Chunked(blocks)[k].ranges, block, offset)
  {
    if HitBy(Chunked(blocks)[k].ranges, block, offset) {
      var x := HitPiece(blocks, i, block, offset);
      var y := HitPiece(blocks, j, block, offset);
      var z := HitPiece(blocks, k, block, offset);
      OffsetGrows(Groups(blocks), i, j);
      OffsetGrows(Groups(blocks), j, k);
      TwoCover(blocks, x, y, offset);
      TwoCover(blocks, x, z, offset);
    }
  }

  lemma {:induction false} SomeHit(blocks: seq<Block>, b: nat, offset: nat) returns (i: nat)
    requires b < |blocks| && offset < |blocks[b].text|
    ensures i < |Chunked(blocks)| && HitBy(Chunked(blocks)[i].ranges, blocks[b].id, offset)
  {
    var x := SomeCover(blocks, b, offset);
    GroupIsGrouping([], AllCuts(blocks));
    assert [] + AllCuts(blocks) == AllCuts(blocks);
    var k;
    i, k := FlattenFind(Groups(blocks), x);
    EmittedLength(0, Groups(blocks));
    ChunkAt(blocks, i);
    assert Chunked(blocks)[i].ranges[k] == Range(blocks[b].id, AllCuts(blocks)[x].start, AllCuts(blocks)[x].end);
  }

  lemma {:induction false} HitsMember(chunks: seq<Chunk>, block: nat, offset: nat, c: Chunk)
    ensures c in Hits(chunks, block, offset) <==> c in chunks && HitBy(c.ranges, block, offset)
    decreases |chunks|
  {
    if chunks != [] {
      HitsMember(chunks[1..], block, offset, c);
    }
  }

  /** Positions of the first three hits. */
  lemma {:induction false} ThreeHits(chunks: seq<Chunk>, block: nat, offset: nat, n: nat) returns (i: nat)
    requires n < |Hits(chunks, block, offset)|
    ensures i < |chunks| && HitBy(chunks[i].ranges, block, offset)
    ensures |Hits(chunks[i + 1..], block, offset)| == |Hits(chunks, block, offset)| - n - 1
    decreases |chunks|
  {
    var here := HitBy(chunks[0].ranges, block, offset);
    if here && n == 0 {
      i := 0;
    } else {
      i := ThreeHits(chunks[1..], block, offset, if here then n - 1 else n);
      assert chunks[1..][i + 1..] == chunks[i + 2..];
      i := i + 1;
    }
  }

  lemma {:induction false} AtMostTwoHits(blocks: seq<Block>, block: nat, offset: nat)
    requires DistinctIds(blocks)
    ensures |Hits(Chunked(blocks), block, offset)| <= 2
  {
    var chunks := Chunked(blocks);
    if |Hits(chunks, block, offset)| > 2 {
      var i := ThreeHits(chunks, block, offset, 0);
      var j := ThreeHits(chunks[i + 1..], block, offset, 0);
      assert chunks[i + 1..][j + 1..] == chunks[i + j + 2..];
      var k := ThreeHits(chunks[i + j + 2..], block, offset, 0);
      NotThreeHits(blocks, i, i + 1 + j, i + j + 2 + k, block, offset);
    }
  }

  /**
   The limit of three never loses a covering chunk: every position of every block is found in one
   or two chunks, and the lookup returns exactly those.
   */
  lemma {:induction false} LookupComplete(blocks: seq<Block>, b: nat, offset: nat)
    requires DistinctIds(blocks) && b < |blocks| && offset < |blocks[b].text|
    ensures var found := Lookup(Chunked(blocks), blocks[b].id, offset);
            && 1 <= |found| <= 2
            && forall c :: c in found <==> c in Chunked(blocks) && HitBy(c.ranges, blocks[b].id, offset)
  {
    var id := blocks[b].id;
    AtMostTwoHits(blocks, id, offset);
    var i := SomeHit(blocks, b, offset);
    HitsMember(Chunked(blocks), id, offset, Chunked(blocks)[i]);
    forall c
      ensures c in Hits(Chunked(blocks), id, offset) <==> c in Chunked(blocks) && HitBy(c.ranges, id, offset)
    {
      HitsMember(Chunked(blocks), id, offset, c);
    }
  }

  /** The text retrieval assembles from stored ranges and the stored blocks. */
  function Assemble(stored: map<nat, Block>, ranges: seq<Range>): string
    requires forall k :: 0 <= k < |ranges| ==> ranges[k].block in stored
  {
    if ranges == [] then ""
    else
      var r := ranges[|ranges| - 1];
      var last := Slice(stored[r.block].text, r.start, r.end);
      if |ranges| == 1 then last else Assemble(stored, ranges[..|ranges| - 1]) + "\n" + last
  }

  lemma {:induction false} AssembleText(stored: map<nat, Block>, g: seq<Piece>)
    requires forall k :: 0 <= k < |g| ==> g[k].block.id in stored && stored[g[k].block.id] == g[k].block
    ensures Assemble(stored, RangesOf(g)) == TextOf(g)
    decreases |g|
  {
    hide Slice;
    if |g| > 1 {
      var n := |g| - 1;
      RangesOfPrefix(g);
      AssembleText(stored, g[..n]);
    }
  }

  lemma {:induction false} RangesOfPrefix(g: seq<Piece>)
    requires g != []
    ensures RangesOf(g)[..|g| - 1] == RangesOf(g[..|g| - 1])
  {
  }

  /** The text rebuilt for a chunk is the text hashed at indexing, so the stored checksum matches. */
  lemma {:induction false} RebuiltTextMatches(blocks: seq<Block>, stored: map<nat, Block>, i: nat)
    requires forall b :: 0 <= b < |blocks| ==> blocks[b].id in stored && stored[blocks[b].id] == blocks[b]
    requires i < |Chunked(blocks)|
    ensures var chunk := Chunked(blocks)[i];
            && (forall k :: 0 <= k < |chunk.ranges| ==> chunk.ranges[k].block in stored)
            && Assemble(stored, chunk.ranges) == chunk.text
  {
    ChunkAt(blocks, i);
    var g := Groups(blocks)[i];
    forall k | 0 <= k < |g|
      ensures g[k].block.id in stored && stored[g[k].block.id] == g[k].block
    {
      var x := GroupPiece(blocks, i, k);
    }
    AssembleText(stored, g);
  }
}
