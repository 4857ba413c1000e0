/** What the worker accepts from the sandboxed parser before it stores anything. */
module ParserResults {
  import opened Prelude

  const MAX_BLOCKS: nat := 5000
  const MAX_TEXT_BYTES: nat := 2 * 1024 * 1024

  /** Fields of a parser reply may hold anything; a value of the wrong type is `None` or `Other`. */
  datatype Parent = NoParent | ParentOrdinal(ordinal: int) | OtherParent

  datatype Page = NoPage | PageNumber(number: int) | OtherPage

  datatype RawBlock = RawBlock(ordinal: Option<int>, parent: Parent, text: Option<string>,
                               anchor: Option<string>, kind: string, page: Page)

  /** The parser raised or replied with something that is no dictionary, or it replied. */
  datatype Reply =
    | Raised
    | Reply(parser: string, version: string, state: string, fullText: Option<string>,
            blocks: Option<seq<RawBlock>>, code: Option<string>)

  const KINDS: set<string> := {"paragraph", "heading", "table", "table_row", "page", "point"}

  const STATES: set<string> := {"completed", "no_text", "unsupported", "encrypted", "failed"}

  /** The UTF-8 length of a character. */
  function Width(c: char): nat {
    if c < '\U{80}' then 1 else if c < '\U{800}' then 2 else if c < '\U{10000}' then 3 else 4
  }

  /** `len(s.encode())`. */
  function Bytes(s: string): nat {
    if s == "" then 0 else Width(s[0]) + Bytes(s[1..])
  }

  function TextOf(block: RawBlock): string {
    match block.text case None => "" case Some(text) => text
  }

  /** The UTF-8 length of the texts of the first `n` blocks together. */
  function BytesUpTo(blocks: seq<RawBlock>, n: nat): nat
    requires n <= |blocks|
  {
    if n == 0 then 0 else BytesUpTo(blocks, n - 1) + Bytes(TextOf(blocks[n - 1]))
  }

  /** A block is well formed on its own. */
  predicate BlockShaped(b: RawBlock) {
    && b.ordinal.Some? && b.ordinal.value >= 0
    && b.text.Some?
    && b.anchor.Some? && |b.anchor.value| <= 255
    && b.kind in KINDS
    && match b.page
       case NoPage => true
       case PageNumber(n) => 1 <= n <= 1000
       case OtherPage => false
  }

  ghost predicate SameOrdinal(blocks: seq<RawBlock>, i: nat, j: nat)
    requires i < |blocks| && j < |blocks|
  {
    blocks[i].ordinal == blocks[j].ordinal
  }

  ghost predicate IsParent(blocks: seq<RawBlock>, i: nat, j: nat)
    requires i < |blocks| && j < |blocks|
  {
    blocks[i].parent.ParentOrdinal? && blocks[j].ordinal == Some(blocks[i].parent.ordinal)
  }

  /** A block repeats no earlier ordinal and names as its parent, if any, an earlier block. */
  ghost predicate Placed(blocks: seq<RawBlock>, i: nat)
    requires i < |blocks|
  {
    && (forall j :: 0 <= j < i ==> !SameOrdinal(blocks, i, j))
    && (blocks[i].parent.NoParent? || exists j :: 0 <= j < i && IsParent(blocks, i, j))
  }

  ghost predicate BlocksOk(blocks: seq<RawBlock>, n: nat)
    requires n <= |blocks|
  {
    forall i :: 0 <= i < n ==> BlockShaped(blocks[i]) && Placed(blocks, i)
  }

  /** The replies that are stored as they are. */
  ghost predicate ResultOk(reply: Reply) {
    && reply.Reply? && reply.state in STATES
    && reply.fullText.Some? && Bytes(reply.fullText.value) <= MAX_TEXT_BYTES
    && reply.blocks.Some? && |reply.blocks.value| <= MAX_BLOCKS
    && (reply.state != "completed" ==> reply.blocks.value == [])
    && BlocksOk(reply.blocks.value, |reply.blocks.value|)
    && BytesUpTo(reply.blocks.value, |reply.blocks.value|) <= MAX_TEXT_BYTES
  }

  lemma {:induction false} BytesGrow(blocks: seq<RawBlock>, m: nat, n: nat)
    requires m <= n <= |blocks|
    ensures BytesUpTo(blocks, m) <= BytesUpTo(blocks, n)
    decreases n
  {
    if m < n {
      BytesGrow(blocks, m, n - 1);
    }
  }

  /** The ordinals of the first `n` blocks, as the loop collects them. */
  ghost predicate Collected(blocks: seq<RawBlock>, n: nat, seen: set<int>)
    requires n <= |blocks|
  {
    && (forall j :: 0 <= j < n ==> blocks[j].ordinal.Some? && blocks[j].ordinal.value in seen)
    && (forall o :: o in seen ==> exists j :: 0 <= j < n && blocks[j].ordinal == Some(o))
  }

  /** The check of one block against the ordinals seen before it. */
  lemma {:induction false} BlockTest(blocks: seq<RawBlock>, n: nat, seen: set<int>)
    requires n < |blocks| && Collected(blocks, n, seen)
    ensures blocks[n].ordinal.Some? ==>
              (Placed(blocks, n) <==>
                blocks[n].ordinal.value !in seen
                && (blocks[n].parent.NoParent?
                    || (blocks[n].parent.ParentOrdinal? && blocks[n].parent.ordinal in seen)))
    ensures blocks[n].ordinal.Some? ==> Collected(blocks, n + 1, seen + {blocks[n].ordinal.value})
  {
    if blocks[n].ordinal.Some? {
      var o := blocks[n].ordinal.value;
      if o in seen {
        var j :| 0 <= j < n && blocks[j].ordinal == Some(o);
        assert SameOrdinal(blocks, n, j);
      } else {
        assert forall j :: 0 <= j < n ==> !SameOrdinal(blocks, n, j);
      }
      if blocks[n].parent.ParentOrdinal? && blocks[n].parent.ordinal in seen {
        var j :| 0 <= j < n && blocks[j].ordinal == Some(blocks[n].parent.ordinal);
        assert IsParent(blocks, n, j);
      }
      forall x | x in seen + {o}
        ensures exists j :: 0 <= j < n + 1 && blocks[j].ordinal == Some(x)
      {
        if x == o {
          assert blocks[n].ordinal == Some(x);
        }
      }
    }
  }

  lemma {:induction false} NoBlocks(blocks: seq<RawBlock>)
    ensures BlocksOk(blocks, 0) && Collected(blocks, 0, {}) && BytesUpTo(blocks, 0) == 0
  {
  }

  /** A list of blocks is in order when every block is; one bad block spoils it. */
  lemma {:induction false} BlocksOkStep(blocks: seq<RawBlock>, n: nat)
    requires n < |blocks|
    ensures BlocksOk(blocks, n + 1) <==> BlocksOk(blocks, n) && BlockShaped(blocks[n]) && Placed(blocks, n)
    ensures BlocksOk(blocks, |blocks|) ==> BlockShaped(blocks[n]) && Placed(blocks, n)
    ensures BytesUpTo(blocks, n + 1) == BytesUpTo(blocks, n) + Bytes(TextOf(blocks[n]))
  {
  }

  /** The bounds checks and the block loop; every way of failing ends in the same stored failure. */
  method ValidResult(reply: Reply) returns (ok: bool)
    ensures ok <==> ResultOk(reply)
  {
    hide Bytes, Width, Placed, BlocksOk, Collected, BytesUpTo;
    if !reply.Reply? || reply.state !in STATES {
      return false;
    }
    if reply.fullText.None? || Bytes(reply.fullText.value) > MAX_TEXT_BYTES
       || reply.blocks.None? || |reply.blocks.value| > MAX_BLOCKS {
      return false;
    }
    var blocks := reply.blocks.value;
    if reply.state != "completed" && blocks != [] {
      return false;
    }
    var seen: set<int> := {};
    var consumed := 0;
    var n := 0;
    NoBlocks(blocks);
    while n < |blocks|
      invariant 0 <= n <= |blocks|
      invariant BlocksOk(blocks, n) && Collected(blocks, n, seen)
      invariant consumed == BytesUpTo(blocks, n) <= MAX_TEXT_BYTES
    {
      var block := blocks[n];
      BlockTest(blocks, n, seen);
      BlocksOkStep(blocks, n);
      BytesGrow(blocks, n + 1, |blocks|);
      if block.ordinal.None? || block.ordinal.value < 0 || block.ordinal.value in seen
         || block.parent.OtherParent?
         || (block.parent.ParentOrdinal? && block.parent.ordinal !in seen) {
        return false;
      }
      seen := seen + {block.ordinal.value};
      if block.text.None? || block.anchor.None? || |block.anchor.value| > 255 {
        return false;
      }
      consumed := consumed + Bytes(block.text.value);
      if consumed > MAX_TEXT_BYTES {
        return false;
      }
      if block.kind !in KINDS {
        return false;
      }
      if block.page.OtherPage? || (block.page.PageNumber? && !(1 <= block.page.number <= 1000)) {
        return false;
      }
      n := n + 1;
    }
    return true;
  }

  // ---------------------------------------------------------------------------
  // What is stored
  // ---------------------------------------------------------------------------

  /** `uuid5` of the extraction fingerprint, the ordinal and the anchor, as an injective name. */
  datatype BlockId = BlockId(fingerprint: string, ordinal: int, anchor: string)

  datatype Block = Block(id: BlockId, parent: Option<BlockId>, ordinal: int, kind: string, page: Page,
                         anchor: string, text: string)

  function IdOf(fingerprint: string, b: RawBlock): BlockId
    requires BlockShaped(b)
  {
    BlockId(fingerprint, b.ordinal.value, b.anchor.value)
  }

  /** `identities.get(ordinal)`: the id of the block with that ordinal among the first `n`. */
  function Identity(fingerprint: string, blocks: seq<RawBlock>, n: nat, ordinal: int): Option<BlockId>
    requires n <= |blocks| && forall i :: 0 <= i < n ==> BlockShaped(blocks[i])
  {
    if n == 0 then None
    else
      assert BlockShaped(blocks[n - 1]);
      if blocks[n - 1].ordinal.value == ordinal then Some(IdOf(fingerprint, blocks[n - 1]))
    else Identity(fingerprint, blocks, n - 1, ordinal)
  }

  function Stored(fingerprint: string, blocks: seq<RawBlock>, i: nat): Block
    requires i < |blocks| && forall k :: 0 <= k < |blocks| ==> BlockShaped(blocks[k])
  {
    var b := blocks[i];
    Block(IdOf(fingerprint, b),
          if b.parent.ParentOrdinal? then Identity(fingerprint, blocks, |blocks|, b.parent.ordinal) else None,
          b.ordinal.value, b.kind, b.page, b.anchor.value, b.text.value)
  }

  function StoredBlocks(fingerprint: string, blocks: seq<RawBlock>): (r: seq<Block>)
    requires forall k :: 0 <= k < |blocks| ==> BlockShaped(blocks[k])
    ensures |r| == |blocks|
  {
    seq(|blocks|, i requires 0 <= i < |blocks| => Stored(fingerprint, blocks, i))
  }

  /** Block `j` is the parent that block `i` is stored with, and it was stored before it. */
  ghost predicate Linked(stored: seq<Block>, i: nat, j: nat)
    requires i < |stored| && j < |stored|
  {
    j < i && stored[i].parent == Some(stored[j].id)
  }

  lemma {:induction false} IdentityFinds(fingerprint: string, blocks: seq<RawBlock>, n: nat, j: nat)
    requires j < n <= |blocks| && BlocksOk(blocks, |blocks|)
    ensures BlockShaped(blocks[j])
    ensures Identity(fingerprint, blocks, n, blocks[j].ordinal.value) == Some(IdOf(fingerprint, blocks[j]))
    decreases n
  {
    if j < n - 1 {
      assert Placed(blocks, n - 1);
      assert !SameOrdinal(blocks, n - 1, j);
      IdentityFinds(fingerprint, blocks, n - 1, j);
    }
  }

  /** Distinct ids, and parent links that lead to earlier blocks. */
  ghost predicate Forest(stored: seq<Block>) {
    && (forall i, j :: 0 <= j < i < |stored| ==> stored[i].id != stored[j].id)
    && (forall i :: 0 <= i < |stored| && stored[i].parent.Some? ==> exists j :: 0 <= j < i && Linked(stored, i, j))
  }

  lemma {:induction false} OrdinalsDiffer(blocks: seq<RawBlock>, i: nat, j: nat)
    requires BlocksOk(blocks, |blocks|) && i < |blocks| && j < |blocks| && i != j
    ensures blocks[i].ordinal != blocks[j].ordinal
  {
    if j < i {
      assert Placed(blocks, i);
      assert !SameOrdinal(blocks, i, j);
    } else {
      assert Placed(blocks, j);
      assert !SameOrdinal(blocks, j, i);
    }
  }

  /**
   The stored blocks of an accepted reply have distinct ids, and their parent links form a forest:
   every link leads to the earlier block the reply named, and exists exactly where it named one.
   */
  lemma {:induction false} StoredBlocksFormForest(fingerprint: string, blocks: seq<RawBlock>)
    requires BlocksOk(blocks, |blocks|)
    ensures var stored := StoredBlocks(fingerprint, blocks);
            && (forall i, j :: 0 <= j < i < |stored| ==> stored[i].id != stored[j].id)
            && (forall i :: 0 <= i < |stored| ==> (stored[i].parent.None? <==> blocks[i].parent.NoParent?))
            && (forall i, j :: 0 <= i < |stored| && 0 <= j < |stored| && IsParent(blocks, i, j) ==>
                  Linked(stored, i, j))
  {
    var stored := StoredBlocks(fingerprint, blocks);
    forall i, j | 0 <= j < i < |stored| ensures stored[i].id != stored[j].id {
      OrdinalsDiffer(blocks, i, j);
    }
    forall i | 0 <= i < |stored| ensures stored[i].parent.None? <==> blocks[i].parent.NoParent? {
      assert Placed(blocks, i);
      if !blocks[i].parent.NoParent? {
        var j :| 0 <= j < i && IsParent(blocks, i, j);
        IdentityFinds(fingerprint, blocks, |blocks|, j);
      }
    }
    forall i, j | 0 <= i < |stored| && 0 <= j < |stored| && IsParent(blocks, i, j) ensures Linked(stored, i, j) {
      assert Placed(blocks, i);
      var k :| 0 <= k < i && IsParent(blocks, i, k);
      if k != j {
        OrdinalsDiffer(blocks, k, j);
      }
      IdentityFinds(fingerprint, blocks, |blocks|, j);
    }
  }

  lemma {:induction false} StoredForest(fingerprint: string, blocks: seq<RawBlock>)
    requires BlocksOk(blocks, |blocks|)
    ensures Forest(StoredBlocks(fingerprint, blocks))
  {
    var stored := StoredBlocks(fingerprint, blocks);
    StoredBlocksFormForest(fingerprint, blocks);
    forall i | 0 <= i < |stored| && stored[i].parent.Some? ensures exists j :: 0 <= j < i && Linked(stored, i, j) {
      assert Placed(blocks, i);
      var j :| 0 <= j < i && IsParent(blocks, i, j);
      assert Linked(stored, i, j);
    }
  }
}
