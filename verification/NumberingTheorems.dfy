/** The guarantees of the number register, over every run and every batch. */
module NumberingTheorems {
  import opened Prelude
  import opened NumberFormat
  import opened Numbering
  import opened NumberingRuns

  datatype Op =
    | OpReserve(reserve: ReserveRequest)
    | OpAssign(assign: AssignRequest)
    | OpEnd(end: EndRequest)
    | OpCreate(series: nat, settings: Series, scopeValid: bool)
    | OpPatch(series: nat, settings: Series, scopeValid: bool)
    | OpPutCard(document: nat, card: Document)
    | OpSync(sync: SyncRequest)

  /** Request models admit batches of at least one number, and three ways to end an entry. */
  predicate OpOk(op: Op) {
    && (op.OpReserve? ==> op.reserve.count >= 1)
    && (op.OpEnd? ==> op.end.target.Cancelled? || op.end.target.Expired? || op.end.target.Void?)
  }

  function Just(r: Result<Batch, Refusal>): Result<Book, Refusal> {
    match r
    case Ok(batch) => Ok(batch.book)
    case Err(e) => Err(e)
  }

  ghost function Apply(b: Book, op: Op): Result<Book, Refusal>
    requires Inv(b) && OpOk(op)
  {
    EntrySeries(b);
    match op
    case OpReserve(r) => Just(Reserve(b, r))
    case OpAssign(r) => Just(Assign(b, r))
    case OpEnd(r) => Just(End(b, r))
    case OpCreate(id, s, valid) => CreateSeries(b, id, s, valid)
    case OpPatch(id, s, valid) => PatchSeries(b, id, s, valid)
    case OpPutCard(id, d) => PutCard(b, id, d)
    case OpSync(r) => Sync(b, r)
  }

  lemma {:induction false} ApplyKeeps(b: Book, op: Op)
    requires Inv(b) && OpOk(op) && Apply(b, op).Ok?
    ensures Inv(Apply(b, op).value) && Extends(b, Apply(b, op).value)
  {
    hide Reserve, Assign, End, CreateSeries, PatchSeries, PutCard, Sync, Extends, Inv;
    EntrySeries(b);
    match op {
      case OpReserve(r) => ReserveKeeps(b, r);
      case OpAssign(r) => AssignKeeps(b, r);
      case OpEnd(r) => EndKeeps(b, r);
      case OpCreate(id, s, valid) => CreateKeeps(b, id, s, valid);
      case OpPatch(id, s, valid) => PatchKeeps(b, id, s, valid);
      case OpPutCard(id, d) => PutCardKeeps(b, id, d);
      case OpSync(r) => SyncKeeps(b, r);
    }
  }

  const EMPTY: Book := Book(map[], map[], [], map[], map[], map[])

  /** The register before the first operation is consistent, so all that follows holds of every run from it. */
  lemma {:induction false} EmptyInv()
    ensures Inv(EMPTY)
  {
  }

  ghost function After(b: Book, op: Op): (z: Book)
    requires Inv(b) && OpOk(op)
    ensures Inv(z)
  {
    match Apply(b, op)
    case Ok(z) => ApplyKeeps(b, op); z
    case Err(_) => b
  }

  /** The register after a sequence of operations; a refused one is rolled back. */
  ghost function Run(b: Book, ops: seq<Op>): (z: Book)
    requires Inv(b) && forall i :: 0 <= i < |ops| ==> OpOk(ops[i])
    ensures Inv(z)
    decreases |ops|
  {
    if ops == [] then b else Run(After(b, ops[0]), ops[1..])
  }

  lemma {:induction false} RunExtends(b: Book, ops: seq<Op>)
    requires Inv(b) && forall i :: 0 <= i < |ops| ==> OpOk(ops[i])
    ensures Inv(Run(b, ops)) && Extends(b, Run(b, ops))
    decreases |ops|
  {
    hide Apply, Inv, Extends;
    if ops == [] {
      ExtendsSelf(b);
    } else {
      var y := After(b, ops[0]);
      assert Inv(y) && Extends(b, y) by {
        if Apply(b, ops[0]).Ok? {
          ApplyKeeps(b, ops[0]);
        } else {
          ExtendsSelf(b);
        }
      }
      RunExtends(y, ops[1..]);
      InvClaims(y);
      ExtendsTrans(b, y, Run(b, ops));
    }
  }

  lemma {:induction false} InvClaims(b: Book)
    requires Inv(b)
    ensures ClaimsOk(b)
  {
  }

  // ---------------------------------------------------------------------------
  // Occupancy and entries
  // ---------------------------------------------------------------------------

  /** Occupied numbers stay occupied. */
  lemma {:induction false} ClaimsNeverRemoved(b: Book, ops: seq<Op>, k: ClaimKey)
    requires Inv(b) && (forall i :: 0 <= i < |ops| ==> OpOk(ops[i])) && k in b.claims
    ensures k in Run(b, ops).claims
  {
    RunExtends(b, ops);
  }

  /** Every entry owns exactly one claim: the one of its number in its current scope. */
  lemma {:induction false} OwnsExactlyOneClaim(b: Book, ops: seq<Op>, i: nat)
    requires Inv(b) && (forall j :: 0 <= j < |ops| ==> OpOk(ops[j])) && i < |Run(b, ops).entries|
    ensures var z := Run(b, ops);
            && z.entries[i].series in z.series
            && forall k :: k in z.claims && z.claims[k].entry == Some(i) <==> k == EntryClaim(z, z.entries[i])
  {
    var z := Run(b, ops);
    assert EntryAt(z, i);
    forall k | k in z.claims && z.claims[k].entry == Some(i)
      ensures k == EntryClaim(z, z.entries[i])
    {
      assert ClaimAt(z, k);
    }
  }

  /** No two entries ever hold the same number in the same registry and scope. */
  lemma {:induction false} NumbersAreDistinct(b: Book, ops: seq<Op>, i: nat, j: nat)
    requires Inv(b) && (forall n :: 0 <= n < |ops| ==> OpOk(ops[n])) && i < j < |Run(b, ops).entries|
    ensures var z := Run(b, ops);
            && z.entries[i].series in z.series && z.entries[j].series in z.series
            && EntryClaim(z, z.entries[i]) != EntryClaim(z, z.entries[j])
  {
    var z := Run(b, ops);
    assert EntryAt(z, i) && EntryAt(z, j);
  }

  /** A number once occupied in a scope is never handed to anyone else there. */
  lemma {:induction false} OccupiedNeverReissued(b: Book, ops: seq<Op>, k: ClaimKey, i: nat)
    requires Inv(b) && (forall n :: 0 <= n < |ops| ==> OpOk(ops[n])) && k in b.claims
    requires i < |Run(b, ops).entries| && Run(b, ops).entries[i].series in Run(b, ops).series
    requires EntryClaim(Run(b, ops), Run(b, ops).entries[i]) == k
    ensures b.claims[k].entry == Some(i)
  {
    RunExtends(b, ops);
    assert OwnedOnce(b, Run(b, ops), i);
  }

  /** An issued number never changes, its state only moves forward, and its card link is for good. */
  lemma {:induction false} EntriesOnlyEvolve(b: Book, ops: seq<Op>, i: nat)
    requires Inv(b) && (forall n :: 0 <= n < |ops| ==> OpOk(ops[n])) && i < |b.entries|
    ensures i < |Run(b, ops).entries| && Evolves(b.entries[i], Run(b, ops).entries[i])
  {
    RunExtends(b, ops);
    assert EntryKept(b, Run(b, ops), i);
  }

  /** A card has at most one live reservation. */
  lemma {:induction false} OneLiveReservationPerCard(b: Book, ops: seq<Op>, i: nat, j: nat)
    requires Inv(b) && (forall n :: 0 <= n < |ops| ==> OpOk(ops[n])) && i < j < |Run(b, ops).entries|
    ensures var e, f := Run(b, ops).entries[i], Run(b, ops).entries[j];
            e.document.Some? && e.document == f.document ==> !(e.state.Reserved? && f.state.Reserved?)
  {
    assert PairAt(Run(b, ops).entries, i, j);
  }

  /**
   A counter exists exactly when its series has issued a number in the period; it is on the
   progression of the series, above every issued ordinal, all of which are on it and distinct.
   */
  lemma {:induction false} CountersMatchEntries(b: Book, ops: seq<Op>, c: CounterKey)
    requires Inv(b) && forall n :: 0 <= n < |ops| ==> OpOk(ops[n])
    ensures var z := Run(b, ops);
            && (c in z.counters <==> exists i :: 0 <= i < |z.entries| && InPeriod(z.entries[i], c))
            && (c in z.counters ==>
                  && c.series in z.series
                  && OnGrid(z.series[c.series].start, z.series[c.series].step, z.counters[c])
                  && (forall i :: 0 <= i < |z.entries| && InPeriod(z.entries[i], c) ==>
                        && z.entries[i].ordinal < z.counters[c]
                        && OnGrid(z.series[c.series].start, z.series[c.series].step, z.entries[i].ordinal))
                  && (forall i, j | 0 <= i < j < |z.entries| ::
                        InPeriod(z.entries[i], c) && InPeriod(z.entries[j], c) ==>
                        z.entries[i].ordinal < z.entries[j].ordinal))
  {
    hide NumberClaim;
    var z := Run(b, ops);
    if c in z.counters {
      assert CounterAt(z, c);
    }
    forall i: nat | i < |z.entries| && InPeriod(z.entries[i], c)
      ensures c in z.counters && z.entries[i].ordinal < z.counters[c]
      ensures c.series in z.series
      ensures OnGrid(z.series[c.series].start, z.series[c.series].step, z.entries[i].ordinal)
    {
      assert EntryAt(z, i);
      assert CounterKey(z.entries[i].series, z.entries[i].period) == c;
    }
    forall i: nat, j: nat | i < j < |z.entries| && InPeriod(z.entries[i], c) && InPeriod(z.entries[j], c)
      ensures z.entries[i].ordinal < z.entries[j].ordinal
    {
      assert PairAt(z.entries, i, j);
    }
  }

  // ---------------------------------------------------------------------------
  // Repeated requests
  // ---------------------------------------------------------------------------

  /** The operations that carry an idempotency key. */
  predicate IsRequest(op: Op) {
    op.OpReserve? || op.OpAssign? || op.OpEnd?
  }

  /** What the caller of a request is told. */
  ghost function Answer(b: Book, op: Op): Result<Batch, Refusal>
    requires Inv(b) && OpOk(op) && IsRequest(op)
  {
    EntrySeries(b);
    match op
    case OpReserve(r) => Reserve(b, r)
    case OpAssign(r) => Assign(b, r)
    case OpEnd(r) => End(b, r)
  }

  /** The key a request is remembered under: that of its series, its actor and its idempotency key. */
  ghost function KeyOf(b: Book, op: Op): Option<ReceiptKey> {
    match op
    case OpReserve(r) => if r.series in b.series then Some(ReceiptKey(r.series, r.actor, r.key)) else None
    case OpAssign(r) => EntryKey(b, r.id, r.caller)
    case OpEnd(r) => EntryKey(b, r.id, r.caller)
    case _ => None
  }

  ghost function EntryKey(b: Book, id: nat, c: Caller): Option<ReceiptKey> {
    if id < |b.entries| then Some(ReceiptKey(b.entries[id].series, c.actor, c.key)) else None
  }

  function PayloadOf(op: Op): string
    requires IsRequest(op)
  {
    match op
    case OpReserve(r) => r.payload
    case OpAssign(r) => r.caller.payload
    case OpEnd(r) => r.caller.payload
  }

  /** The caller may make the request and see its entries, and the card of an assignment exists. */
  ghost predicate MayAsk(b: Book, op: Op) {
    match op
    case OpReserve(r) => r.permitted && r.visible
    case OpAssign(r) => r.caller.permitted && r.caller.visible && r.link.document in b.documents
    case OpEnd(r) => r.caller.permitted && r.caller.visible
    case _ => false
  }

  /** Whatever request is accepted, its payload and its answer are stored under its key. */
  lemma {:induction false} AcceptedIsRemembered(b: Book, op: Op)
    requires Inv(b) && OpOk(op) && IsRequest(op) && Answer(b, op).Ok?
    ensures KeyOf(b, op).Some?
    ensures var z := Answer(b, op).value;
            && After(b, op) == z.book
            && KeyOf(b, op).value in z.book.receipts
            && z.book.receipts[KeyOf(b, op).value] == Receipt(PayloadOf(op), z.ids)
  {
    hide Allocate, Link, LinkRefusal, Inv, NumberClaim;
    EntrySeries(b);
    if op.OpAssign? && Admit(b, op.assign.id, op.assign.caller).Fresh? {
      var r := op.assign;
      LinkRest(b, r.id, r.link, if b.documents[r.link.document].published then Assigned else Reserved);
    }
  }

  /** Keys stay what they are: an entry never changes its series. */
  lemma {:induction false} KeyStays(b: Book, z: Book, op: Op)
    requires Extends(b, z) && KeyOf(b, op).Some?
    ensures KeyOf(z, op) == KeyOf(b, op)
  {
    if op.OpAssign? {
      assert EntryKept(b, z, op.assign.id);
    } else if op.OpEnd? {
      assert EntryKept(b, z, op.end.id);
    }
  }

  /** The key a request is remembered under is already known. */
  ghost predicate Known(b: Book, op: Op) {
    KeyOf(b, op).Some? && KeyOf(b, op).value in b.receipts
  }

  /** A request under a known key changes nothing, and is answered from the receipt or refused. */
  lemma {:induction false} KnownHasNoEffect(b: Book, op: Op)
    requires Inv(b) && OpOk(op) && Known(b, op)
    ensures IsRequest(op) && After(b, op) == b
    ensures MayAsk(b, op) ==>
              var receipt := b.receipts[KeyOf(b, op).value];
              Answer(b, op) ==
              if receipt.payload == PayloadOf(op) then Ok(Batch(b, receipt.entries)) else Err(KeyConflict)
  {
    hide Inv;
    EntrySeries(b);
  }

  /**
   However much happens in between, repeating an accepted request of any kind changes nothing and
   returns the same entries in the same order, and reusing its key for something else is refused.
   */
  lemma {:induction false} RepeatIsReplayed(b: Book, op: Op, ops: seq<Op>, again: Op)
    requires Inv(b) && OpOk(op) && IsRequest(op) && Answer(b, op).Ok?
    requires forall n :: 0 <= n < |ops| ==> OpOk(ops[n])
    requires OpOk(again) && KeyOf(Run(After(b, op), ops), again) == KeyOf(b, op)
    requires MayAsk(Run(After(b, op), ops), again)
    ensures var later := Run(After(b, op), ops);
            && IsRequest(again) && After(later, again) == later
            && Answer(later, again) ==
               if PayloadOf(again) == PayloadOf(op) then Ok(Batch(later, Answer(b, op).value.ids)) else Err(KeyConflict)
  {
    hide Answer, After, Inv, KeyOf, MayAsk, PayloadOf;
    AcceptedIsRemembered(b, op);
    RunExtends(After(b, op), ops);
    KnownHasNoEffect(Run(After(b, op), ops), again);
  }

  /** The same request again has the key of the first, so it is always such a repeat. */
  lemma {:induction false} SameRequestSameKey(b: Book, op: Op, ops: seq<Op>)
    requires Inv(b) && OpOk(op) && IsRequest(op) && Answer(b, op).Ok?
    requires forall n :: 0 <= n < |ops| ==> OpOk(ops[n])
    ensures KeyOf(Run(After(b, op), ops), op) == KeyOf(b, op)
  {
    hide Answer, Inv, KeyOf, Extends, Apply;
    AcceptedIsRemembered(b, op);
    assert Extends(b, After(b, op)) by {
      AnswerApplies(b, op);
      ApplyKeeps(b, op);
    }
    RunExtends(After(b, op), ops);
    KeyStays(b, After(b, op), op);
    KeyStays(After(b, op), Run(After(b, op), ops), op);
  }

  lemma {:induction false} AnswerApplies(b: Book, op: Op)
    requires Inv(b) && OpOk(op) && IsRequest(op)
    ensures Apply(b, op) == Just(Answer(b, op))
  {
    hide Inv, Reserve, Assign, End;
  }

  /** The keys of the accepted requests, once `op` has been handled. */
  ghost function Carried(b: Book, seen: set<ReceiptKey>, op: Op): set<ReceiptKey>
    requires Inv(b) && OpOk(op)
  {
    if IsRequest(op) && Answer(b, op).Ok? && KeyOf(b, op).Some? then seen + {KeyOf(b, op).value} else seen
  }

  /** The run without every request whose series, actor and key an earlier accepted request carried. */
  ghost function Once(b: Book, seen: set<ReceiptKey>, ops: seq<Op>): seq<Op>
    requires Inv(b) && forall i :: 0 <= i < |ops| ==> OpOk(ops[i])
    decreases |ops|
  {
    if ops == [] then []
    else
      var rest := Once(After(b, ops[0]), Carried(b, seen, ops[0]), ops[1..]);
      if KeyOf(b, ops[0]).Some? && KeyOf(b, ops[0]).value in seen then rest else [ops[0]] + rest
  }

  lemma {:induction false} OnceFrom(b: Book, seen: set<ReceiptKey>, ops: seq<Op>)
    requires Inv(b) && (forall i :: 0 <= i < |ops| ==> OpOk(ops[i])) && seen <= b.receipts.Keys
    ensures forall i :: 0 <= i < |Once(b, seen, ops)| ==> OpOk(Once(b, seen, ops)[i])
    ensures Run(b, Once(b, seen, ops)) == Run(b, ops)
    decreases |ops|
  {
    hide Inv, OpOk, After, Carried, KeyOf;
    if ops != [] {
      var op := ops[0];
      CarriedAreKnown(b, seen, op);
      OnceFrom(After(b, op), Carried(b, seen, op), ops[1..]);
      var rest := Once(After(b, op), Carried(b, seen, op), ops[1..]);
      if KeyOf(b, op).Some? && KeyOf(b, op).value in seen {
        KnownHasNoEffect(b, op);
      } else {
        assert Once(b, seen, ops) == [op] + rest;
        assert ([op] + rest)[1..] == rest;
      }
    }
  }

  lemma {:induction false} CarriedAreKnown(b: Book, seen: set<ReceiptKey>, op: Op)
    requires Inv(b) && OpOk(op) && seen <= b.receipts.Keys
    ensures Carried(b, seen, op) <= After(b, op).receipts.Keys
  {
    hide Inv, OpOk, KeyOf, Answer, Apply;
    assert b.receipts.Keys <= After(b, op).receipts.Keys by {
      if Apply(b, op).Ok? {
        ApplyKeeps(b, op);
      }
    }
    if IsRequest(op) && Answer(b, op).Ok? {
      AcceptedIsRemembered(b, op);
    }
  }

  /** Repeats have no effect on a run: without them it ends in the same register. */
  lemma {:induction false} RepeatsAreOnceOnly(b: Book, ops: seq<Op>)
    requires Inv(b) && forall i :: 0 <= i < |ops| ==> OpOk(ops[i])
    ensures forall i :: 0 <= i < |Once(b, {}, ops)| ==> OpOk(Once(b, {}, ops)[i])
    ensures Run(b, Once(b, {}, ops)) == Run(b, ops)
  {
    hide Inv, OpOk, Once, Run;
    OnceFrom(b, {}, ops);
  }
}
