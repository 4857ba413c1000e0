/** What the claims are for: no two cards of one registry and scope ever carry the same number. */
module NumberCards {
  import opened Prelude
  import opened NumberFormat
  import opened Numbering
  import opened NumberingRuns
  import opened NumberingTheorems

  function CardClaim(d: Document): ClaimKey {
    NumberClaim(d.registry, d.scope, d.number)
  }

  /** A card with a number holds the claim of its registry, scope and number. */
  ghost predicate CardAt(b: Book, id: nat)
    requires id in b.documents
  {
    NumberKey(b.documents[id].number).Some? ==> Held(b.claims, CardClaim(b.documents[id]), id)
  }

  predicate Held(claims: map<ClaimKey, Claim>, k: ClaimKey, id: nat) {
    k in claims && claims[k].document == Some(id)
  }

  ghost predicate CardsOk(b: Book) {
    forall id :: id in b.documents ==> CardAt(b, id)
  }

  /** A claim that is a card's stays that card's. */
  ghost predicate HoldsOn(b: Book, z: Book) {
    forall k, id: nat :: Held(b.claims, k, id) ==> Held(z.claims, k, id)
  }

  lemma {:induction false} HoldsOnTrans(b: Book, y: Book, z: Book)
    requires HoldsOn(b, y) && HoldsOn(y, z)
    ensures HoldsOn(b, z)
  {
    hide Held;
  }

  /** As long as claims of cards stay, only the cards that change need a look. */
  lemma {:induction false} OtherCardsKeep(b: Book, z: Book, changed: set<nat>)
    requires CardsOk(b) && HoldsOn(b, z)
    requires forall id :: id in z.documents && id !in changed ==>
                            id in b.documents && z.documents[id] == b.documents[id]
    requires forall id :: id in z.documents && id in changed ==> CardAt(z, id)
    ensures CardsOk(z)
  {
    hide NumberKey, CardClaim, Held;
    forall id | id in z.documents
      ensures CardAt(z, id)
    {
      if id !in changed {
        assert CardAt(b, id);
      }
    }
  }

  // ---------------------------------------------------------------------------
  // Every operation
  // ---------------------------------------------------------------------------

  lemma {:induction false} AllocateHolds(b: Book, s: Series, r: ReserveRequest, hours: Option<nat>, n: nat, next: nat)
    requires s.step >= 1 && Allocate(b, s, r, hours, n, next).Ok?
    ensures var z := Allocate(b, s, r, hours, n, next).value.0;
            HoldsOn(b, z) && z.documents == b.documents
    decreases n
  {
    hide NumberOf, NumberClaim, Render, EntryFor, NumberUsed;
    if n > 0 {
      var scope := ScopeFor(s, r);
      var k := NextFreeMeaning(b.claims, s, r.period, scope, next);
      var o := NextFree(b.claims, s, r.period, scope, next).value;
      var y := Insert(b, EntryFor(s, r, hours, o), OrdinalClaim(s, r.period, scope, o));
      assert HoldsOn(b, y);
      AllocateHolds(y, s, r, hours, n - 1, o + s.step);
      HoldsOnTrans(b, y, Allocate(b, s, r, hours, n, next).value.0);
    }
  }

  lemma {:induction false} ReserveHolds(b: Book, r: ReserveRequest)
    requires SeriesAllOk(b) && Reserve(b, r).Ok?
    ensures HoldsOn(b, Reserve(b, r).value.book) && Reserve(b, r).value.book.documents == b.documents
  {
    hide Allocate, Held;
    if ReceiptKey(r.series, r.actor, r.key) !in b.receipts {
      var s := b.series[r.series];
      assert SeriesOk(s);
      var next := CounterOf(b, s, CounterKey(r.series, r.period));
      AllocateHolds(b, s, r, HoursFor(s, r), r.count, next);
    }
  }

  /** The linked card gets the number of its entry and the claim of it; no card loses one. */
  lemma {:induction false} LinkHolds(b: Book, id: nat, link: LinkRequest, state: EntryState)
    requires id < |b.entries| && b.entries[id].series in b.series && link.document in b.documents
    requires LinkRefusal(b, id, link).None?
    ensures var z := Link(b, id, link, state);
            && HoldsOn(b, z)
            && z.documents == b.documents[link.document := b.documents[link.document].(number := b.entries[id].number)]
            && Held(z.claims, CardClaim(z.documents[link.document]), link.document)
  {
    hide NumberKey, SeriesOk;
  }

  lemma {:induction false} LinkKeepsCards(b: Book, id: nat, link: LinkRequest, state: EntryState)
    requires CardsOk(b) && id < |b.entries| && b.entries[id].series in b.series && link.document in b.documents
    requires LinkRefusal(b, id, link).None?
    ensures CardsOk(Link(b, id, link, state)) && HoldsOn(b, Link(b, id, link, state))
  {
    hide LinkRefusal, Link, NumberKey, CardClaim, Held, CardsOk;
    LinkHolds(b, id, link, state);
    OtherCardsKeep(b, Link(b, id, link, state), {link.document});
  }

  lemma {:induction false} AssignKeepsCards(b: Book, r: AssignRequest)
    requires CardsOk(b) && (forall i :: 0 <= i < |b.entries| ==> b.entries[i].series in b.series)
    requires Assign(b, r).Ok?
    ensures CardsOk(Assign(b, r).value.book) && HoldsOn(b, Assign(b, r).value.book)
  {
    hide LinkRefusal, Link, NumberKey, NumberClaim, Held;
    if Admit(b, r.id, r.caller).Fresh? {
      var state := if b.documents[r.link.document].published then Assigned else Reserved;
      var y, z := Link(b, r.id, r.link, state), Assign(b, r).value.book;
      LinkKeepsCards(b, r.id, r.link, state);
      LinkRest(b, r.id, r.link, state);
      forall id | id in z.documents
        ensures CardAt(z, id)
      {
        assert CardAt(y, id);
      }
    }
  }

  /** A card with a key does not have the claim of a card without one. */
  lemma {:induction false} KeylessApart(a: Document, d: Document)
    requires NumberKey(a.number).None? && NumberKey(d.number).Some?
    ensures CardClaim(a) != CardClaim(d)
  {
  }

  lemma {:induction false} PutCardHolds(b: Book, id: nat, d: Document)
    requires PutCard(b, id, d).Ok?
    ensures HoldsOn(b, PutCard(b, id, d).value) && PutCard(b, id, d).value.documents == b.documents[id := d]
  {
    hide NumberKey, NumberClaim;
  }

  lemma {:induction false} PutCardHeld(b: Book, id: nat, d: Document)
    requires PutCard(b, id, d).Ok? && (id in b.documents ==> CardAt(b, id))
    ensures CardAt(PutCard(b, id, d).value, id)
  {
    hide NumberKey, NumberClaim;
    if id in b.documents && NumberKey(b.documents[id].number).None? && NumberKey(d.number).Some? {
      KeylessApart(b.documents[id], d);
    }
  }

  lemma {:induction false} PutCardKeepsCards(b: Book, id: nat, d: Document)
    requires CardsOk(b) && PutCard(b, id, d).Ok?
    ensures CardsOk(PutCard(b, id, d).value) && HoldsOn(b, PutCard(b, id, d).value)
  {
    hide PutCard, CardAt, Held;
    PutCardHolds(b, id, d);
    PutCardHeld(b, id, d);
    OtherCardsKeep(b, PutCard(b, id, d).value, {id});
  }

  lemma {:induction false} AttachKeepsCards(b: Book, r: SyncRequest, series: nat, id: nat)
    requires CardsOk(b) && r.document in b.documents && id < |b.entries| && b.entries[id].series in b.series
    requires Attach(b, r, series, id).Ok?
    ensures CardsOk(Attach(b, r, series, id).value) && HoldsOn(b, Attach(b, r, series, id).value)
  {
    hide LinkRefusal, Link, NumberKey, NumberClaim, Held;
    var link := LinkRequest(r.document, r.chosen.Some?, r.fieldOk, r.valuesOk);
    var y := Link(b, id, link, if r.publish then Assigned else Reserved);
    LinkKeepsCards(b, id, link, if r.publish then Assigned else Reserved);
    var z := Attach(b, r, series, id).value;
    assert z.claims == y.claims && z.documents == y.documents by {
      LinkRest(b, id, link, if r.publish then Assigned else Reserved);
    }
    forall card | card in z.documents
      ensures CardAt(z, card)
    {
      assert CardAt(y, card);
    }
  }

  lemma {:induction false} SameCards(b: Book, z: Book)
    requires CardsOk(b) && HoldsOn(b, z) && z.documents == b.documents
    ensures CardsOk(z)
  {
    hide NumberKey, CardClaim, Held;
    OtherCardsKeep(b, z, {});
  }

  lemma {:induction false} SyncEntryKeepsCards(b: Book, r: SyncRequest, existing: Option<nat>)
    requires Inv(b) && CardsOk(b) && (forall i :: 0 <= i < |b.entries| ==> b.entries[i].series in b.series)
    requires r.document in b.documents && (existing.Some? ==> existing.value < |b.entries|)
    requires SyncEntry(b, r, existing).Ok?
    ensures CardsOk(SyncEntry(b, r, existing).value) && HoldsOn(b, SyncEntry(b, r, existing).value)
  {
    hide Attach, Reserve, FieldRefusal, CardsOk, Held;
    var z := SyncEntry(b, r, existing).value;
    if z != b {
      if existing.Some? {
        AttachKeepsCards(b, r, b.entries[existing.value].series, existing.value);
      } else {
        var req := CardReserve(r, r.boundSeries.value, b.documents[r.document]);
        var reserved := Reserve(b, req).value;
        ReserveHolds(b, req);
        SameCards(b, reserved.book);
        AttachKeepsCards(reserved.book, r, r.boundSeries.value, reserved.ids[0]);
        HoldsOnTrans(b, reserved.book, z);
      }
    }
  }

  lemma {:induction false} InvSeriesOk(b: Book)
    requires Inv(b)
    ensures SeriesAllOk(b)
  {
  }

  lemma {:induction false} SyncKeepsCards(b: Book, r: SyncRequest)
    requires Inv(b) && CardsOk(b) && (forall i :: 0 <= i < |b.entries| ==> b.entries[i].series in b.series)
    requires Sync(b, r).Ok?
    ensures CardsOk(Sync(b, r).value) && HoldsOn(b, Sync(b, r).value)
  {
    hide SyncEntry, CarriedBy, CardsOk, Held, Inv;
    var carried := CarriedBy(b.entries, r.document, b.documents[r.document]);
    var kept := Dropped(b, r.document);
    SupersedeKeeps(b, r.document, carried);
    InvSeriesOk(b);
    EntrySeries(kept);
    assert HoldsOn(b, kept);
    SameCards(b, kept);
    SyncEntryKeepsCards(kept, r, if r.chosen.Some? then r.chosen else carried);
    HoldsOnTrans(b, kept, Sync(b, r).value);
  }

  /** Every operation leaves each card with its claim, and takes no claim from a card. */
  lemma {:induction false} StepKeepsCards(b: Book, op: Op)
    requires Inv(b) && CardsOk(b) && OpOk(op)
    ensures CardsOk(After(b, op)) && HoldsOn(b, After(b, op))
  {
    hide Reserve, Assign, PutCard, Sync, Inv, CardsOk, Held;
    EntrySeries(b);
    if Apply(b, op).Ok? {
      match op {
        case OpReserve(r) =>
          InvSeriesOk(b);
          ReserveHolds(b, r);
          SameCards(b, After(b, op));
        case OpAssign(r) => AssignKeepsCards(b, r);
        case OpPutCard(id, d) => PutCardKeepsCards(b, id, d);
        case OpSync(r) => SyncKeepsCards(b, r);
        case _ =>
          assert After(b, op).claims == b.claims;
          SameCards(b, After(b, op));
      }
    }
  }

  // ---------------------------------------------------------------------------
  // Every run
  // ---------------------------------------------------------------------------

  lemma {:induction false} RunKeepsCards(b: Book, ops: seq<Op>)
    requires Inv(b) && CardsOk(b) && forall i :: 0 <= i < |ops| ==> OpOk(ops[i])
    ensures CardsOk(Run(b, ops)) && HoldsOn(b, Run(b, ops))
    decreases |ops|
  {
    hide Inv, CardsOk, Held, After, OpOk;
    if ops != [] {
      StepKeepsCards(b, ops[0]);
      RunKeepsCards(After(b, ops[0]), ops[1..]);
      HoldsOnTrans(b, After(b, ops[0]), Run(b, ops));
    }
  }

  /** The empty register is a start for all of this. */
  lemma {:induction false} EmptyCards()
    ensures Inv(EMPTY) && CardsOk(EMPTY)
  {
    EmptyInv();
  }

  /** No two cards of one registry and scope ever carry the same number, however it is written. */
  lemma {:induction false} CardNumbersAreDistinct(b: Book, ops: seq<Op>, x: nat, y: nat)
    requires Inv(b) && CardsOk(b) && forall i :: 0 <= i < |ops| ==> OpOk(ops[i])
    requires x in Run(b, ops).documents && y in Run(b, ops).documents && x != y
    ensures var d, e := Run(b, ops).documents[x], Run(b, ops).documents[y];
            NumberKey(d.number).Some? && d.registry == e.registry && d.scope == e.scope ==>
            NumberKey(d.number) != NumberKey(e.number)
  {
    hide NumberKey, Run, Inv;
    RunKeepsCards(b, ops);
    assert CardAt(Run(b, ops), x) && CardAt(Run(b, ops), y);
  }

  /** No card ever carries a number issued in its registry and scope but the one that is linked to it. */
  lemma {:induction false} IssuedNumbersAreTheirCards(b: Book, ops: seq<Op>, i: nat, x: nat)
    requires Inv(b) && CardsOk(b) && forall n :: 0 <= n < |ops| ==> OpOk(ops[n])
    requires x in Run(b, ops).documents && i < |Run(b, ops).entries|
    ensures var z := Run(b, ops);
            var d, e := z.documents[x], z.entries[i];
            && e.series in z.series
            && (NumberKey(d.number).Some? && CardClaim(d) == EntryClaim(z, e) ==> e.document == Some(x))
  {
    hide NumberKey, Run, NumberClaim;
    RunKeepsCards(b, ops);
    assert CardAt(Run(b, ops), x);
    assert EntryAt(Run(b, ops), i);
  }

  /** A number a card has carried is never carried by another card, not even once the first has another. */
  lemma {:induction false} CardsKeepTheirNumbers(b: Book, ops: seq<Op>, x: nat, y: nat)
    requires Inv(b) && CardsOk(b) && forall i :: 0 <= i < |ops| ==> OpOk(ops[i])
    requires x in b.documents && NumberKey(b.documents[x].number).Some?
    requires y in Run(b, ops).documents && NumberKey(Run(b, ops).documents[y].number).Some?
    requires CardClaim(Run(b, ops).documents[y]) == CardClaim(b.documents[x])
    ensures x == y
  {
    hide NumberKey, Run, NumberClaim, Inv, CardClaim;
    RunKeepsCards(b, ops);
    assert CardAt(b, x) && CardAt(Run(b, ops), y);
    assert Held(Run(b, ops).claims, CardClaim(b.documents[x]), x);
  }
}
