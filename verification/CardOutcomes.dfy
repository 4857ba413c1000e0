/**
 What assigning, ending, saving and synchronising do to an entry, its claim and its card, and when they
 are refused, in terms of the stored fields.
 */
module CardOutcomes {
  import opened Prelude
  import opened NumberFormat
  import opened Numbering
  import opened NumberingRuns
  import opened NumberingTheorems
  import opened NumberCards
  import opened NumberOutcomes

  // ---------------------------------------------------------------------------
  // Linking an entry to a card
  // ---------------------------------------------------------------------------

  /** A reservation whose time has not run out. */
  ghost predicate StillReserved(e: Entry, now: int) {
    e.state == Reserved && match e.expires case None => true case Some(until) => now < until
  }

  /** The series numbers cards of this registry and type. */
  ghost predicate Serves(s: Series, d: Document) {
    s.registry == d.registry && (|s.kinds| == 0 || exists i :: 0 <= i < |s.kinds| && s.kinds[i] == d.kind)
  }

  /** The card has no number, or it has this one and a right to it: the entry is its own, or it was named. */
  ghost predicate NumberFits(e: Entry, d: Document, link: LinkRequest) {
    d.number == "" || (d.number == e.number && (link.supplied || e.document == Some(link.document)))
  }

  /** An entry of another scope may move into the card's only while it is unbound and its number is free there. */
  ghost predicate MayMove(b: Book, id: nat, d: Document)
    requires id < |b.entries| && b.entries[id].series in b.series
  {
    var e := b.entries[id];
    e.scope == d.scope || (!e.bound && NumberClaim(b.series[e.series].registry, d.scope, e.number) !in b.claims)
  }

  ghost predicate MayLink(b: Book, id: nat, link: LinkRequest)
    requires id < |b.entries| && b.entries[id].series in b.series && link.document in b.documents
  {
    var e, d := b.entries[id], b.documents[link.document];
    && Serves(b.series[e.series], d) && link.fieldOk && link.valuesOk
    && (e.document == None || e.document == Some(link.document))
    && NumberFits(e, d, link) && MayMove(b, id, d)
  }

  lemma {:induction false} MayLinkExactly(b: Book, id: nat, link: LinkRequest)
    requires Inv(b) && id < |b.entries| && b.entries[id].series in b.series && link.document in b.documents
    ensures LinkRefusal(b, id, link).None? <==> MayLink(b, id, link)
  {
    hide NumberKey, NumberClaim;
    assert EntryAt(b, id);
    hide Inv, OnGrid;
    var s, d := b.series[b.entries[id].series], b.documents[link.document];
    assert d.kind in s.kinds <==> exists i :: 0 <= i < |s.kinds| && s.kinds[i] == d.kind;
  }

  /** Only these fields of an entry change when it is linked. */
  ghost predicate LinkedEntry(e: Entry, z: Entry, document: nat, d: Document, state: EntryState) {
    && z.document == Some(document) && z.bound && z.scope == d.scope && z.state == state
    && z.series == e.series && z.period == e.period && z.ordinal == e.ordinal && z.number == e.number
    && z.owner == e.owner && z.expires == e.expires
  }

  /**
   The claims after linking: the number in the card's scope belongs to the card and the entry; where the
   entry came from another scope its old claim stays there without an owner; all others are as before.
   */
  ghost predicate LinkedClaims(b: Book, z: Book, id: nat, document: nat)
    requires id < |b.entries| && b.entries[id].series in b.series && document in b.documents
  {
    var e, d := b.entries[id], b.documents[document];
    var registry := b.series[e.series].registry;
    var before, after := NumberClaim(registry, e.scope, e.number), NumberClaim(registry, d.scope, e.number);
    && (forall c :: c in z.claims <==> c in b.claims || c == after)
    && after in z.claims && z.claims[after] == Claim(Some(document), Some(id))
    && (before != after ==> before in z.claims && z.claims[before] == Claim(None, None))
    && (forall c :: c in b.claims && c != before && c != after ==> c in z.claims && z.claims[c] == b.claims[c])
  }

  /** One entry and one card are linked; other entries and cards, the series and the counters are as before. */
  ghost predicate Links(b: Book, z: Book, id: nat, document: nat, state: EntryState, revision: nat)
    requires id < |b.entries| && b.entries[id].series in b.series && document in b.documents
  {
    && |z.entries| == |b.entries|
    && LinkedEntry(b.entries[id], z.entries[id], document, b.documents[document], state)
    && (forall j :: 0 <= j < |b.entries| && j != id ==> z.entries[j] == b.entries[j])
    && z.documents ==
       b.documents[document := b.documents[document].(number := b.entries[id].number, revision := revision)]
    && LinkedClaims(b, z, id, document)
    && z.series == b.series && z.counters == b.counters
  }

  lemma {:induction false} LinkLinks(b: Book, id: nat, link: LinkRequest, state: EntryState)
    requires Inv(b) && id < |b.entries| && b.entries[id].series in b.series && link.document in b.documents
    requires LinkRefusal(b, id, link).None?
    ensures Links(b, Link(b, id, link, state), id, link.document, state, b.documents[link.document].revision)
  {
    hide NumberKey, NumberClaim, Serves, NumberFits, LinkRefusal, LinkedClaims;
    MayLinkExactly(b, id, link);
    assert EntryAt(b, id);
    hide Inv, EntryAt;
    LinkMovesClaim(b, id, link, state);
  }

  lemma {:induction false} LinkMovesClaim(b: Book, id: nat, link: LinkRequest, state: EntryState)
    requires id < |b.entries| && b.entries[id].series in b.series && link.document in b.documents
    requires EntryAt(b, id) && MayLink(b, id, link)
    ensures LinkedClaims(b, Link(b, id, link, state), id, link.document)
  {
    hide NumberKey, NumberClaim, Serves, OnGrid;
  }

  // ---------------------------------------------------------------------------
  // Assigning and ending
  // ---------------------------------------------------------------------------

  /** The caller may see and change the entry, and has not sent this key before. */
  ghost predicate NewRequest(b: Book, id: nat, c: Caller) {
    && id < |b.entries| && c.permitted && c.visible
    && ReceiptKey(b.entries[id].series, c.actor, c.key) !in b.receipts
  }

  ghost predicate MayAssign(b: Book, r: AssignRequest)
    requires r.id < |b.entries| && b.entries[r.id].series in b.series && r.link.document in b.documents
  {
    var e, d := b.entries[r.id], b.documents[r.link.document];
    && StillReserved(e, r.caller.now)
    && b.series[e.series].active && r.scopeValid && r.revision == d.revision
    && (d.published ==> d.number == e.number)
    && (!d.published ==> forall j :: 0 <= j < |b.entries| && j != r.id ==>
                           !(b.entries[j].state == Reserved && b.entries[j].document == Some(r.link.document)))
    && MayLink(b, r.id, r.link)
  }

  /**
   An assignment is accepted exactly when the entry is a reservation that has not expired and may be linked
   to a card of the given revision; it becomes assigned at once if the card is published.
   */
  lemma {:induction false} AssignedExactly(b: Book, r: AssignRequest)
    requires Inv(b) && (forall i :: 0 <= i < |b.entries| ==> b.entries[i].series in b.series)
    requires NewRequest(b, r.id, r.caller) && r.link.document in b.documents
    ensures Assign(b, r).Ok? <==> MayAssign(b, r)
    ensures Assign(b, r).Ok? ==>
              var z, d := Assign(b, r).value, b.documents[r.link.document];
              && z.ids == [r.id]
              && Links(b, z.book, r.id, r.link.document, if d.published then Assigned else Reserved, d.revision + 1)
              && z.book.receipts == b.receipts[ReceiptKey(b.entries[r.id].series, r.caller.actor, r.caller.key) :=
                                               Receipt(r.caller.payload, [r.id])]
  {
    hide NumberKey, NumberClaim, LinkRefusal, MayLink, LinkedClaims, Inv;
    MayLinkExactly(b, r.id, r.link);
    if LinkRefusal(b, r.id, r.link).None? {
      LinkLinks(b, r.id, r.link, Assigned);
      LinkLinks(b, r.id, r.link, Reserved);
    }
    if Assign(b, r).Ok? {
      var state := if b.documents[r.link.document].published then Assigned else Reserved;
      var y, z := Link(b, r.id, r.link, state), Assign(b, r).value.book;
      assert y.claims == z.claims;
      SameClaims(b, y, z, r.id, r.link.document);
    }
  }

  lemma {:induction false} SameClaims(b: Book, y: Book, z: Book, id: nat, document: nat)
    requires id < |b.entries| && b.entries[id].series in b.series && document in b.documents
    requires LinkedClaims(b, y, id, document) && y.claims == z.claims
    ensures LinkedClaims(b, z, id, document)
  {
  }

  /** So an expired reservation is never assigned to a card. */
  lemma {:induction false} ExpiredIsNotAssigned(b: Book, r: AssignRequest)
    requires Inv(b) && (forall i :: 0 <= i < |b.entries| ==> b.entries[i].series in b.series)
    requires NewRequest(b, r.id, r.caller)
    requires b.entries[r.id].expires.Some? && b.entries[r.id].expires.value <= r.caller.now
    ensures Assign(b, r).Err?
  {
    hide Assign, Inv, Links, MayLink;
    if r.link.document in b.documents {
      AssignedExactly(b, r);
    } else {
      UnknownCard(b, r);
    }
  }

  lemma {:induction false} UnknownCard(b: Book, r: AssignRequest)
    requires forall i :: 0 <= i < |b.entries| ==> b.entries[i].series in b.series
    requires r.link.document !in b.documents
    ensures Assign(b, r) == Err(NotFound)
  {
  }

  /** What ends in which state: assigned numbers become void, reservations are cancelled or, once due, expire. */
  ghost predicate MayEnd(e: Entry, target: EntryState, now: int) {
    match target
    case Void => e.state == Assigned
    case Cancelled => e.state == Reserved
    case Expired => e.state == Reserved && e.expires.Some? && now >= e.expires.value
    case _ => false
  }

  /** Ending changes the state of the entry and nothing else, so its number stays occupied. */
  lemma {:induction false} EndedExactly(b: Book, r: EndRequest)
    requires NewRequest(b, r.id, r.caller) && (r.target.Cancelled? || r.target.Expired? || r.target.Void?)
    ensures End(b, r).Ok? <==> MayEnd(b.entries[r.id], r.target, r.caller.now)
    ensures End(b, r).Ok? ==>
              var z := End(b, r).value;
              && z.ids == [r.id] && |z.book.entries| == |b.entries|
              && (forall j :: 0 <= j < |b.entries| ==>
                    z.book.entries[j] == if j == r.id then b.entries[j].(state := r.target) else b.entries[j])
              && z.book.claims == b.claims && z.book.counters == b.counters && z.book.series == b.series
              && z.book.documents == b.documents
              && z.book.receipts == b.receipts[ReceiptKey(b.entries[r.id].series, r.caller.actor, r.caller.key) :=
                                               Receipt(r.caller.payload, [r.id])]
  {
  }

  // ---------------------------------------------------------------------------
  // Series and cards
  // ---------------------------------------------------------------------------

  /** Settings are changed only to valid ones, and not in what issued numbers depend on. */
  ghost predicate MayPatch(b: Book, id: nat, s: Series) {
    && id in b.series && SeriesOk(s)
    && ((exists i :: 0 <= i < |b.entries| && b.entries[i].series == id) ==>
          && s.registry == b.series[id].registry && s.start == b.series[id].start && s.step == b.series[id].step
          && (forall kind :: kind in s.kinds <==> kind in b.series[id].kinds))
  }

  lemma {:induction false} SameKinds(a: seq<string>, b: seq<string>)
    ensures KindSet(a) == KindSet(b) <==> forall kind :: kind in a <==> kind in b
  {
    forall kind
      ensures (kind in KindSet(a) <==> kind in a) && (kind in KindSet(b) <==> kind in b)
    {
    }
  }

  /** Creating and changing a series touches that series only. */
  lemma {:induction false} SeriesExactly(b: Book, id: nat, s: Series, scopeValid: bool)
    ensures CreateSeries(b, id, s, scopeValid).Ok? <==> scopeValid && SeriesOk(s) && id !in b.series
    ensures PatchSeries(b, id, s, scopeValid).Ok? <==> scopeValid && MayPatch(b, id, s)
    ensures CreateSeries(b, id, s, scopeValid).Ok? ==>
              CreateSeries(b, id, s, scopeValid).value == b.(series := b.series[id := s])
    ensures PatchSeries(b, id, s, scopeValid).Ok? ==>
              PatchSeries(b, id, s, scopeValid).value == b.(series := b.series[id := s])
  {
    hide SeriesOk, KindSet;
    if id in b.series {
      SameKinds(s.kinds, b.series[id].kinds);
    }
  }

  /** A published card keeps its number, registry and scope, and stays published. */
  ghost predicate KeepsRegistration(before: Document, d: Document) {
    d.published && d.number == before.number && d.registry == before.registry && d.scope == before.scope
  }

  ghost predicate MaySave(b: Book, id: nat, d: Document) {
    && (id in b.documents && b.documents[id].published ==> KeepsRegistration(b.documents[id], d))
    && (Blank(d.number) || CardClaim(d) !in b.claims || b.claims[CardClaim(d)].document == Some(id))
  }

  /**
   A card is saved exactly when its number is blank, free or its own in its registry and scope, and, once
   published, unchanged. Saving claims a free number for the card and touches no other claim.
   */
  lemma {:induction false} SavedExactly(b: Book, id: nat, d: Document)
    requires Inv(b) && CardsOk(b)
    ensures PutCard(b, id, d).Ok? <==> MaySave(b, id, d)
    ensures PutCard(b, id, d).Ok? ==>
              PutCard(b, id, d).value ==
              b.(documents := b.documents[id := d],
                 claims := if Blank(d.number) || CardClaim(d) in b.claims then b.claims
                           else b.claims[CardClaim(d) := Claim(Some(id), None)])
  {
    hide NumberKey, NumberClaim, Blank;
    BlankHasNoKey(d.number);
    if id in b.documents {
      assert CardAt(b, id);
    }
    var claim := CardClaim(d);
    if claim in b.claims && b.claims[claim].entry.Some? {
      assert ClaimAt(b, claim) && EntryAt(b, b.claims[claim].entry.value);
    }
    hide Inv, CardsOk, EntryAt;
    if id in b.documents && CardClaim(b.documents[id]) == claim && NumberKey(d.number).Some? {
      SameClaimSameKey(b.documents[id], d);
    }
  }

  // ---------------------------------------------------------------------------
  // Keeping a card and its number together
  // ---------------------------------------------------------------------------

  /** The entry is linked to the card and has its number; a bound one also has its scope. */
  ghost predicate Carries(e: Entry, id: nat, d: Document) {
    e.document == Some(id) && e.number == d.number && (e.bound ==> e.scope == d.scope)
  }

  /** The card's entry is the first that carries its number. */
  ghost predicate FirstCarrier(entries: seq<Entry>, id: nat, d: Document, found: Option<nat>) {
    match found
    case None => forall i :: 0 <= i < |entries| ==> !Carries(entries[i], id, d)
    case Some(n) =>
      n < |entries| && Carries(entries[n], id, d) && forall i :: 0 <= i < n ==> !Carries(entries[i], id, d)
  }

  lemma {:induction false} CarriedIsFirst(entries: seq<Entry>, id: nat, d: Document)
    ensures FirstCarrier(entries, id, d, CarriedBy(entries, id, d))
    decreases |entries|
  {
    hide Carries;
    if entries != [] {
      var n := |entries| - 1;
      CarriedIsFirst(entries[..n], id, d);
      assert forall i :: 0 <= i < n ==> entries[..n][i] == entries[i];
      assert CarriedBy(entries[..n], id, d).None? && Carries(entries[n], id, d) ==>
             CarriedBy(entries, id, d) == Some(n) by { ReadsCarries(entries[n], id, d); }
      assert !Carries(entries[n], id, d) ==> CarriedBy(entries, id, d) == CarriedBy(entries[..n], id, d) by {
        ReadsCarries(entries[n], id, d);
      }
    }
  }

  lemma {:induction false} ReadsCarries(e: Entry, id: nat, d: Document)
    ensures Carries(e, id, d) <==> e.document == Some(id) && e.number == d.number && (!e.bound || e.scope == d.scope)
  {
  }

  /** A draft's other live reservations are cancelled; everything else stays. */
  ghost predicate DropsOthers(b: Book, z: Book, document: nat, keep: Option<nat>)
    requires document in b.documents
  {
    && |z.entries| == |b.entries|
    && (forall i: nat :: i < |b.entries| ==>
          var e := b.entries[i];
          z.entries[i] ==
          if !b.documents[document].published && e.document == Some(document) && e.state == Reserved && keep != Some(i)
          then e.(state := Cancelled) else e)
    && z == b.(entries := z.entries)
  }

  lemma {:induction false} DroppedDrops(b: Book, document: nat)
    requires document in b.documents
    ensures DropsOthers(b, Dropped(b, document), document, CarriedBy(b.entries, document, b.documents[document]))
  {
    hide CarriedBy;
  }

  ghost predicate MayAttach(b: Book, r: SyncRequest, series: nat, id: nat)
    requires r.document in b.documents && id < |b.entries| && b.entries[id].series in b.series
  {
    && r.permitted && r.visible && b.entries[id].series == series && StillReserved(b.entries[id], r.now)
    && MayLink(b, id, LinkRequest(r.document, r.chosen.Some?, r.fieldOk, r.valuesOk))
    && if r.publish then ReceiptKey(series, r.actor, CardKey(r.document, "publish")) !in b.receipts
       else forall j :: 0 <= j < |b.entries| && j != id ==>
              !(b.entries[j].state == Reserved && b.entries[j].document == Some(r.document))
  }

  /** The last part of synchronisation links the entry, which becomes assigned exactly on publication. */
  lemma {:induction false} AttachedExactly(b: Book, r: SyncRequest, series: nat, id: nat)
    requires Inv(b) && r.document in b.documents && id < |b.entries| && b.entries[id].series in b.series
    ensures Attach(b, r, series, id).Ok? <==> MayAttach(b, r, series, id)
    ensures Attach(b, r, series, id).Ok? ==>
              Links(b, Attach(b, r, series, id).value, id, r.document, if r.publish then Assigned else Reserved,
                    b.documents[r.document].revision)
  {
    hide NumberKey, NumberClaim, LinkRefusal, MayLink, LinkedClaims, Inv, CardKey;
    var link := LinkRequest(r.document, r.chosen.Some?, r.fieldOk, r.valuesOk);
    MayLinkExactly(b, id, link);
    if LinkRefusal(b, id, link).None? {
      LinkLinks(b, id, link, Assigned);
      LinkLinks(b, id, link, Reserved);
    }
    if Attach(b, r, series, id).Ok? {
      var y, z := Link(b, id, link, if r.publish then Assigned else Reserved), Attach(b, r, series, id).value;
      SameClaims(b, y, z, id, r.document);
    }
  }

  lemma {:induction false} SameClaimSameKey(c: Document, d: Document)
    requires CardClaim(c) == CardClaim(d) && NumberKey(d.number).Some?
    ensures NumberKey(c.number).Some?
  {
    hide NumberKey;
    KeyNotEmpty(d.number);
  }

  lemma {:induction false} KeyNotEmpty(s: string)
    ensures NumberKey(s).Some? ==> NumberKey(s).value != ""
  {
  }

  /** The entry the card is to have: the one chosen for it, or the one whose number it carries. */
  ghost predicate Wanted(b: Book, r: SyncRequest, existing: Option<nat>)
    requires r.document in b.documents
  {
    match r.chosen
    case Some(_) => existing == r.chosen
    case None => FirstCarrier(b.entries, r.document, b.documents[r.document], existing)
  }

  /** One number in the card's scope, for the caller, on the terms of the series of the card's field. */
  ghost predicate AsksForCard(q: ReserveRequest, r: SyncRequest, d: Document) {
    && r.boundSeries == Some(q.series) && q.actor == r.actor && q.count == 1 && q.hours == None
    && q.scope == Some(d.scope) && q.scopeBound == None && q.period == r.period && q.now == r.now
    && q.permitted == r.permitted && q.visible == r.visible && q.scopeValid == r.scopeValid
  }

  /** The card's entry is spent: its number is no longer linked, only compared. */
  ghost predicate Spent(e: Entry) {
    e.state == Assigned || e.state == Void
  }

  /** A card nothing has to be done for: it has no entry and needs none, or its entry is spent and fits. */
  ghost predicate Settled(b: Book, r: SyncRequest, existing: Option<nat>)
    requires r.document in b.documents && (existing.Some? ==> existing.value < |b.entries|)
  {
    var d := b.documents[r.document];
    match existing
    case None => r.boundSeries == None || d.number != ""
    case Some(i) => Spent(b.entries[i]) && d.number == b.entries[i].number
  }

  /** The card gets a number reserved for it, or one reserved by the same request before. */
  ghost predicate GetsNumber(b: Book, z: Book, r: SyncRequest, q: ReserveRequest)
    requires SeriesAllOk(b) && r.document in b.documents
  {
    && AsksForCard(q, r, b.documents[r.document]) && Reserve(b, q).Ok?
    && var y := Reserve(b, q).value;
       && |y.ids| > 0 && y.ids[0] < |y.book.entries| && y.book.entries[y.ids[0]].series in y.book.series
       && r.document in y.book.documents
       && Links(y.book, z, y.ids[0], r.document, if r.publish then Assigned else Reserved,
                b.documents[r.document].revision)
  }

  /**
   What an accepted synchronisation does after a draft has dropped the reservations it does not carry: it
   links the wanted entry, or reserves a number for a card that should have one, or has nothing to do.
   */
  lemma {:induction false} SyncEntryDoes(b: Book, r: SyncRequest, existing: Option<nat>) returns (q: ReserveRequest)
    requires Inv(b) && (forall i :: 0 <= i < |b.entries| ==> b.entries[i].series in b.series)
    requires r.document in b.documents && (existing.Some? ==> existing.value < |b.entries|)
    requires SyncEntry(b, r, existing).Ok?
    ensures var z := SyncEntry(b, r, existing).value;
            if Settled(b, r, existing) then z == b
            else if existing.Some? then
              Links(b, z, existing.value, r.document, if r.publish then Assigned else Reserved,
                    b.documents[r.document].revision)
            else GetsNumber(b, z, r, q)
  {
    hide Attach, Reserve, Links, MayAttach, CardKey, Inv, FieldRefusal;
    var d := b.documents[r.document];
    q := CardReserve(r, if r.boundSeries.Some? then r.boundSeries.value else 0, d);
    assert SeriesAllOk(b) by { InvSeriesOk(b); }
    if !Settled(b, r, existing) {
      if existing.Some? {
        AttachedExactly(b, r, b.entries[existing.value].series, existing.value);
      } else {
        var y := Reserve(b, q).value;
        ReserveKeeps(b, q);
        AttachedExactly(y.book, r, q.series, y.ids[0]);
      }
    }
  }

  lemma {:induction false} InvSeriesOk(b: Book)
    requires Inv(b)
    ensures SeriesAllOk(b)
  {
  }

  /** The register after an accepted synchronisation, from the stored fields of before. */
  lemma {:induction false} SyncDoes(b: Book, r: SyncRequest)
      returns (kept: Book, carried: Option<nat>, existing: Option<nat>, q: ReserveRequest)
    requires Inv(b) && (forall i :: 0 <= i < |b.entries| ==> b.entries[i].series in b.series)
    requires Sync(b, r).Ok?
    ensures r.document in b.documents && FirstCarrier(b.entries, r.document, b.documents[r.document], carried)
    ensures DropsOthers(b, kept, r.document, carried) && Wanted(b, r, existing) && Inv(kept)
    ensures existing.Some? ==> existing.value < |kept.entries| && kept.entries[existing.value].series in kept.series
    ensures var z := Sync(b, r).value;
            if Settled(kept, r, existing) then z == kept
            else if existing.Some? then
              Links(kept, z, existing.value, r.document, if r.publish then Assigned else Reserved,
                    b.documents[r.document].revision)
            else GetsNumber(kept, z, r, q)
  {
    hide SyncEntry, Reserve, Links, Settled, GetsNumber, CarriedBy, FirstCarrier, Inv, Supersede;
    carried := CarriedBy(b.entries, r.document, b.documents[r.document]);
    CarriedIsFirst(b.entries, r.document, b.documents[r.document]);
    kept := Dropped(b, r.document);
    DroppedDrops(b, r.document);
    SupersedeKeeps(b, r.document, carried);
    existing := if r.chosen.Some? then r.chosen else carried;
    q := SyncEntryDoes(kept, r, existing);
  }

  /** An entry may be chosen for a card: the card's own, or a free one of the caller, that fits its number. */
  ghost predicate MayChoose(b: Book, r: SyncRequest, id: nat)
    requires r.document in b.documents
  {
    && id < |b.entries|
    && (b.entries[id].document == Some(r.document)
        || (b.entries[id].document == None && b.entries[id].owner == r.actor))
    && (b.documents[r.document].number == "" || b.documents[r.document].number == b.entries[id].number)
  }

  /** Going on with an entry is refused unless it has nothing to do or may attach the entry to the card. */
  lemma {:induction false} SyncEntryExactly(b: Book, r: SyncRequest, id: nat)
    requires Inv(b) && (forall i :: 0 <= i < |b.entries| ==> b.entries[i].series in b.series)
    requires r.document in b.documents && id < |b.entries|
    ensures var s := b.entries[id].series;
            SyncEntry(b, r, Some(id)).Ok? <==>
            || Settled(b, r, Some(id))
            || (!Spent(b.entries[id]) && (r.boundSeries == None || r.boundSeries == Some(s))
                && b.series[s].active && r.scopeValid && MayAttach(b, r, s, id))
  {
    hide Attach, Reserve, Links, CardKey, Inv, StillReserved, NumberFits, MayMove;
    AttachedExactly(b, r, b.entries[id].series, id);
    KindExactly(b.series[b.entries[id].series], b.documents[r.document]);
  }

  lemma {:induction false} KindExactly(s: Series, d: Document)
    ensures FieldRefusal(s, d, true).None? <==> Serves(s, d)
    ensures FieldRefusal(s, d, false).Some?
  {
    assert d.kind in s.kinds <==> exists i :: 0 <= i < |s.kinds| && s.kinds[i] == d.kind;
  }

  /** The entry to go on with is refused unless it is the card's own or may be chosen, and the card has no other. */
  lemma {:induction false} SyncExactly(b: Book, r: SyncRequest) returns (kept: Book, carried: Option<nat>)
    requires Inv(b) && (forall i :: 0 <= i < |b.entries| ==> b.entries[i].series in b.series)
    requires r.document in b.documents
    ensures FirstCarrier(b.entries, r.document, b.documents[r.document], carried)
    ensures DropsOthers(b, kept, r.document, carried) && Inv(kept)
    ensures r.chosen.Some? ==>
              (Sync(b, r).Ok? <==> (carried == None || carried == r.chosen) && MayChoose(kept, r, r.chosen.value)
                                   && SyncEntry(kept, r, r.chosen).Ok?)
    ensures r.chosen.None? ==> (Sync(b, r).Ok? <==> SyncEntry(kept, r, carried).Ok?)
  {
    hide SyncEntry, Reserve, CarriedBy, FirstCarrier, Inv, Supersede;
    carried := CarriedBy(b.entries, r.document, b.documents[r.document]);
    CarriedIsFirst(b.entries, r.document, b.documents[r.document]);
    kept := Dropped(b, r.document);
    DroppedDrops(b, r.document);
    SupersedeKeeps(b, r.document, carried);
  }
}
