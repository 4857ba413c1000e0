/**
 The register as its operations change it in place. A refusal in the middle of an operation rolls
 the transaction back.
 */
module NumberRegisters {
  import opened Prelude
  import opened NumberFormat
  import opened Numbering

  class NumberRegister {
    var series: map<nat, Series>
    var counters: map<CounterKey, nat>
    var entries: seq<Entry>
    var claims: map<ClaimKey, Claim>
    var receipts: map<ReceiptKey, Receipt>
    var documents: map<nat, Document>

    function Stored(): Book
      reads this
    {
      Book(series, counters, entries, claims, receipts, documents)
    }

    predicate Valid()
      reads this
    {
      Sound(Stored())
    }

    constructor ()
      ensures Valid() && Stored() == Book(map[], map[], [], map[], map[], map[])
    {
      series, counters, entries, claims, receipts, documents := map[], map[], [], map[], map[], map[];
    }

    method Rollback(before: Book)
      requires Sound(before)
      modifies this
      ensures Valid() && Stored() == before
    {
      series, counters, entries := before.series, before.counters, before.entries;
      claims, receipts, documents := before.claims, before.receipts, before.documents;
    }

    /** The inner loop of `reserve`. */
    method FindFree(s: Series, period: string, scope: Scope, from: nat) returns (r: Result<nat, Refusal>)
      requires s.step >= 1
      ensures r == NextFree(claims, s, period, scope, from)
    {
      hide Occupied, Render;
      var ordinal := from;
      while true
        invariant NextFree(claims, s, period, scope, from) == NextFree(claims, s, period, scope, ordinal)
        decreases MAX_ORDINAL + 1 - ordinal
      {
        if ordinal > MAX_ORDINAL {
          return Err(Exhausted);
        }
        if Render(s.layout, period, ordinal).None? {
          return Err(TooLong);
        }
        if !Occupied(claims, s, period, scope, ordinal) {
          return Ok(ordinal);
        }
        ordinal := ordinal + s.step;
      }
    }

    /** The batch loop of `reserve`; a failure leaves the entries added so far to be rolled back. */
    method AllocateBatch(s: Series, r: ReserveRequest, hours: Option<nat>, from: nat)
        returns (next: Result<nat, Refusal>)
      requires Valid() && s.step >= 1 && r.series in series
      modifies this
      ensures Valid()
      ensures match Allocate(old(Stored()), s, r, hours, r.count, from)
              case Ok((after, last)) => Stored() == after && next == Ok(last)
              case Err(e) => next == Err(e)
    {
      hide NextFree, NumberUsed, NumberOf, OrdinalClaim, SeriesOk;
      ghost var whole := Allocate(Stored(), s, r, hours, r.count, from);
      var ordinal: nat := from;
      var left: nat := r.count;
      while left > 0
        invariant whole == Allocate(Stored(), s, r, hours, left, ordinal)
        invariant Valid() && r.series in series
      {
        var found := FindFree(s, r.period, ScopeFor(s, r), ordinal);
        if found.Err? {
          return Err(found.error);
        }
        var entry := EntryFor(s, r, hours, found.value);
        if NumberUsed(entries, r.series, r.period, entry.number) {
          return Err(NumberTaken);
        }
        claims := claims[OrdinalClaim(s, r.period, ScopeFor(s, r), found.value) := Claim(None, Some(|entries|))];
        entries := entries + [entry];
        ordinal := found.value + s.step;
        left := left - 1;
      }
      next := Ok(ordinal);
    }

    method ReserveNumbers(r: ReserveRequest) returns (result: Result<seq<nat>, Refusal>)
      requires Valid()
      modifies this
      ensures Valid()
      ensures match Reserve(old(Stored()), r)
              case Ok(batch) => Stored() == batch.book && result == Ok(batch.ids)
              case Err(e) => Stored() == old(Stored()) && result == Err(e)
    {
      hide Allocate;
      if r.series !in series {
        return Err(NotFound);
      }
      if !r.permitted {
        return Err(Forbidden);
      }
      var s := series[r.series];
      var receipt := ReceiptKey(r.series, r.actor, r.key);
      if receipt in receipts {
        if receipts[receipt].payload != r.payload {
          return Err(KeyConflict);
        }
        if !r.visible {
          return Err(NotVisible);
        }
        return Ok(receipts[receipt].entries);
      }
      if !s.active {
        return Err(Blocked);
      }
      if !r.scopeValid {
        return Err(BadScope);
      }
      if r.count > s.maxBatch {
        return Err(BatchLimit);
      }
      var hours := HoursFor(s, r);
      if !HoursAllowed(s, hours) {
        return Err(ExpiryPolicy);
      }
      assert SeriesOk(s);
      var before := Stored();
      var counter := CounterKey(r.series, r.period);
      var next := AllocateBatch(s, r, hours, if counter in counters then counters[counter] else s.start);
      if next.Err? {
        Rollback(before);
        return Err(next.error);
      }
      var ids := Range(|before.entries|, r.count);
      counters := counters[counter := next.value];
      receipts := receipts[receipt := Receipt(r.payload, ids)];
      result := Ok(ids);
    }

    /** `write_entry_number` after its checks: move the claim, bind the entry, write the card. */
    method WriteNumber(id: nat, link: LinkRequest, state: EntryState)
      requires Valid() && id < |entries| && link.document in documents
      modifies this
      ensures Valid() && Stored() == Link(old(Stored()), id, link, state)
    {
      hide NumberClaim;
      var e, d := entries[id], documents[link.document];
      var held := NumberClaim(series[e.series].registry, e.scope, e.number);
      if !e.bound {
        var wanted := NumberClaim(series[e.series].registry, d.scope, e.number);
        if held != wanted && held in claims {
          claims := claims[held := claims[held].(entry := None)];
        }
        e := e.(scope := d.scope, bound := true);
        held := wanted;
      }
      claims := claims[held := Claim(Some(link.document), Some(id))];
      documents := documents[link.document := d.(number := e.number)];
      entries := entries[id := e.(document := Some(link.document), state := state)];
    }

    method AssignNumber(r: AssignRequest) returns (result: Result<seq<nat>, Refusal>)
      requires Valid()
      modifies this
      ensures Valid()
      ensures match Assign(old(Stored()), r)
              case Ok(batch) => Stored() == batch.book && result == Ok(batch.ids)
              case Err(e) => Stored() == old(Stored()) && result == Err(e)
    {
      hide Link, LinkRefusal;
      if r.link.document !in documents {
        return Err(NotFound);
      }
      var admission := Admit(Stored(), r.id, r.caller);
      if admission.Refused? {
        return Err(admission.why);
      }
      if admission.Replayed? {
        return Ok(admission.ids);
      }
      var e, d := entries[r.id], documents[r.link.document];
      if d.published && d.number != e.number {
        return Err(RegistrationLocked);
      }
      if !series[e.series].active {
        return Err(Blocked);
      }
      if !r.scopeValid {
        return Err(BadScope);
      }
      if !Live(e, r.caller.now) {
        return Err(NotReserved);
      }
      if d.revision != r.revision {
        return Err(RevisionConflict);
      }
      var refusal := LinkRefusal(Stored(), r.id, r.link);
      if refusal.Some? {
        return Err(refusal.value);
      }
      if !d.published && OtherLiveLink(entries, r.id, r.link.document) {
        return Err(NumberConflict);
      }
      var receipt := ReceiptKey(e.series, r.caller.actor, r.caller.key);
      LinkRest(Stored(), r.id, r.link, if d.published then Assigned else Reserved);
      WriteNumber(r.id, r.link, if d.published then Assigned else Reserved);
      var card := documents[r.link.document];
      documents := documents[r.link.document := card.(revision := card.revision + 1)];
      receipts := receipts[receipt := Receipt(r.caller.payload, [r.id])];
      result := Ok([r.id]);
    }

    method EndNumber(r: EndRequest) returns (result: Result<seq<nat>, Refusal>)
      requires Valid() && (r.target.Cancelled? || r.target.Expired? || r.target.Void?)
      modifies this
      ensures Valid()
      ensures match End(old(Stored()), r)
              case Ok(batch) => Stored() == batch.book && result == Ok(batch.ids)
              case Err(e) => Stored() == old(Stored()) && result == Err(e)
    {
      var admission := Admit(Stored(), r.id, r.caller);
      if admission.Refused? {
        return Err(admission.why);
      }
      if admission.Replayed? {
        return Ok(admission.ids);
      }
      var e := entries[r.id];
      var expected := if r.target.Void? then Assigned else Reserved;
      if e.state != expected {
        return Err(BadTransition);
      }
      if r.target.Expired? && (e.expires.None? || e.expires.value > r.caller.now) {
        return Err(NotExpired);
      }
      entries := entries[r.id := e.(state := r.target)];
      receipts := receipts[ReceiptKey(e.series, r.caller.actor, r.caller.key) := Receipt(r.caller.payload, [r.id])];
      result := Ok([r.id]);
    }

    method AddSeries(id: nat, s: Series, scopeValid: bool) returns (refusal: Option<Refusal>)
      requires Valid()
      modifies this
      ensures Valid()
      ensures match CreateSeries(old(Stored()), id, s, scopeValid)
              case Ok(after) => Stored() == after && refusal == None
              case Err(e) => Stored() == old(Stored()) && refusal == Some(e)
    {
      if !SeriesOk(s) {
        return Some(InvalidValues);
      }
      if !scopeValid {
        return Some(BadScope);
      }
      if id in series {
        return Some(NumberConflict);
      }
      series := series[id := s];
      refusal := None;
    }

    method PatchSettings(id: nat, s: Series, scopeValid: bool) returns (refusal: Option<Refusal>)
      requires Valid()
      modifies this
      ensures Valid()
      ensures match PatchSeries(old(Stored()), id, s, scopeValid)
              case Ok(after) => Stored() == after && refusal == None
              case Err(e) => Stored() == old(Stored()) && refusal == Some(e)
    {
      if id !in series {
        return Some(NotFound);
      }
      if !SeriesOk(s) {
        return Some(InvalidValues);
      }
      if !scopeValid {
        return Some(BadScope);
      }
      var row := series[id];
      if HasEntries(Stored(), id) {
        if s.registry != row.registry || KindSet(s.kinds) != KindSet(row.kinds) {
          return Some(ScopeFrozen);
        }
        if s.start != row.start || s.step != row.step {
          return Some(ScopeFrozen);
        }
      }
      series := series[id := s];
      refusal := None;
    }

    /** Cancels the superseded reservations of a draft, one by one. */
    method DropSuperseded(document: nat, keep: Option<nat>)
      requires Valid()
      modifies this
      ensures Valid() && Stored() == old(Stored()).(entries := Supersede(old(entries), document, keep))
    {
      ghost var first := entries;
      for i := 0 to |entries|
        invariant Valid() && |entries| == |first|
        invariant Stored() == old(Stored()).(entries := entries)
        invariant entries[..i] == Supersede(first, document, keep)[..i]
        invariant entries[i..] == first[i..]
      {
        assert entries[i] == entries[i..][0];
        if IsSuperseded(entries[i], i, document, keep) {
          entries := entries[i := entries[i].(state := Cancelled)];
        }
        assert entries[i + 1..] == first[i..][1..];
        assert Supersede(first, document, keep)[..i + 1] == Supersede(first, document, keep)[..i] + [entries[i]];
      }
    }

    /** The end of `_sync_card_number`: check the entry, link it, record a publication. */
    method AttachEntry(r: SyncRequest, seriesId: nat, id: nat) returns (refusal: Option<Refusal>)
      requires Valid() && r.document in documents && id < |entries|
      modifies this
      ensures Valid()
      ensures match Attach(old(Stored()), r, seriesId, id)
              case Ok(after) => Stored() == after && refusal == None
              case Err(e) => refusal == Some(e)
    {
      hide Link, LinkRefusal;
      var e := entries[id];
      if !r.permitted {
        return Some(Forbidden);
      }
      if !r.visible {
        return Some(NotVisible);
      }
      if e.series != seriesId {
        return Some(DocumentScope);
      }
      if !Live(e, r.now) {
        return Some(NotReserved);
      }
      var link := LinkRequest(r.document, r.chosen.Some?, r.fieldOk, r.valuesOk);
      refusal := LinkRefusal(Stored(), id, link);
      if refusal.Some? {
        return;
      }
      if r.publish {
        var receipt := ReceiptKey(e.series, r.actor, CardKey(r.document, "publish"));
        if receipt in receipts {
          return Some(NumberConflict);
        }
        LinkRest(Stored(), id, link, Assigned);
        WriteNumber(id, link, Assigned);
        receipts := receipts[receipt := Receipt("assign:" + Decimal(id), [id])];
      } else {
        if OtherLiveLink(entries, id, r.document) {
          return Some(NumberConflict);
        }
        WriteNumber(id, link, Reserved);
      }
      refusal := None;
    }

    /** `_sync_card_number` from the point where the card's entry is known or known to be missing. */
    method SyncRest(r: SyncRequest, existing: Option<nat>) returns (refusal: Option<Refusal>)
      requires Valid() && r.document in documents && (existing.Some? ==> existing.value < |entries|)
      modifies this
      ensures Valid()
      ensures match SyncEntry(old(Stored()), r, existing)
              case Ok(after) => Stored() == after && refusal == None
              case Err(e) => refusal == Some(e)
    {
      hide Attach, Reserve;
      var d := documents[r.document];
      if existing.None? && (r.boundSeries.None? || d.number != "") {
        return None;
      }
      if existing.Some? && (entries[existing.value].state.Assigned? || entries[existing.value].state.Void?) {
        return if d.number != entries[existing.value].number then Some(AlreadyPresent) else None;
      }
      var seriesId := if existing.Some? then entries[existing.value].series else r.boundSeries.value;
      if existing.Some? && r.boundSeries.Some? && seriesId != r.boundSeries.value {
        return Some(DocumentScope);
      }
      if seriesId !in series {
        return Some(NotFound);
      }
      if !series[seriesId].active {
        return Some(Blocked);
      }
      if !r.scopeValid {
        return Some(BadScope);
      }
      refusal := FieldRefusal(series[seriesId], d, r.fieldOk);
      if refusal.Some? {
        return;
      }
      if existing.Some? {
        refusal := AttachEntry(r, seriesId, existing.value);
      } else {
        var reserved := ReserveNumbers(CardReserve(r, seriesId, d));
        if reserved.Err? {
          return Some(reserved.error);
        }
        if reserved.value == [] || reserved.value[0] >= |entries| || entries[reserved.value[0]].series !in series
           || r.document !in documents {
          return Some(NotFound);
        }
        refusal := AttachEntry(r, seriesId, reserved.value[0]);
      }
    }

    method SyncCard(r: SyncRequest) returns (refusal: Option<Refusal>)
      requires Valid()
      modifies this
      ensures Valid()
      ensures match Sync(old(Stored()), r)
              case Ok(after) => Stored() == after && refusal == None
              case Err(e) => Stored() == old(Stored()) && refusal == Some(e)
    {
      hide SyncEntry, SeriesOk, CarriedBy;
      if r.document !in documents {
        return Some(NotFound);
      }
      var before := Stored();
      var d := documents[r.document];
      var carried := CarriedBy(entries, r.document, d);
      if !d.published {
        DropSuperseded(r.document, carried);
      }
      refusal := ChosenRefusal(Stored(), r, carried);
      if refusal.None? {
        refusal := SyncRest(r, if r.chosen.Some? then r.chosen else carried);
      }
      if refusal.Some? {
        Rollback(before);
      }
    }
  }
}
