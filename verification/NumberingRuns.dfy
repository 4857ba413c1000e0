/** What holds of the number register after any sequence of operations. */
module NumberingRuns {
  import opened Prelude
  import opened NumberFormat
  import opened Numbering

  // ---------------------------------------------------------------------------
  // The invariant
  // ---------------------------------------------------------------------------

  /** An entry owns the claim of its current scope, and was handed out by its counter. */
  ghost predicate EntryAt(b: Book, i: nat)
    requires i < |b.entries|
  {
    var e := b.entries[i];
    && e.series in b.series
    && EntryClaim(b, e) in b.claims
    && b.claims[EntryClaim(b, e)] == Claim(e.document, Some(i))
    && (e.document.Some? ==> e.bound)
    && CounterKey(e.series, e.period) in b.counters
    && e.ordinal < b.counters[CounterKey(e.series, e.period)]
    && OnGrid(b.series[e.series].start, b.series[e.series].step, e.ordinal)
  }

  /** A claim that names an entry is that entry's claim. */
  ghost predicate ClaimAt(b: Book, k: ClaimKey)
    requires k in b.claims
  {
    b.claims[k].entry.Some? ==>
      && b.claims[k].entry.value < |b.entries|
      && b.entries[b.claims[k].entry.value].series in b.series
      && EntryClaim(b, b.entries[b.claims[k].entry.value]) == k
  }

  ghost predicate InPeriod(e: Entry, c: CounterKey) {
    e.series == c.series && e.period == c.period
  }

  /** A counter is on its series' progression and has handed something out. */
  ghost predicate CounterAt(b: Book, c: CounterKey)
    requires c in b.counters
  {
    && c.series in b.series
    && OnGrid(b.series[c.series].start, b.series[c.series].step, b.counters[c])
    && exists i :: 0 <= i < |b.entries| && InPeriod(b.entries[i], c)
  }

  /** Within a series and period ordinals grow in order of issue and numbers differ. */
  ghost predicate PairAt(entries: seq<Entry>, i: nat, j: nat)
    requires i < j < |entries|
  {
    && (entries[i].series == entries[j].series && entries[i].period == entries[j].period ==>
          entries[i].ordinal < entries[j].ordinal && entries[i].number != entries[j].number)
    && !(entries[i].document.Some? && entries[i].document == entries[j].document
         && entries[i].state.Reserved? && entries[j].state.Reserved?)
  }

  ghost predicate EntriesOk(b: Book) {
    forall i: nat :: i < |b.entries| ==> EntryAt(b, i)
  }

  ghost predicate ClaimsOk(b: Book) {
    forall k :: k in b.claims ==> ClaimAt(b, k)
  }

  ghost predicate CountersOk(b: Book) {
    forall c :: c in b.counters ==> CounterAt(b, c)
  }

  ghost predicate PairsOk(b: Book) {
    forall i: nat, j: nat :: i < j < |b.entries| ==> PairAt(b.entries, i, j)
  }

  ghost predicate SeriesAllOk(b: Book) {
    forall k :: k in b.series ==> SeriesOk(b.series[k])
  }

  ghost predicate Inv(b: Book) {
    SeriesAllOk(b) && EntriesOk(b) && ClaimsOk(b) && CountersOk(b) && PairsOk(b)
  }

  // ---------------------------------------------------------------------------
  // What every operation keeps of the register it changes
  // ---------------------------------------------------------------------------

  predicate StateStep(a: EntryState, z: EntryState) {
    a == z || (a.Reserved? && (z.Assigned? || z.Cancelled? || z.Expired? || z.Void?)) || (a.Assigned? && z.Void?)
  }

  /** What may become of an entry: its number is immutable, links and bindings are for good. */
  predicate Evolves(a: Entry, z: Entry) {
    && z == a.(scope := z.scope, bound := z.bound, state := z.state, document := z.document)
    && StateStep(a.state, z.state)
    && (a.document.Some? ==> z.document == a.document)
    && (a.bound ==> z.bound && z.scope == a.scope)
  }

  ghost predicate EntryKept(b: Book, z: Book, i: nat)
    requires i < |b.entries| && i < |z.entries|
  {
    Evolves(b.entries[i], z.entries[i])
  }

  /** A claim a later entry holds was free before, or already its own. */
  ghost predicate OwnedOnce(b: Book, z: Book, i: nat)
    requires i < |z.entries|
  {
    z.entries[i].series in z.series ==>
      var k := EntryClaim(z, z.entries[i]);
      k in b.claims ==> b.claims[k].entry == Some(i)
  }

  /** Claims and receipts are only added, entries only evolve, and no claimed number changes hands. */
  ghost predicate Extends(b: Book, z: Book) {
    && |b.entries| <= |z.entries|
    && b.series.Keys <= z.series.Keys
    && b.claims.Keys <= z.claims.Keys
    && b.receipts.Keys <= z.receipts.Keys
    && (forall k :: k in b.receipts ==> z.receipts[k] == b.receipts[k])
    && (forall i: nat :: i < |b.entries| ==> EntryKept(b, z, i))
    && (forall i: nat :: i < |z.entries| ==> OwnedOnce(b, z, i))
  }

  lemma {:induction false} ExtendsSelf(b: Book)
    requires Inv(b)
    ensures Extends(b, b)
  {
    hide NumberClaim;
    forall i: nat | i < |b.entries|
      ensures OwnedOnce(b, b, i)
    {
      assert EntryAt(b, i);
    }
  }

  lemma {:induction false} ExtendsTrans(b: Book, y: Book, z: Book)
    requires ClaimsOk(y) && Extends(b, y) && Extends(y, z)
    ensures Extends(b, z)
  {
    hide NumberClaim, EntryAt;
    forall i: nat | i < |b.entries|
      ensures EntryKept(b, z, i)
    {
      assert EntryKept(b, y, i) && EntryKept(y, z, i);
    }
    forall i: nat | i < |z.entries|
      ensures OwnedOnce(b, z, i)
    {
      if z.entries[i].series in z.series {
        var k := EntryClaim(z, z.entries[i]);
        if k in b.claims {
          assert OwnedOnce(y, z, i);
          assert ClaimAt(y, k);
          assert OwnedOnce(b, y, i);
        }
      }
    }
    forall k | k in b.receipts
      ensures z.receipts[k] == b.receipts[k]
    {
      assert k in y.receipts;
    }
  }

  /** Receipts and cards alone do not touch the invariant. */
  lemma {:induction false} RestKeeps(b: Book, z: Book)
    requires Inv(b)
    requires z == b.(receipts := z.receipts, documents := z.documents)
    requires forall k :: k in b.receipts ==> k in z.receipts && z.receipts[k] == b.receipts[k]
    ensures Inv(z) && Extends(b, z)
  {
    hide NumberClaim;
    forall i: nat | i < |z.entries|
      ensures EntryAt(z, i) && OwnedOnce(b, z, i)
    {
      assert EntryAt(b, i);
    }
    forall k | k in z.claims
      ensures ClaimAt(z, k)
    {
      assert ClaimAt(b, k);
    }
    forall c | c in z.counters
      ensures CounterAt(z, c)
    {
      assert CounterAt(b, c);
    }
  }

  // ---------------------------------------------------------------------------
  // States
  // ---------------------------------------------------------------------------

  ghost predicate OnlyState(a: Entry, z: Entry) {
    && z == a.(state := z.state) && StateStep(a.state, z.state)
  }

  lemma {:induction false} StatesKeep(b: Book, entries: seq<Entry>)
    requires Inv(b) && |entries| == |b.entries|
    requires forall i: nat :: i < |entries| ==> OnlyState(b.entries[i], entries[i])
    ensures Inv(b.(entries := entries)) && Extends(b, b.(entries := entries))
  {
    hide NumberClaim;
    var z := b.(entries := entries);
    forall i: nat | i < |z.entries|
      ensures EntryAt(z, i) && OwnedOnce(b, z, i) && EntryKept(b, z, i)
    {
      assert EntryAt(b, i) && OnlyState(b.entries[i], entries[i]);
    }
    forall k | k in z.claims
      ensures ClaimAt(z, k)
    {
      assert ClaimAt(b, k);
      if b.claims[k].entry.Some? {
        assert OnlyState(b.entries[b.claims[k].entry.value], entries[b.claims[k].entry.value]);
      }
    }
    forall c | c in z.counters
      ensures CounterAt(z, c)
    {
      assert CounterAt(b, c);
      var i :| 0 <= i < |b.entries| && InPeriod(b.entries[i], c);
      assert OnlyState(b.entries[i], entries[i]) && InPeriod(entries[i], c);
    }
    forall i: nat, j: nat | i < j < |z.entries|
      ensures PairAt(z.entries, i, j)
    {
      assert PairAt(b.entries, i, j) && OnlyState(b.entries[i], entries[i]) && OnlyState(b.entries[j], entries[j]);
    }
  }

  // ---------------------------------------------------------------------------
  // Reserving
  // ---------------------------------------------------------------------------

  ghost function WithCounter(b: Book, c: CounterKey, next: nat): Book {
    b.(counters := b.counters[c := next])
  }

  /** The invariant inside the batch loop: counter `c` stands at `next` but is not stored yet. */
  ghost predicate Allocating(b: Book, c: CounterKey, next: nat) {
    && SeriesAllOk(b) && c.series in b.series
    && EntriesOk(WithCounter(b, c, next))
    && ClaimsOk(b)
    && (forall k :: k in b.counters && k != c ==> CounterAt(b, k))
    && OnGrid(b.series[c.series].start, b.series[c.series].step, next)
    && PairsOk(b)
  }

  lemma {:induction false} GridMove(s: Series, from: nat, k: nat)
    requires OnGrid(s.start, s.step, from)
    ensures OnGrid(s.start, s.step, At(from, s.step, k))
  {
    var n: nat :| from == At(s.start, s.step, n);
    AtSum(s.start, s.step, n, k);
    assert At(from, s.step, k) == At(s.start, s.step, n + k);
  }

  lemma {:induction false} AtSum(first: nat, step: nat, n: nat, k: nat)
    ensures At(At(first, step, n), step, k) == At(first, step, n + k)
  {
    if k > 0 {
      AtSum(first, step, n, k - 1);
    }
  }

  /** One turn of the batch loop. */
  lemma {:induction false} InsertKeeps(b: Book, c: CounterKey, next: nat, e: Entry, o: nat)
    requires Allocating(b, c, next) && next <= o
    requires e.series == c.series && e.period == c.period && e.ordinal == o
    requires e.state.Reserved? && e.document.None?
    requires OnGrid(b.series[c.series].start, b.series[c.series].step, o)
    requires EntryClaim(b, e) !in b.claims
    requires !NumberUsed(b.entries, e.series, e.period, e.number)
    ensures var z := Insert(b, e, EntryClaim(b, e));
            Allocating(z, c, o + b.series[c.series].step) && Extends(b, z)
  {
    hide NumberClaim, EntryAt, ClaimAt, PairAt, OwnedOnce, NumberUsed, At;
    var step := b.series[c.series].step;
    var z := Insert(b, e, EntryClaim(b, e));
    assert SeriesOk(b.series[c.series]);
    GridMove(b.series[c.series], o, 1);
    AtOne(o, step);
    InsertEntries(b, c, next, e);
    InsertClaims(b, c, next, e);
    forall k | k in z.counters && k != c
      ensures CounterAt(z, k)
    {
      assert CounterAt(b, k);
      var i :| 0 <= i < |b.entries| && InPeriod(b.entries[i], k);
      assert InPeriod(z.entries[i], k);
    }
    InsertPairs(b, c, next, e);
  }

  lemma {:induction false} AtOne(first: nat, step: nat)
    ensures At(first, step, 1) == first + step
  {
    assert At(first, step, 0) == first;
  }

  lemma {:induction false} InsertEntries(b: Book, c: CounterKey, next: nat, e: Entry)
    requires Allocating(b, c, next) && next <= e.ordinal && InPeriod(e, c) && e.document.None?
    requires OnGrid(b.series[c.series].start, b.series[c.series].step, e.ordinal)
    requires EntryClaim(b, e) !in b.claims
    ensures var z := Insert(b, e, EntryClaim(b, e));
            && EntriesOk(WithCounter(z, c, e.ordinal + b.series[c.series].step))
            && (forall i: nat :: i < |b.entries| ==> EntryKept(b, z, i))
            && (forall i: nat :: i < |z.entries| ==> OwnedOnce(b, z, i))
  {
    hide NumberClaim, OnGrid, ClaimsOk, PairsOk, CounterAt;
    var z := Insert(b, e, EntryClaim(b, e));
    assert SeriesOk(b.series[c.series]);
    var zc := WithCounter(z, c, e.ordinal + b.series[c.series].step);
    forall i: nat | i < |z.entries|
      ensures EntryAt(zc, i) && OwnedOnce(b, z, i)
    {
      if i < |b.entries| {
        assert EntryAt(WithCounter(b, c, next), i);
      }
    }
  }

  lemma {:induction false} InsertClaims(b: Book, c: CounterKey, next: nat, e: Entry)
    requires Allocating(b, c, next) && e.series == c.series && EntryClaim(b, e) !in b.claims
    ensures ClaimsOk(Insert(b, e, EntryClaim(b, e)))
  {
    hide NumberClaim, OnGrid, EntriesOk, PairsOk, CounterAt;
    var z := Insert(b, e, EntryClaim(b, e));
    forall k | k in z.claims
      ensures ClaimAt(z, k)
    {
      if k != EntryClaim(b, e) {
        assert ClaimAt(b, k);
      }
    }
  }

  lemma {:induction false} InsertPairs(b: Book, c: CounterKey, next: nat, e: Entry)
    requires Allocating(b, c, next) && next <= e.ordinal && InPeriod(e, c) && e.document.None?
    requires !NumberUsed(b.entries, e.series, e.period, e.number)
    ensures forall i: nat, j: nat :: i < j < |b.entries + [e]| ==> PairAt(b.entries + [e], i, j)
  {
    hide NumberClaim;
    var entries := b.entries + [e];
    forall i: nat, j: nat | i < j < |entries|
      ensures PairAt(entries, i, j)
    {
      if j < |b.entries| {
        assert PairAt(b.entries, i, j);
      } else {
        assert EntryAt(WithCounter(b, c, next), i);
      }
    }
  }

  /** The whole batch loop. */
  lemma {:induction false} AllocateKeeps(b: Book, s: Series, r: ReserveRequest, hours: Option<nat>, n: nat, next: nat)
    requires r.series in b.series && s == b.series[r.series] && s.step >= 1
    requires Allocating(b, CounterKey(r.series, r.period), next)
    requires Allocate(b, s, r, hours, n, next).Ok?
    ensures var (z, last) := Allocate(b, s, r, hours, n, next).value;
            && Allocating(z, CounterKey(r.series, r.period), last)
            && Extends(b, z)
            && z.series == b.series && z.counters == b.counters
            && z.receipts == b.receipts && z.documents == b.documents
            && |z.entries| == |b.entries| + n
            && (forall i :: |b.entries| <= i < |z.entries| ==> InPeriod(z.entries[i], CounterKey(r.series, r.period)))
    decreases n
  {
    hide NumberClaim, NumberOf, Render, NumberUsed, Extends, Allocating, EntryFor;
    var c := CounterKey(r.series, r.period);
    if n == 0 {
      AllocatingExtendsSelf(b, c, next);
    } else {
      var o, y := InsertStep(b, s, r, hours, next);
      AllocateKeeps(y, s, r, hours, n - 1, o + s.step);
      var z := Allocate(y, s, r, hours, n - 1, o + s.step).value.0;
      AllocatingClaims(y, c, o + s.step);
      ExtendsTrans(b, y, z);
      assert InPeriod(z.entries[|b.entries|], c) by {
        ExtendsAt(y, z, |b.entries|);
      }
    }
  }

  lemma {:induction false} AllocatingClaims(b: Book, c: CounterKey, next: nat)
    requires Allocating(b, c, next)
    ensures ClaimsOk(b)
  {
  }

  lemma {:induction false} ExtendsAt(b: Book, z: Book, i: nat)
    requires Extends(b, z) && i < |b.entries|
    ensures i < |z.entries| && Evolves(b.entries[i], z.entries[i])
  {
    assert EntryKept(b, z, i);
  }

  /** A successful turn of the batch loop inserts the entry of the first free ordinal. */
  lemma {:induction false} InsertStep(b: Book, s: Series, r: ReserveRequest, hours: Option<nat>, next: nat)
      returns (o: nat, y: Book)
    requires r.series in b.series && s == b.series[r.series] && s.step >= 1
    requires Allocating(b, CounterKey(r.series, r.period), next)
    requires var free := NextFree(b.claims, s, r.period, ScopeFor(s, r), next);
             free.Ok? && !NumberUsed(b.entries, r.series, r.period, EntryFor(s, r, hours, free.value).number)
    ensures NextFree(b.claims, s, r.period, ScopeFor(s, r), next) == Ok(o)
    ensures y == Insert(b, EntryFor(s, r, hours, o), OrdinalClaim(s, r.period, ScopeFor(s, r), o))
    ensures InPeriod(y.entries[|b.entries|], CounterKey(r.series, r.period))
    ensures Allocating(y, CounterKey(r.series, r.period), o + s.step) && Extends(b, y)
    ensures y.series == b.series && y.counters == b.counters && y.receipts == b.receipts && y.documents == b.documents
    ensures |y.entries| == |b.entries| + 1
  {
    hide NumberClaim, NumberOf, Render, NumberUsed;
    var c := CounterKey(r.series, r.period);
    var k := NextFreeMeaning(b.claims, s, r.period, ScopeFor(s, r), next);
    o := NextFree(b.claims, s, r.period, ScopeFor(s, r), next).value;
    var e := EntryFor(s, r, hours, o);
    AtGrows(next, s.step, 0, k);
    GridMove(s, next, k);
    InsertKeeps(b, c, next, e, o);
    y := Insert(b, e, EntryClaim(b, e));
  }

  lemma {:induction false} AllocatingExtendsSelf(b: Book, c: CounterKey, next: nat)
    requires Allocating(b, c, next)
    ensures Extends(b, b)
  {
    hide NumberClaim;
    forall i: nat | i < |b.entries|
      ensures OwnedOnce(b, b, i)
    {
      assert EntryAt(WithCounter(b, c, next), i);
    }
  }

  /** Before the batch loop: the counter is where it is stored, or at the start of the series. */
  lemma {:induction false} AllocatingBegins(b: Book, series: nat, period: string)
    requires Inv(b) && series in b.series
    ensures Allocating(b, CounterKey(series, period), CounterOf(b, b.series[series], CounterKey(series, period)))
  {
    hide NumberClaim;
    var c := CounterKey(series, period);
    var s := b.series[series];
    var next := CounterOf(b, s, c);
    assert OnGrid(s.start, s.step, next) by {
      if c in b.counters {
        assert CounterAt(b, c);
      } else {
        assert next == At(s.start, s.step, 0);
      }
    }
    forall i: nat | i < |b.entries|
      ensures EntryAt(WithCounter(b, c, next), i)
    {
      assert EntryAt(b, i);
    }
  }

  /** After it: storing the counter restores the invariant, once something was handed out. */
  lemma {:induction false} AllocatingEnds(b: Book, c: CounterKey, next: nat)
    requires Allocating(b, c, next)
    requires exists i :: 0 <= i < |b.entries| && InPeriod(b.entries[i], c)
    ensures Inv(WithCounter(b, c, next)) && Extends(b, WithCounter(b, c, next))
  {
    hide NumberClaim;
    var z := WithCounter(b, c, next);
    forall k | k in z.claims
      ensures ClaimAt(z, k)
    {
      assert ClaimAt(b, k);
    }
    forall k | k in z.counters
      ensures CounterAt(z, k)
    {
      if k != c {
        assert CounterAt(b, k);
      }
    }
    forall i: nat | i < |z.entries|
      ensures OwnedOnce(b, z, i)
    {
      assert EntryAt(z, i);
    }
  }

  lemma {:induction false} ReserveKeeps(b: Book, r: ReserveRequest)
    requires Inv(b) && r.count >= 1 && Reserve(b, r).Ok?
    ensures Inv(Reserve(b, r).value.book) && Extends(b, Reserve(b, r).value.book)
    ensures Reserve(b, r).value.book.documents == b.documents && Reserve(b, r).value.book.series == b.series
  {
    hide Allocate, NumberClaim;
    if ReceiptKey(r.series, r.actor, r.key) in b.receipts {
      ExtendsSelf(b);
    } else {
      var s := b.series[r.series];
      assert SeriesOk(s);
      var c := CounterKey(r.series, r.period);
      AllocatingBegins(b, r.series, r.period);
      AllocateKeeps(b, s, r, HoursFor(s, r), r.count, CounterOf(b, s, c));
      var (y, next) := Allocate(b, s, r, HoursFor(s, r), r.count, CounterOf(b, s, c)).value;
      assert InPeriod(y.entries[|b.entries|], c);
      AllocatingEnds(y, c, next);
      var z := WithCounter(y, c, next);
      ExtendsTrans(b, y, z);
      RestKeeps(z, Reserve(b, r).value.book);
      ExtendsTrans(b, z, Reserve(b, r).value.book);
    }
  }

  // ---------------------------------------------------------------------------
  // Linking
  // ---------------------------------------------------------------------------

  /** The claims after a link, entry by entry: the linked entry holds its claim in the card's scope. */
  lemma {:induction false} LinkClaims(b: Book, id: nat, link: LinkRequest, state: EntryState)
    requires Inv(b) && id < |b.entries| && b.entries[id].series in b.series && link.document in b.documents
    requires LinkRefusal(b, id, link).None?
    ensures var z := Link(b, id, link, state);
            && z.entries[id].series == b.entries[id].series && EntryClaim(z, z.entries[id]) in z.claims
            && z.claims[EntryClaim(z, z.entries[id])] == Claim(Some(link.document), Some(id))
            && b.claims.Keys <= z.claims.Keys
            && (EntryClaim(z, z.entries[id]) in b.claims ==> b.claims[EntryClaim(z, z.entries[id])].entry == Some(id))
            && (forall k :: k in z.claims && k != EntryClaim(z, z.entries[id]) ==>
                  && k in b.claims
                  && (z.claims[k] == b.claims[k] || (b.claims[k].entry == Some(id) && z.claims[k].entry.None?)))
            && Evolves(b.entries[id], z.entries[id].(state := b.entries[id].state))
  {
  }

  lemma {:induction false} LinkKeeps(b: Book, id: nat, link: LinkRequest, state: EntryState)
    requires Inv(b) && id < |b.entries| && b.entries[id].series in b.series && link.document in b.documents
    requires LinkRefusal(b, id, link).None?
    requires b.entries[id].state.Reserved? && (state.Reserved? || state.Assigned?)
    requires state.Reserved? ==> !OtherLiveLink(b.entries, id, link.document)
    ensures Inv(Link(b, id, link, state)) && Extends(b, Link(b, id, link, state))
  {
    hide NumberClaim, LinkRefusal, EntryAt, ClaimAt, OwnedOnce, OtherLiveLink, PairAt;
    LinkClaims(b, id, link, state);
    LinkEntries(b, id, link, state);
    LinkedClaims(b, id, link, state);
    LinkPairs(b, id, link, state);
    var z := Link(b, id, link, state);
    forall c | c in z.counters
      ensures CounterAt(z, c)
    {
      assert CounterAt(b, c);
      var i :| 0 <= i < |b.entries| && InPeriod(b.entries[i], c);
      assert InPeriod(z.entries[i], c);
    }
  }

  lemma {:induction false} LinkEntries(b: Book, id: nat, link: LinkRequest, state: EntryState)
    requires Inv(b) && id < |b.entries| && b.entries[id].series in b.series && link.document in b.documents
    requires LinkRefusal(b, id, link).None?
    requires b.entries[id].state.Reserved? && (state.Reserved? || state.Assigned?)
    ensures var z := Link(b, id, link, state);
            && EntriesOk(z)
            && (forall i: nat :: i < |b.entries| ==> EntryKept(b, z, i))
            && (forall i: nat :: i < |z.entries| ==> OwnedOnce(b, z, i))
  {
    hide NumberClaim, LinkRefusal, OnGrid, ClaimAt, CounterAt, PairAt;
    var z := Link(b, id, link, state);
    LinkClaims(b, id, link, state);
    forall i: nat | i < |z.entries|
      ensures EntryAt(z, i) && OwnedOnce(b, z, i) && EntryKept(b, z, i)
    {
      assert EntryAt(b, i);
      if i != id {
        assert z.entries[i] == b.entries[i];
        assert EntryClaim(z, z.entries[i]) != EntryClaim(z, z.entries[id]);
      }
    }
  }

  lemma {:induction false} LinkedClaims(b: Book, id: nat, link: LinkRequest, state: EntryState)
    requires Inv(b) && id < |b.entries| && b.entries[id].series in b.series && link.document in b.documents
    requires LinkRefusal(b, id, link).None?
    ensures ClaimsOk(Link(b, id, link, state))
  {
    hide NumberClaim, LinkRefusal, EntryAt, CounterAt, PairAt;
    var z := Link(b, id, link, state);
    LinkClaims(b, id, link, state);
    forall k | k in z.claims
      ensures ClaimAt(z, k)
    {
      if k != EntryClaim(z, z.entries[id]) {
        assert ClaimAt(b, k);
      }
    }
  }

  lemma {:induction false} LinkPairs(b: Book, id: nat, link: LinkRequest, state: EntryState)
    requires Inv(b) && id < |b.entries| && b.entries[id].series in b.series && link.document in b.documents
    requires state.Reserved? ==> !OtherLiveLink(b.entries, id, link.document)
    ensures PairsOk(Link(b, id, link, state))
  {
    hide NumberClaim, EntryAt, ClaimAt, CounterAt;
    var z := Link(b, id, link, state);
    forall i: nat, j: nat | i < j < |z.entries|
      ensures PairAt(z.entries, i, j)
    {
      assert PairAt(b.entries, i, j);
    }
  }

  // ---------------------------------------------------------------------------
  // The other operations
  // ---------------------------------------------------------------------------

  lemma {:induction false} EntrySeries(b: Book)
    requires Inv(b)
    ensures forall i :: 0 <= i < |b.entries| ==> b.entries[i].series in b.series
  {
    forall i: nat | i < |b.entries|
      ensures b.entries[i].series in b.series
    {
      assert EntryAt(b, i);
    }
  }

  lemma {:induction false} RememberKeeps(b: Book, id: nat, c: Caller)
    requires Inv(b) && id < |b.entries| && ReceiptKey(b.entries[id].series, c.actor, c.key) !in b.receipts
    ensures Inv(Remember(b, id, c)) && Extends(b, Remember(b, id, c))
  {
    RestKeeps(b, Remember(b, id, c));
  }

  lemma {:induction false} AssignKeeps(b: Book, r: AssignRequest)
    requires Inv(b) && (forall i :: 0 <= i < |b.entries| ==> b.entries[i].series in b.series)
    requires Assign(b, r).Ok?
    ensures Inv(Assign(b, r).value.book) && Extends(b, Assign(b, r).value.book)
  {
    hide NumberClaim, LinkRefusal, Link;
    var z := Assign(b, r).value.book;
    if Admit(b, r.id, r.caller).Replayed? {
      ExtendsSelf(b);
    } else {
      var d := b.documents[r.link.document];
      var y := Link(b, r.id, r.link, if d.published then Assigned else Reserved);
      LinkKeeps(b, r.id, r.link, if d.published then Assigned else Reserved);
      assert y.receipts == b.receipts && y.entries[r.id].series == b.entries[r.id].series by {
        LinkRest(b, r.id, r.link, if d.published then Assigned else Reserved);
      }
      RestKeeps(y, z);
      ExtendsTrans(b, y, z);
    }
  }

  lemma {:induction false} EndKeeps(b: Book, r: EndRequest)
    requires Inv(b) && (r.target.Cancelled? || r.target.Expired? || r.target.Void?)
    requires End(b, r).Ok?
    ensures Inv(End(b, r).value.book) && Extends(b, End(b, r).value.book)
  {
    hide NumberClaim;
    if Admit(b, r.id, r.caller).Replayed? {
      ExtendsSelf(b);
    } else {
      var entries := b.entries[r.id := b.entries[r.id].(state := r.target)];
      StatesKeep(b, entries);
      RememberKeeps(b.(entries := entries), r.id, r.caller);
      ExtendsTrans(b, b.(entries := entries), End(b, r).value.book);
    }
  }

  /** The settings an issued number depends on are what they were. */
  ghost predicate SameGround(b: Book, series: map<nat, Series>, i: nat)
    requires i < |b.entries|
  {
    var id := b.entries[i].series;
    && id in b.series && id in series
    && series[id].registry == b.series[id].registry
    && series[id].start == b.series[id].start && series[id].step == b.series[id].step
  }

  /** Whatever else changes about series, the register stays consistent. */
  lemma {:induction false} SeriesKeep(b: Book, series: map<nat, Series>)
    requires Inv(b) && b.series.Keys <= series.Keys && forall k :: k in series ==> SeriesOk(series[k])
    requires forall i: nat :: i < |b.entries| ==> SameGround(b, series, i)
    ensures Inv(b.(series := series)) && Extends(b, b.(series := series))
  {
    hide NumberClaim, SeriesOk, OnGrid, PairAt;
    var z := b.(series := series);
    forall i: nat | i < |z.entries|
      ensures EntryAt(z, i) && OwnedOnce(b, z, i)
    {
      assert EntryAt(b, i) && SameGround(b, series, i);
    }
    SeriesKeepRest(b, series);
  }

  lemma {:induction false} SeriesKeepRest(b: Book, series: map<nat, Series>)
    requires Inv(b) && forall i: nat :: i < |b.entries| ==> SameGround(b, series, i)
    ensures ClaimsOk(b.(series := series)) && CountersOk(b.(series := series))
  {
    hide NumberClaim, SeriesOk, OnGrid, EntryAt, PairAt;
    var z := b.(series := series);
    forall k | k in z.claims
      ensures ClaimAt(z, k)
    {
      assert ClaimAt(b, k);
      if b.claims[k].entry.Some? {
        assert SameGround(b, series, b.claims[k].entry.value);
      }
    }
    forall c | c in z.counters
      ensures CounterAt(z, c)
    {
      assert CounterAt(b, c);
      var i: nat :| i < |b.entries| && InPeriod(b.entries[i], c);
      assert SameGround(b, series, i);
    }
  }

  /** A new series touches nothing that is there. */
  lemma {:induction false} CreateKeeps(b: Book, id: nat, s: Series, scopeValid: bool)
    requires Inv(b) && CreateSeries(b, id, s, scopeValid).Ok?
    ensures Inv(CreateSeries(b, id, s, scopeValid).value) && Extends(b, CreateSeries(b, id, s, scopeValid).value)
  {
    hide NumberClaim, LayoutOk, Extends;
    EntrySeries(b);
    SeriesKeep(b, b.series[id := s]);
  }

  /**
   Testing for entries alone is enough: a series without entries has no counter, so its start and
   step may change; with entries they are frozen and every counter stays on the progression.
   */
  lemma {:induction false} PatchKeeps(b: Book, id: nat, s: Series, scopeValid: bool)
    requires Inv(b) && PatchSeries(b, id, s, scopeValid).Ok?
    ensures Inv(PatchSeries(b, id, s, scopeValid).value) && Extends(b, PatchSeries(b, id, s, scopeValid).value)
  {
    hide NumberClaim, LayoutOk, KindSet, Extends;
    EntrySeries(b);
    SeriesKeep(b, b.series[id := s]);
  }

  /** Saving a card adds at most a claim of its own, on a number nobody had. */
  lemma {:induction false} PutCardClaims(b: Book, id: nat, d: Document)
    requires Inv(b) && PutCard(b, id, d).Ok?
    ensures var z, claim := PutCard(b, id, d).value, NumberClaim(d.registry, d.scope, d.number);
            && z == b.(documents := z.documents, claims := z.claims)
            && (z.claims == b.claims || (claim !in b.claims && z.claims == b.claims[claim := Claim(Some(id), None)]))
  {
    hide NumberClaim;
    var claim := NumberClaim(d.registry, d.scope, d.number);
    if claim in b.claims && b.claims[claim].entry.Some? {
      assert ClaimAt(b, claim);
      assert EntryAt(b, b.claims[claim].entry.value);
    }
  }

  lemma {:induction false} PutCardKeeps(b: Book, id: nat, d: Document)
    requires Inv(b) && PutCard(b, id, d).Ok?
    ensures Inv(PutCard(b, id, d).value) && Extends(b, PutCard(b, id, d).value)
  {
    hide NumberClaim, PutCard;
    PutCardClaims(b, id, d);
    var z := PutCard(b, id, d).value;
    forall k | k in z.claims
      ensures ClaimAt(z, k)
    {
      if k in b.claims {
        assert ClaimAt(b, k);
      }
    }
    forall i: nat | i < |z.entries|
      ensures EntryAt(z, i) && OwnedOnce(b, z, i)
    {
      assert EntryAt(b, i);
    }
    forall c | c in z.counters
      ensures CounterAt(z, c)
    {
      assert CounterAt(b, c);
    }
  }

  lemma {:induction false} AttachKeeps(b: Book, r: SyncRequest, series: nat, id: nat)
    requires Inv(b) && r.document in b.documents && id < |b.entries| && b.entries[id].series in b.series
    requires Attach(b, r, series, id).Ok?
    ensures Inv(Attach(b, r, series, id).value) && Extends(b, Attach(b, r, series, id).value)
  {
    hide NumberClaim, LinkRefusal, Link;
    var link := LinkRequest(r.document, r.chosen.Some?, r.fieldOk, r.valuesOk);
    var state := if r.publish then Assigned else Reserved;
    var y := Link(b, id, link, state);
    LinkKeeps(b, id, link, state);
    if r.publish {
      LinkRest(b, id, link, state);
      var caller := Caller(r.actor, CardKey(r.document, "publish"), "assign:" + Decimal(id), true, true, r.now);
      RememberKeeps(y, id, caller);
      ExtendsTrans(b, y, Remember(y, id, caller));
    }
  }

  lemma {:induction false} SupersedeKeeps(b: Book, document: nat, keep: Option<nat>)
    requires Inv(b)
    ensures var z := b.(entries := Supersede(b.entries, document, keep)); Inv(z) && Extends(b, z)
  {
    StatesKeep(b, Supersede(b.entries, document, keep));
  }

  lemma {:induction false} SyncEntryKeeps(b: Book, r: SyncRequest, existing: Option<nat>)
    requires Inv(b) && (forall i :: 0 <= i < |b.entries| ==> b.entries[i].series in b.series)
    requires r.document in b.documents && (existing.Some? ==> existing.value < |b.entries|)
    requires SyncEntry(b, r, existing).Ok?
    ensures Inv(SyncEntry(b, r, existing).value) && Extends(b, SyncEntry(b, r, existing).value)
  {
    hide Attach, Reserve, Extends;
    var z := SyncEntry(b, r, existing).value;
    if z == b {
      ExtendsSelf(b);
    } else if existing.Some? {
      AttachKeeps(b, r, b.entries[existing.value].series, existing.value);
    } else {
      var req := CardReserve(r, r.boundSeries.value, b.documents[r.document]);
      var reserved := Reserve(b, req).value;
      ReserveKeeps(b, req);
      AttachKeeps(reserved.book, r, r.boundSeries.value, reserved.ids[0]);
      ExtendsTrans(b, reserved.book, z);
    }
  }

  lemma {:induction false} SyncKeeps(b: Book, r: SyncRequest)
    requires Inv(b) && (forall i :: 0 <= i < |b.entries| ==> b.entries[i].series in b.series)
    requires Sync(b, r).Ok?
    ensures Inv(Sync(b, r).value) && Extends(b, Sync(b, r).value)
  {
    hide NumberClaim, SyncEntry;
    var d := b.documents[r.document];
    var carried := CarriedBy(b.entries, r.document, d);
    var kept := Dropped(b, r.document);
    ExtendsSelf(b);
    SupersedeKeeps(b, r.document, carried);
    EntrySeries(kept);
    SyncEntryKeeps(kept, r, if r.chosen.Some? then r.chosen else carried);
    ExtendsTrans(b, kept, Sync(b, r).value);
  }
}
