/**
 The register of registration numbers: series, counters, entries, claims and request receipts.
 Every operation runs under the registry and series locks, so it is one atomic step; a refusal
 rolls the whole step back.
 */
module Numbering {
  import opened Prelude
  import opened NumberFormat

  const MAX_ORDINAL: nat := 1_000_000_000_000_000

  /** Registration year (0 when undated) and type key. */
  datatype Scope = Scope(year: nat, kind: string)

  datatype EntryState = Reserved | Assigned | Cancelled | Expired | Void

  /** An issued number. Entries are never deleted, so an entry's identity is its position. */
  datatype Entry = Entry(
    series: nat,
    period: string,
    ordinal: nat,
    number: string,
    scope: Scope,
    bound: bool,
    state: EntryState,
    owner: nat,
    expires: Option<int>,
    document: Option<nat>
  )

  datatype Series = Series(
    registry: nat,
    kinds: seq<string>,
    layout: Layout,
    start: nat,
    step: nat,
    active: bool,
    maxBatch: nat,
    defaultHours: Option<nat>,
    maxHours: nat,
    allowIndefinite: bool
  )

  datatype ClaimKey = ClaimKey(registry: nat, scope: Scope, key: string)
  datatype Claim = Claim(document: Option<nat>, entry: Option<nat>)

  datatype CounterKey = CounterKey(series: nat, period: string)
  datatype ReceiptKey = ReceiptKey(series: nat, actor: nat, key: string)

  /** `payload` stands for the hash of the action and the request body. */
  datatype Receipt = Receipt(payload: string, entries: seq<nat>)

  /** A card: `kind` is its document type, `scope` the registration scope its date and values give. */
  datatype Document = Document(
    registry: nat,
    kind: string,
    scope: Scope,
    number: string,
    published: bool,
    revision: nat
  )

  datatype Book = Book(
    series: map<nat, Series>,
    counters: map<CounterKey, nat>,
    entries: seq<Entry>,
    claims: map<ClaimKey, Claim>,
    receipts: map<ReceiptKey, Receipt>,
    documents: map<nat, Document>
  )

  datatype Refusal =
    | NotFound | Forbidden | KeyConflict | NotVisible | Blocked | BadScope | BatchLimit | ExpiryPolicy
    | Exhausted | TooLong | NumberTaken | RegistrationLocked | NotReserved | RevisionConflict
    | DocumentScope | FieldForbidden | ScopeMismatch | AlreadyLinked | AlreadyPresent | NumberConflict
    | InvalidValues | BadTransition | NotExpired | ScopeFrozen | EntryMismatch | NotOwner

  // ---------------------------------------------------------------------------
  // Searching for the next free ordinal
  // ---------------------------------------------------------------------------

  predicate SeriesOk(s: Series) {
    LayoutOk(s.layout) && 1 <= s.start && 1 <= s.step
  }

  /** The claim a number takes in a registry and scope. */
  function NumberClaim(registry: nat, scope: Scope, number: string): ClaimKey {
    var key := NumberKey(number);
    ClaimKey(registry, scope, if key.Some? then key.value else "")
  }

  /** The claim an ordinal of the series would take in a scope. */
  function OrdinalClaim(s: Series, period: string, scope: Scope, ordinal: nat): ClaimKey {
    NumberClaim(s.registry, scope, NumberOf(s.layout, period, ordinal))
  }

  /** `number_occupied` for the number of an ordinal. */
  predicate Occupied(claims: map<ClaimKey, Claim>, s: Series, period: string, scope: Scope, ordinal: nat) {
    OrdinalClaim(s, period, scope, ordinal) in claims
  }

  /** The search loop of `reserve`: the first ordinal of the progression whose number is free. */
  function NextFree(claims: map<ClaimKey, Claim>, s: Series, period: string, scope: Scope, ordinal: nat)
    : (r: Result<nat, Refusal>)
    requires s.step >= 1
    decreases MAX_ORDINAL + 1 - ordinal
  {
    if ordinal > MAX_ORDINAL then Err(Exhausted)
    else if Render(s.layout, period, ordinal).None? then Err(TooLong)
    else if Occupied(claims, s, period, scope, ordinal) then NextFree(claims, s, period, scope, ordinal + s.step)
    else Ok(ordinal)
  }

  /** The progression of a series: `first + k * step`. */
  ghost function At(first: nat, step: nat, k: nat): nat {
    if k == 0 then first else At(first, step, k - 1) + step
  }

  lemma {:induction false} AtClosedForm(first: nat, step: nat, k: nat)
    ensures At(first, step, k) == first + k * step
  {
    if k > 0 {
      AtClosedForm(first, step, k - 1);
      assert k * step == (k - 1) * step + step;
    }
  }

  lemma {:induction false} AtShift(first: nat, step: nat, k: nat)
    ensures At(first + step, step, k) == At(first, step, k + 1)
  {
    if k > 0 {
      AtShift(first, step, k - 1);
    }
  }

  lemma {:induction false} AtGrows(first: nat, step: nat, j: nat, k: nat)
    requires step >= 1 && j <= k
    ensures At(first, step, j) <= At(first, step, k)
    ensures j < k ==> At(first, step, j) + step <= At(first, step, k)
    decreases k
  {
    if j < k {
      AtGrows(first, step, j, k - 1);
    }
  }

  ghost predicate OnGrid(first: nat, step: nat, ordinal: nat) {
    exists k: nat :: ordinal == At(first, step, k)
  }

  /** The first `k` ordinals of the progression are within the limit, short enough, and occupied. */
  ghost predicate Skipped(claims: map<ClaimKey, Claim>, s: Series, period: string, scope: Scope, first: nat, k: nat) {
    forall j: nat :: j < k ==> SkippedAt(claims, s, period, scope, first, j)
  }

  ghost predicate SkippedAt(claims: map<ClaimKey, Claim>, s: Series, period: string, scope: Scope, first: nat, j: nat) {
    && At(first, s.step, j) <= MAX_ORDINAL
    && Render(s.layout, period, At(first, s.step, j)).Some?
    && Occupied(claims, s, period, scope, At(first, s.step, j))
  }

  lemma {:induction false} SkippedMore(claims: map<ClaimKey, Claim>, s: Series, period: string, scope: Scope,
                                       first: nat, k: nat)
    requires first <= MAX_ORDINAL && Render(s.layout, period, first).Some? && Occupied(claims, s, period, scope, first)
    requires Skipped(claims, s, period, scope, first + s.step, k)
    ensures Skipped(claims, s, period, scope, first, k + 1)
  {
    hide Render, Occupied;
    forall j: nat | j < k + 1
      ensures SkippedAt(claims, s, period, scope, first, j)
    {
      if j > 0 {
        AtShift(first, s.step, j - 1);
        assert SkippedAt(claims, s, period, scope, first + s.step, j - 1);
      }
    }
  }

  /** Why the search stops at an ordinal: past the limit, too long to write, or free. */
  ghost predicate StopsAt(claims: map<ClaimKey, Claim>, s: Series, period: string, scope: Scope, o: nat,
                          r: Result<nat, Refusal>)
  {
    if o > MAX_ORDINAL then r == Err(Exhausted)
    else if Render(s.layout, period, o).None? then r == Err(TooLong)
    else !Occupied(claims, s, period, scope, o) && r == Ok(o)
  }

  /** What the search returns: everything skipped is occupied, the result is free and within the limit. */
  lemma {:induction false} NextFreeMeaning(claims: map<ClaimKey, Claim>, s: Series, period: string, scope: Scope,
                                           ordinal: nat)
      returns (k: nat)
    requires s.step >= 1
    ensures Skipped(claims, s, period, scope, ordinal, k)
    ensures StopsAt(claims, s, period, scope, At(ordinal, s.step, k), NextFree(claims, s, period, scope, ordinal))
    decreases MAX_ORDINAL + 1 - ordinal
  {
    hide Render, Occupied;
    if ordinal <= MAX_ORDINAL && Render(s.layout, period, ordinal).Some?
       && Occupied(claims, s, period, scope, ordinal)
    {
      var next := NextFreeMeaning(claims, s, period, scope, ordinal + s.step);
      k := next + 1;
      SkippedMore(claims, s, period, scope, ordinal, next);
      AtShift(ordinal, s.step, next);
      assert NextFree(claims, s, period, scope, ordinal) == NextFree(claims, s, period, scope, ordinal + s.step);
    } else {
      k := 0;
      assert At(ordinal, s.step, 0) == ordinal;
    }
  }

  ghost function ScopeClaims(claims: map<ClaimKey, Claim>, registry: nat, scope: Scope): set<ClaimKey> {
    set c | c in claims && c.registry == registry && c.scope == scope
  }

  lemma {:induction false} ClaimsApart(s: Series, period: string, scope: Scope, x: nat, y: nat)
    requires SeriesOk(s) && x != y
    ensures OrdinalClaim(s, period, scope, x) != OrdinalClaim(s, period, scope, y)
  {
    KeyInjective(s.layout, period, x, y);
    KeyInjective(s.layout, period, y, y);
  }

  /** Distinct ordinals need distinct claims. */
  lemma {:induction false} SkippedFit(s: Series, period: string, scope: Scope, first: nat, k: nat, taken: set<ClaimKey>)
    requires SeriesOk(s)
    requires forall j: nat :: j < k ==> TakenAt(s, period, scope, first, j, taken)
    ensures k <= |taken|
    decreases k
  {
    if k > 0 {
      var last := OrdinalClaim(s, period, scope, At(first, s.step, k - 1));
      assert TakenAt(s, period, scope, first, k - 1, taken);
      forall j: nat | j < k - 1
        ensures TakenAt(s, period, scope, first, j, taken - {last})
      {
        assert TakenAt(s, period, scope, first, j, taken);
        AtGrows(first, s.step, j, k - 1);
        ClaimsApart(s, period, scope, At(first, s.step, j), At(first, s.step, k - 1));
      }
      SkippedFit(s, period, scope, first, k - 1, taken - {last});
    }
  }

  ghost predicate TakenAt(s: Series, period: string, scope: Scope, first: nat, j: nat, taken: set<ClaimKey>) {
    OrdinalClaim(s, period, scope, At(first, s.step, j)) in taken
  }

  /**
   The search skips no more ordinals than the scope has occupied numbers: among one ordinal more
   there is a free one, unless the limit comes first.
   */
  lemma {:induction false} SearchBound(claims: map<ClaimKey, Claim>, s: Series, period: string, scope: Scope,
                                       ordinal: nat)
    requires SeriesOk(s)
    ensures var bound := At(ordinal, s.step, |ScopeClaims(claims, s.registry, scope)|);
            match NextFree(claims, s, period, scope, ordinal)
            case Ok(o) => ordinal <= o <= bound
            case Err(e) => (e == Exhausted && bound > MAX_ORDINAL) || e == TooLong
  {
    var k := NextFreeMeaning(claims, s, period, scope, ordinal);
    var taken := ScopeClaims(claims, s.registry, scope);
    forall j: nat | j < k
      ensures TakenAt(s, period, scope, ordinal, j, taken)
    {
      assert SkippedAt(claims, s, period, scope, ordinal, j);
    }
    SkippedFit(s, period, scope, ordinal, k, taken);
    AtGrows(ordinal, s.step, k, |taken|);
    AtGrows(ordinal, s.step, 0, k);
  }

  // ---------------------------------------------------------------------------
  // Reserving
  // ---------------------------------------------------------------------------

  /** `scope` and `scopeBound` are given by card registration only. */
  datatype ReserveRequest = ReserveRequest(
    series: nat,
    actor: nat,
    key: string,
    payload: string,
    count: nat,
    hours: Option<Option<nat>>,   // None: not supplied
    period: string,               // the period the clock gives
    now: int,
    scope: Option<Scope>,
    scopeBound: Option<bool>,
    permitted: bool,
    visible: bool,
    scopeValid: bool
  )

  datatype Batch = Batch(book: Book, ids: seq<nat>)

  function EntryFor(s: Series, r: ReserveRequest, hours: Option<nat>, ordinal: nat): Entry {
    var scope := ScopeFor(s, r);
    Entry(r.series, r.period, ordinal, NumberOf(s.layout, r.period, ordinal), scope,
          if r.scopeBound.Some? then r.scopeBound.value else r.scope.Some?,
          Reserved, r.actor, if hours.Some? then Some(r.now + 3600 * hours.value) else None, None)
  }

  function ScopeFor(s: Series, r: ReserveRequest): Scope {
    if r.scope.Some? then r.scope.value
    else Scope(0, if |s.kinds| == 1 then s.kinds[0] else "")
  }

  /** Unique (series, period, number): the constraint does not look at scopes. */
  predicate NumberUsed(entries: seq<Entry>, series: nat, period: string, number: string) {
    exists i :: 0 <= i < |entries| && entries[i].series == series && entries[i].period == period
                && entries[i].number == number
  }

  /** Inserting an entry, with the claim its trigger adds. */
  function Insert(b: Book, e: Entry, claim: ClaimKey): Book {
    b.(entries := b.entries + [e], claims := b.claims[claim := Claim(None, Some(|b.entries|))])
  }

  /** The batch loop of `reserve`. The last component is the next ordinal. */
  function Allocate(b: Book, s: Series, r: ReserveRequest, hours: Option<nat>, n: nat, ordinal: nat)
    : (a: Result<(Book, nat), Refusal>)
    requires s.step >= 1
    decreases n
  {
    if n == 0 then Ok((b, ordinal))
    else match NextFree(b.claims, s, r.period, ScopeFor(s, r), ordinal)
      case Err(e) => Err(e)
      case Ok(o) =>
        var entry := EntryFor(s, r, hours, o);
        if NumberUsed(b.entries, r.series, r.period, entry.number) then Err(NumberTaken)
        else
          Allocate(Insert(b, entry, OrdinalClaim(s, r.period, ScopeFor(s, r), o)), s, r, hours, n - 1, o + s.step)
  }

  function Range(from: nat, n: nat): seq<nat> {
    seq(n, i => from + i)
  }

  predicate HoursAllowed(s: Series, hours: Option<nat>) {
    if hours.None? then s.allowIndefinite else hours.value <= s.maxHours
  }

  function HoursFor(s: Series, r: ReserveRequest): Option<nat> {
    if r.hours.Some? then r.hours.value else s.defaultHours
  }

  function CounterOf(b: Book, s: Series, key: CounterKey): nat {
    if key in b.counters then b.counters[key] else s.start
  }

  /** Settings were validated when they were saved, and entries point at their series. */
  predicate Sound(b: Book) {
    && (forall k :: k in b.series ==> SeriesOk(b.series[k]))
    && (forall i :: 0 <= i < |b.entries| ==> b.entries[i].series in b.series)
  }

  /** `reserve`: a known key is replayed, otherwise a batch is allocated and its receipt kept. */
  function Reserve(b: Book, r: ReserveRequest): Result<Batch, Refusal>
    requires forall k :: k in b.series ==> SeriesOk(b.series[k])
  {
    if r.series !in b.series then Err(NotFound)
    else if !r.permitted then Err(Forbidden)
    else
      var s := b.series[r.series];
      assert SeriesOk(s);
      var receipt := ReceiptKey(r.series, r.actor, r.key);
      if receipt in b.receipts then
        if b.receipts[receipt].payload != r.payload then Err(KeyConflict)
        else if !r.visible then Err(NotVisible)
        else Ok(Batch(b, b.receipts[receipt].entries))
      else if !s.active then Err(Blocked)
      else if !r.scopeValid then Err(BadScope)
      else if r.count > s.maxBatch then Err(BatchLimit)
      else if !HoursAllowed(s, HoursFor(s, r)) then Err(ExpiryPolicy)
      else
        var counter := CounterKey(r.series, r.period);
        match Allocate(b, s, r, HoursFor(s, r), r.count, CounterOf(b, s, counter))
        case Err(e) => Err(e)
        case Ok((after, next)) =>
          var ids := Range(|b.entries|, r.count);
          Ok(Batch(after.(counters := after.counters[counter := next],
                          receipts := after.receipts[receipt := Receipt(r.payload, ids)]), ids))
  }

  // ---------------------------------------------------------------------------
  // Linking an entry to a card
  // ---------------------------------------------------------------------------

  function EntryClaim(b: Book, e: Entry): ClaimKey
    requires e.series in b.series
  {
    NumberClaim(b.series[e.series].registry, e.scope, e.number)
  }

  /** At most one live reservation may be linked to a card. */
  predicate OtherLiveLink(entries: seq<Entry>, id: nat, document: nat) {
    exists j :: 0 <= j < |entries| && j != id && entries[j].document == Some(document) && entries[j].state.Reserved?
  }

  /** `fieldOk` and `valuesOk` are the field policy and the validation of the card's values. */
  datatype LinkRequest = LinkRequest(document: nat, supplied: bool, fieldOk: bool, valuesOk: bool)

  /** `assignment_field`. */
  function FieldRefusal(s: Series, d: Document, fieldOk: bool): Option<Refusal> {
    if d.registry != s.registry || (s.kinds != [] && d.kind !in s.kinds) then Some(DocumentScope)
    else if !fieldOk then Some(FieldForbidden)
    else None
  }

  /** The checks of `write_entry_number`, in order; None when it goes through. */
  function LinkRefusal(b: Book, id: nat, link: LinkRequest): Option<Refusal>
    requires id < |b.entries| && b.entries[id].series in b.series && link.document in b.documents
  {
    var e, d := b.entries[id], b.documents[link.document];
    var s, claim := b.series[e.series], EntryClaim(b, e);
    var field := FieldRefusal(s, d, link.fieldOk);
    if field.Some? then field
    else if e.bound && e.scope != d.scope then Some(ScopeMismatch)
    else if e.document.Some? && e.document.value != link.document then Some(AlreadyLinked)
    else if d.number != "" && !((e.document.Some? || link.supplied) && d.number == e.number) then Some(AlreadyPresent)
    else if claim !in b.claims || b.claims[claim].entry != Some(id)
            || (b.claims[claim].document.Some? && b.claims[claim].document.value != link.document)
      then Some(NumberConflict)
    else if !e.bound && e.scope != d.scope && NumberClaim(s.registry, d.scope, e.number) in b.claims
      then Some(NumberConflict)
    else if !e.bound && e.document.Some? then Some(NumberConflict)
    else if !link.valuesOk then Some(InvalidValues)
    else None
  }

  /**
   `write_entry_number`: the claim follows an unbound entry into the card's scope, leaving its old
   claim behind without an owner; then claim, entry and card are linked. `state` is the entry's
   state when the step is flushed.
   */
  function Link(b: Book, id: nat, link: LinkRequest, state: EntryState): Book
    requires id < |b.entries| && b.entries[id].series in b.series && link.document in b.documents
  {
    var e, d := b.entries[id], b.documents[link.document];
    var held, wanted := EntryClaim(b, e), NumberClaim(b.series[e.series].registry, d.scope, e.number);
    var released := if e.bound || held == wanted || held !in b.claims then b.claims
                    else b.claims[held := b.claims[held].(entry := None)];
    var scope := if e.bound then e.scope else d.scope;
    var here := if e.bound then held else wanted;
    b.(claims := released[here := Claim(Some(link.document), Some(id))],
       entries := b.entries[id := e.(scope := scope, bound := true, document := Some(link.document), state := state)],
       documents := b.documents[link.document := d.(number := e.number)])
  }

  /** What a link does not touch. */
  lemma {:induction false} LinkRest(b: Book, id: nat, link: LinkRequest, state: EntryState)
    requires id < |b.entries| && b.entries[id].series in b.series && link.document in b.documents
    ensures var z := Link(b, id, link, state);
            && z.receipts == b.receipts && z.series == b.series && |z.entries| == |b.entries|
            && z.entries[id].series == b.entries[id].series && z.entries[id].state == state
            && (forall i :: 0 <= i < |b.entries| ==> z.entries[i].series == b.entries[i].series)
            && link.document in z.documents
  {
  }

  // ---------------------------------------------------------------------------
  // Assigning and ending
  // ---------------------------------------------------------------------------

  /** What every receipt-bearing request carries. */
  datatype Caller = Caller(actor: nat, key: string, payload: string, permitted: bool, visible: bool, now: int)

  /** The checks of `locked_entry` and `replay`: a refusal, a replayed answer, or go on. */
  datatype Admission = Refused(why: Refusal) | Replayed(ids: seq<nat>) | Fresh

  function Admit(b: Book, id: nat, c: Caller): Admission {
    if id >= |b.entries| then Refused(NotFound)
    else if !c.permitted then Refused(Forbidden)
    else if !c.visible then Refused(NotVisible)
    else
      var receipt := ReceiptKey(b.entries[id].series, c.actor, c.key);
      if receipt !in b.receipts then Fresh
      else if b.receipts[receipt].payload != c.payload then Refused(KeyConflict)
      else Replayed(b.receipts[receipt].entries)
  }

  function Remember(b: Book, id: nat, c: Caller): Book
    requires id < |b.entries|
  {
    b.(receipts := b.receipts[ReceiptKey(b.entries[id].series, c.actor, c.key) := Receipt(c.payload, [id])])
  }

  predicate Live(e: Entry, now: int) {
    e.state.Reserved? && !(e.expires.Some? && e.expires.value <= now)
  }

  datatype AssignRequest = AssignRequest(id: nat, revision: nat, caller: Caller, scopeValid: bool, link: LinkRequest)

  /** `assign`: link a live reservation to a card; a published card makes it assigned at once. */
  function Assign(b: Book, r: AssignRequest): Result<Batch, Refusal>
    requires forall i :: 0 <= i < |b.entries| ==> b.entries[i].series in b.series
  {
    if r.link.document !in b.documents then Err(NotFound)
    else match Admit(b, r.id, r.caller)
      case Refused(why) => Err(why)
      case Replayed(ids) => Ok(Batch(b, ids))
      case Fresh =>
        var e, d := b.entries[r.id], b.documents[r.link.document];
        if d.published && d.number != e.number then Err(RegistrationLocked)
        else if !b.series[e.series].active then Err(Blocked)
        else if !r.scopeValid then Err(BadScope)
        else if !Live(e, r.caller.now) then Err(NotReserved)
        else if d.revision != r.revision then Err(RevisionConflict)
        else
          var refusal := LinkRefusal(b, r.id, r.link);
          if refusal.Some? then Err(refusal.value)
          else if !d.published && OtherLiveLink(b.entries, r.id, r.link.document) then Err(NumberConflict)
          else
            var linked := Link(b, r.id, r.link, if d.published then Assigned else Reserved);
            var card := linked.documents[r.link.document];
            var raised := linked.documents[r.link.document := card.(revision := card.revision + 1)];
            Ok(Batch(Remember(linked.(documents := raised), r.id, r.caller), [r.id]))
  }

  datatype EndRequest = EndRequest(id: nat, target: EntryState, caller: Caller)

  /** `transition`: cancel, expire or void an entry. The claim stays. */
  function End(b: Book, r: EndRequest): Result<Batch, Refusal>
    requires r.target.Cancelled? || r.target.Expired? || r.target.Void?
  {
    match Admit(b, r.id, r.caller)
    case Refused(why) => Err(why)
    case Replayed(ids) => Ok(Batch(b, ids))
    case Fresh =>
      var e := b.entries[r.id];
      if (if r.target.Void? then !e.state.Assigned? else !e.state.Reserved?) then Err(BadTransition)
      else if r.target.Expired? && (e.expires.None? || e.expires.value > r.caller.now) then Err(NotExpired)
      else Ok(Batch(Remember(b.(entries := b.entries[r.id := e.(state := r.target)]), r.id, r.caller), [r.id]))
  }

  // ---------------------------------------------------------------------------
  // Creating and changing a series, editing a card
  // ---------------------------------------------------------------------------

  /** `create_series`, under the id the database gives it. */
  function CreateSeries(b: Book, id: nat, s: Series, scopeValid: bool): Result<Book, Refusal> {
    if !SeriesOk(s) then Err(InvalidValues)
    else if !scopeValid then Err(BadScope)
    else if id in b.series then Err(NumberConflict)
    else Ok(b.(series := b.series[id := s]))
  }

  function KindSet(kinds: seq<string>): set<string> {
    set i | 0 <= i < |kinds| :: kinds[i]
  }

  predicate HasEntries(b: Book, id: nat) {
    exists i :: 0 <= i < |b.entries| && b.entries[i].series == id
  }

  /** `patch_series`: once a number has been issued, registry, types, start and step are frozen. */
  function PatchSeries(b: Book, id: nat, s: Series, scopeValid: bool): Result<Book, Refusal> {
    if id !in b.series then Err(NotFound)
    else if !SeriesOk(s) then Err(InvalidValues)
    else if !scopeValid then Err(BadScope)
    else if HasEntries(b, id) && (s.registry != b.series[id].registry || KindSet(s.kinds) != KindSet(b.series[id].kinds)
                                  || s.start != b.series[id].start || s.step != b.series[id].step) then Err(ScopeFrozen)
    else Ok(b.(series := b.series[id := s]))
  }

  /** Saving a card: its trigger claims the number for the card unless someone else has it. */
  function PutCard(b: Book, id: nat, d: Document): Result<Book, Refusal> {
    if id in b.documents && b.documents[id].published
       && !(d.published && d.number == b.documents[id].number && d.scope == b.documents[id].scope
            && d.registry == b.documents[id].registry) then Err(RegistrationLocked)
    else
      var stored := b.(documents := b.documents[id := d]);
      var claim := NumberClaim(d.registry, d.scope, d.number);
      if NumberKey(d.number).None? then Ok(stored)
      else if id in b.documents
              && NumberClaim(b.documents[id].registry, b.documents[id].scope, b.documents[id].number) == claim
        then Ok(stored)
      else if claim !in b.claims then Ok(stored.(claims := b.claims[claim := Claim(Some(id), None)]))
      else if b.claims[claim].document == Some(id) then Ok(stored)
      else if b.claims[claim].document.None? && b.claims[claim].entry.Some? && b.claims[claim].entry.value < |b.entries|
              && b.entries[b.claims[claim].entry.value].document == Some(id)
        then Ok(stored.(claims := b.claims[claim := b.claims[claim].(document := Some(id))]))
      else Err(NumberConflict)
  }

  // ---------------------------------------------------------------------------
  // Keeping a card and its number together
  // ---------------------------------------------------------------------------

  /** `boundSeries` is the series of the card's number field; `publish` the state the card will have. */
  datatype SyncRequest = SyncRequest(
    document: nat,
    chosen: Option<nat>,
    boundSeries: Option<nat>,
    publish: bool,
    actor: nat,
    now: int,
    period: string,
    permitted: bool,
    visible: bool,
    scopeValid: bool,
    fieldOk: bool,
    valuesOk: bool
  )

  /** The linked entry that carries the card's number in the card's scope. */
  function CarriedBy(entries: seq<Entry>, id: nat, d: Document): (found: Option<nat>)
    ensures found.Some? ==> found.value < |entries|
  {
    if entries == [] then None
    else
      var n := |entries| - 1;
      var before := CarriedBy(entries[..n], id, d);
      if before.Some? then before
      else if entries[n].document == Some(id) && entries[n].number == d.number
              && (!entries[n].bound || entries[n].scope == d.scope) then Some(n)
      else None
  }

  predicate IsSuperseded(e: Entry, i: nat, document: nat, keep: Option<nat>) {
    e.document == Some(document) && e.state.Reserved? && keep != Some(i)
  }

  /** A draft cancels the live reservations it no longer carries. */
  function Supersede(entries: seq<Entry>, document: nat, keep: Option<nat>): seq<Entry> {
    seq(|entries|, i requires 0 <= i < |entries| =>
      if IsSuperseded(entries[i], i, document, keep) then entries[i].(state := Cancelled) else entries[i])
  }

  function ChosenRefusal(b: Book, r: SyncRequest, carried: Option<nat>): Option<Refusal>
    requires r.document in b.documents
  {
    if r.chosen.None? then None
    else if carried.Some? && carried != r.chosen then Some(AlreadyPresent)
    else if r.chosen.value >= |b.entries| then Some(NotFound)
    else
      var candidate, d := b.entries[r.chosen.value], b.documents[r.document];
      if candidate.document.Some? && candidate.document.value != r.document then Some(AlreadyLinked)
      else if candidate.owner != r.actor && candidate.document.None? then Some(NotOwner)
      else if d.number != "" && d.number != candidate.number then Some(EntryMismatch)
      else None
  }

  function CardKey(document: nat, suffix: string): string {
    "card:" + Decimal(document) + ":" + suffix
  }

  function CardReserve(r: SyncRequest, series: nat, d: Document): ReserveRequest {
    ReserveRequest(series, r.actor, CardKey(r.document, "reserve:" + Decimal(d.revision)), "reserve", 1, None,
                   r.period, r.now, Some(d.scope), None, r.permitted, r.visible, r.scopeValid)
  }

  /** The last part of the synchronisation: check the entry, link it, and record a publication. */
  function Attach(b: Book, r: SyncRequest, series: nat, id: nat): Result<Book, Refusal>
    requires r.document in b.documents && id < |b.entries| && b.entries[id].series in b.series
  {
    var e := b.entries[id];
    var link := LinkRequest(r.document, r.chosen.Some?, r.fieldOk, r.valuesOk);
    var caller := Caller(r.actor, CardKey(r.document, "publish"), "assign:" + Decimal(id), true, true, r.now);
    if !r.permitted then Err(Forbidden)
    else if !r.visible then Err(NotVisible)
    else if e.series != series then Err(DocumentScope)
    else if !Live(e, r.now) then Err(NotReserved)
    else
      var refusal := LinkRefusal(b, id, link);
      if refusal.Some? then Err(refusal.value)
      else if r.publish then
        if ReceiptKey(e.series, r.actor, caller.key) in b.receipts then Err(NumberConflict)
        else Ok(Remember(Link(b, id, link, Assigned), id, caller))
      else if OtherLiveLink(b.entries, id, r.document) then Err(NumberConflict)
      else Ok(Link(b, id, link, Reserved))
  }

  /** The register after a draft has dropped the reservations it no longer carries. */
  function Dropped(b: Book, document: nat): Book
    requires document in b.documents
  {
    var d := b.documents[document];
    if d.published then b else b.(entries := Supersede(b.entries, document, CarriedBy(b.entries, document, d)))
  }

  /** `_sync_card_number`. */
  function Sync(b: Book, r: SyncRequest): Result<Book, Refusal>
    requires forall k :: k in b.series ==> SeriesOk(b.series[k])
    requires forall i :: 0 <= i < |b.entries| ==> b.entries[i].series in b.series
  {
    if r.document !in b.documents then Err(NotFound)
    else
      var d := b.documents[r.document];
      var carried := CarriedBy(b.entries, r.document, d);
      var kept := Dropped(b, r.document);
      var refusal := ChosenRefusal(kept, r, carried);
      if refusal.Some? then Err(refusal.value)
      else SyncEntry(kept, r, if r.chosen.Some? then r.chosen else carried)
  }

  /** The rest of it, once the card's entry is known or known to be missing. */
  function SyncEntry(b: Book, r: SyncRequest, existing: Option<nat>): Result<Book, Refusal>
    requires forall k :: k in b.series ==> SeriesOk(b.series[k])
    requires forall i :: 0 <= i < |b.entries| ==> b.entries[i].series in b.series
    requires r.document in b.documents && (existing.Some? ==> existing.value < |b.entries|)
  {
    var d := b.documents[r.document];
    if existing.None? && (r.boundSeries.None? || d.number != "") then Ok(b)
    else if existing.Some? && (b.entries[existing.value].state.Assigned? || b.entries[existing.value].state.Void?) then
      if d.number != b.entries[existing.value].number then Err(AlreadyPresent) else Ok(b)
    else
      var series := if existing.Some? then b.entries[existing.value].series else r.boundSeries.value;
      if existing.Some? && r.boundSeries.Some? && series != r.boundSeries.value then Err(DocumentScope)
      else if series !in b.series then Err(NotFound)
      else if !b.series[series].active then Err(Blocked)
      else if !r.scopeValid then Err(BadScope)
      else if FieldRefusal(b.series[series], d, r.fieldOk).Some?
        then Err(FieldRefusal(b.series[series], d, r.fieldOk).value)
      else if existing.Some? then Attach(b, r, series, existing.value)
      else match Reserve(b, CardReserve(r, series, d))
        case Err(e) => Err(e)
        case Ok(Batch(after, ids)) =>
          if ids == [] || ids[0] >= |after.entries| || after.entries[ids[0]].series !in after.series
             || r.document !in after.documents then Err(NotFound)
          else Attach(after, r, series, ids[0])
  }
}
