/**
 Outbox delivery: producers append events, one batch at a time publishes them under an advisory
 lock, an administrator may put failed events back, and readers follow bookmarks over the delivery
 ordinals. A batch may roll back as a whole, but the sequence it drew ordinals from does not.
 */
module Outbox {
  import opened Prelude

  const MAX_ATTEMPTS: nat := 5
  const MAX_DELAY: nat := 300

  datatype State = Pending | Processed | Failed

  /** `valid` says whether the payload version and payload pass the checks before the handler. */
  datatype Event = Event(created: int, valid: bool, state: State, attempts: nat, due: int,
                         ordinal: Option<nat>, code: Option<string>)

  /** A bookmark and everything the reader has been shown on the way to it. */
  datatype Reader = Reader(after: nat, seen: seq<nat>)

  /** The tables, the committed handler effects in order, the sequence, and the readers. */
  datatype World = World(events: seq<Event>, receipts: set<nat>, effects: seq<nat>, sequence: nat,
                         readers: map<nat, Reader>)

  // ---------------------------------------------------------------------------
  // One batch
  // ---------------------------------------------------------------------------

  predicate Due(e: Event, now: int) {
    e.state.Pending? && e.due <= now
  }

  ghost predicate Chosen(w: World, i: nat, locked: set<nat>, now: int) {
    i < |w.events| && i !in locked && Due(w.events[i], now)
  }

  /** What `ORDER BY created_at LIMIT n FOR UPDATE SKIP LOCKED` may return. */
  ghost predicate IsBatch(w: World, batch: seq<nat>, limit: nat, locked: set<nat>, now: int) {
    && |batch| <= limit
    && (forall k :: 0 <= k < |batch| ==> Chosen(w, batch[k], locked, now))
    && (forall j, k :: 0 <= j < k < |batch| ==> batch[j] != batch[k])
    && (forall j, k :: 0 <= j < k < |batch| ==> w.events[batch[j]].created <= w.events[batch[k]].created)
    && (forall i: nat, k :: Chosen(w, i, locked, now) && i !in batch && 0 <= k < |batch| ==>
          w.events[batch[k]].created <= w.events[i].created)
    && (|batch| < limit ==> forall i: nat :: Chosen(w, i, locked, now) ==> i in batch)
  }

  function Delay(attempts: nat): nat {
    if Power2(attempts) < MAX_DELAY then Power2(attempts) else MAX_DELAY
  }

  /** The savepoint commits: the checks pass, and the handler does too unless the receipt spares the call. */
  predicate Handled(w: World, i: nat, ok: bool)
    requires i < |w.events|
  {
    w.events[i].valid && (i in w.receipts || ok)
  }

  function Publish(e: Event, ordinal: nat, now: int): Event {
    e.(attempts := e.attempts + 1, state := Processed, code := None,
       ordinal := if e.ordinal.None? then Some(ordinal) else e.ordinal)
  }

  function Postpone(e: Event, now: int): Event {
    var attempts := e.attempts + 1;
    e.(attempts := attempts, code := Some("handler_failed"), due := now + Delay(attempts),
       state := if attempts >= MAX_ATTEMPTS then Failed else e.state)
  }

  /** One turn of the batch loop; `ok` is whether the handler returns. */
  function Deliver(w: World, i: nat, ok: bool, now: int): (r: World)
    requires i < |w.events|
    ensures |r.events| == |w.events|
  {
    var e := w.events[i];
    if Handled(w, i, ok) then
      w.(events := w.events[i := Publish(e, w.sequence + 1, now)],
         receipts := w.receipts + {i},
         effects := if i in w.receipts then w.effects else w.effects + [i],
         sequence := if e.ordinal.None? then w.sequence + 1 else w.sequence)
    else
      w.(events := w.events[i := Postpone(e, now)])
  }

  /** The first `n` turns of the loop. */
  function DeliverAll(w: World, batch: seq<nat>, oks: seq<bool>, n: nat, now: int): (r: World)
    requires n <= |batch| == |oks| && forall k :: 0 <= k < |batch| ==> batch[k] < |w.events|
    ensures |r.events| == |w.events|
  {
    if n == 0 then w else Deliver(DeliverAll(w, batch, oks, n - 1, now), batch[n - 1], oks[n - 1], now)
  }

  // ---------------------------------------------------------------------------
  // The machine
  // ---------------------------------------------------------------------------

  ghost predicate Visible(w: World, i: nat) {
    i < |w.events| && w.events[i].state.Processed? && w.events[i].ordinal.Some?
  }

  ghost function OrdinalOf(w: World, i: nat): nat {
    if Visible(w, i) then w.events[i].ordinal.value else 0
  }

  ghost predicate Ascending(w: World, s: seq<nat>) {
    forall j, k :: 0 <= j < k < |s| ==> OrdinalOf(w, s[j]) < OrdinalOf(w, s[k])
  }

  /** The last ordinal of a page, or the bookmark it started from. */
  ghost function End(w: World, after: nat, page: seq<nat>): nat {
    if page == [] then after else OrdinalOf(w, page[|page| - 1])
  }

  /** What a reader may be shown: the visible events behind the bookmark, in ordinal order, up to some point. */
  ghost predicate IsPage(w: World, after: nat, page: seq<nat>) {
    && (forall k :: 0 <= k < |page| ==> Visible(w, page[k]) && OrdinalOf(w, page[k]) > after)
    && Ascending(w, page)
    && (forall i: nat :: Visible(w, i) && OrdinalOf(w, i) > after && i !in page ==>
          OrdinalOf(w, i) > End(w, after, page))
  }

  datatype Step =
    | Produce(created: int, valid: bool, now: int)
    | Batch(batch: seq<nat>, oks: seq<bool>, limit: nat, locked: set<nat>, now: int)
    | Abort(batch: seq<nat>, oks: seq<bool>, turns: nat, limit: nat, locked: set<nat>, now: int)
    | Retry(event: nat, now: int)
    | Open(reader: nat)
    | Read(reader: nat, page: seq<nat>)

  ghost predicate Enabled(w: World, step: Step) {
    match step
    case Produce(_, _, _) => true
    case Batch(batch, oks, limit, locked, now) => IsBatch(w, batch, limit, locked, now) && |oks| == |batch|
    case Abort(batch, oks, turns, limit, locked, now) =>
      IsBatch(w, batch, limit, locked, now) && |oks| == |batch| && turns <= |batch|
    case Retry(i, _) => i < |w.events| && w.events[i].state.Failed?
    case Open(reader) => reader !in w.readers
    case Read(reader, page) => reader in w.readers && IsPage(w, w.readers[reader].after, page)
  }

  function NewEvent(created: int, valid: bool, now: int): Event {
    Event(created, valid, Pending, 0, now, None, None)
  }

  ghost function Next(w: World, step: Step): World
    requires Enabled(w, step)
  {
    match step
    case Produce(created, valid, now) => w.(events := w.events + [NewEvent(created, valid, now)])
    case Batch(batch, oks, limit, locked, now) => DeliverAll(w, batch, oks, |batch|, now)
    case Abort(batch, oks, turns, limit, locked, now) =>
      w.(sequence := DeliverAll(w, batch, oks, turns, now).sequence)
    case Retry(i, now) =>
      w.(events := w.events[i := w.events[i].(state := Pending, attempts := 0, code := None, due := now)])
    case Open(reader) => w.(readers := w.readers[reader := Reader(0, [])])
    case Read(reader, page) =>
      var r := w.readers[reader];
      w.(readers := w.readers[reader := Reader(End(w, r.after, page), r.seen + page)])
  }

  // ---------------------------------------------------------------------------
  // The invariant
  // ---------------------------------------------------------------------------

  ghost predicate EventOk(w: World, i: nat)
    requires i < |w.events|
  {
    var e := w.events[i];
    && (e.state.Pending? ==> e.attempts < MAX_ATTEMPTS)
    && (e.state.Failed? ==> e.attempts == MAX_ATTEMPTS)
    && (e.state.Processed? ==> 1 <= e.attempts <= MAX_ATTEMPTS && e.valid)
    && (e.state.Processed? <==> e.ordinal.Some?)
    && (e.ordinal.Some? ==> 1 <= e.ordinal.value <= w.sequence)
    && (e.state.Processed? <==> i in w.receipts)
  }

  ghost predicate EventsOk(w: World) {
    && (forall i :: 0 <= i < |w.events| ==> EventOk(w, i))
    && (forall i :: i in w.receipts ==> i < |w.events|)
    && (forall i, j :: 0 <= i < j < |w.events| && Visible(w, i) && Visible(w, j) ==> OrdinalOf(w, i) != OrdinalOf(w, j))
  }

  /** The handler's effects are committed once for each receipt. */
  ghost predicate EffectsOk(w: World) {
    && (forall i :: i in w.effects <==> i in w.receipts)
    && (forall j, k :: 0 <= j < k < |w.effects| ==> w.effects[j] != w.effects[k])
  }

  /** A reader has been shown exactly the visible events up to its bookmark, in the order of delivery. */
  ghost predicate ReaderOk(w: World, r: Reader) {
    && r.after <= w.sequence
    && Ascending(w, r.seen)
    && (forall i: nat :: i in r.seen <==> Visible(w, i) && OrdinalOf(w, i) <= r.after)
  }

  ghost predicate Inv(w: World) {
    && EventsOk(w) && EffectsOk(w)
    && forall k :: k in w.readers ==> ReaderOk(w, w.readers[k])
  }

  /** Published events stay as they are; what is published now was drawn from behind the old sequence value. */
  ghost predicate Publishes(a: World, b: World) {
    && |a.events| <= |b.events| && a.sequence <= b.sequence
    && (forall i: nat :: Visible(a, i) ==> Visible(b, i) && b.events[i] == a.events[i])
    && (forall i: nat :: Visible(b, i) && !Visible(a, i) ==> OrdinalOf(b, i) > a.sequence)
  }

  lemma {:induction false} PublishesSame(a: World)
    ensures Publishes(a, a)
  {
  }

  lemma {:induction false} PublishesTwice(a: World, b: World, c: World)
    requires Publishes(a, b) && Publishes(b, c)
    ensures Publishes(a, c)
  {
  }

  /** Publishing behind the sequence leaves every reader exactly as complete as it was. */
  lemma {:induction false} PublishingKeepsReader(a: World, b: World, r: Reader)
    requires Publishes(a, b) && ReaderOk(a, r)
    ensures ReaderOk(b, r)
  {
  }

  /** What one turn of the loop keeps, for an event that is still pending. */
  lemma {:induction false} DeliverKeeps(w: World, i: nat, ok: bool, now: int)
    requires EventsOk(w) && EffectsOk(w) && i < |w.events| && w.events[i].state.Pending?
    ensures var t := Deliver(w, i, ok, now); EventsOk(t) && EffectsOk(t) && Publishes(w, t)
  {
    hide Delay;
    var t := Deliver(w, i, ok, now);
    assert EventOk(w, i);
    forall j | 0 <= j < |t.events| ensures EventOk(t, j) {
      assert EventOk(w, j);
    }
    forall j, k | 0 <= j < k < |t.events| && Visible(t, j) && Visible(t, k) ensures OrdinalOf(t, j) != OrdinalOf(t, k) {
      assert EventOk(w, j) && EventOk(w, k);
      if j != i && k != i {
        assert Visible(w, j) && Visible(w, k);
      }
    }
  }

  /** The turns of the loop leave the events still to come as they were. */
  lemma {:induction false} DeliverAllKeeps(w: World, batch: seq<nat>, oks: seq<bool>, n: nat, now: int)
    requires EventsOk(w) && EffectsOk(w) && n <= |batch| == |oks|
    requires forall k :: 0 <= k < |batch| ==> batch[k] < |w.events| && w.events[batch[k]].state.Pending?
    requires forall j, k :: 0 <= j < k < |batch| ==> batch[j] != batch[k]
    ensures var t := DeliverAll(w, batch, oks, n, now);
            && EventsOk(t) && EffectsOk(t) && Publishes(w, t) && t.readers == w.readers
            && (forall i :: 0 <= i < |w.events| && i !in batch[..n] ==> t.events[i] == w.events[i])
  {
    hide EventsOk, EffectsOk, Publishes, Deliver;
    if n == 0 {
      PublishesSame(w);
    } else {
      DeliverAllKeeps(w, batch, oks, n - 1, now);
      var t := DeliverAll(w, batch, oks, n - 1, now);
      var i := batch[n - 1];
      assert i !in batch[..n - 1];
      DeliverKeeps(t, i, oks[n - 1], now);
      PublishesTwice(w, t, Deliver(t, i, oks[n - 1], now));
      assert batch[..n] == batch[..n - 1] + [i];
      DeliverOther(t, i, oks[n - 1], now);
    }
  }

  lemma {:induction false} DeliverOther(w: World, i: nat, ok: bool, now: int)
    requires i < |w.events|
    ensures var t := Deliver(w, i, ok, now);
            t.readers == w.readers && forall j :: 0 <= j < |w.events| && j != i ==> t.events[j] == w.events[j]
  {
  }

  lemma {:induction false} BatchKeepsInv(w: World, batch: seq<nat>, oks: seq<bool>, turns: nat,
                                         limit: nat, locked: set<nat>, now: int)
    requires Inv(w) && IsBatch(w, batch, limit, locked, now) && turns <= |batch| == |oks|
    ensures var t := DeliverAll(w, batch, oks, turns, now); Inv(t) && Publishes(w, t)
  {
    hide EventsOk, EffectsOk, Publishes, ReaderOk;
    forall k | 0 <= k < |batch| ensures batch[k] < |w.events| && w.events[batch[k]].state.Pending? {
      assert Chosen(w, batch[k], locked, now);
    }
    DeliverAllKeeps(w, batch, oks, turns, now);
    var t := DeliverAll(w, batch, oks, turns, now);
    forall k | k in t.readers ensures ReaderOk(t, t.readers[k]) {
      PublishingKeepsReader(w, t, w.readers[k]);
    }
  }

  /** A batch that rolls back leaves gaps in the ordinals and nothing else. */
  lemma {:induction false} AbortKeepsInv(w: World, sequence: nat)
    requires Inv(w) && w.sequence <= sequence
    ensures Inv(w.(sequence := sequence)) && Publishes(w, w.(sequence := sequence))
  {
    var t := w.(sequence := sequence);
    forall i | 0 <= i < |t.events| ensures EventOk(t, i) {
      assert EventOk(w, i);
    }
    forall i, j | 0 <= i < j < |t.events| && Visible(t, i) && Visible(t, j) ensures OrdinalOf(t, i) != OrdinalOf(t, j) {
      assert Visible(w, i) && Visible(w, j);
    }
    forall k | k in t.readers ensures ReaderOk(t, t.readers[k]) {
      PublishingKeepsReader(w, t, w.readers[k]);
    }
  }

  /** Adding a pending event or resetting an unpublished one changes nothing a reader sees. */
  lemma {:induction false} PendingKeepsInv(w: World, events: seq<Event>, i: nat)
    requires Inv(w) && i < |events| && (|events| == |w.events| || (i == |w.events| && |events| == i + 1))
    requires forall j :: 0 <= j < |w.events| && j != i ==> events[j] == w.events[j]
    requires events[i].state.Pending? && events[i].attempts < MAX_ATTEMPTS && events[i].ordinal.None?
    requires i < |w.events| ==> !w.events[i].state.Processed?
    ensures Inv(w.(events := events)) && Publishes(w, w.(events := events))
  {
    var t := w.(events := events);
    forall j | 0 <= j < |t.events| ensures EventOk(t, j) {
      if j != i {
        assert EventOk(w, j);
      } else if i < |w.events| {
        assert EventOk(w, i);
      }
    }
    forall j, k | 0 <= j < k < |t.events| && Visible(t, j) && Visible(t, k) ensures OrdinalOf(t, j) != OrdinalOf(t, k) {
      assert Visible(w, j) && Visible(w, k);
    }
    forall k | k in t.readers ensures ReaderOk(t, t.readers[k]) {
      PublishingKeepsReader(w, t, w.readers[k]);
    }
  }

  /** A page continues what the reader has seen without a gap and without a repetition. */
  lemma {:induction false} ReadKeepsReader(w: World, r: Reader, page: seq<nat>)
    requires EventsOk(w) && ReaderOk(w, r) && IsPage(w, r.after, page)
    ensures ReaderOk(w, Reader(End(w, r.after, page), r.seen + page))
  {
    var end := End(w, r.after, page);
    var seen := r.seen + page;
    if page != [] {
      assert Visible(w, page[|page| - 1]) && EventOk(w, page[|page| - 1]);
    }
    forall j, k | 0 <= j < k < |seen| ensures OrdinalOf(w, seen[j]) < OrdinalOf(w, seen[k]) {
      if k < |r.seen| {
        assert OrdinalOf(w, r.seen[j]) < OrdinalOf(w, r.seen[k]);
      } else if j < |r.seen| {
        assert r.seen[j] in r.seen;
        assert OrdinalOf(w, page[k - |r.seen|]) > r.after;
      } else {
        assert OrdinalOf(w, page[j - |r.seen|]) < OrdinalOf(w, page[k - |r.seen|]);
      }
    }
    forall i: nat ensures i in seen <==> Visible(w, i) && OrdinalOf(w, i) <= end {
      if i in page {
        var k :| 0 <= k < |page| && page[k] == i;
        if k < |page| - 1 {
          assert OrdinalOf(w, page[k]) < OrdinalOf(w, page[|page| - 1]);
        }
      }
      if page != [] {
        assert OrdinalOf(w, page[|page| - 1]) > r.after;
      }
    }
  }

  /** Every step keeps the invariant, and what it makes visible lies behind everything drawn before. */
  lemma {:induction false} NextKeepsInv(w: World, step: Step)
    requires Inv(w) && Enabled(w, step)
    ensures Inv(Next(w, step)) && Publishes(w, Next(w, step))
  {
    hide EffectsOk, Publishes, ReaderOk, DeliverAll;
    PublishesSame(w);
    match step
    case Produce(created, valid, now) =>
      PendingKeepsInv(w, w.events + [NewEvent(created, valid, now)], |w.events|);
    case Batch(batch, oks, limit, locked, now) => BatchKeepsInv(w, batch, oks, |batch|, limit, locked, now);
    case Abort(batch, oks, turns, limit, locked, now) =>
      BatchKeepsInv(w, batch, oks, turns, limit, locked, now);
      var t := DeliverAll(w, batch, oks, turns, now);
      assert w.sequence <= t.sequence by { PublishesSequence(w, t); }
      AbortKeepsInv(w, t.sequence);
    case Retry(i, now) =>
      assert EventOk(w, i);
      PendingKeepsInv(w, w.events[i := w.events[i].(state := Pending, attempts := 0, code := None, due := now)], i);
    case Open(reader) =>
      OpenKeepsInv(w, reader);
    case Read(reader, page) =>
      ReadKeepsInv(w, reader, page);
  }

  lemma {:induction false} PublishesSequence(a: World, b: World)
    requires Publishes(a, b)
    ensures a.sequence <= b.sequence
  {
  }

  lemma {:induction false} SameTables(a: World, b: World)
    requires a.events == b.events && a.sequence == b.sequence && a.receipts == b.receipts && a.effects == b.effects
    ensures Publishes(a, b) && (EventsOk(a) ==> EventsOk(b)) && (EffectsOk(a) ==> EffectsOk(b))
    ensures forall r :: ReaderOk(a, r) ==> ReaderOk(b, r)
  {
    forall i: nat ensures Visible(a, i) == Visible(b, i) && OrdinalOf(a, i) == OrdinalOf(b, i) {
    }
    if EventsOk(a) {
      forall i | 0 <= i < |b.events| ensures EventOk(b, i) {
        assert EventOk(a, i);
      }
    }
    forall r | ReaderOk(a, r) ensures ReaderOk(b, r) {
      PublishingKeepsReader(a, b, r);
    }
  }

  lemma {:induction false} OpenKeepsInv(w: World, reader: nat)
    requires Inv(w) && reader !in w.readers
    ensures Inv(Next(w, Open(reader))) && Publishes(w, Next(w, Open(reader)))
  {
    var t := Next(w, Open(reader));
    SameTables(w, t);
    assert ReaderOk(w, Reader(0, [])) by {
      forall i: nat | Visible(w, i) ensures OrdinalOf(w, i) > 0 {
        assert EventOk(w, i);
      }
    }
    hide EventsOk, EffectsOk, ReaderOk;
  }

  lemma {:induction false} ReadKeepsInv(w: World, reader: nat, page: seq<nat>)
    requires Inv(w) && Enabled(w, Read(reader, page))
    ensures Inv(Next(w, Read(reader, page))) && Publishes(w, Next(w, Read(reader, page)))
  {
    hide EventsOk, EffectsOk, ReaderOk, IsPage, End;
    SameTables(w, Next(w, Read(reader, page)));
    ReadKeepsReader(w, w.readers[reader], page);
  }
}
