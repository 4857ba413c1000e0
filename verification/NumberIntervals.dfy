/** The interval listing of a series: which ordinals are issued, free or passed over. */
module NumberIntervals {
  import opened Prelude
  import opened NumberFormat
  import opened Numbering
  import opened NumberingRuns
  import opened NumberingTheorems
  import opened NumberBatches

  const MAX_POSITIONS: nat := 1000

  datatype Slot = Issued(state: EntryState) | Free | Unavailable

  datatype Interval = Interval(from: nat, upto: nat, slot: Slot)

  // ---------------------------------------------------------------------------
  // The first ordinal
  // ---------------------------------------------------------------------------

  function FirstOrdinal(s: Series, from: nat): nat
    requires s.step >= 1
  {
    var first := if s.start >= from then s.start else from;
    first + (s.start - first) % s.step
  }

  /** The listing starts at the least ordinal of the progression not below `start` and `from`. */
  lemma {:induction false} FirstIsLeast(s: Series, from: nat)
    requires s.step >= 1
    ensures var first := FirstOrdinal(s, from);
            && first >= s.start && first >= from && OnGrid(s.start, s.step, first)
            && forall o: nat :: OnGrid(s.start, s.step, o) && o >= from ==> o >= first
  {
    var low := if s.start >= from then s.start else from;
    var first := FirstOrdinal(s, from);
    var k := FirstPosition(s.start, s.step, low);
    forall o: nat | OnGrid(s.start, s.step, o) && o >= from
      ensures o >= first
    {
      var j: nat :| o == At(s.start, s.step, j);
      AtGrows(s.start, s.step, 0, j);
      if j < k {
        AtGrows(s.start, s.step, j, k);
      } else {
        AtGrows(s.start, s.step, k, j);
      }
    }
  }

  lemma {:induction false} FirstPosition(start: nat, step: nat, low: nat) returns (k: nat)
    requires step >= 1 && low >= start
    ensures At(start, step, k) == low + (start - low) % step
    ensures 0 <= (start - low) % step < step
  {
    var q := (start - low) / step;
    assert start - low == q * step + (start - low) % step;
    assert q <= 0;
    k := -q;
    AtClosedForm(start, step, k);
    assert k * step == -(q * step);
  }

  // ---------------------------------------------------------------------------
  // The state of one ordinal
  // ---------------------------------------------------------------------------

  /** The state recorded for an ordinal; a later row of the same ordinal would win. */
  function Recorded(entries: seq<Entry>, c: CounterKey, ordinal: nat): Option<EntryState> {
    if entries == [] then None
    else
      var e := entries[|entries| - 1];
      if e.series == c.series && e.period == c.period && e.ordinal == ordinal then Some(e.state)
      else Recorded(entries[..|entries| - 1], c, ordinal)
  }

  function SlotOf(b: Book, c: CounterKey, ordinal: nat): Slot
    requires c.series in b.series
  {
    var recorded := Recorded(b.entries, c, ordinal);
    if recorded.Some? then Issued(recorded.value)
    else if ordinal >= CounterOf(b, b.series[c.series], c) then Free
    else Unavailable
  }

  lemma {:induction false} RecordedMeaning(entries: seq<Entry>, c: CounterKey, ordinal: nat)
    ensures Recorded(entries, c, ordinal).Some? <==>
            exists i :: 0 <= i < |entries| && InPeriod(entries[i], c) && entries[i].ordinal == ordinal
    decreases |entries|
  {
    if entries != [] {
      var n := |entries| - 1;
      RecordedMeaning(entries[..n], c, ordinal);
      assert forall i :: 0 <= i < n ==> entries[..n][i] == entries[i];
      if Recorded(entries[..n], c, ordinal).Some? {
        var i :| 0 <= i < n && InPeriod(entries[..n][i], c) && entries[..n][i].ordinal == ordinal;
        assert InPeriod(entries[i], c);
      }
      if InPeriod(entries[n], c) && entries[n].ordinal == ordinal {
      } else if i :| 0 <= i < |entries| && InPeriod(entries[i], c) && entries[i].ordinal == ordinal {
        assert InPeriod(entries[..n][i], c);
      }
    }
  }

  /** In a consistent register free means at or above the counter, and nothing else. */
  lemma {:induction false} FreeIsFrontier(b: Book, c: CounterKey, ordinal: nat)
    requires Inv(b) && c.series in b.series
    ensures SlotOf(b, c, ordinal).Free? <==> ordinal >= CounterOf(b, b.series[c.series], c)
  {
    RecordedMeaning(b.entries, c, ordinal);
    forall i: nat | i < |b.entries| && InPeriod(b.entries[i], c)
      ensures b.entries[i].ordinal < CounterOf(b, b.series[c.series], c)
    {
      assert EntryAt(b, i);
      assert CounterKey(b.entries[i].series, b.entries[i].period) == c;
    }
  }

  lemma {:induction false} RecordedIsSome(entries: seq<Entry>, c: CounterKey, ordinal: nat)
    requires Recorded(entries, c, ordinal).Some?
    ensures exists i :: 0 <= i < |entries| && RecordAt(entries, c, ordinal, i)
                        && entries[i].state == Recorded(entries, c, ordinal).value
    decreases |entries|
  {
    var n := |entries| - 1;
    if RecordAt(entries, c, ordinal, n) {
    } else {
      RecordedIsSome(entries[..n], c, ordinal);
      var i :| 0 <= i < n && RecordAt(entries[..n], c, ordinal, i)
               && entries[..n][i].state == Recorded(entries[..n], c, ordinal).value;
      assert RecordAt(entries, c, ordinal, i);
    }
  }

  /** The entry of an ordinal of the series in the period. */
  ghost predicate RecordAt(entries: seq<Entry>, c: CounterKey, ordinal: nat, i: int)
    requires 0 <= i < |entries|
  {
    InPeriod(entries[i], c) && entries[i].ordinal == ordinal
  }

  /**
   What is shown for an ordinal: the state of its entry if it has been issued; otherwise that it is free from
   where the series stands on, and unavailable below.
   */
  lemma {:induction false} SlotMeaning(b: Book, c: CounterKey, ordinal: nat, i: nat)
    requires Inv(b) && c.series in b.series
    ensures i < |b.entries| && RecordAt(b.entries, c, ordinal, i) ==> SlotOf(b, c, ordinal) == Issued(b.entries[i].state)
    ensures (forall j :: 0 <= j < |b.entries| ==> !RecordAt(b.entries, c, ordinal, j)) ==>
              var stands := if c in b.counters then b.counters[c] else b.series[c.series].start;
              SlotOf(b, c, ordinal) == if ordinal >= stands then Free else Unavailable
  {
    RecordedMeaning(b.entries, c, ordinal);
    if i < |b.entries| && RecordAt(b.entries, c, ordinal, i) {
      RecordedIsSome(b.entries, c, ordinal);
      var j :| 0 <= j < |b.entries| && RecordAt(b.entries, c, ordinal, j)
               && b.entries[j].state == Recorded(b.entries, c, ordinal).value;
      OneRecord(b, c, ordinal, i, j);
    } else if Recorded(b.entries, c, ordinal).Some? {
      RecordedIsSome(b.entries, c, ordinal);
    }
  }

  lemma {:induction false} OneRecord(b: Book, c: CounterKey, ordinal: nat, i: nat, j: nat)
    requires Inv(b) && i < |b.entries| && j < |b.entries|
    requires RecordAt(b.entries, c, ordinal, i) && RecordAt(b.entries, c, ordinal, j)
    ensures i == j
  {
    hide EntriesOk, ClaimsOk, CountersOk;
    assert i < j ==> PairAt(b.entries, i, j);
    assert j < i ==> PairAt(b.entries, j, i);
  }

  // ---------------------------------------------------------------------------
  // The listing
  // ---------------------------------------------------------------------------

  /** The ordinals an interval stands for. */
  function Spread(from: nat, upto: nat, step: nat, slot: Slot): seq<(nat, Slot)>
    requires step >= 1
    decreases upto - from
  {
    if from > upto then [] else [(from, slot)] + Spread(from + step, upto, step, slot)
  }

  function SpreadAll(intervals: seq<Interval>, step: nat): seq<(nat, Slot)>
    requires step >= 1
  {
    if intervals == [] then []
    else
      var last := intervals[|intervals| - 1];
      SpreadAll(intervals[..|intervals| - 1], step) + Spread(last.from, last.upto, step, last.slot)
  }

  /** What should be listed: every ordinal of the progression up to `to`, with its state. */
  function Wanted(b: Book, c: CounterKey, step: nat, from: nat, upto: nat): seq<(nat, Slot)>
    requires step >= 1 && c.series in b.series
    decreases upto + 1 - from
  {
    if from > upto then [] else [(from, SlotOf(b, c, from))] + Wanted(b, c, step, from + step, upto)
  }

  /** The pairs are the positions of the progression from `from` up to `upto`, and no other. */
  ghost predicate ListsUpTo(listed: seq<(nat, Slot)>, from: nat, step: nat, upto: nat) {
    && (forall k: nat :: k < |listed| ==> listed[k].0 == At(from, step, k) && listed[k].0 <= upto)
    && At(from, step, |listed|) > upto
  }

  /** What is listed is every ordinal of the progression up to the end, in order, with its state. */
  lemma {:induction false} WantedMeaning(b: Book, c: CounterKey, step: nat, from: nat, upto: nat)
    requires step >= 1 && c.series in b.series
    ensures ListsUpTo(Wanted(b, c, step, from, upto), from, step, upto)
    ensures forall k :: 0 <= k < |Wanted(b, c, step, from, upto)| ==>
              Wanted(b, c, step, from, upto)[k].1 == SlotOf(b, c, Wanted(b, c, step, from, upto)[k].0)
    decreases upto + 1 - from
  {
    hide SlotOf;
    if from <= upto {
      var rest := Wanted(b, c, step, from + step, upto);
      WantedMeaning(b, c, step, from + step, upto);
      PositionsShift(rest, (from, SlotOf(b, c, from)), step, upto);
    }
  }

  lemma {:induction false} PositionsShift(rest: seq<(nat, Slot)>, first: (nat, Slot), step: nat, upto: nat)
    requires first.0 <= upto && ListsUpTo(rest, first.0 + step, step, upto)
    ensures ListsUpTo([first] + rest, first.0, step, upto)
  {
    var all := [first] + rest;
    forall k: nat | k < |all|
      ensures all[k].0 == At(first.0, step, k) && all[k].0 <= upto
    {
      if k > 0 {
        AtShift(first.0, step, k - 1);
        assert all[k] == rest[k - 1];
      }
    }
    AtShift(first.0, step, |rest|);
  }

  /** An interval stands for the positions of the progression from its first to its last ordinal. */
  lemma {:induction false} SpreadMeaning(from: nat, upto: nat, step: nat, slot: Slot)
    requires step >= 1
    ensures ListsUpTo(Spread(from, upto, step, slot), from, step, upto)
    ensures forall k :: 0 <= k < |Spread(from, upto, step, slot)| ==> Spread(from, upto, step, slot)[k].1 == slot
    decreases upto + 1 - from
  {
    if from <= upto {
      var rest := Spread(from + step, upto, step, slot);
      SpreadMeaning(from + step, upto, step, slot);
      PositionsShift(rest, (from, slot), step, upto);
    }
  }

  predicate Mergeable(a: Interval, z: Interval, step: nat) {
    a.slot == z.slot && a.upto + step == z.from
  }

  ghost predicate ApartAt(intervals: seq<Interval>, step: nat, i: nat)
    requires i + 1 < |intervals|
  {
    !Mergeable(intervals[i], intervals[i + 1], step)
  }

  ghost predicate NoneMergeable(intervals: seq<Interval>, step: nat) {
    forall i: nat :: i + 1 < |intervals| ==> ApartAt(intervals, step, i)
  }

  ghost predicate EndsAligned(interval: Interval, step: nat) {
    exists k: nat :: interval.upto == At(interval.from, step, k)
  }

  /** Moving the end of an interval on by one step lists one ordinal more. */
  lemma {:induction false} SpreadLonger(from: nat, k: nat, step: nat, slot: Slot)
    requires step >= 1
    ensures Spread(from, At(from, step, k + 1), step, slot) ==
            Spread(from, At(from, step, k), step, slot) + [(At(from, step, k + 1), slot)]
    decreases k
  {
    AtGrows(from, step, 0, k);
    if k == 0 {
      assert At(from, step, 1) == from + step;
      assert Spread(from + step, from + step, step, slot) ==
             [(from + step, slot)] + Spread(from + step + step, from + step, step, slot);
    } else {
      AtShift(from, step, k - 1);
      AtShift(from, step, k);
      SpreadLonger(from + step, k - 1, step, slot);
      AtGrows(from, step, 0, k + 1);
    }
  }

  datatype Listing = Intervals(intervals: seq<Interval>) | TooMany

  /**
   The listing expands to exactly the progression from its first ordinal up to `to`, each ordinal
   with its state, in as few intervals as there are runs of equal states.
   */
  method ListIntervals(b: Book, c: CounterKey, from: nat, upto: nat) returns (listing: Listing)
    requires c.series in b.series && b.series[c.series].step >= 1
    ensures var s := b.series[c.series];
            var first := FirstOrdinal(s, from);
            match listing
            case TooMany => from > upto || (upto - first) / s.step + 1 > MAX_POSITIONS
            case Intervals(intervals) =>
              && from <= upto && (upto - first) / s.step + 1 <= MAX_POSITIONS
              && SpreadAll(intervals, s.step) == Wanted(b, c, s.step, first, upto)
              && NoneMergeable(intervals, s.step)
  {
    var s := b.series[c.series];
    var first := FirstOrdinal(s, from);
    if from > upto || (upto - first) / s.step + 1 > MAX_POSITIONS {
      return TooMany;
    }
    var ranges: seq<Interval> := [];
    ghost var whole := Wanted(b, c, s.step, first, upto);
    var ordinal := first;
    while ordinal <= upto
      invariant SpreadAll(ranges, s.step) + Wanted(b, c, s.step, ordinal, upto) == whole
      invariant NoneMergeable(ranges, s.step)
      invariant ranges != [] ==> EndsAligned(ranges[|ranges| - 1], s.step)
      decreases upto + s.step - ordinal
    {
      ranges := ListOne(ranges, s.step, ordinal, SlotOf(b, c, ordinal));
      ordinal := ordinal + s.step;
    }
    listing := Intervals(ranges);
  }

  /** The body of the listing's loop: prolong the last interval or begin a new one. */
  method ListOne(ranges0: seq<Interval>, step: nat, ordinal: nat, slot: Slot) returns (ranges: seq<Interval>)
    requires step >= 1 && NoneMergeable(ranges0, step)
    requires ranges0 != [] ==> EndsAligned(ranges0[|ranges0| - 1], step)
    ensures SpreadAll(ranges, step) == SpreadAll(ranges0, step) + [(ordinal, slot)]
    ensures NoneMergeable(ranges, step)
    ensures ranges != [] && EndsAligned(ranges[|ranges| - 1], step)
  {
    hide At, Spread;
    ranges := ranges0;
    var n := |ranges|;
    if n > 0 && ranges[n - 1].slot == slot && ranges[n - 1].upto + step == ordinal {
      ProlongLast(ranges0, step, ordinal, slot);
      ranges := ranges[n - 1 := ranges[n - 1].(upto := ordinal)];
    } else {
      BeginInterval(ranges0, step, ordinal, slot);
      ranges := ranges + [Interval(ordinal, ordinal, slot)];
    }
    forall i: nat | i + 1 < |ranges|
      ensures ApartAt(ranges, step, i)
    {
      if i + 1 < |ranges0| {
        assert ApartAt(ranges0, step, i);
      }
    }
  }

  lemma {:induction false} ProlongLast(ranges: seq<Interval>, step: nat, ordinal: nat, slot: Slot)
    requires step >= 1 && ranges != []
    requires var last := ranges[|ranges| - 1];
             EndsAligned(last, step) && last.slot == slot && last.upto + step == ordinal
    ensures var longer := ranges[|ranges| - 1 := ranges[|ranges| - 1].(upto := ordinal)];
            && SpreadAll(longer, step) == SpreadAll(ranges, step) + [(ordinal, slot)]
            && EndsAligned(longer[|ranges| - 1], step)
  {
    hide Spread;
    var n := |ranges| - 1;
    var last := ranges[n];
    var k: nat :| last.upto == At(last.from, step, k);
    SpreadLonger(last.from, k, step, slot);
    assert ordinal == At(last.from, step, k + 1);
    var longer := ranges[n := last.(upto := ordinal)];
    assert longer[..n] == ranges[..n];
  }

  lemma {:induction false} BeginInterval(ranges: seq<Interval>, step: nat, ordinal: nat, slot: Slot)
    requires step >= 1
    ensures SpreadAll(ranges + [Interval(ordinal, ordinal, slot)], step) == SpreadAll(ranges, step) + [(ordinal, slot)]
    ensures EndsAligned(Interval(ordinal, ordinal, slot), step)
  {
    var more := ranges + [Interval(ordinal, ordinal, slot)];
    assert more[..|ranges|] == ranges;
    assert ordinal == At(ordinal, step, 0);
    assert Spread(ordinal, ordinal, step, slot) == [(ordinal, slot)] + Spread(ordinal + step, ordinal, step, slot);
  }

  // ---------------------------------------------------------------------------
  // What a later reservation hands out
  // ---------------------------------------------------------------------------

  /** Counters only move up, and later entries are not below the counter of before. */
  ghost predicate Ahead(b: Book, z: Book) {
    && |b.entries| <= |z.entries|
    && (forall c :: c in b.counters ==> c in z.counters && b.counters[c] <= z.counters[c])
    && (forall i: nat :: |b.entries| <= i < |z.entries| ==> AheadAt(b, z, i))
  }

  ghost predicate AheadAt(b: Book, z: Book, i: nat)
    requires i < |z.entries|
  {
    var c := CounterKey(z.entries[i].series, z.entries[i].period);
    c in b.counters ==> b.counters[c] <= z.entries[i].ordinal
  }

  lemma {:induction false} ReserveAhead(b: Book, r: ReserveRequest)
    requires Inv(b) && Reserve(b, r).Ok?
    ensures Ahead(b, Reserve(b, r).value.book)
  {
    hide Allocate, FreePlace, NumberOf, NumberClaim;
    if ReceiptKey(r.series, r.actor, r.key) !in b.receipts {
      var s := b.series[r.series];
      assert SeriesOk(s);
      var c := CounterKey(r.series, r.period);
      var next := CounterOf(b, s, c);
      var m := BatchOrdinals(b, s, r, HoursFor(s, r), r.count, next);
      AtGrows(next, s.step, 0, m);
      AllocateCounters(b, s, r, HoursFor(s, r), r.count, next);
      var z := Reserve(b, r).value.book;
      forall i: nat | |b.entries| <= i < |z.entries|
        ensures AheadAt(b, z, i)
      {
        assert HandedOut(b, s, r, next, z.entries[i]);
      }
    }
  }

  lemma {:induction false} AllocateCounters(b: Book, s: Series, r: ReserveRequest, hours: Option<nat>, n: nat,
                                            next: nat)
    requires s.step >= 1 && Allocate(b, s, r, hours, n, next).Ok?
    ensures Allocate(b, s, r, hours, n, next).value.0.counters == b.counters
    decreases n
  {
    hide NextFree, EntryFor, OrdinalClaim, NumberUsed;
    if n > 0 {
      var o := NextFree(b.claims, s, r.period, ScopeFor(s, r), next).value;
      var y := Insert(b, EntryFor(s, r, hours, o), OrdinalClaim(s, r.period, ScopeFor(s, r), o));
      AllocateCounters(y, s, r, hours, n - 1, o + s.step);
    }
  }

  lemma {:induction false} AttachFrame(b: Book, r: SyncRequest, series: nat, id: nat)
    requires r.document in b.documents && id < |b.entries| && b.entries[id].series in b.series
    requires Attach(b, r, series, id).Ok?
    ensures Attach(b, r, series, id).value.counters == b.counters
    ensures |Attach(b, r, series, id).value.entries| == |b.entries|
    ensures forall i :: 0 <= i < |b.entries| ==>
              Attach(b, r, series, id).value.entries[i].series == b.entries[i].series
              && Attach(b, r, series, id).value.entries[i].period == b.entries[i].period
              && Attach(b, r, series, id).value.entries[i].ordinal == b.entries[i].ordinal
  {
  }

  lemma {:induction false} SyncAhead(b: Book, r: SyncRequest)
    requires Inv(b) && (forall j :: 0 <= j < |b.entries| ==> b.entries[j].series in b.series) && Sync(b, r).Ok?
    ensures Ahead(b, Sync(b, r).value)
  {
    hide SyncEntry, CarriedBy;
    var carried := CarriedBy(b.entries, r.document, b.documents[r.document]);
    var kept := Dropped(b, r.document);
    SupersedeKeeps(b, r.document, carried);
    EntrySeries(kept);
    SyncEntryAhead(kept, r, if r.chosen.Some? then r.chosen else carried);
    var z := Sync(b, r).value;
    forall i: nat | |b.entries| <= i < |z.entries|
      ensures AheadAt(b, z, i)
    {
      assert AheadAt(kept, z, i);
    }
  }

  lemma {:induction false} SyncEntryAhead(b: Book, r: SyncRequest, existing: Option<nat>)
    requires Inv(b) && (forall j :: 0 <= j < |b.entries| ==> b.entries[j].series in b.series)
    requires r.document in b.documents && (existing.Some? ==> existing.value < |b.entries|)
    requires SyncEntry(b, r, existing).Ok?
    ensures Ahead(b, SyncEntry(b, r, existing).value)
  {
    hide Attach, Reserve, FieldRefusal;
    var z := SyncEntry(b, r, existing).value;
    if z != b {
      if existing.Some? {
        AttachFrame(b, r, b.entries[existing.value].series, existing.value);
      } else {
        var req := CardReserve(r, r.boundSeries.value, b.documents[r.document]);
        ReserveAhead(b, req);
        var after := Reserve(b, req).value;
        AttachFrame(after.book, r, r.boundSeries.value, after.ids[0]);
        forall i: nat | |b.entries| <= i < |z.entries|
          ensures AheadAt(b, z, i)
        {
          assert AheadAt(b, after.book, i);
        }
      }
    }
  }

  lemma {:induction false} StepAhead(b: Book, op: Op)
    requires Inv(b) && OpOk(op)
    ensures Ahead(b, After(b, op))
  {
    hide Reserve, Sync, LinkRefusal, NumberClaim, Inv;
    EntrySeries(b);
    if Apply(b, op).Ok? {
      if op.OpReserve? {
        ReserveAhead(b, op.reserve);
      } else if op.OpSync? {
        SyncAhead(b, op.sync);
      }
    }
  }

  lemma {:induction false} RunAhead(b: Book, ops: seq<Op>)
    requires Inv(b) && forall i :: 0 <= i < |ops| ==> OpOk(ops[i])
    ensures Ahead(b, Run(b, ops))
    decreases |ops|
  {
    hide Apply, Inv, After;
    if ops != [] {
      var y := After(b, ops[0]);
      StepAhead(b, ops[0]);
      RunAhead(y, ops[1..]);
      var z := Run(b, ops);
      KeptPlaces(y, ops[1..]);
      forall i: nat | |b.entries| <= i < |z.entries|
        ensures AheadAt(b, z, i)
      {
        if i < |y.entries| {
          assert AheadAt(b, y, i);
        } else {
          assert AheadAt(y, z, i);
        }
      }
    }
  }

  lemma {:induction false} KeptPlaces(b: Book, ops: seq<Op>)
    requires Inv(b) && forall i :: 0 <= i < |ops| ==> OpOk(ops[i])
    ensures |b.entries| <= |Run(b, ops).entries|
    ensures forall i :: 0 <= i < |b.entries| ==> Evolves(b.entries[i], Run(b, ops).entries[i])
  {
    RunExtends(b, ops);
    forall i | 0 <= i < |b.entries|
      ensures Evolves(b.entries[i], Run(b, ops).entries[i])
    {
      assert EntryKept(b, Run(b, ops), i);
    }
  }

  /**
   An ordinal reserved later in the period counts as free now exactly when it is not below the
   present start of the series. Below it an ordinal can only be reserved after the start was lowered,
   which is possible only before the first number of the series.
   */
  lemma {:induction false} LaterNumbersWereFree(b: Book, ops: seq<Op>, c: CounterKey, i: nat)
    requires Inv(b) && (forall n :: 0 <= n < |ops| ==> OpOk(ops[n])) && c.series in b.series
    requires |b.entries| <= i < |Run(b, ops).entries| && InPeriod(Run(b, ops).entries[i], c)
    ensures var ordinal := Run(b, ops).entries[i].ordinal;
            SlotOf(b, c, ordinal).Free? <==> ordinal >= b.series[c.series].start
  {
    hide SlotOf, Run;
    var z := Run(b, ops);
    FreeIsFrontier(b, c, z.entries[i].ordinal);
    if c in b.counters {
      RunAhead(b, ops);
      assert AheadAt(b, z, i);
      CounterNotBelowStart(b, c);
    }
  }

  lemma {:induction false} CounterNotBelowStart(b: Book, c: CounterKey)
    requires Inv(b) && c.series in b.series && c in b.counters
    ensures b.counters[c] >= b.series[c.series].start
  {
    var s := b.series[c.series];
    var k: nat :| b.counters[c] == At(s.start, s.step, k);
    AtLeast(s.start, s.step, k);
  }

  /** So every position of a listing that is handed out later was listed as free. */
  lemma {:induction false} ListedNumbersWereFree(b: Book, ops: seq<Op>, c: CounterKey, i: nat, from: nat)
    requires Inv(b) && (forall n :: 0 <= n < |ops| ==> OpOk(ops[n]))
    requires c.series in b.series && b.series[c.series].step >= 1
    requires |b.entries| <= i < |Run(b, ops).entries| && InPeriod(Run(b, ops).entries[i], c)
    requires Run(b, ops).entries[i].ordinal >= FirstOrdinal(b.series[c.series], from)
    ensures SlotOf(b, c, Run(b, ops).entries[i].ordinal).Free?
  {
    hide SlotOf, Run;
    LaterNumbersWereFree(b, ops, c, i);
    FirstIsLeast(b.series[c.series], from);
  }

  lemma {:induction false} AtLeast(first: nat, step: nat, k: nat)
    ensures At(first, step, k) >= first
  {
    if k > 0 {
      AtLeast(first, step, k - 1);
    }
  }

  // ---------------------------------------------------------------------------
  // The concrete case
  // ---------------------------------------------------------------------------

  function SampleFrom(start: nat): Series {
    Series(1, [], SampleLayout(""), start, 1, true, 20, None, 1, true)
  }

  const BEGUN: Op := OpCreate(1, SampleFrom(10), true)
  const LOWERED: Op := OpPatch(1, SampleFrom(5), true)
  const TAKEN: Op :=
    OpReserve(ReserveRequest(1, 7, "k", "reserve", 1, None, "2026", 0, None, None, true, true, true))

  /**
   A series is created with start 10 and its start is lowered to 5 before the first reservation, which
   gets ordinal 5: an ordinal the listing called unavailable when the series was new.
   */
  lemma {:induction false} UnavailableHandedOut()
    ensures Inv(EMPTY) && OpOk(BEGUN) && OpOk(LOWERED) && OpOk(TAKEN)
    ensures var b := After(EMPTY, BEGUN);
            var z := Run(b, [LOWERED, TAKEN]);
            && 1 in b.series && b.entries == [] && SlotOf(b, CounterKey(1, "2026"), 5) == Unavailable
            && |z.entries| == 1 && InPeriod(z.entries[0], CounterKey(1, "2026")) && z.entries[0].ordinal == 5
  {
    hide Occupied, NumberOf, OrdinalClaim, EntryFor, Inv, Render;
    EmptyInv();
    var b := After(EMPTY, BEGUN);
    SampleSettings();
    assert b == EMPTY.(series := map[1 := SampleFrom(10)]);
    var y := After(b, LOWERED);
    assert y == EMPTY.(series := map[1 := SampleFrom(5)]);
    var z := After(y, TAKEN);
    var s, r := SampleFrom(5), TAKEN.reserve;
    assert NextFree(y.claims, s, "2026", ScopeFor(s, r), 5) == Ok(5) by {
      NothingOccupied(s, "2026", ScopeFor(s, r), 5);
    }
    var e := EntryFor(s, r, None, 5);
    assert e.ordinal == 5 && InPeriod(e, CounterKey(1, "2026")) by {
      SampleEntry(s, r);
    }
    assert Allocate(y, s, r, None, 1, 5) == Ok((Insert(y, e, OrdinalClaim(s, "2026", ScopeFor(s, r), 5)), 6));
    assert z.entries == [e];
    assert [LOWERED, TAKEN][1..] == [TAKEN] && [TAKEN][1..] == [];
    assert Run(z, []) == z && Run(y, [TAKEN]) == z;
  }

  lemma {:induction false} SampleSettings()
    ensures SeriesOk(SampleFrom(10)) && SeriesOk(SampleFrom(5))
    ensures Render(SampleLayout(""), "2026", 5).Some?
  {
    assert OrdinalCount([Prefix, Ordinal]) == 1 + OrdinalCount([Prefix, Ordinal][1..][1..]);
  }

  lemma {:induction false} SampleEntry(s: Series, r: ReserveRequest)
    ensures EntryFor(s, r, None, 5).ordinal == 5 && EntryFor(s, r, None, 5).period == r.period
    ensures EntryFor(s, r, None, 5).series == r.series
  {
  }
}
