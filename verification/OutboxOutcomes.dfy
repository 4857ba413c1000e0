/** What a batch does to each of its events, and the other steps to theirs, in terms of the stored fields. */
module OutboxOutcomes {
  import opened Prelude
  import opened Outbox
  import opened OutboxRuns

  /** The event of turn `k` passes its checks and its handler returns. */
  ghost predicate GoesThrough(w: World, batch: seq<nat>, oks: seq<bool>, k: nat)
    requires k < |batch| == |oks| && batch[k] < |w.events|
  {
    w.events[batch[k]].valid && oks[k]
  }

  /** The events of the first `n` turns that go through, in the order of the batch. */
  ghost function Through(w: World, batch: seq<nat>, oks: seq<bool>, n: nat): seq<nat>
    requires n <= |batch| == |oks| && forall k :: 0 <= k < |batch| ==> batch[k] < |w.events|
  {
    if n == 0 then []
    else Through(w, batch, oks, n - 1) + if GoesThrough(w, batch, oks, n - 1) then [batch[n - 1]] else []
  }

  /** The event is processed under the next ordinal. */
  ghost predicate Delivered(e: Event, z: Event, ordinal: nat) {
    && z.state == Processed && z.ordinal == Some(ordinal) && z.code == None && z.attempts == e.attempts + 1
    && z.created == e.created && z.valid == e.valid && z.due == e.due
  }

  /** The event has one attempt more and waits 2, 4, 8 or 16 seconds for the next; the fifth is its last. */
  ghost predicate PutOff(e: Event, z: Event, now: int) {
    && z.attempts == e.attempts + 1 && z.code == Some("handler_failed") && z.ordinal == e.ordinal
    && z.created == e.created && z.valid == e.valid
    && e.attempts < 5 && z.due == now + [2, 4, 8, 16, 32][e.attempts]
    && z.state == if e.attempts + 1 == 5 then Failed else Pending
  }

  ghost predicate TurnDone(w: World, t: World, batch: seq<nat>, oks: seq<bool>, k: nat, now: int)
    requires k < |batch| == |oks| && |t.events| == |w.events| && forall j :: 0 <= j < |batch| ==> batch[j] < |w.events|
  {
    var e, z := w.events[batch[k]], t.events[batch[k]];
    if GoesThrough(w, batch, oks, k) then Delivered(e, z, w.sequence + |Through(w, batch, oks, k)| + 1)
    else PutOff(e, z, now)
  }

  /** What `n` turns of a batch have done. */
  ghost predicate TurnsDone(w: World, t: World, batch: seq<nat>, oks: seq<bool>, n: nat, now: int)
    requires n <= |batch| == |oks| && forall j :: 0 <= j < |batch| ==> batch[j] < |w.events|
  {
    var through := Through(w, batch, oks, n);
    && |t.events| == |w.events|
    && (forall k :: 0 <= k < n ==> TurnDone(w, t, batch, oks, k, now))
    && (forall i :: 0 <= i < |w.events| && i !in batch[..n] ==> t.events[i] == w.events[i])
    && t.sequence == w.sequence + |through|
    && t.effects == w.effects + through
    && (forall i :: i in t.receipts <==> i in w.receipts || i in through)
    && t.readers == w.readers
  }

  /** The events of a batch wait for delivery, and each is there once. */
  ghost predicate Waiting(w: World, batch: seq<nat>) {
    && (forall k :: 0 <= k < |batch| ==> WaitingAt(w, batch[k]))
    && (forall j, k :: 0 <= j < k < |batch| ==> batch[j] != batch[k])
  }

  ghost predicate WaitingAt(w: World, i: nat) {
    && i < |w.events| && w.events[i].state == Pending && w.events[i].attempts < 5
    && w.events[i].ordinal == None && i !in w.receipts
  }

  lemma {:induction false} ThroughIsFromBatch(w: World, batch: seq<nat>, oks: seq<bool>, n: nat)
    requires n <= |batch| == |oks| && forall k :: 0 <= k < |batch| ==> batch[k] < |w.events|
    ensures forall i :: i in Through(w, batch, oks, n) ==> i in batch[..n]
  {
    hide GoesThrough;
    if n > 0 {
      ThroughIsFromBatch(w, batch, oks, n - 1);
      assert batch[..n] == batch[..n - 1] + [batch[n - 1]];
    }
  }

  lemma {:induction false} DelayTable(attempts: nat)
    requires attempts < 5
    ensures Delay(attempts + 1) == [2, 4, 8, 16, 32][attempts]
  {
    assert Power2(1) == 2 && Power2(2) == 4 && Power2(3) == 8;
    assert Power2(4) == 2 * Power2(3) && Power2(5) == 2 * Power2(4);
  }

  /** One turn: the event is delivered with its effect and its receipt, or put off. */
  ghost predicate Turn(t: World, u: World, i: nat, through: bool, now: int)
    requires i < |t.events|
  {
    && |u.events| == |t.events| && u.readers == t.readers
    && (forall j :: 0 <= j < |t.events| && j != i ==> u.events[j] == t.events[j])
    && if through then
         && Delivered(t.events[i], u.events[i], t.sequence + 1) && u.sequence == t.sequence + 1
         && u.effects == t.effects + [i] && u.receipts == t.receipts + {i}
       else
         && PutOff(t.events[i], u.events[i], now) && u.sequence == t.sequence
         && u.effects == t.effects && u.receipts == t.receipts
  }

  lemma {:induction false} TurnDelivers(t: World, i: nat, ok: bool, now: int)
    requires WaitingAt(t, i)
    ensures Turn(t, Deliver(t, i, ok, now), i, t.events[i].valid && ok, now)
  {
    hide Delay;
    DelayTable(t.events[i].attempts);
  }

  lemma {:induction false} OneTurnMore(w: World, t: World, u: World, batch: seq<nat>, oks: seq<bool>, m: nat, now: int)
    requires Waiting(w, batch) && m < |batch| == |oks| && TurnsDone(w, t, batch, oks, m, now)
    requires t.events[batch[m]] == w.events[batch[m]]
    requires Turn(t, u, batch[m], GoesThrough(w, batch, oks, m), now)
    ensures TurnsDone(w, u, batch, oks, m + 1, now)
  {
    hide Delivered, PutOff, GoesThrough;
    var i := batch[m];
    assert batch[..m + 1] == batch[..m] + [i];
    forall k | 0 <= k < m + 1
      ensures TurnDone(w, u, batch, oks, k, now)
    {
      if k < m {
        assert TurnDone(w, t, batch, oks, k, now) && batch[k] != i;
      }
    }
    assert w.effects + Through(w, batch, oks, m) + [i] == w.effects + (Through(w, batch, oks, m) + [i]);
  }

  lemma {:induction false} TurnsDo(w: World, batch: seq<nat>, oks: seq<bool>, n: nat, now: int)
    requires Waiting(w, batch) && n <= |batch| == |oks|
    ensures TurnsDone(w, DeliverAll(w, batch, oks, n, now), batch, oks, n, now)
  {
    hide Deliver, Turn, TurnDone;
    if n > 0 {
      var m := n - 1;
      var i, t := batch[m], DeliverAll(w, batch, oks, m, now);
      TurnsDo(w, batch, oks, m, now);
      ThroughIsFromBatch(w, batch, oks, m);
      assert WaitingAt(w, i) && i !in batch[..m] && t.events[i] == w.events[i];
      TurnDelivers(t, i, oks[m], now);
      OneTurnMore(w, t, Deliver(t, i, oks[m], now), batch, oks, m, now);
    }
  }

  lemma {:induction false} BatchWaits(w: World, batch: seq<nat>, limit: nat, locked: set<nat>, now: int)
    requires Inv(w) && IsBatch(w, batch, limit, locked, now)
    ensures Waiting(w, batch)
  {
    forall k | 0 <= k < |batch|
      ensures WaitingAt(w, batch[k])
    {
      assert Chosen(w, batch[k], locked, now) && EventOk(w, batch[k]);
    }
  }

  /**
   After a batch each of its events is processed if and only if it is valid and its handler returned: under
   an ordinal behind the old sequence, in the order of the batch, and with its effect committed once. Any
   other has one attempt more and is put off, or failed after the fifth. Nothing else has changed.
   */
  lemma {:induction false} BatchDelivers(w: World, batch: seq<nat>, oks: seq<bool>, limit: nat, locked: set<nat>,
                                         now: int)
    requires Inv(w) && Enabled(w, Batch(batch, oks, limit, locked, now))
    ensures forall k :: 0 <= k < |batch| ==> batch[k] < |w.events|
    ensures var t := Next(w, Batch(batch, oks, limit, locked, now));
            && TurnsDone(w, t, batch, oks, |batch|, now)
            && (forall k :: 0 <= k < |batch| ==>
                  (t.events[batch[k]].state == Processed <==> w.events[batch[k]].valid && oks[k]))
            && (forall j, k ::
                  0 <= j < k < |batch| && GoesThrough(w, batch, oks, j) && GoesThrough(w, batch, oks, k) ==>
                  w.sequence < OrdinalOf(t, batch[j]) < OrdinalOf(t, batch[k]) <= t.sequence)
            && (forall k :: 0 <= k < |batch| ==>
                  Count(t.effects, batch[k]) == if GoesThrough(w, batch, oks, k) then 1 else 0)
  {
    hide Inv, IsBatch, TurnsDone, DeliverAll, Delivered, PutOff, TurnDone, OrdinalOf;
    BatchWaits(w, batch, limit, locked, now);
    TurnsDo(w, batch, oks, |batch|, now);
    BatchKeepsInv(w, batch, oks, |batch|, limit, locked, now);
    var t := DeliverAll(w, batch, oks, |batch|, now);
    forall k | 0 <= k < |batch|
      ensures t.events[batch[k]].state == Processed <==> GoesThrough(w, batch, oks, k)
      ensures Count(t.effects, batch[k]) == if GoesThrough(w, batch, oks, k) then 1 else 0
    {
      TurnState(w, t, batch, oks, k, now);
      EffectOnce(t, batch[k]);
    }
    forall j, k | 0 <= j < k < |batch| && GoesThrough(w, batch, oks, j) && GoesThrough(w, batch, oks, k)
      ensures w.sequence < OrdinalOf(t, batch[j]) < OrdinalOf(t, batch[k]) <= t.sequence
    {
      InOrder(w, t, batch, oks, j, k, now);
    }
  }

  lemma {:induction false} TurnState(w: World, t: World, batch: seq<nat>, oks: seq<bool>, k: nat, now: int)
    requires k < |batch| == |oks| && forall j :: 0 <= j < |batch| ==> batch[j] < |w.events|
    requires TurnsDone(w, t, batch, oks, |batch|, now)
    ensures t.events[batch[k]].state == Processed <==> GoesThrough(w, batch, oks, k)
    ensures GoesThrough(w, batch, oks, k) ==>
              OrdinalOf(t, batch[k]) == w.sequence + |Through(w, batch, oks, k)| + 1
    ensures t.sequence == w.sequence + |Through(w, batch, oks, |batch|)|
  {
    assert TurnDone(w, t, batch, oks, k, now);
  }

  lemma {:induction false} ThroughGrows(w: World, batch: seq<nat>, oks: seq<bool>, m: nat, n: nat)
    requires m <= n <= |batch| == |oks| && forall k :: 0 <= k < |batch| ==> batch[k] < |w.events|
    ensures |Through(w, batch, oks, m)| <= |Through(w, batch, oks, n)|
    decreases n
  {
    hide GoesThrough;
    if m < n {
      ThroughGrows(w, batch, oks, m, n - 1);
    }
  }

  lemma {:induction false} InOrder(w: World, t: World, batch: seq<nat>, oks: seq<bool>, j: nat, k: nat, now: int)
    requires j < k < |batch| == |oks| && forall i :: 0 <= i < |batch| ==> batch[i] < |w.events|
    requires TurnsDone(w, t, batch, oks, |batch|, now)
    requires GoesThrough(w, batch, oks, j) && GoesThrough(w, batch, oks, k)
    ensures w.sequence < OrdinalOf(t, batch[j]) < OrdinalOf(t, batch[k]) <= t.sequence
  {
    hide TurnsDone, OrdinalOf, GoesThrough;
    TurnState(w, t, batch, oks, j, now);
    TurnState(w, t, batch, oks, k, now);
    ThroughGrows(w, batch, oks, j + 1, k);
    ThroughGrows(w, batch, oks, k + 1, |batch|);
  }

  lemma {:induction false} EffectOnce(w: World, i: nat)
    requires Inv(w) && i < |w.events|
    ensures Count(w.effects, i) == if w.events[i].state == Processed then 1 else 0
  {
    assert EventOk(w, i);
    CountDistinct(w.effects, i);
  }

  /** The number of completed events that a batch reports is the number of those that went through. */
  lemma {:induction false} ReportsThrough(w: World, batch: seq<nat>, oks: seq<bool>, n: nat, now: int)
    requires Waiting(w, batch) && n <= |batch| == |oks|
    ensures Published(w, batch, oks, n, now) == |Through(w, batch, oks, n)|
  {
    hide Deliver, TurnDone;
    if n > 0 {
      var m := n - 1;
      ReportsThrough(w, batch, oks, m, now);
      TurnsDo(w, batch, oks, m, now);
      ThroughIsFromBatch(w, batch, oks, m);
      var i, t := batch[m], DeliverAll(w, batch, oks, m, now);
      assert WaitingAt(w, i) && i !in batch[..m] && t.events[i] == w.events[i];
    }
  }

  /** A batch that rolls back has drawn an ordinal for each event that went through, and done nothing else. */
  lemma {:induction false} AbortDraws(w: World, batch: seq<nat>, oks: seq<bool>, turns: nat, limit: nat,
                                      locked: set<nat>, now: int)
    requires Inv(w) && Enabled(w, Abort(batch, oks, turns, limit, locked, now))
    ensures forall k :: 0 <= k < |batch| ==> batch[k] < |w.events|
    ensures Next(w, Abort(batch, oks, turns, limit, locked, now)) ==
            w.(sequence := w.sequence + |Through(w, batch, oks, turns)|)
  {
    hide Inv, IsBatch, DeliverAll, TurnDone;
    BatchWaits(w, batch, limit, locked, now);
    TurnsDo(w, batch, oks, turns, now);
  }

  /** An event starts pending and due, without attempts; a failed one can be put back so. */
  ghost predicate Fresh(e: Event, now: int) {
    e.state == Pending && e.attempts == 0 && e.due == now && e.code == None
  }

  lemma {:induction false} ProducedAndRetried(w: World, created: int, valid: bool, now: int, i: nat)
    ensures var t := Next(w, Produce(created, valid, now));
            && t == w.(events := t.events) && |t.events| == |w.events| + 1 && t.events[..|w.events|] == w.events
            && var e := t.events[|w.events|];
               Fresh(e, now) && e.created == created && e.valid == valid && e.ordinal == None
    ensures Enabled(w, Retry(i, now)) <==> i < |w.events| && w.events[i].state == Failed
    ensures Enabled(w, Retry(i, now)) ==>
              var t := Next(w, Retry(i, now));
              && t == w.(events := t.events) && |t.events| == |w.events|
              && (forall j :: 0 <= j < |w.events| && j != i ==> t.events[j] == w.events[j])
              && Fresh(t.events[i], now) && t.events[i].created == w.events[i].created
              && t.events[i].valid == w.events[i].valid && t.events[i].ordinal == w.events[i].ordinal
  {
  }

  // ---------------------------------------------------------------------------
  // Nothing waits for ever
  // ---------------------------------------------------------------------------

  /** The attempts the first `n` events have left. */
  function Left(events: seq<Event>, n: nat): nat
    requires n <= |events|
  {
    if n == 0 then 0
    else Left(events, n - 1) + LeftOf(events[n - 1])
  }

  function LeftOf(e: Event): nat {
    if e.state.Pending? && e.attempts < 5 then 5 - e.attempts else 0
  }

  lemma {:induction false} LeftShrinks(a: seq<Event>, b: seq<Event>, n: nat, i: nat)
    requires n <= |a| == |b| && i < |a| && LeftOf(b[i]) < LeftOf(a[i])
    requires forall j :: 0 <= j < |a| && j != i ==> b[j] == a[j]
    ensures Left(b, n) <= Left(a, n) && (i < n ==> Left(b, n) < Left(a, n))
    decreases n
  {
    if n > 0 {
      LeftShrinks(a, b, n - 1, i);
    }
  }

  /** A time at which each of the first `n` events is due. */
  function Latest(events: seq<Event>, n: nat): (t: int)
    requires n <= |events|
    ensures forall i :: 0 <= i < n ==> events[i].due <= t
  {
    if n == 0 then 0
    else
      var t := Latest(events, n - 1);
      if events[n - 1].due > t then events[n - 1].due else t
  }

  /** The pending event that was created first, of the first `n`. */
  ghost predicate FirstWaiting(w: World, n: nat, i: nat) {
    && i < n <= |w.events| && w.events[i].state == Pending
    && forall j :: 0 <= j < n && w.events[j].state == Pending ==> w.events[i].created <= w.events[j].created
  }

  lemma {:induction false} FindFirst(w: World, n: nat, some: nat) returns (i: nat)
    requires some < n <= |w.events| && w.events[some].state == Pending
    ensures FirstWaiting(w, n, i)
    decreases n
  {
    if exists j :: 0 <= j < n - 1 && w.events[j].state == Pending {
      var other: nat :| other < n - 1 && w.events[other].state == Pending;
      i := FindFirst(w, n - 1, other);
      if w.events[n - 1].state == Pending && w.events[n - 1].created < w.events[i].created {
        i := n - 1;
      }
    } else {
      i := n - 1;
    }
  }

  /** Batches whose handlers all return, with nothing locked. */
  ghost predicate GoodBatches(steps: seq<Step>) {
    forall i :: 0 <= i < |steps| ==>
      steps[i].Batch? && steps[i].locked == {} && forall k :: 0 <= k < |steps[i].oks| ==> steps[i].oks[k]
  }

  /** Nothing is pending any more, and every valid event that was pending has been processed. */
  ghost predicate Drained(w: World, t: World) {
    && |t.events| == |w.events|
    && (forall i :: 0 <= i < |w.events| ==> t.events[i].state != Pending)
    && (forall i :: 0 <= i < |w.events| && w.events[i].state == Pending && w.events[i].valid ==>
          t.events[i].state == Processed)
  }

  lemma {:induction false} BatchOfFirst(w: World, i: nat) returns (step: Step)
    requires Inv(w) && FirstWaiting(w, |w.events|, i)
    ensures GoodBatches([step]) && Enabled(w, step)
    ensures var t := Next(w, step);
            && |t.events| == |w.events| && (forall j :: 0 <= j < |w.events| && j != i ==> t.events[j] == w.events[j])
            && LeftOf(t.events[i]) < LeftOf(w.events[i]) && t.events[i].valid == w.events[i].valid
            && (w.events[i].valid ==> t.events[i].state == Processed)
  {
    var now := Latest(w.events, |w.events|);
    step := Batch([i], [true], 1, {}, now);
    assert Chosen(w, i, {}, now);
    hide Inv, Latest;
    BatchDelivers(w, [i], [true], 1, {}, now);
    var t := Next(w, step);
    assert TurnDone(w, t, [i], [true], 0, now);
    assert [i][..1] == [i];
    assert EventPending(w, i) by { PendingLeft(w, i); }
  }

  ghost predicate EventPending(w: World, i: nat) {
    i < |w.events| && w.events[i].state == Pending && w.events[i].attempts < 5
  }

  lemma {:induction false} PendingLeft(w: World, i: nat)
    requires Inv(w) && i < |w.events| && w.events[i].state == Pending
    ensures EventPending(w, i)
  {
    assert EventOk(w, i);
  }

  /**
   From every reachable world batches whose handlers return, each of the pending event that was created
   first, process every valid event and leave nothing pending.
   */
  lemma {:induction false} CanDrain(w: World) returns (steps: seq<Step>)
    requires Inv(w)
    ensures GoodBatches(steps) && CanRun(w, steps) && Drained(w, Run(w, steps))
    decreases Left(w.events, |w.events|)
  {
    hide Inv, Enabled, Next, Left, LeftOf, FirstWaiting;
    if some: nat :| some < |w.events| && w.events[some].state == Pending {
      var i := FindFirst(w, |w.events|, some);
      assert i < |w.events| && w.events[i].state == Pending by { FirstIsPending(w, i); }
      var step := BatchOfFirst(w, i);
      var t := Next(w, step);
      NextKeepsInv(w, step);
      LeftShrinks(w.events, t.events, |w.events|, i);
      var rest := CanDrain(t);
      steps := [step] + rest;
      assert steps[1..] == rest;
      if t.events[i].state == Processed {
        ProcessedStays(t, rest, i);
      }
    } else {
      steps := [];
    }
  }

  lemma {:induction false} ProcessedStays(w: World, steps: seq<Step>, i: nat)
    requires Inv(w) && CanRun(w, steps) && i < |w.events| && w.events[i].state == Processed
    ensures i < |Run(w, steps).events| && Run(w, steps).events[i].state == Processed
  {
    RunKeepsInv(w, steps);
    assert EventOk(w, i);
    assert Visible(w, i);
  }

  lemma {:induction false} FirstIsPending(w: World, i: nat)
    requires FirstWaiting(w, |w.events|, i)
    ensures i < |w.events| && w.events[i].state == Pending
  {
  }
}
