/** What producers, handlers and readers may rely on over every interleaving of steps, and the batch itself. */
module OutboxRuns {
  import opened Prelude
  import opened Outbox

  ghost predicate CanRun(w: World, steps: seq<Step>)
    decreases |steps|
  {
    steps == [] || (Enabled(w, steps[0]) && CanRun(Next(w, steps[0]), steps[1..]))
  }

  ghost function Run(w: World, steps: seq<Step>): World
    requires CanRun(w, steps)
    decreases |steps|
  {
    if steps == [] then w else Run(Next(w, steps[0]), steps[1..])
  }

  const EMPTY: World := World([], {}, [], 0, map[])

  lemma {:induction false} EmptyInv()
    ensures Inv(EMPTY)
  {
  }

  lemma {:induction false} RunKeepsInv(w: World, steps: seq<Step>)
    requires Inv(w) && CanRun(w, steps)
    ensures Inv(Run(w, steps)) && Publishes(w, Run(w, steps))
    decreases |steps|
  {
    hide Inv, Publishes, Next, Enabled;
    if steps == [] {
      PublishesSame(w);
    } else {
      NextKeepsInv(w, steps[0]);
      RunKeepsInv(Next(w, steps[0]), steps[1..]);
      PublishesTwice(w, Next(w, steps[0]), Run(w, steps));
    }
  }

  /** No event ever becomes visible with an ordinal at or below one that was visible before it. */
  lemma {:induction false} OrdinalsBecomeVisibleInOrder(w: World, steps: seq<Step>, i: nat, j: nat)
    requires Inv(w) && CanRun(w, steps)
    requires Visible(w, i) && Visible(Run(w, steps), j) && !Visible(w, j)
    ensures OrdinalOf(w, i) == OrdinalOf(Run(w, steps), i) < OrdinalOf(Run(w, steps), j)
  {
    RunKeepsInv(w, steps);
    assert EventOk(w, i);
  }

  function Count(log: seq<nat>, i: nat): nat {
    if log == [] then 0 else (if log[0] == i then 1 else 0) + Count(log[1..], i)
  }

  lemma {:induction false} CountDistinct(log: seq<nat>, i: nat)
    requires forall j, k :: 0 <= j < k < |log| ==> log[j] != log[k]
    ensures Count(log, i) == if i in log then 1 else 0
  {
    if log != [] {
      CountDistinct(log[1..], i);
      assert forall k :: 0 <= k < |log[1..]| ==> log[1..][k] == log[k + 1];
    }
  }

  /** The effect of a handler is committed exactly once for a processed event, and never for another. */
  lemma {:induction false} EffectExactlyWhenProcessed(steps: seq<Step>, i: nat)
    requires CanRun(EMPTY, steps) && i < |Run(EMPTY, steps).events|
    ensures var w := Run(EMPTY, steps);
            Count(w.effects, i) == if w.events[i].state.Processed? then 1 else 0
  {
    EmptyInv();
    RunKeepsInv(EMPTY, steps);
    var w := Run(EMPTY, steps);
    assert EventOk(w, i);
    CountDistinct(w.effects, i);
  }

  /**
   Pending events have attempts left, a failed event has used exactly five, and only processed events
   have ordinals.
   */
  lemma {:induction false} AttemptsAreBounded(steps: seq<Step>, i: nat)
    requires CanRun(EMPTY, steps) && i < |Run(EMPTY, steps).events|
    ensures var e := Run(EMPTY, steps).events[i];
            && (e.state.Pending? ==> e.attempts < MAX_ATTEMPTS)
            && (e.state.Failed? ==> e.attempts == MAX_ATTEMPTS)
            && (e.state.Processed? <==> e.ordinal.Some?)
  {
    EmptyInv();
    RunKeepsInv(EMPTY, steps);
    assert EventOk(Run(EMPTY, steps), i);
  }

  /**
   A reader that follows its bookmarks has been shown every event published up to the bookmark exactly
   once and in the order of delivery, however its pages interleave with batches and rollbacks.
   */
  lemma {:induction false} ReaderMissesNothing(steps: seq<Step>, reader: nat, i: nat)
    requires CanRun(EMPTY, steps) && reader in Run(EMPTY, steps).readers
    ensures var w := Run(EMPTY, steps);
            var r := w.readers[reader];
            && Count(r.seen, i) == (if Visible(w, i) && OrdinalOf(w, i) <= r.after then 1 else 0)
            && Ascending(w, r.seen)
  {
    EmptyInv();
    RunKeepsInv(EMPTY, steps);
    var w := Run(EMPTY, steps);
    var r := w.readers[reader];
    assert ReaderOk(w, r);
    forall j, k | 0 <= j < k < |r.seen| ensures r.seen[j] != r.seen[k] {
      assert OrdinalOf(w, r.seen[j]) < OrdinalOf(w, r.seen[k]);
    }
    CountDistinct(r.seen, i);
  }

  /** Reading to the end shows everything that is published. */
  lemma {:induction false} ReaderCatchesUp(w: World, reader: nat, page: seq<nat>)
    requires Inv(w) && Enabled(w, Read(reader, page))
    requires forall i: nat :: Visible(w, i) ==> OrdinalOf(w, i) <= End(w, w.readers[reader].after, page)
    ensures forall i: nat :: Visible(w, i) <==> i in Next(w, Read(reader, page)).readers[reader].seen
  {
  }

  lemma {:induction false} OrdinalNamesEvent(w: World, i: nat, j: nat)
    requires EventsOk(w) && Visible(w, i) && Visible(w, j) && OrdinalOf(w, i) == OrdinalOf(w, j)
    ensures i == j
  {
  }

  /** The query leaves no choice: a page is determined by the bookmark and its length. */
  lemma {:induction false} PageIsDetermined(w: World, after: nat, p: seq<nat>, q: seq<nat>, k: nat)
    requires EventsOk(w) && IsPage(w, after, p) && IsPage(w, after, q) && k <= |p| && k <= |q|
    ensures p[..k] == q[..k]
    decreases k
  {
    if k > 0 {
      assert Visible(w, p[k - 1]) && Visible(w, q[k - 1]);
      hide EventsOk, IsPage, Visible, OrdinalOf;
      PageIsDetermined(w, after, p, q, k - 1);
      NotBehind(w, after, p, q, k - 1);
      NotBehind(w, after, q, p, k - 1);
      OrdinalNamesEvent(w, p[k - 1], q[k - 1]);
      assert p[..k] == p[..k - 1] + [p[k - 1]] && q[..k] == q[..k - 1] + [q[k - 1]];
    }
  }

  lemma {:induction false} NotBehind(w: World, after: nat, p: seq<nat>, q: seq<nat>, k: nat)
    requires IsPage(w, after, p) && IsPage(w, after, q) && k < |p| && k < |q| && p[..k] == q[..k]
    ensures OrdinalOf(w, q[k]) <= OrdinalOf(w, p[k])
  {
  }

  // ---------------------------------------------------------------------------
  // The batch as it is run
  // ---------------------------------------------------------------------------

  /** How many of the first `n` turns publish their event. */
  function Published(w: World, batch: seq<nat>, oks: seq<bool>, n: nat, now: int): nat
    requires n <= |batch| == |oks| && forall k :: 0 <= k < |batch| ==> batch[k] < |w.events|
  {
    if n == 0 then 0
    else Published(w, batch, oks, n - 1, now)
         + if Handled(DeliverAll(w, batch, oks, n - 1, now), batch[n - 1], oks[n - 1]) then 1 else 0
  }

  class OutboxTable {
    var events: seq<Event>
    var receipts: set<nat>
    var effects: seq<nat>
    var sequence: nat

    constructor ()
      ensures Stored() == EMPTY
    {
      events, receipts, effects, sequence := [], {}, [], 0;
    }

    /** The tables as a value, without readers. */
    ghost function Stored(): World
      reads this
    {
      World(events, receipts, effects, sequence, map[])
    }

    /** The checks, then the handler and its receipt, unless the receipt is there already. */
    method ProcessEvent(i: nat, ok: bool) returns (raised: bool)
      requires i < |events|
      modifies `receipts, `effects
      ensures raised == !Handled(old(Stored()), i, ok)
      ensures !raised ==> receipts == old(receipts) + {i}
      ensures !raised ==> effects == if i in old(receipts) then old(effects) else old(effects) + [i]
    {
      if !events[i].valid {
        return true;
      }
      if i !in receipts {
        effects := effects + [i];
        if !ok {
          return true;
        }
        receipts := receipts + {i};
      }
      return false;
    }

    /** The body of the batch loop: a savepoint around the event, then its outcome. */
    method ProcessOne(i: nat, ok: bool, now: int) returns (published: bool)
      requires i < |events|
      modifies this
      ensures Stored() == Deliver(old(Stored()), i, ok, now)
      ensures published == Handled(old(Stored()), i, ok)
    {
      events := events[i := events[i].(attempts := events[i].attempts + 1)];
      var savedReceipts, savedEffects := receipts, effects;
      var raised := ProcessEvent(i, ok);
      if raised {
        receipts, effects := savedReceipts, savedEffects;
        events := events[i := events[i].(code := Some("handler_failed"), due := now + Delay(events[i].attempts))];
        if events[i].attempts >= MAX_ATTEMPTS {
          events := events[i := events[i].(state := Failed)];
        }
      } else {
        if events[i].ordinal.None? {
          sequence := sequence + 1;
          events := events[i := events[i].(ordinal := Some(sequence))];
        }
        events := events[i := events[i].(state := Processed, code := None)];
      }
      published := !raised;
    }

    /** `process_batch` on the events the query returned; `oks` says which handlers return. */
    method ProcessBatch(batch: seq<nat>, oks: seq<bool>, now: int) returns (completed: nat)
      requires |oks| == |batch| && forall k :: 0 <= k < |batch| ==> batch[k] < |events|
      modifies this
      ensures Stored() == DeliverAll(old(Stored()), batch, oks, |batch|, now)
      ensures completed == Published(old(Stored()), batch, oks, |batch|, now)
    {
      completed := 0;
      ghost var start := Stored();
      var k := 0;
      while k < |batch|
        invariant 0 <= k <= |batch| && |events| == |start.events|
        invariant Stored() == DeliverAll(start, batch, oks, k, now)
        invariant completed == Published(start, batch, oks, k, now)
      {
        var published := ProcessOne(batch[k], oks[k], now);
        if published {
          completed := completed + 1;
        }
        k := k + 1;
      }
    }

    /** The administrator's retry of a failed event. */
    method Retry(i: nat, now: int) returns (ok: bool)
      requires i < |events|
      modifies `events
      ensures ok == old(events)[i].state.Failed?
      ensures var event := old(events)[i];
              events == if !ok then old(events)
                        else old(events)[i := event.(state := Pending, attempts := 0, code := None, due := now)]
    {
      if !events[i].state.Failed? {
        return false;
      }
      events := events[i := events[i].(state := Pending, attempts := 0, code := None, due := now)];
      return true;
    }
  }
}
