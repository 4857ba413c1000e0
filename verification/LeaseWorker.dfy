/** The extraction table as the worker's transactions and `queue_file` update it. */
module LeaseWorker {
  import opened Prelude
  import opened ParserResults
  import opened Leases

  /** What the worker makes of the parser's reply. */
  method Evaluate(reply: Reply, parser: string, version: string) returns (o: Outcome)
    ensures o == Judge(reply, parser, version)
  {
    hide ResultOk, BlocksOk;
    var failed := Outcome(Failed, "", [], Some("parser_failed"));
    if !reply.Reply? {
      return failed;
    }
    if reply.parser != parser || reply.version != version {
      return Outcome(Failed, "", [], Some("parser_version_changed"));
    }
    var ok := ValidResult(reply);
    if !ok {
      return failed;
    }
    assert reply.fullText.Some? && reply.blocks.Some? by { ResultHasParts(reply); }
    return Outcome(StateOf(reply.state), reply.fullText.value, reply.blocks.value, CleanCode(reply.code));
  }

  lemma {:induction false} ResultHasParts(reply: Reply)
    requires ResultOk(reply)
    ensures reply.fullText.Some? && reply.blocks.Some?
  {
  }

  class ExtractionTable {
    var rows: seq<Row>

    constructor ()
      ensures rows == []
    {
      rows := [];
    }

    /** `SELECT ... WHERE running AND lease_until < now FOR UPDATE SKIP LOCKED LIMIT 5`. */
    method FindAbandoned(now: int, locked: set<nat>) returns (found: seq<nat>, ghost chosen: set<nat>)
      ensures MayAbandon(rows, chosen, locked, now)
      ensures forall i :: i in chosen <==> i in found
    {
      found, chosen := [], {};
      var i := 0;
      while i < |rows| && |found| < ABANDONED_LIMIT
        invariant 0 <= i <= |rows|
        invariant |chosen| == |found| <= ABANDONED_LIMIT
        invariant forall k :: k in chosen <==> k in found
        invariant forall k :: k in chosen ==> k < i && k !in locked && Expired(rows[k], now)
        invariant forall k :: 0 <= k < i && Expired(rows[k], now) && k !in locked ==> k in chosen
      {
        if i !in locked && Expired(rows[i], now) {
          found := found + [i];
          chosen := chosen + {i};
        }
        i := i + 1;
      }
    }

    /** A crashed worker never leaves a permanent running state. */
    method RecoverAbandoned(now: int, locked: set<nat>) returns (ghost chosen: set<nat>)
      modifies this
      ensures MayAbandon(old(rows), chosen, locked, now)
      ensures rows == AbandonAll(old(rows), chosen)
    {
      var found;
      found, chosen := FindAbandoned(now, locked);
      ghost var before := rows;
      ghost var done: set<nat> := {};
      var k := 0;
      while k < |found|
        invariant 0 <= k <= |found|
        invariant forall i :: i in done <==> i in found[..k]
        invariant rows == AbandonAll(before, done)
      {
        var i := found[k];
        assert i in chosen;
        AbandonTwice(before[i]);
        var next := if rows[i].attempts < MAX_ATTEMPTS then Pending else Failed;
        rows := rows[i := rows[i].(state := next, code := Some("worker_interrupted"), lease := None)];
        done := done + {i};
        k := k + 1;
      }
      assert found[..k] == found;
      assert done == chosen;
    }

    /** The queue's first unlocked row that is due. */
    method PickPending(now: int, locked: set<nat>) returns (best: Option<nat>)
      ensures best == Select(rows, |rows|, locked, now)
    {
      best := None;
      var n := 0;
      while n < |rows|
        invariant 0 <= n <= |rows|
        invariant best == Select(rows, n, locked, now)
      {
        if n !in locked && Eligible(rows[n], now) && (best.None? || Before(rows, n, best.value)) {
          best := Some(n);
        }
        n := n + 1;
      }
    }

    /** The claim transaction of one worker. */
    method ClaimNext(now: int, locked: set<nat>) returns (claim: Option<Held>, ghost chosen: set<nat>)
      modifies this
      ensures MayAbandon(old(rows), chosen, locked, now)
      ensures rows == Claimed(old(rows), chosen, locked, now).0
      ensures match Claimed(old(rows), chosen, locked, now).1
              case None => claim == None
              case Some(i) => claim == Some(Held(i, old(rows)[i].attempts + 1, None))
    {
      hide MayAbandon, Eligible, Before;
      chosen := RecoverAbandoned(now, locked);
      var row := PickPending(now, locked);
      claim := None;
      if row.Some? {
        var i := row.value;
        rows := rows[i := rows[i].(state := Running, lease := Some(now + LEASE_SECONDS))];
        rows := rows[i := rows[i].(attempts := rows[i].attempts + 1)];
        claim := Some(Held(i, rows[i].attempts, None));
      }
    }

    /** The second transaction: store the reply of a finished parser run, if the row is still the worker's. */
    method StoreResult(claim: Held, reply: Reply, now: int) returns (stored: bool)
      requires claim.row < |rows|
      modifies this
      ensures stored == StillMine(old(rows)[claim.row], claim.attempt)
      ensures rows == if stored
                      then old(rows)[claim.row := Finish(old(rows)[claim.row],
                             Judge(reply, old(rows)[claim.row].parser, old(rows)[claim.row].version), now)]
                      else old(rows)
    {
      hide Judge, Stored;
      var before := rows[claim.row];
      var o := Evaluate(reply, before.parser, before.version);
      if !before.state.Running? || before.attempts != claim.attempt {
        return false;
      }
      var row := before.(text := o.text, state := o.state, lease := None, code := o.code);
      var n := 0;
      while n < |o.blocks|
        invariant 0 <= n <= |o.blocks|
        invariant row == before.(text := o.text, state := o.state, lease := None, code := o.code,
                    blocks := before.blocks + StoredBlocks(before.fingerprint, o.blocks)[..n])
      {
        row := row.(blocks := row.blocks + [Stored(before.fingerprint, o.blocks, n)]);
        n := n + 1;
      }
      assert StoredBlocks(before.fingerprint, o.blocks)[..n] == StoredBlocks(before.fingerprint, o.blocks);
      if row.state.Failed? && row.code.Some? && row.code.value in RETRYABLE && row.attempts < MAX_ATTEMPTS {
        row := row.(state := Pending);
        row := row.(due := now + Power2(row.attempts));
      }
      rows := rows[claim.row := row];
      return true;
    }

    /** `queue_file`: an idempotent insert, and on request a retry of a failed row. */
    method QueueFile(file: File, live: bool, retry: bool, now: int) returns (row: Option<nat>)
      modifies this
      ensures rows == Queued(old(rows), file, live, retry, now)
      ensures row == if live then Lookup(rows, |rows|, file.fingerprint) else None
    {
      if !live {
        return None;
      }
      ghost var before := rows;
      row := Lookup(rows, |rows|, file.fingerprint);
      if row.None? {
        rows := rows + [NewRow(file, now)];
        row := Lookup(rows, |rows|, file.fingerprint);
      } else {
        var i := row.value;
        if retry && rows[i].state.Failed? && rows[i].attempts < MAX_ATTEMPTS {
          rows := rows[i := rows[i].(state := Pending, code := None, due := now, lease := None)];
        }
        LookupSame(before, rows, |rows|, file.fingerprint);
      }
    }
  }

  lemma {:induction false} AbandonTwice(row: Row)
    ensures Abandon(Abandon(row)) == Abandon(row)
  {
  }

  lemma {:induction false} LookupSame(a: seq<Row>, b: seq<Row>, n: nat, fingerprint: string)
    requires n <= |a| == |b| && forall i :: 0 <= i < |a| ==> a[i].fingerprint == b[i].fingerprint
    ensures Lookup(a, n, fingerprint) == Lookup(b, n, fingerprint)
  {
    if n > 0 {
      LookupSame(a, b, n - 1, fingerprint);
    }
  }

  /**
   Queueing the same file again without a retry changes nothing, and a retry only helps a failed row
   with attempts left.
   */
  lemma {:induction false} QueueingIsIdempotent(rows: seq<Row>, file: File, live: bool, first: bool, retry: bool,
                                               now: int, later: int)
    ensures var once := Queued(rows, file, live, first, now);
            && Queued(once, file, live, false, later) == once
            && (Queued(once, file, live, retry, later) != once ==>
                  exists i :: 0 <= i < |once| && once[i].fingerprint == file.fingerprint
                              && once[i].state.Failed? && once[i].attempts < MAX_ATTEMPTS && retry)
  {
    var once := Queued(rows, file, live, first, now);
    var found := Lookup(once, |once|, file.fingerprint);
    if live && Lookup(rows, |rows|, file.fingerprint).Some? {
      LookupSame(rows, once, |rows|, file.fingerprint);
    }
  }
}
