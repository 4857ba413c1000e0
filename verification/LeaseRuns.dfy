/** What holds over every interleaving of claims, parser runs, stores, crashes, retries and deletions. */
module LeaseRuns {
  import opened Prelude
  import opened ParserResults
  import opened Leases

  /** The steps can be taken one after the other from `s`. */
  ghost predicate CanRun(s: System, steps: seq<Step>)
    decreases |steps|
  {
    steps == [] || (Enabled(s, steps[0]) && CanRun(Next(s, steps[0]), steps[1..]))
  }

  ghost function Run(s: System, steps: seq<Step>): System
    requires CanRun(s, steps)
    decreases |steps|
  {
    if steps == [] then s else Run(Next(s, steps[0]), steps[1..])
  }

  const EMPTY: System := System([], map[], [], [], [])

  lemma {:induction false} EvolvesTwice(a: seq<Row>, b: seq<Row>, c: seq<Row>)
    requires Evolves(a, b) && Evolves(b, c)
    ensures Evolves(a, c)
  {
  }

  /**
   In every reachable state attempts stay at most three, a pending row has attempts left, exactly the
   running rows have a lease, blocks exist only on completed rows and form a forest, and no attempt
   is held, begun, parsed or stored twice. Along the way rows only evolve.
   */
  lemma {:induction false} RunKeepsInv(s: System, steps: seq<Step>)
    requires Inv(s) && CanRun(s, steps)
    ensures Inv(Run(s, steps)) && Evolves(s.rows, Run(s, steps).rows)
    decreases |steps|
  {
    hide Inv, Evolves, Next, Enabled;
    if steps == [] {
      EvolvesSame(s.rows);
    } else {
      NextKeepsInv(s, steps[0]);
      RunKeepsInv(Next(s, steps[0]), steps[1..]);
      EvolvesTwice(s.rows, Next(s, steps[0]).rows, Run(s, steps).rows);
    }
  }

  lemma {:induction false} EvolvesSame(rows: seq<Row>)
    ensures Evolves(rows, rows)
  {
  }

  lemma {:induction false} EmptyInv()
    ensures Inv(EMPTY)
  {
  }

  /** A completed extraction keeps its state, text and blocks for ever. */
  lemma {:induction false} CompletedIsFinal(s: System, steps: seq<Step>, i: nat)
    requires Inv(s) && CanRun(s, steps) && i < |s.rows| && s.rows[i].state.Completed?
    ensures var t := Run(s, steps); i < |t.rows| && t.rows[i] == s.rows[i].(live := t.rows[i].live)
  {
    RunKeepsInv(s, steps);
    assert RowEvolves(s.rows[i], Run(s, steps).rows[i]);
  }

  /**
   Blocks appear only in the step in which the worker holding the current attempt of a running row
   stores its result, and that step completes the row.
   */
  lemma {:induction false} BlocksComeWithCompletion(s: System, step: Step, i: nat)
    requires Inv(s) && Enabled(s, step) && i < |s.rows|
    requires i < |Next(s, step).rows| && Next(s, step).rows[i].blocks != s.rows[i].blocks
    ensures step.Store? && s.held[step.worker].row == i
    ensures s.rows[i].state.Running? && s.rows[i].attempts == s.held[step.worker].attempt
    ensures s.rows[i].blocks == [] && Next(s, step).rows[i].state.Completed?
  {
    hide Judge, PassesOk, Distinct, HeldOk, SamePass, Forest, Evolves;
    assert RowOk(s.rows[i]);
    NextKeepsInv(s, step);
    assert RowOk(Next(s, step).rows[i]);
  }

  /** A step that stores a result changes no row but the one whose current attempt its worker holds. */
  lemma {:induction false} OnlyTheHolderStores(s: System, worker: nat, now: int)
    requires Inv(s) && Enabled(s, Store(worker, now))
    ensures var t := Next(s, Store(worker, now));
            && (t.stored != s.stored || t.rows != s.rows ==>
                  StillMine(s.rows[s.held[worker].row], s.held[worker].attempt))
            && (forall i :: 0 <= i < |s.rows| && i != s.held[worker].row ==> t.rows[i] == s.rows[i])
            && (forall w :: w in s.held && w != worker ==> !SamePass(s, w, worker))
  {
  }

  /** Once a row has been claimed again, the result of the earlier attempt is never stored, however late it arrives. */
  lemma {:induction false} SupersededResultIsDropped(s: System, steps: seq<Step>, worker: nat, now: int)
    requires Inv(s) && CanRun(s, steps) && worker in s.held
    requires s.held[worker].row < |s.rows| && s.rows[s.held[worker].row].attempts > s.held[worker].attempt
    requires var t := Run(s, steps); Enabled(t, Store(worker, now)) && PassOf(t.held[worker]) == PassOf(s.held[worker])
    ensures var t := Run(s, steps);
            Next(t, Store(worker, now)).rows == t.rows && Next(t, Store(worker, now)).stored == t.stored
  {
    RunKeepsInv(s, steps);
    var row := s.held[worker].row;
    assert RowEvolves(s.rows[row], Run(s, steps).rows[row]);
  }

  // ---------------------------------------------------------------------------
  // Bounds
  // ---------------------------------------------------------------------------

  function CountRow(log: seq<Pass>, row: nat): nat {
    if log == [] then 0 else (if log[0].row == row then 1 else 0) + CountRow(log[1..], row)
  }

  /** The passes over `row` with an attempt number of at most `k`. */
  function CountUpTo(log: seq<Pass>, row: nat, k: nat): nat {
    if log == [] then 0
    else (if log[0].row == row && log[0].attempt <= k then 1 else 0) + CountUpTo(log[1..], row, k)
  }

  ghost predicate NoDuplicates(log: seq<Pass>) {
    forall i, j :: 0 <= i < j < |log| ==> !SameEntry(log, i, j)
  }

  lemma {:induction false} TailNoDuplicates(log: seq<Pass>)
    requires log != [] && NoDuplicates(log)
    ensures NoDuplicates(log[1..]) && log[0] !in log[1..]
  {
    var r := log[1..];
    forall i, j | 0 <= i < j < |r| ensures !SameEntry(r, i, j) {
      assert !SameEntry(log, i + 1, j + 1);
    }
    if log[0] in r {
      var j :| 0 <= j < |r| && r[j] == log[0];
      assert SameEntry(log, 0, j + 1);
    }
  }

  /** A log without the pass `(row, k + 1)` counts no more up to `k + 1` than up to `k`; one with it counts one more. */
  lemma {:induction false} CountStep(log: seq<Pass>, row: nat, k: nat)
    requires NoDuplicates(log)
    ensures CountUpTo(log, row, k + 1) == CountUpTo(log, row, k) + if Pass(row, k + 1) in log then 1 else 0
  {
    if log != [] {
      TailNoDuplicates(log);
      CountStep(log[1..], row, k);
      assert Pass(row, k + 1) in log <==> log[0] == Pass(row, k + 1) || Pass(row, k + 1) in log[1..];
    }
  }

  lemma {:induction false} CountNone(log: seq<Pass>, row: nat)
    requires forall i :: 0 <= i < |log| ==> log[i].attempt > 0
    ensures CountUpTo(log, row, 0) == 0
  {
    if log != [] {
      CountNone(log[1..], row);
    }
  }

  lemma {:induction false} CountAll(log: seq<Pass>, row: nat, k: nat)
    requires forall i :: 0 <= i < |log| && log[i].row == row ==> log[i].attempt <= k
    ensures CountUpTo(log, row, k) == CountRow(log, row)
  {
    if log != [] {
      CountAll(log[1..], row, k);
    }
  }

  /**
   The parser is started at most three times for an extraction, crashed runs included, replies at most
   as often and only to a run that was started, and a result is stored at most three times.
   */
  lemma {:induction false} ParserRunsAtMostThrice(steps: seq<Step>, row: nat)
    requires CanRun(EMPTY, steps)
    ensures CountRow(Run(EMPTY, steps).started, row) <= MAX_ATTEMPTS
    ensures CountRow(Run(EMPTY, steps).parsed, row) <= MAX_ATTEMPTS
    ensures forall p :: p in Run(EMPTY, steps).parsed ==> p in Run(EMPTY, steps).started
    ensures CountRow(Run(EMPTY, steps).stored, row) <= MAX_ATTEMPTS
  {
    EmptyInv();
    RunKeepsInv(EMPTY, steps);
    var t := Run(EMPTY, steps);
    PassesBounded(t.rows, t.started, row);
    PassesBounded(t.rows, t.parsed, row);
    PassesBounded(t.rows, t.stored, row);
  }

  lemma {:induction false} PassesBounded(rows: seq<Row>, log: seq<Pass>, row: nat)
    requires RowsOk(rows) && PassesOk(rows, log)
    ensures CountRow(log, row) <= MAX_ATTEMPTS
  {
    forall i | 0 <= i < |log| ensures 1 <= log[i].attempt <= 3 {
      assert PassOk(rows, log[i]) && RowOk(rows[log[i].row]);
    }
    CountAll(log, row, 3);
    CountNone(log, row);
    CountStep(log, row, 0);
    CountStep(log, row, 1);
    CountStep(log, row, 2);
  }

  // ---------------------------------------------------------------------------
  // Nothing is stuck
  // ---------------------------------------------------------------------------

  /** What a row can still cost: two per attempt left and one while it is running. */
  function RowWork(row: Row): nat {
    2 * (if row.attempts < MAX_ATTEMPTS then MAX_ATTEMPTS - row.attempts else 0) + if row.state.Running? then 1 else 0
  }

  function Work(rows: seq<Row>, n: nat): nat
    requires n <= |rows|
  {
    if n == 0 then 0 else Work(rows, n - 1) + RowWork(rows[n - 1])
  }

  /** Nothing left to do: no row is running, and a pending row belongs to a deleted document. */
  ghost predicate Settled(rows: seq<Row>) {
    forall i :: 0 <= i < |rows| ==> RowSettled(rows[i])
  }

  predicate RowSettled(row: Row) {
    !row.state.Running? && (row.state.Pending? ==> !row.live)
  }

  /** A time after every lease and every due time among the first `n` rows. */
  function Later(rows: seq<Row>, n: nat): int
    requires n <= |rows|
  {
    if n == 0 then 0
    else
      var t := Later(rows, n - 1);
      var r := rows[n - 1];
      var a := if r.due > t then r.due else t;
      if r.lease.Some? && r.lease.value >= a then r.lease.value + 1 else a
  }

  lemma {:induction false} LaterIsLater(rows: seq<Row>, n: nat, i: nat)
    requires i < n <= |rows|
    ensures rows[i].due <= Later(rows, n)
    ensures rows[i].lease.Some? ==> rows[i].lease.value < Later(rows, n)
    decreases n
  {
    if i < n - 1 {
      LaterIsLater(rows, n - 1, i);
      assert Later(rows, n - 1) <= Later(rows, n);
    }
  }

  /** The first few expired rows, as many as one claim recovers. */
  function FirstExpired(rows: seq<Row>, n: nat, now: int): (r: set<nat>)
    requires n <= |rows|
    ensures |r| <= ABANDONED_LIMIT
    ensures forall i :: i in r ==> i < n && Expired(rows[i], now)
    ensures |r| < ABANDONED_LIMIT ==> forall i :: 0 <= i < n && Expired(rows[i], now) ==> i in r
  {
    if n == 0 then {}
    else
      var r := FirstExpired(rows, n - 1, now);
      if |r| < ABANDONED_LIMIT && Expired(rows[n - 1], now) then r + {n - 1} else r
  }

  ghost predicate WorkAt(a: seq<Row>, b: seq<Row>, i: nat)
    requires i < |a| && i < |b|
  {
    RowWork(b[i]) <= RowWork(a[i])
  }

  lemma {:induction false} WorkShrinks(a: seq<Row>, b: seq<Row>, n: nat, i: nat)
    requires n <= |a| == |b| && (forall j :: 0 <= j < |a| ==> WorkAt(a, b, j))
    ensures Work(b, n) <= Work(a, n)
    ensures i < n && RowWork(b[i]) < RowWork(a[i]) ==> Work(b, n) < Work(a, n)
    decreases n
  {
    if n > 0 {
      assert WorkAt(a, b, n - 1);
      WorkShrinks(a, b, n - 1, i);
    }
  }

  /** A claim makes no row cost more, and the rows it recovers or takes cost less. */
  lemma {:induction false} ClaimedWork(rows: seq<Row>, chosen: set<nat>, now: int, j: nat)
    requires j < |rows| && RowOk(rows[j]) && (j in chosen ==> rows[j].state.Running?)
    ensures var (after, taken) := Claimed(rows, chosen, {}, now);
            && WorkAt(rows, after, j)
            && (j in chosen || taken == Some(j) ==> RowWork(after[j]) < RowWork(rows[j]))
  {
  }

  lemma {:induction false} ClaimFindsWork(rows: seq<Row>, chosen: set<nat>, now: int, i: nat)
    requires i < |rows| && i !in chosen && Eligible(rows[i], now)
    ensures Claimed(rows, chosen, {}, now).1.Some?
  {
    SelectIsFirst(AbandonAll(rows, chosen), |rows|, {}, now, i);
  }

  /** A claim late enough brings every extraction that is not settled closer to its end. */
  lemma {:induction false} ClaimMakesProgress(rows: seq<Row>, i: nat)
    requires RowsOk(rows) && i < |rows| && !RowSettled(rows[i])
    ensures var now := Later(rows, |rows|);
            var chosen := FirstExpired(rows, |rows|, now);
            && MayAbandon(rows, chosen, {}, now)
            && Work(Claimed(rows, chosen, {}, now).0, |rows|) < Work(rows, |rows|)
  {
    hide Claimed, Later, FirstExpired, RowWork, WorkAt;
    var now := Later(rows, |rows|);
    var chosen := FirstExpired(rows, |rows|, now);
    var (after, taken) := Claimed(rows, chosen, {}, now);
    LaterIsLater(rows, |rows|, i);
    assert RowOk(rows[i]);
    forall j | 0 <= j < |rows| ensures WorkAt(rows, after, j) {
      assert RowOk(rows[j]);
      ClaimedWork(rows, chosen, now, j);
    }
    if chosen != {} {
      var k :| k in chosen;
      ClaimedWork(rows, chosen, now, k);
      WorkShrinks(rows, after, |rows|, k);
    } else {
      ClaimFindsWork(rows, chosen, now, i);
      assert RowOk(rows[taken.value]);
      ClaimedWork(rows, chosen, now, taken.value);
      WorkShrinks(rows, after, |rows|, taken.value);
    }
  }

  /** The worker claims whatever is due and crashes, again and again. */
  ghost predicate ClaimsAndCrashes(steps: seq<Step>) {
    forall i :: 0 <= i < |steps| ==> steps[i].Claim? || steps[i].Crash?
  }

  /**
   No extraction is ever stuck: from any reachable state one worker that does nothing but claim and
   crash brings every row to an end, so a row can wait for ever only if its document is deleted.
   */
  lemma {:induction false} CanSettle(s: System, worker: nat) returns (steps: seq<Step>)
    requires Inv(s) && worker !in s.held
    ensures CanRun(s, steps) && ClaimsAndCrashes(steps) && Settled(Run(s, steps).rows)
    decreases Work(s.rows, |s.rows|)
  {
    if Settled(s.rows) {
      steps := [];
    } else {
      var i :| 0 <= i < |s.rows| && !RowSettled(s.rows[i]);
      steps := SettleOne(s, worker, i);
    }
  }

  lemma {:induction false} SettleOne(s: System, worker: nat, i: nat) returns (steps: seq<Step>)
    requires Inv(s) && worker !in s.held && i < |s.rows| && !RowSettled(s.rows[i])
    ensures CanRun(s, steps) && ClaimsAndCrashes(steps) && Settled(Run(s, steps).rows)
    decreases Work(s.rows, |s.rows|), 0
  {
    hide Inv, MayAbandon, Claimed, Settled, RowSettled, FirstExpired, Later, Work;
    assert RowsOk(s.rows) by { InvRows(s); }
    var now := Later(s.rows, |s.rows|);
    var claim := Claim(worker, now, {}, FirstExpired(s.rows, |s.rows|, now));
    ClaimMakesProgress(s.rows, i);
    var t := Next(s, claim);
    NextKeepsInv(s, claim);
    if worker in t.held {
      var u := Next(t, Crash(worker));
      NextKeepsInv(t, Crash(worker));
      var rest := CanSettle(u, worker);
      steps := [claim, Crash(worker)] + rest;
      assert steps[1..] == [Crash(worker)] + rest && steps[1..][1..] == rest;
      assert CanRun(t, steps[1..]);
    } else {
      var rest := CanSettle(t, worker);
      steps := [claim] + rest;
      assert steps[1..] == rest;
    }
  }

  lemma {:induction false} InvRows(s: System)
    requires Inv(s)
    ensures RowsOk(s.rows)
  {
  }
}
