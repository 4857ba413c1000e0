/**
 Extraction leases: several workers claim rows of the extraction table, run the parser outside any
 transaction, and store the result only if the row is still theirs. Each transaction is one step of
 the state machine below; a worker may crash between any two of them, and the clock of a step is
 whatever that process reads.
 */
module Leases {
  import opened Prelude
  import opened ParserResults

  const MAX_ATTEMPTS: nat := 3
  const ABANDONED_LIMIT: nat := 5
  const LEASE_SECONDS: int := 60

  datatype State = Pending | Running | Completed | NoText | Unsupported | Encrypted | Failed

  /** A row of the extraction table, with whether its document is still there. */
  datatype Row = Row(fingerprint: string, parser: string, version: string, created: int, live: bool,
                     state: State, attempts: nat, due: int, lease: Option<int>, code: Option<string>,
                     text: string, blocks: seq<Block>)

  // ---------------------------------------------------------------------------
  // Claiming
  // ---------------------------------------------------------------------------

  predicate Expired(row: Row, now: int) {
    row.state.Running? && row.lease.Some? && row.lease.value < now
  }

  function Abandon(row: Row): Row {
    row.(state := if row.attempts < MAX_ATTEMPTS then Pending else Failed,
         code := Some("worker_interrupted"), lease := None)
  }

  function AbandonAll(rows: seq<Row>, chosen: set<nat>): (r: seq<Row>)
    ensures |r| == |rows|
  {
    seq(|rows|, i requires 0 <= i < |rows| => if i in chosen then Abandon(rows[i]) else rows[i])
  }

  /** The rows `FOR UPDATE SKIP LOCKED LIMIT 5` may return: expired, not locked elsewhere, all of them if few. */
  ghost predicate MayAbandon(rows: seq<Row>, chosen: set<nat>, locked: set<nat>, now: int) {
    && (forall i :: i in chosen ==> i < |rows| && i !in locked && Expired(rows[i], now))
    && |chosen| <= ABANDONED_LIMIT
    && (|chosen| < ABANDONED_LIMIT ==>
          forall i :: 0 <= i < |rows| && Expired(rows[i], now) && i !in locked ==> i in chosen)
  }

  predicate Eligible(row: Row, now: int) {
    row.state.Pending? && row.live && row.attempts < MAX_ATTEMPTS && row.due <= now
  }

  /** The order of the queue. Row numbers stand for the ids that break ties. */
  predicate Before(rows: seq<Row>, i: nat, j: nat)
    requires i < |rows| && j < |rows|
  {
    rows[i].created < rows[j].created || (rows[i].created == rows[j].created && i < j)
  }

  /** The first unlocked eligible row among the first `n`. */
  function Select(rows: seq<Row>, n: nat, locked: set<nat>, now: int): (r: Option<nat>)
    requires n <= |rows|
    ensures r.Some? ==> r.value < n && r.value !in locked && Eligible(rows[r.value], now)
  {
    if n == 0 then None
    else
      var best := Select(rows, n - 1, locked, now);
      if n - 1 in locked || !Eligible(rows[n - 1], now) then best
      else if best.None? || Before(rows, n - 1, best.value) then Some(n - 1)
      else best
  }

  /** `Select` finds the first eligible row in queue order, and finds one whenever there is one. */
  lemma {:induction false} SelectIsFirst(rows: seq<Row>, n: nat, locked: set<nat>, now: int, i: nat)
    requires i < n <= |rows| && i !in locked && Eligible(rows[i], now)
    ensures Select(rows, n, locked, now).Some?
    ensures !Before(rows, i, Select(rows, n, locked, now).value)
  {
    var best := Select(rows, n - 1, locked, now);
    if i < n - 1 {
      SelectIsFirst(rows, n - 1, locked, now, i);
    }
  }

  function Start(row: Row, now: int): Row {
    row.(state := Running, lease := Some(now + LEASE_SECONDS), attempts := row.attempts + 1)
  }

  /** The claim transaction: first recover abandoned rows, then take one row. */
  function Claimed(rows: seq<Row>, chosen: set<nat>, locked: set<nat>, now: int): (r: (seq<Row>, Option<nat>))
    ensures |r.0| == |rows| && (r.1.Some? ==> r.1.value < |rows|)
  {
    var recovered := AbandonAll(rows, chosen);
    match Select(recovered, |rows|, locked, now)
    case None => (recovered, None)
    case Some(i) => (recovered[i := Start(recovered[i], now)], Some(i))
  }

  // ---------------------------------------------------------------------------
  // Storing a result
  // ---------------------------------------------------------------------------

  datatype Outcome = Outcome(state: State, text: string, blocks: seq<RawBlock>, code: Option<string>)

  predicate CodeChar(c: char) {
    'a' <= c <= 'z' || '0' <= c <= '9' || c == '_' || c == '.' || c == '-'
  }

  predicate CodeOk(code: string) {
    1 <= |code| <= 80 && forall i :: 0 <= i < |code| ==> CodeChar(code[i])
  }

  function CleanCode(code: Option<string>): Option<string> {
    if code.Some? && CodeOk(code.value) then code else None
  }

  function StateOf(name: string): State {
    if name == "completed" then Completed
    else if name == "no_text" then NoText
    else if name == "unsupported" then Unsupported
    else if name == "encrypted" then Encrypted
    else Failed
  }

  /** What the worker makes of a reply before it opens the second transaction. */
  ghost function Judge(reply: Reply, parser: string, version: string): (r: Outcome)
    ensures !r.state.Pending? && !r.state.Running?
    ensures BlocksOk(r.blocks, |r.blocks|) && (r.blocks != [] ==> r.state.Completed?)
  {
    if !reply.Reply? then Outcome(Failed, "", [], Some("parser_failed"))
    else if reply.parser != parser || reply.version != version then
      Outcome(Failed, "", [], Some("parser_version_changed"))
    else if !ResultOk(reply) then Outcome(Failed, "", [], Some("parser_failed"))
    else Outcome(StateOf(reply.state), reply.fullText.value, reply.blocks.value, CleanCode(reply.code))
  }

  const RETRYABLE: set<string> := {"timeout", "parser_timeout", "storage_unavailable", "worker_interrupted"}

  function Finish(row: Row, o: Outcome, now: int): Row
    requires forall k :: 0 <= k < |o.blocks| ==> BlockShaped(o.blocks[k])
  {
    var stored := row.(text := o.text, state := o.state, lease := None, code := o.code,
                       blocks := row.blocks + StoredBlocks(row.fingerprint, o.blocks));
    if o.state.Failed? && o.code.Some? && o.code.value in RETRYABLE && row.attempts < MAX_ATTEMPTS then
      stored.(state := Pending, due := now + Power2(row.attempts))
    else stored
  }

  predicate StillMine(row: Row, attempt: nat) {
    row.state.Running? && row.attempts == attempt
  }

  // ---------------------------------------------------------------------------
  // Queueing a file
  // ---------------------------------------------------------------------------

  datatype File = File(fingerprint: string, parser: string, version: string)

  /** The row of a fingerprint, which the unique constraint makes the only one. */
  function Lookup(rows: seq<Row>, n: nat, fingerprint: string): (r: Option<nat>)
    requires n <= |rows|
    ensures r.Some? ==> r.value < n && rows[r.value].fingerprint == fingerprint
    ensures r.None? ==> forall i :: 0 <= i < n ==> rows[i].fingerprint != fingerprint
  {
    if n == 0 then None
    else if rows[n - 1].fingerprint == fingerprint then Some(n - 1)
    else Lookup(rows, n - 1, fingerprint)
  }

  function NewRow(file: File, now: int): Row {
    Row(file.fingerprint, file.parser, file.version, now, true, Pending, 0, now, None, None, "", [])
  }

  function Retry(row: Row, now: int): Row {
    if row.state.Failed? && row.attempts < MAX_ATTEMPTS
    then row.(state := Pending, code := None, due := now, lease := None)
    else row
  }

  /**
   Nothing for a deleted document; otherwise insert unless the fingerprint is there, and on request
   put a failed row with attempts left back in the queue.
   */
  function Queued(rows: seq<Row>, file: File, live: bool, retry: bool, now: int): seq<Row> {
    if !live then rows
    else match Lookup(rows, |rows|, file.fingerprint)
    case None => rows + [NewRow(file, now)]
    case Some(i) => if retry then rows[i := Retry(rows[i], now)] else rows
  }

  // ---------------------------------------------------------------------------
  // The machine
  // ---------------------------------------------------------------------------

  /** What a worker carries from its claim: the row, the attempt, and the parser's reply once it has one. */
  datatype Held = Held(row: nat, attempt: nat, reply: Option<Reply>)

  /** One attempt at one row. */
  datatype Pass = Pass(row: nat, attempt: nat)

  /** The table, what the live workers hold, and the parser runs begun, replies and stored results so far. */
  datatype System =
    System(rows: seq<Row>, held: map<nat, Held>, started: seq<Pass>, parsed: seq<Pass>, stored: seq<Pass>)

  datatype Step =
    | Claim(worker: nat, now: int, locked: set<nat>, chosen: set<nat>)
    | Parse(worker: nat, reply: Reply)
    | Store(worker: nat, now: int)
    | Crash(worker: nat)
    | Queue(file: File, live: bool, retry: bool, now: int)
    | Delete(row: nat)

  ghost predicate Enabled(s: System, step: Step) {
    match step
    case Claim(worker, now, locked, chosen) =>
      worker !in s.held && MayAbandon(s.rows, chosen, locked, now)
    case Parse(worker, _) => worker in s.held && s.held[worker].reply.None?
    case Store(worker, _) =>
      worker in s.held && s.held[worker].reply.Some? && s.held[worker].row < |s.rows|
    case Crash(worker) => worker in s.held
    case Queue(_, _, _, _) => true
    case Delete(row) => row < |s.rows|
  }

  /** The worker goes on to run the parser for the row it has claimed, whether or not it will return. */
  function TakeUp(s: System, rows: seq<Row>, worker: nat, i: nat): System
    requires i < |rows|
  {
    s.(rows := rows, held := s.held[worker := Held(i, rows[i].attempts, None)],
       started := s.started + [Pass(i, rows[i].attempts)])
  }

  ghost function Next(s: System, step: Step): System
    requires Enabled(s, step)
  {
    match step
    case Claim(worker, now, locked, chosen) =>
      var (rows, taken) := Claimed(s.rows, chosen, locked, now);
      if taken.None? then s.(rows := rows) else TakeUp(s, rows, worker, taken.value)
    case Parse(worker, reply) =>
      var h := s.held[worker];
      s.(held := s.held[worker := h.(reply := Some(reply))], parsed := s.parsed + [Pass(h.row, h.attempt)])
    case Store(worker, now) =>
      var h := s.held[worker];
      var row := s.rows[h.row];
      if StillMine(row, h.attempt) then
        s.(rows := s.rows[h.row := Finish(row, Judge(h.reply.value, row.parser, row.version), now)],
           held := s.held - {worker}, stored := s.stored + [Pass(h.row, h.attempt)])
      else s.(held := s.held - {worker})
    case Crash(worker) => s.(held := s.held - {worker})
    case Queue(file, live, retry, now) => s.(rows := Queued(s.rows, file, live, retry, now))
    case Delete(row) => s.(rows := s.rows[row := s.rows[row].(live := false)])
  }

  // ---------------------------------------------------------------------------
  // The invariant
  // ---------------------------------------------------------------------------

  ghost predicate RowOk(row: Row) {
    && row.attempts <= MAX_ATTEMPTS
    && (row.state.Pending? ==> row.attempts < MAX_ATTEMPTS)
    && (row.state.Running? <==> row.lease.Some?)
    && (row.state.Running? || row.state.Completed? ==> row.attempts > 0)
    && (row.blocks != [] ==> row.state.Completed?)
    && Forest(row.blocks)
  }

  ghost predicate RowsOk(rows: seq<Row>) {
    forall i :: 0 <= i < |rows| ==> RowOk(rows[i])
  }

  ghost predicate SameFingerprint(rows: seq<Row>, i: nat, j: nat)
    requires i < |rows| && j < |rows|
  {
    rows[i].fingerprint == rows[j].fingerprint
  }

  ghost predicate Distinct(rows: seq<Row>) {
    forall i, j :: 0 <= i < j < |rows| ==> !SameFingerprint(rows, i, j)
  }

  ghost predicate PassOk(rows: seq<Row>, p: Pass) {
    p.row < |rows| && 1 <= p.attempt <= rows[p.row].attempts
  }

  function PassOf(h: Held): Pass {
    Pass(h.row, h.attempt)
  }

  /** What a worker holds is an attempt it began, held by no one else, parsed once if at all, and not stored. */
  ghost predicate HeldOk(s: System, w: nat)
    requires w in s.held
  {
    && PassOk(s.rows, PassOf(s.held[w]))
    && PassOf(s.held[w]) in s.started
    && (s.held[w].reply.None? ==> PassOf(s.held[w]) !in s.parsed)
    && PassOf(s.held[w]) !in s.stored
  }

  ghost predicate SamePass(s: System, v: nat, w: nat)
    requires v in s.held && w in s.held
  {
    PassOf(s.held[v]) == PassOf(s.held[w])
  }

  ghost predicate PassesOk(rows: seq<Row>, log: seq<Pass>) {
    && (forall i :: 0 <= i < |log| ==> PassOk(rows, log[i]))
    && (forall i, j :: 0 <= i < j < |log| ==> !SameEntry(log, i, j))
  }

  ghost predicate SameEntry(log: seq<Pass>, i: nat, j: nat)
    requires i < |log| && j < |log|
  {
    log[i] == log[j]
  }

  ghost predicate Inv(s: System) {
    && RowsOk(s.rows) && Distinct(s.rows)
    && PassesOk(s.rows, s.started) && PassesOk(s.rows, s.parsed) && PassesOk(s.rows, s.stored)
    && (forall p :: p in s.parsed ==> p in s.started)
    && (forall w :: w in s.held ==> HeldOk(s, w))
    && (forall v, w :: v in s.held && w in s.held && v != w ==> !SamePass(s, v, w))
  }

  /** What any step may do to a row: never lower its attempts, change a completed row, or rename it. */
  ghost predicate RowEvolves(a: Row, b: Row) {
    && a.attempts <= b.attempts && a.fingerprint == b.fingerprint && a.created == b.created
    && a.parser == b.parser && a.version == b.version
    && (a.state.Completed? ==> b == a.(live := b.live))
    && (!a.live ==> !b.live)
  }

  ghost predicate Evolves(a: seq<Row>, b: seq<Row>) {
    |a| <= |b| && forall i :: 0 <= i < |a| ==> RowEvolves(a[i], b[i])
  }

  lemma {:induction false} EvolveKeepsPasses(a: seq<Row>, b: seq<Row>, log: seq<Pass>)
    requires Evolves(a, b) && PassesOk(a, log)
    ensures PassesOk(b, log)
  {
  }

  lemma {:induction false} EvolveKeepsHeld(s: System, rows: seq<Row>)
    requires Inv(s) && Evolves(s.rows, rows)
    ensures var t := s.(rows := rows);
            && (forall w :: w in t.held ==> HeldOk(t, w))
            && (forall v, w :: v in t.held && w in t.held && v != w ==> !SamePass(t, v, w))
  {
  }

  /** A change of rows alone keeps the invariant when it keeps the rows in order and only lets them evolve. */
  lemma {:induction false} RowsChange(s: System, rows: seq<Row>)
    requires Inv(s) && Evolves(s.rows, rows) && RowsOk(rows) && Distinct(rows)
    ensures Inv(s.(rows := rows))
  {
    EvolveKeepsPasses(s.rows, rows, s.started);
    EvolveKeepsPasses(s.rows, rows, s.parsed);
    EvolveKeepsPasses(s.rows, rows, s.stored);
    EvolveKeepsHeld(s, rows);
  }

  lemma {:induction false} UpdateKeepsDistinct(rows: seq<Row>, i: nat, row: Row)
    requires i < |rows| && Distinct(rows) && row.fingerprint == rows[i].fingerprint
    ensures Distinct(rows[i := row])
  {
    var r := rows[i := row];
    forall x, y | 0 <= x < y < |r| ensures !SameFingerprint(r, x, y) {
      assert !SameFingerprint(rows, x, y);
    }
  }

  lemma {:induction false} AbandonKeeps(rows: seq<Row>, chosen: set<nat>, locked: set<nat>, now: int)
    requires RowsOk(rows) && Distinct(rows) && MayAbandon(rows, chosen, locked, now)
    ensures var r := AbandonAll(rows, chosen); RowsOk(r) && Distinct(r) && Evolves(rows, r)
  {
    var r := AbandonAll(rows, chosen);
    forall i, j | 0 <= i < j < |r| ensures !SameFingerprint(r, i, j) {
      assert !SameFingerprint(rows, i, j);
    }
  }

  lemma {:induction false} ClaimedKeeps(rows: seq<Row>, chosen: set<nat>, locked: set<nat>, now: int)
    requires RowsOk(rows) && Distinct(rows) && MayAbandon(rows, chosen, locked, now)
    ensures var (r, taken) := Claimed(rows, chosen, locked, now);
            && RowsOk(r) && Distinct(r) && Evolves(rows, r)
            && (taken.Some? ==> r[taken.value].attempts == rows[taken.value].attempts + 1)
  {
    AbandonKeeps(rows, chosen, locked, now);
    var r := AbandonAll(rows, chosen);
    var taken := Select(r, |rows|, locked, now);
    if taken.Some? {
      UpdateKeepsDistinct(r, taken.value, Start(r[taken.value], now));
    }
  }

  lemma {:induction false} ClaimKeeps(s: System, worker: nat, now: int, locked: set<nat>, chosen: set<nat>)
    requires Inv(s) && Enabled(s, Claim(worker, now, locked, chosen))
    ensures Inv(Next(s, Claim(worker, now, locked, chosen)))
    ensures Evolves(s.rows, Next(s, Claim(worker, now, locked, chosen)).rows)
  {
    hide MayAbandon, Claimed, Evolves, Distinct, RowsOk;
    ClaimedKeeps(s.rows, chosen, locked, now);
    var (rows, taken) := Claimed(s.rows, chosen, locked, now);
    RowsChange(s, rows);
    if taken.Some? {
      TakeKeeps(s, rows, worker, taken.value);
    }
  }

  /** The attempt a claim opens is new to the row, so nobody holds it and nothing was begun for it. */
  lemma {:induction false} TakeKeeps(s: System, rows: seq<Row>, worker: nat, i: nat)
    requires Inv(s) && Inv(s.(rows := rows)) && worker !in s.held
    requires i < |s.rows| <= |rows| && rows[i].attempts == s.rows[i].attempts + 1
    ensures Inv(TakeUp(s, rows, worker, i))
  {
    hide RowsOk, Distinct;
    var p := Pass(i, rows[i].attempts);
    LogAppend(rows, s.started, p);
    var t := TakeUp(s, rows, worker, i);
    var u := s.(rows := rows);
    forall w | w in t.held ensures HeldOk(t, w) {
      if w != worker {
        assert HeldOk(u, w);
      }
    }
    forall v, w | v in t.held && w in t.held && v != w ensures !SamePass(t, v, w) {
      if v != worker && w != worker {
        assert !SamePass(u, v, w);
      }
    }
  }

  lemma {:induction false} LogAppend(rows: seq<Row>, log: seq<Pass>, p: Pass)
    requires PassesOk(rows, log) && PassOk(rows, p) && p !in log
    ensures PassesOk(rows, log + [p])
  {
    var r := log + [p];
    forall i, j | 0 <= i < j < |r| ensures !SameEntry(r, i, j) {
      if j < |log| {
        assert !SameEntry(log, i, j);
      }
    }
  }

  lemma {:induction false} ParseKeeps(s: System, worker: nat, reply: Reply)
    requires Inv(s) && Enabled(s, Parse(worker, reply))
    ensures Inv(Next(s, Parse(worker, reply)))
  {
    hide RowsOk, Distinct;
    var t := Next(s, Parse(worker, reply));
    assert HeldOk(s, worker);
    LogAppend(s.rows, s.parsed, PassOf(s.held[worker]));
    forall w | w in t.held ensures HeldOk(t, w) {
      assert HeldOk(s, w);
      if w != worker {
        assert !SamePass(s, w, worker);
      }
    }
    forall v, w | v in t.held && w in t.held && v != w ensures !SamePass(t, v, w) {
      assert !SamePass(s, v, w);
    }
  }

  lemma {:induction false} DropKeeps(s: System, worker: nat)
    requires Inv(s) && worker in s.held
    ensures Inv(s.(held := s.held - {worker}))
  {
  }

  lemma {:induction false} FinishKeeps(row: Row, o: Outcome, now: int)
    requires RowOk(row) && row.state.Running? && !o.state.Pending? && !o.state.Running?
    requires BlocksOk(o.blocks, |o.blocks|) && (o.blocks != [] ==> o.state.Completed?)
    ensures RowOk(Finish(row, o, now)) && RowEvolves(row, Finish(row, o, now))
  {
    hide Forest;
    StoredForest(row.fingerprint, o.blocks);
    assert [] + StoredBlocks(row.fingerprint, o.blocks) == StoredBlocks(row.fingerprint, o.blocks);
  }

  lemma {:induction false} StoreKeeps(s: System, worker: nat, now: int)
    requires Inv(s) && Enabled(s, Store(worker, now))
    ensures Inv(Next(s, Store(worker, now)))
    ensures Evolves(s.rows, Next(s, Store(worker, now)).rows)
  {
    hide Judge, Finish;
    var h := s.held[worker];
    var row := s.rows[h.row];
    DropKeeps(s, worker);
    assert HeldOk(s, worker);
    if StillMine(row, h.attempt) {
      var after := Finish(row, Judge(h.reply.value, row.parser, row.version), now);
      FinishKeeps(row, Judge(h.reply.value, row.parser, row.version), now);
      UpdateKeepsDistinct(s.rows, h.row, after);
      var rows := s.rows[h.row := after];
      assert Evolves(s.rows, rows) && RowsOk(rows);
      var t := s.(held := s.held - {worker});
      RowsChange(t, rows);
      LogKeeps(s, t.(rows := rows), worker);
    }
  }

  lemma {:induction false} LogKeeps(s: System, t: System, worker: nat)
    requires Inv(s) && Inv(t) && worker in s.held && t.held == s.held - {worker} && t.stored == s.stored
    requires PassOk(t.rows, PassOf(s.held[worker]))
    ensures Inv(t.(stored := t.stored + [PassOf(s.held[worker])]))
  {
    hide RowsOk, Distinct;
    var p := PassOf(s.held[worker]);
    var u := t.(stored := t.stored + [p]);
    assert HeldOk(s, worker);
    LogAppend(t.rows, t.stored, p);
    forall w | w in u.held ensures HeldOk(u, w) {
      assert HeldOk(t, w) && !SamePass(s, w, worker);
    }
    forall v, w | v in u.held && w in u.held && v != w ensures !SamePass(u, v, w) {
      assert !SamePass(t, v, w);
    }
  }

  lemma {:induction false} QueuedKeeps(rows: seq<Row>, file: File, live: bool, retry: bool, now: int)
    requires RowsOk(rows) && Distinct(rows)
    ensures var r := Queued(rows, file, live, retry, now); RowsOk(r) && Distinct(r) && Evolves(rows, r)
  {
    var r := Queued(rows, file, live, retry, now);
    if !live {
      return;
    }
    match Lookup(rows, |rows|, file.fingerprint)
    case None =>
      forall i, j | 0 <= i < j < |r| ensures !SameFingerprint(r, i, j) {
        if j < |rows| {
          assert !SameFingerprint(rows, i, j);
        }
      }
    case Some(i) =>
      if retry {
        UpdateKeepsDistinct(rows, i, Retry(rows[i], now));
      }
  }

  /** Every step of every process keeps the invariant and lets rows only evolve. */
  lemma {:induction false} NextKeepsInv(s: System, step: Step)
    requires Inv(s) && Enabled(s, step)
    ensures Inv(Next(s, step)) && Evolves(s.rows, Next(s, step).rows)
  {
    match step
    case Claim(worker, now, locked, chosen) => ClaimKeeps(s, worker, now, locked, chosen);
    case Parse(worker, reply) => ParseKeeps(s, worker, reply);
    case Store(worker, now) => StoreKeeps(s, worker, now);
    case Crash(worker) => DropKeeps(s, worker);
    case Queue(file, live, retry, now) =>
      QueuedKeeps(s.rows, file, live, retry, now);
      RowsChange(s, Queued(s.rows, file, live, retry, now));
    case Delete(row) =>
      UpdateKeepsDistinct(s.rows, row, s.rows[row].(live := false));
      RowsChange(s, s.rows[row := s.rows[row].(live := false)]);
  }
}
