/**
 What one step does to an extraction, in terms of its row and of the parser's reply: what is stored, what
 fails and what is tried again. Over runs, a completed extraction is what its worker's parser replied.
 */
module LeaseOutcomes {
  import opened Prelude
  import opened ParserResults
  import opened Leases
  import opened LeaseRuns

  // ---------------------------------------------------------------------------
  // What a reply becomes
  // ---------------------------------------------------------------------------

  /** The stored block has the ordinal, text, anchor, kind and page of the reply's, and its own id. */
  ghost predicate StoredAs(fingerprint: string, raw: RawBlock, b: Block) {
    && raw.ordinal == Some(b.ordinal) && raw.text == Some(b.text) && raw.anchor == Some(b.anchor)
    && raw.kind == b.kind && raw.page == b.page
    && b.id == BlockId(fingerprint, b.ordinal, b.anchor)
  }

  /** Its parent is the earlier stored block with the ordinal that the reply named, if it named one. */
  ghost predicate ParentAs(raw: RawBlock, stored: seq<Block>, i: nat)
    requires i < |stored|
  {
    match raw.parent
    case NoParent => stored[i].parent == None
    case ParentOrdinal(o) => exists j :: 0 <= j < i && stored[j].ordinal == o && stored[i].parent == Some(stored[j].id)
    case OtherParent => false
  }

  /** One stored block for each block of the reply, in order. */
  ghost predicate HoldsBlocks(row: Row, blocks: seq<RawBlock>) {
    && |row.blocks| == |blocks|
    && (forall i :: 0 <= i < |blocks| ==> StoredAs(row.fingerprint, blocks[i], row.blocks[i]))
    && (forall i :: 0 <= i < |blocks| ==> ParentAs(blocks[i], row.blocks, i))
  }

  function NameOf(state: State): string {
    match state
    case Pending => "pending"
    case Running => "running"
    case Completed => "completed"
    case NoText => "no_text"
    case Unsupported => "unsupported"
    case Encrypted => "encrypted"
    case Failed => "failed"
  }

  ghost predicate IsCode(code: string) {
    1 <= |code| <= 80
    && forall i :: 0 <= i < |code| ==> 'a' <= code[i] <= 'z' || '0' <= code[i] <= '9' || code[i] in "_.-"
  }

  /** An error code is kept if it is one. */
  ghost predicate CodeKept(raw: Option<string>, code: Option<string>) {
    match code
    case Some(c) => raw == Some(c) && IsCode(c)
    case None => raw == None || !IsCode(raw.value)
  }

  /** A reply that can be stored: from the parser the row was queued for, and in order. */
  ghost predicate Usable(row: Row, reply: Reply) {
    reply.Reply? && reply.parser == row.parser && reply.version == row.version && ResultOk(reply)
  }

  /** Only these four failures are worth another attempt, while one is left. */
  ghost predicate WorthRetrying(code: Option<string>, attempts: nat) {
    && attempts < 3
    && code in {Some("timeout"), Some("parser_timeout"), Some("storage_unavailable"), Some("worker_interrupted")}
  }

  ghost predicate SameExtraction(a: Row, b: Row) {
    && a.fingerprint == b.fingerprint && a.parser == b.parser && a.version == b.version && a.created == b.created
    && a.live == b.live
  }

  /** The row after storing a reply that can be stored. */
  ghost predicate HoldsReply(row: Row, z: Row, reply: Reply, now: int)
    requires Usable(row, reply)
  {
    && z.text == reply.fullText.value && HoldsBlocks(z, reply.blocks.value) && CodeKept(reply.code, z.code)
    && if reply.state == "failed" && WorthRetrying(z.code, row.attempts)
       then z.state == Pending && z.due == now + (if row.attempts == 1 then 2 else 4)
       else NameOf(z.state) == reply.state && z.due == row.due
  }

  /** The row after any other reply. */
  ghost predicate HoldsFailure(row: Row, z: Row, reply: Reply) {
    && z.state == Failed && z.text == "" && z.blocks == [] && z.due == row.due
    && z.code == Some(if reply.Reply? && (reply.parser != row.parser || reply.version != row.version)
                      then "parser_version_changed" else "parser_failed")
  }

  lemma {:induction false} BlocksAreStored(fingerprint: string, blocks: seq<RawBlock>, row: Row)
    requires BlocksOk(blocks, |blocks|) && row.fingerprint == fingerprint
    requires row.blocks == StoredBlocks(fingerprint, blocks)
    ensures HoldsBlocks(row, blocks)
  {
    hide SameOrdinal;
    forall i | 0 <= i < |blocks|
      ensures ParentAs(blocks[i], row.blocks, i)
    {
      assert Placed(blocks, i) && BlockShaped(blocks[i]);
      if blocks[i].parent.ParentOrdinal? {
        var j :| 0 <= j < i && IsParent(blocks, i, j);
        IdentityFinds(fingerprint, blocks, |blocks|, j);
      }
    }
  }

  lemma {:induction false} CodeIsKept(code: Option<string>)
    ensures CodeKept(code, CleanCode(code))
  {
    assert forall c: char :: c in "_.-" <==> c == '_' || c == '.' || c == '-';
  }

  lemma {:induction false} NamesFit(name: string)
    requires name in STATES
    ensures NameOf(StateOf(name)) == name && (StateOf(name) == Failed <==> name == "failed")
  {
  }

  lemma {:induction false} UsableHasParts(reply: Reply)
    requires ResultOk(reply)
    ensures reply.fullText.Some? && reply.blocks.Some? && reply.state in STATES
    ensures BlocksOk(reply.blocks.value, |reply.blocks.value|)
    ensures reply.state != "completed" ==> reply.blocks.value == []
  {
  }

  lemma {:induction false} FinishUsable(row: Row, reply: Reply, now: int)
    requires row.blocks == [] && 1 <= row.attempts <= 3 && Usable(row, reply)
    ensures var z := Finish(row, Judge(reply, row.parser, row.version), now);
            && SameExtraction(row, z) && z.attempts == row.attempts && z.lease == None
            && HoldsReply(row, z, reply, now)
  {
    hide ResultOk, Placed, StateOf, CleanCode, StoredBlocks, HoldsBlocks, CodeKept, NameOf;
    var z := Finish(row, Judge(reply, row.parser, row.version), now);
    UsableHasParts(reply);
    NamesFit(reply.state);
    CodeIsKept(reply.code);
    assert [] + StoredBlocks(row.fingerprint, reply.blocks.value) == StoredBlocks(row.fingerprint, reply.blocks.value);
    BlocksAreStored(row.fingerprint, reply.blocks.value, z);
    assert Power2(1) == 2 && Power2(2) == 4;
  }

  lemma {:induction false} FinishOther(row: Row, reply: Reply, now: int)
    requires row.blocks == [] && !Usable(row, reply)
    ensures var z := Finish(row, Judge(reply, row.parser, row.version), now);
            && SameExtraction(row, z) && z.attempts == row.attempts && z.lease == None
            && HoldsFailure(row, z, reply)
  {
    hide ResultOk, Placed;
    assert [] + StoredBlocks(row.fingerprint, []) == [] by { NoneStored(row.fingerprint); }
    assert "parser_failed" !in RETRYABLE && "parser_version_changed" !in RETRYABLE;
  }

  /** What a worker stores of a reply. */
  lemma {:induction false} FinishStores(row: Row, reply: Reply, now: int)
    requires RowOk(row) && row.state == Running
    ensures var z := Finish(row, Judge(reply, row.parser, row.version), now);
            && SameExtraction(row, z) && z.attempts == row.attempts && z.lease == None
            && if Usable(row, reply) then HoldsReply(row, z, reply, now) else HoldsFailure(row, z, reply)
  {
    hide Finish, Judge, Forest, HoldsReply, HoldsFailure, Usable;
    if Usable(row, reply) {
      FinishUsable(row, reply, now);
    } else {
      FinishOther(row, reply, now);
    }
  }

  lemma {:induction false} NoneStored(fingerprint: string)
    ensures StoredBlocks(fingerprint, []) == []
  {
  }

  // ---------------------------------------------------------------------------
  // One step
  // ---------------------------------------------------------------------------

  /**
   Storing changes the row only if it is still running on the attempt the worker holds, and then leaves it
   with the reply's state, text and blocks, or as a failure; no other row changes.
   */
  lemma {:induction false} StoreOutcome(s: System, worker: nat, now: int)
    requires Inv(s) && Enabled(s, Store(worker, now))
    ensures var t, h := Next(s, Store(worker, now)), s.held[worker];
            var row, reply := s.rows[h.row], h.reply.value;
            && t.held == s.held - {worker} && |t.rows| == |s.rows|
            && (forall j :: 0 <= j < |s.rows| && j != h.row ==> t.rows[j] == s.rows[j])
            && if row.state == Running && row.attempts == h.attempt then
                 var z := t.rows[h.row];
                 && SameExtraction(row, z) && z.attempts == row.attempts && z.lease == None
                 && if Usable(row, reply) then HoldsReply(row, z, reply, now) else HoldsFailure(row, z, reply)
               else t.rows == s.rows
  {
    hide Judge, Finish, Usable, HoldsReply, HoldsFailure, RowOk, HeldOk, SamePass, Distinct, PassesOk;
    var h := s.held[worker];
    if s.rows[h.row].state == Running {
      assert RowOk(s.rows[h.row]);
      FinishStores(s.rows[h.row], h.reply.value, now);
    }
  }

  /** The chosen rows go back to the queue, or fail once three attempts are used; the others stay. */
  ghost predicate Recovers(rows: seq<Row>, mid: seq<Row>, chosen: set<nat>) {
    && |mid| == |rows|
    && forall i :: 0 <= i < |rows| ==>
         mid[i] == if i !in chosen then rows[i]
                   else rows[i].(state := if rows[i].attempts == 3 then Failed else Pending, lease := None,
                                 code := Some("worker_interrupted"))
  }

  /** A row that may be claimed now. */
  ghost predicate Ready(row: Row, now: int) {
    row.state == Pending && row.live && row.attempts <= 2 && row.due <= now
  }

  /** The row that has waited longest, of those that are ready and not locked. */
  ghost predicate FirstReady(rows: seq<Row>, locked: set<nat>, now: int, i: nat) {
    && i < |rows| && i !in locked && Ready(rows[i], now)
    && forall j: nat :: j < |rows| && j !in locked && Ready(rows[j], now) ==>
         rows[i].created < rows[j].created || (rows[i].created == rows[j].created && i <= j)
  }

  ghost predicate NoneReady(rows: seq<Row>, locked: set<nat>, now: int) {
    forall j: nat :: j < |rows| && j !in locked ==> !Ready(rows[j], now)
  }

  /** The worker has the row for a minute, on a new attempt. */
  ghost predicate Takes(s: System, mid: seq<Row>, t: System, worker: nat, now: int, i: nat)
    requires i < |mid|
  {
    && t.rows == mid[i := mid[i].(state := Running, lease := Some(now + 60), attempts := mid[i].attempts + 1)]
    && t.held == s.held[worker := Held(i, mid[i].attempts + 1, None)]
  }

  /** Rows whose lease has run out and that are not locked: five of them, or all if there are fewer. */
  ghost predicate ChoosesAbandoned(rows: seq<Row>, chosen: set<nat>, locked: set<nat>, now: int) {
    && (forall i :: i in chosen ==> i < |rows| && i !in locked && HasRunOut(rows[i], now))
    && |chosen| <= 5
    && (|chosen| < 5 ==> forall i: nat :: i < |rows| && i !in locked && HasRunOut(rows[i], now) ==> i in chosen)
  }

  ghost predicate HasRunOut(row: Row, now: int) {
    row.state == Running && match row.lease case Some(until) => until < now case None => false
  }

  lemma {:induction false} AbandonRecovers(rows: seq<Row>, chosen: set<nat>, locked: set<nat>, now: int)
    requires RowsOk(rows) && MayAbandon(rows, chosen, locked, now)
    ensures ChoosesAbandoned(rows, chosen, locked, now)
    ensures Recovers(rows, AbandonAll(rows, chosen), chosen)
  {
    hide Forest;
    assert forall i :: 0 <= i < |rows| ==> RowOk(rows[i]);
  }

  lemma {:induction false} SelectsFirst(rows: seq<Row>, locked: set<nat>, now: int)
    ensures match Select(rows, |rows|, locked, now)
            case None => NoneReady(rows, locked, now)
            case Some(i) => FirstReady(rows, locked, now, i)
  {
    hide Select;
    forall j: nat | j < |rows|
      ensures Ready(rows[j], now) <==> Eligible(rows[j], now)
    {
    }
    hide Ready, Eligible;
    var taken := Select(rows, |rows|, locked, now);
    forall j: nat | j < |rows| && j !in locked && Ready(rows[j], now)
      ensures taken.Some? && !Before(rows, j, taken.value)
    {
      SelectIsFirst(rows, |rows|, locked, now, j);
    }
  }

  /** A claim recovers the abandoned rows it chose, and takes the first row that is ready if there is one. */
  lemma {:induction false} ClaimOutcome(s: System, worker: nat, now: int, locked: set<nat>, chosen: set<nat>)
      returns (mid: seq<Row>, taken: Option<nat>)
    requires Inv(s) && Enabled(s, Claim(worker, now, locked, chosen))
    ensures ChoosesAbandoned(s.rows, chosen, locked, now)
    ensures Recovers(s.rows, mid, chosen)
    ensures var t := Next(s, Claim(worker, now, locked, chosen));
            match taken
            case None => NoneReady(mid, locked, now) && t.rows == mid && t.held == s.held
            case Some(i) => FirstReady(mid, locked, now, i) && Takes(s, mid, t, worker, now, i)
  {
    hide RowsOk, Distinct, PassesOk, HeldOk, SamePass, Select, MayAbandon, Recovers, NoneReady, AbandonAll;
    hide ChoosesAbandoned;
    mid := AbandonAll(s.rows, chosen);
    taken := Select(mid, |s.rows|, locked, now);
    AbandonRecovers(s.rows, chosen, locked, now);
    SelectsFirst(mid, locked, now);
  }

  /** Queueing a file adds a row for it unless its fingerprint has one, which a retry may put back in the queue. */
  ghost predicate QueuesFile(rows: seq<Row>, z: seq<Row>, file: File, retry: bool, now: int) {
    if forall i :: 0 <= i < |rows| ==> rows[i].fingerprint != file.fingerprint then
      z == rows + [Row(file.fingerprint, file.parser, file.version, now, true, Pending, 0, now, None, None, "", [])]
    else
      && |z| == |rows|
      && forall i :: 0 <= i < |rows| ==>
           z[i] == if rows[i].fingerprint == file.fingerprint && retry && rows[i].state == Failed
                      && rows[i].attempts < 3
                   then rows[i].(state := Pending, code := None, due := now, lease := None) else rows[i]
  }

  lemma {:induction false} QueueOutcome(s: System, file: File, live: bool, retry: bool, now: int)
    requires Inv(s)
    ensures var t := Next(s, Queue(file, live, retry, now));
            && t.held == s.held
            && if live then QueuesFile(s.rows, t.rows, file, retry, now) else t.rows == s.rows
  {
    hide RowsOk, PassesOk, HeldOk, SamePass;
    var found := Lookup(s.rows, |s.rows|, file.fingerprint);
    if found.Some? {
      assert s.rows[found.value].fingerprint == file.fingerprint;
      forall i: nat | i < |s.rows| && i != found.value
        ensures s.rows[i].fingerprint != file.fingerprint
      {
        assert if i < found.value then !SameFingerprint(s.rows, i, found.value)
               else !SameFingerprint(s.rows, found.value, i);
      }
    }
  }

  // ---------------------------------------------------------------------------
  // From the parser to the completed row
  // ---------------------------------------------------------------------------

  ghost predicate StepOf(step: Step, worker: nat) {
    match step
    case Claim(w, _, _, _) => w == worker
    case Parse(w, _) => w == worker
    case Store(w, _) => w == worker
    case Crash(w) => w == worker
    case _ => false
  }

  /** What a worker holds is changed only by its own steps, and only its parser gives it a reply. */
  lemma {:induction false} HeldChanges(s: System, step: Step, w: nat)
    requires Inv(s) && Enabled(s, step)
    ensures !StepOf(step, w) ==> (w in Next(s, step).held <==> w in s.held)
    ensures !StepOf(step, w) && w in s.held ==> Next(s, step).held[w] == s.held[w]
    ensures StepOf(step, w) && w in Next(s, step).held && Next(s, step).held[w].reply.Some? ==>
              && w in s.held && step == Parse(w, Next(s, step).held[w].reply.value)
              && PassOf(s.held[w]) == PassOf(Next(s, step).held[w]) && s.held[w].reply == None
  {
    hide Inv, MayAbandon, Judge, Finish, Claimed, Queued;
  }

  ghost predicate NoStepOf(steps: seq<Step>, from: nat, w: nat) {
    forall m :: from <= m < |steps| ==> !StepOf(steps[m], w)
  }

  /** At step `j` the worker's parser gave the reply, for the attempt it still holds. */
  ghost predicate ParsedAt(s: System, steps: seq<Step>, j: nat, w: nat, h: Held)
    requires j < |steps| && h.reply.Some?
  {
    && CanRun(s, steps[..j]) && steps[j] == Parse(w, h.reply.value) && NoStepOf(steps, j + 1, w)
    && w in Run(s, steps[..j]).held && PassOf(Run(s, steps[..j]).held[w]) == PassOf(h)
  }

  lemma {:induction false} FirstSteps(s: System, steps: seq<Step>, k: nat)
    requires steps != [] && CanRun(s, steps) && k < |steps|
    requires CanRun(Next(s, steps[0]), steps[1..][..k])
    ensures CanRun(s, steps[..k + 1])
    ensures Run(s, steps[..k + 1]) == Run(Next(s, steps[0]), steps[1..][..k])
  {
    hide Next, Enabled;
    assert steps[..k + 1][1..] == steps[1..][..k];
  }

  /** A reply a worker holds was given by its parser in the run, unless it held it from the beginning. */
  lemma {:induction false} HeldReplyWasParsed(s: System, steps: seq<Step>, w: nat) returns (j: int)
    requires Inv(s) && CanRun(s, steps)
    requires w in Run(s, steps).held && Run(s, steps).held[w].reply.Some?
    ensures -1 <= j < |steps|
    ensures j == -1 ==> NoStepOf(steps, 0, w) && w in s.held && s.held[w] == Run(s, steps).held[w]
    ensures j >= 0 ==> ParsedAt(s, steps, j, w, Run(s, steps).held[w])
    decreases |steps|
  {
    hide Inv, Next, Enabled, StepOf;
    if steps == [] {
      j := -1;
    } else {
      var t := Next(s, steps[0]);
      NextKeepsInv(s, steps[0]);
      HeldChanges(s, steps[0], w);
      j := HeldReplyWasParsed(t, steps[1..], w);
      if j >= 0 {
        FirstSteps(s, steps, j);
        assert forall m :: j + 2 <= m < |steps| ==> steps[m] == steps[1..][m - 1];
        j := j + 1;
      } else {
        assert forall m :: 1 <= m < |steps| ==> steps[m] == steps[1..][m - 1];
        if StepOf(steps[0], w) {
          j := 0;
          assert CanRun(s, steps[..0]) && Run(s, steps[..0]) == s;
        }
      }
    }
  }

  /** The row is completed by a worker that holds its attempt with a reply that can be stored. */
  ghost predicate Completes(u: System, step: Step, i: nat) {
    && step.Store? && Enabled(u, step) && u.held[step.worker].row == i
    && u.rows[i].state == Running && u.rows[i].attempts == u.held[step.worker].attempt
    && Usable(u.rows[i], u.held[step.worker].reply.value) && u.held[step.worker].reply.value.state == "completed"
  }

  lemma {:induction false} OnlyStoresComplete(s: System, step: Step, i: nat)
    requires Inv(s) && Enabled(s, step) && i < |Next(s, step).rows| && Next(s, step).rows[i].state == Completed
    requires i < |s.rows| ==> s.rows[i].state != Completed
    ensures Completes(s, step, i)
  {
    hide Inv, MayAbandon, Judge, Finish, Usable, HoldsReply, HoldsFailure, Recovers;
    if step.Store? {
      var h := s.held[step.worker];
      StoreOutcome(s, step.worker, step.now);
      assert i == h.row && s.rows[i].state == Running && s.rows[i].attempts == h.attempt;
      CompletedReply(s.rows[i], Next(s, step).rows[i], h.reply.value, step.now);
    }
  }

  lemma {:induction false} CompletedReply(row: Row, z: Row, reply: Reply, now: int)
    requires z.state == Completed
    requires if Usable(row, reply) then HoldsReply(row, z, reply, now) else HoldsFailure(row, z, reply)
    ensures Usable(row, reply) && reply.state == "completed"
  {
  }

  lemma {:induction false} WasCompletedBy(s: System, steps: seq<Step>, i: nat) returns (k: nat)
    requires Inv(s) && CanRun(s, steps) && i < |Run(s, steps).rows| && Run(s, steps).rows[i].state == Completed
    requires i < |s.rows| ==> s.rows[i].state != Completed
    ensures k < |steps| && CanRun(s, steps[..k]) && Completes(Run(s, steps[..k]), steps[k], i)
    ensures Inv(Run(s, steps[..k]))
    ensures var z := Run(s, steps).rows[i];
            Next(Run(s, steps[..k]), steps[k]).rows[i].(live := z.live) == z
    decreases |steps|
  {
    hide Inv, Next, Enabled, Completes;
    var t := Next(s, steps[0]);
    NextKeepsInv(s, steps[0]);
    if i < |t.rows| && t.rows[i].state == Completed {
      k := 0;
      OnlyStoresComplete(s, steps[0], i);
      CompletedIsFinal(t, steps[1..], i);
      assert steps[..0] == [];
    } else {
      k := WasCompletedBy(t, steps[1..], i);
      FirstSteps(s, steps, k);
      k := k + 1;
    }
  }

  /**
   Over any run a completed extraction holds the text and the blocks of a reply that its parser gave to a
   worker, which had the row's attempt all the time from the reply to storing it.
   */
  lemma {:induction false} CompletedHoldsReply(steps: seq<Step>, i: nat)
      returns (j: nat, k: nat, w: nat, reply: Reply, before: Row)
    requires CanRun(EMPTY, steps) && i < |Run(EMPTY, steps).rows| && Run(EMPTY, steps).rows[i].state == Completed
    ensures j < k < |steps| && steps[j] == Parse(w, reply) && steps[k].Store? && steps[k].worker == w
    ensures forall m :: j < m < k ==> !StepOf(steps[m], w)
    ensures CanRun(EMPTY, steps[..j]) && w in Run(EMPTY, steps[..j]).held
    ensures Run(EMPTY, steps[..j]).held[w].row == i
    ensures CanRun(EMPTY, steps[..k]) && i < |Run(EMPTY, steps[..k]).rows|
    ensures Run(EMPTY, steps[..k]).rows[i] == before && before.state == Running
    ensures before.attempts == Run(EMPTY, steps[..j]).held[w].attempt
    ensures Usable(before, reply) && reply.state == "completed"
    ensures var row := Run(EMPTY, steps).rows[i];
            && row.text == reply.fullText.value && HoldsBlocks(row, reply.blocks.value)
            && row.fingerprint == before.fingerprint
  {
    hide Inv, Next, Enabled, Usable, HoldsReply, StepOf, HoldsBlocks;
    EmptyInv();
    k := WasCompletedBy(EMPTY, steps, i);
    var u := Run(EMPTY, steps[..k]);
    w := steps[k].worker;
    CompletesHas(u, steps[k], i);
    before, reply := u.rows[i], u.held[w].reply.value;
    var at := HeldReplyWasParsed(EMPTY, steps[..k], w);
    assert w !in EMPTY.held;
    j := at;
    assert steps[..k][..j] == steps[..j];
    assert forall m :: j < m < k ==> steps[m] == steps[..k][m];
    StoreOutcome(u, w, steps[k].now);
    HoldsText(before, Next(u, steps[k]).rows[i], Run(EMPTY, steps).rows[i], reply, steps[k].now);
  }

  lemma {:induction false} CompletesHas(u: System, step: Step, i: nat)
    requires Completes(u, step, i)
    ensures step.Store? && Enabled(u, step) && step.worker in u.held && i < |u.rows|
    ensures u.held[step.worker].reply.Some? && u.held[step.worker].row == i
    ensures u.rows[i].state == Running && u.rows[i].attempts == u.held[step.worker].attempt
    ensures Usable(u.rows[i], u.held[step.worker].reply.value) && u.held[step.worker].reply.value.state == "completed"
  {
  }

  lemma {:induction false} HoldsText(row: Row, y: Row, z: Row, reply: Reply, now: int)
    requires Usable(row, reply) && HoldsReply(row, y, reply, now) && y.(live := z.live) == z
    ensures z.text == reply.fullText.value && HoldsBlocks(z, reply.blocks.value)
  {
  }
}
