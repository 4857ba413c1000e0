/** What holds after any sequence of requests to one process instance. */
module ExecutionRuns {
  import opened Prelude
  import opened ProcessGraph
  import opened Execution

  /** The state after a sequence of requests; a refused request changes nothing. */
  ghost function Run(snap: Snapshot, s: State, reqs: seq<Request>): (t: State)
    requires Published(snap) && Inv(snap, s)
    ensures Inv(snap, t)
    decreases |reqs|
  {
    if reqs == [] then s
    else Run(snap, Step1(snap, s, reqs[0]), reqs[1..])
  }

  ghost function Step1(snap: Snapshot, s: State, req: Request): (t: State)
    requires Published(snap) && Inv(snap, s)
    ensures Inv(snap, t)
  {
    match Handle(snap, s, req)
    case Ok(t) => HandleKeepsInv(snap, s, req); t
    case Err(_) => s
  }

  lemma {:induction false} RunAppend(snap: Snapshot, s: State, a: seq<Request>, b: seq<Request>)
    requires Published(snap) && Inv(snap, s)
    ensures Run(snap, s, a + b) == Run(snap, Run(snap, s, a), b)
    decreases |a|
  {
    if a == [] {
      assert a + b == b;
    } else {
      assert (a + b)[1..] == a[1..] + b;
      RunAppend(snap, Step1(snap, s, a[0]), a[1..], b);
    }
  }

  lemma {:induction false} PublishedLinked(snap: Snapshot)
    requires Published(snap)
    ensures Linked(snap)
  {
    StartIsKey(snap.steps);
    forall i | 0 <= i < |snap.transitions|
      ensures snap.transitions[i].to in Keys(snap.steps)
    {
      var valid :| WellFormed(snap.steps, snap.transitions, valid);
      assert TransitionOk(Keys(snap.steps), valid, snap.transitions[i]);
    }
  }

  ghost function Fresh(snap: Snapshot): (t: State)
    requires Published(snap)
    ensures Inv(snap, t)
  {
    PublishedLinked(snap);
    StartKeepsInv(snap);
    Start(snap)
  }

  /** The state reached from a fresh instance. */
  ghost function Reached(snap: Snapshot, reqs: seq<Request>): (t: State)
    requires Published(snap)
    ensures Inv(snap, t)
  {
    Run(snap, Fresh(snap), reqs)
  }

  // ---------------------------------------------------------------------------
  // The trail
  // ---------------------------------------------------------------------------

  lemma {:induction false} DistinctFit(p: seq<Key>, keys: set<Key>)
    requires NoRepeats(p) && forall i :: 0 <= i < |p| ==> p[i] in keys
    ensures |p| <= |keys|
    decreases |p|
  {
    if p != [] {
      var n := |p| - 1;
      assert p[n] !in p[..n];
      DistinctFit(p[..n], keys - {p[n]});
    }
  }

  lemma {:induction false} TrailInKeys(snap: Snapshot, s: State)
    requires Inv(snap, s)
    ensures forall i :: 0 <= i < |Trail(s)| ==> Trail(s)[i] in Keys(snap.steps)
  {
  }

  lemma {:induction false} TrailFits(snap: Snapshot, s: State)
    requires Published(snap) && Inv(snap, s)
    ensures NoRepeats(Trail(s)) && |Trail(s)| <= |snap.steps|
  {
    AcyclicWalkNoRepeats(snap.transitions, Trail(s));
    TrailInKeys(snap, s);
    DistinctFit(Trail(s), Keys(snap.steps));
    KeyCount(snap.steps, |snap.steps|);
  }

  /**
   In every reachable state the steps passed, with the current step while the route is not
   finished, are a walk from the start that never repeats a step; so the path is never longer
   than the process.
   */
  lemma {:induction false} TrailIsSimpleWalk(snap: Snapshot, reqs: seq<Request>)
    requires Published(snap)
    ensures var t := Reached(snap, reqs);
            && IsWalk(snap.transitions, Trail(t)) && Trail(t)[0] == StartKey(snap.steps)
            && NoRepeats(Trail(t))
            && |Trail(t)| <= |snap.steps|
            && |t.path| + (if t.state.Completed? then 0 else 1) <= |snap.steps|
  {
    TrailFits(snap, Reached(snap, reqs));
  }

  lemma {:induction false} EdgeHasPath(ts: seq<Transition>, a: Key, b: Key)
    requires Edge(ts, a, b)
    ensures Outgoing(ts, a) != []
  {
    var i :| 0 <= i < |ts| && ts[i].from == a && ts[i].to == b;
    OutgoingMember(ts, |ts|, a, ts[i]);
  }

  lemma {:induction false} TerminalHasNoPath(snap: Snapshot, key: Key)
    requires Published(snap) && key in Keys(snap.steps)
    ensures Definition(snap.steps, key).isTerminal <==> Outgoing(snap.transitions, key) == []
  {
  }

  lemma {:induction false} UnfinishedLeadsOn(snap: Snapshot, s: State)
    requires Inv(snap, s) && !s.state.Completed? && s.path != []
    ensures Outgoing(snap.transitions, s.attempts[s.path[|s.path| - 1]].step) != []
  {
    var n := |s.path| - 1;
    assert EdgeAt(snap.transitions, Trail(s), n);
    EdgeHasPath(snap.transitions, Trail(s)[n], Trail(s)[n + 1]);
  }

  /** An instance is completed exactly when the last step of its path is terminal. */
  lemma {:induction false} CompletedAtTerminal(snap: Snapshot, reqs: seq<Request>)
    requires Published(snap)
    ensures var t := Reached(snap, reqs);
            t.state.Completed? <==>
            t.path != [] && Definition(snap.steps, t.attempts[t.path[|t.path| - 1]].step).isTerminal
  {
    var t := Reached(snap, reqs);
    if t.path != [] {
      TerminalHasNoPath(snap, t.attempts[t.path[|t.path| - 1]].step);
      if !t.state.Completed? {
        UnfinishedLeadsOn(snap, t);
      }
    }
  }

  // ---------------------------------------------------------------------------
  // Counting
  // ---------------------------------------------------------------------------

  datatype Kind = Advances | Returns | All

  predicate OfKind(kind: Kind, action: Action) {
    match kind
    case Advances => action.Advance?
    case Returns => action.Return?
    case All => true
  }

  /** How many accepted requests of a run are of one kind. */
  ghost function Accepted(snap: Snapshot, s: State, reqs: seq<Request>, kind: Kind): nat
    requires Published(snap) && Inv(snap, s)
    decreases |reqs|
  {
    if reqs == [] then 0
    else
      (if Handle(snap, s, reqs[0]).Ok? && OfKind(kind, reqs[0].action) then 1 else 0) +
      Accepted(snap, Step1(snap, s, reqs[0]), reqs[1..], kind)
  }

  lemma {:induction false} AdvanceReturnBalance(snap: Snapshot, s: State, reqs: seq<Request>)
    requires Published(snap) && Inv(snap, s)
    ensures |s.path| + Accepted(snap, s, reqs, Advances) ==
            |Run(snap, s, reqs).path| + Accepted(snap, s, reqs, Returns)
    decreases |reqs|
  {
    if reqs != [] {
      var t := Step1(snap, s, reqs[0]);
      AdvanceReturnBalance(snap, t, reqs[1..]);
      if Handle(snap, s, reqs[0]).Ok? {
        PathLengthStep(snap, s, reqs[0]);
      }
    }
  }

  lemma {:induction false} PathLengthStep(snap: Snapshot, s: State, req: Request)
    requires Shaped(snap, s) && Handle(snap, s, req).Ok?
    ensures |Handle(snap, s, req).value.path| ==
            |s.path| + (if req.action.Advance? then 1 else 0) - (if req.action.Return? then 1 else 0)
  {
  }

  /** Advances are returns plus the length of the path. */
  lemma {:induction false} AdvancesAreReturnsPlusPath(snap: Snapshot, reqs: seq<Request>)
    requires Published(snap)
    ensures Accepted(snap, Fresh(snap), reqs, Advances) ==
            Accepted(snap, Fresh(snap), reqs, Returns) + |Reached(snap, reqs).path|
  {
    PublishedLinked(snap);
    AdvanceReturnBalance(snap, Fresh(snap), reqs);
  }

  /** The revision counts the accepted requests. */
  lemma {:induction false} RevisionCounts(snap: Snapshot, s: State, reqs: seq<Request>)
    requires Published(snap) && Inv(snap, s)
    ensures Run(snap, s, reqs).revision == s.revision + Accepted(snap, s, reqs, All)
    decreases |reqs|
  {
    if reqs != [] {
      RevisionCounts(snap, Step1(snap, s, reqs[0]), reqs[1..]);
      if Handle(snap, s, reqs[0]).Ok? {
        RevisionStep(snap, s, reqs[0]);
      }
    }
  }

  lemma {:induction false} RevisionStep(snap: Snapshot, s: State, req: Request)
    requires Shaped(snap, s) && Handle(snap, s, req).Ok?
    ensures Handle(snap, s, req).value.revision == s.revision + 1 && req.revision == s.revision
  {
  }

  /** Of any two callers holding the same revision at most one succeeds. */
  lemma {:induction false} OneWinnerPerRevision(snap: Snapshot, s: State, first: Request, between: seq<Request>,
                                                second: Request)
    requires Published(snap) && Inv(snap, s) && first.revision == second.revision
    requires Handle(snap, s, first).Ok?
    ensures var later := Run(snap, Step1(snap, s, first), between);
            Handle(snap, later, second) == Err(RevisionConflict)
  {
    RevisionStep(snap, s, first);
    RevisionCounts(snap, Step1(snap, s, first), between);
  }

  // ---------------------------------------------------------------------------
  // History
  // ---------------------------------------------------------------------------

  /** Completed and cancelled instances refuse everything. */
  lemma {:induction false} TerminalAbsorbs(snap: Snapshot, s: State, reqs: seq<Request>)
    requires Published(snap) && Inv(snap, s) && (s.state.Completed? || s.state.Cancelled?)
    ensures Run(snap, s, reqs) == s
    decreases |reqs|
  {
    if reqs != [] {
      TerminalAbsorbs(snap, s, reqs[1..]);
    }
  }

  /** `later` keeps every attempt of `s`, in place, and every finished one exactly as it was. */
  ghost predicate KeepsHistory(s: State, later: State) {
    && |s.attempts| <= |later.attempts|
    && (forall i :: 0 <= i < |s.attempts| ==> SameIdentity(s.attempts[i], later.attempts[i]))
    && (forall i :: 0 <= i < |s.attempts| && Finished(s.attempts[i]) ==> later.attempts[i] == s.attempts[i])
  }

  ghost predicate SameIdentity(a: Attempt, b: Attempt) {
    a.step == b.step && a.number == b.number && (a.started ==> b.started)
  }

  lemma {:induction false} WorkKeepsHistory(snap: Snapshot, s: State, req: Request)
    requires Shaped(snap, s) && AttemptsOk(s) && !s.state.Completed? && IsWork(req.action) && Act(snap, s, req).Ok?
    ensures KeepsHistory(s, Act(snap, s, req).value)
  {
  }

  lemma {:induction false} ControlKeepsHistory(snap: Snapshot, s: State, req: Request)
    requires Shaped(snap, s) && AttemptsOk(s) && !s.state.Completed? && !IsWork(req.action) && Act(snap, s, req).Ok?
    ensures KeepsHistory(s, Act(snap, s, req).value)
  {
  }

  /** Closed attempts, with their results and checklists, never change again. */
  lemma {:induction false} HistoryIsKept(snap: Snapshot, s: State, reqs: seq<Request>)
    requires Published(snap) && Inv(snap, s)
    ensures KeepsHistory(s, Run(snap, s, reqs))
    decreases |reqs|
  {
    if reqs != [] {
      var t := Step1(snap, s, reqs[0]);
      HistoryIsKept(snap, t, reqs[1..]);
      if Handle(snap, s, reqs[0]).Ok? {
        if IsWork(reqs[0].action) {
          WorkKeepsHistory(snap, s, reqs[0]);
        } else {
          ControlKeepsHistory(snap, s, reqs[0]);
        }
      }
    }
  }

  /** Everything done keeps a result and a fully checked list, at any later time. */
  lemma {:induction false} DoneStaysProven(snap: Snapshot, reqs: seq<Request>, more: seq<Request>, i: nat)
    requires Published(snap) && i < |Reached(snap, reqs).attempts| && Reached(snap, reqs).attempts[i].state.Done?
    ensures var later := Run(snap, Reached(snap, reqs), more);
            && i < |later.attempts| && later.attempts[i] == Reached(snap, reqs).attempts[i]
            && later.attempts[i].result.Some? && AllChecked(later.attempts[i].items)
  {
    HistoryIsKept(snap, Reached(snap, reqs), more);
  }

  /** Until the route is finished there is exactly one open attempt, the current one; afterwards none. */
  lemma {:induction false} OneOpenAttempt(snap: Snapshot, reqs: seq<Request>)
    requires Published(snap)
    ensures var t := Reached(snap, reqs);
            forall i :: 0 <= i < |t.attempts| ==>
                          (!Finished(t.attempts[i]) <==> i == t.current && !t.state.Completed?)
  {
  }

  lemma {:induction false} NumberPosition(attempts: seq<Attempt>, n: nat, step: Key, number: nat) returns (i: nat)
    requires n <= |attempts| && Numbered(attempts) && 1 <= number <= CountOf(attempts, n, step)
    ensures i < n && attempts[i].step == step && attempts[i].number == number
  {
    if attempts[n - 1].step == step && CountOf(attempts, n, step) == number {
      assert NumberedAt(attempts, n - 1);
      i := n - 1;
    } else {
      i := NumberPosition(attempts, n - 1, step, number);
    }
  }

  lemma {:induction false} CountGrows(attempts: seq<Attempt>, i: nat, n: nat, step: Key)
    requires i <= n <= |attempts|
    ensures CountOf(attempts, i, step) <= CountOf(attempts, n, step)
    ensures i < n && attempts[i].step == step ==> CountOf(attempts, i, step) < CountOf(attempts, n, step)
    decreases n
  {
    if i < n {
      CountGrows(attempts, i, n - 1, step);
    }
  }

  /** The attempts of a step are numbered 1, 2, ... without gap or repetition, in order. */
  lemma {:induction false} NumbersHaveNoGaps(snap: Snapshot, reqs: seq<Request>, step: Key, number: nat)
    requires Published(snap)
    ensures var a := Reached(snap, reqs).attempts;
            (exists i :: 0 <= i < |a| && a[i].step == step && a[i].number == number) <==>
            1 <= number <= CountOf(a, |a|, step)
    ensures var a := Reached(snap, reqs).attempts;
            forall i, j :: 0 <= i < j < |a| && a[i].step == a[j].step ==> a[i].number < a[j].number
  {
    var a := Reached(snap, reqs).attempts;
    if 1 <= number <= CountOf(a, |a|, step) {
      var i := NumberPosition(a, |a|, step, number);
    }
    forall i | 0 <= i < |a| && a[i].step == step
      ensures 1 <= a[i].number <= CountOf(a, |a|, step)
    {
      assert NumberedAt(a, i);
      CountGrows(a, i, |a|, step);
    }
    forall i, j | 0 <= i < j < |a| && a[i].step == a[j].step
      ensures a[i].number < a[j].number
    {
      assert NumberedAt(a, i) && NumberedAt(a, j);
      CountGrows(a, i, j, a[i].step);
    }
  }

  // ---------------------------------------------------------------------------
  // What requests undo, and progress
  // ---------------------------------------------------------------------------

  /**
   Suspending and resuming changes nothing but the revision, except that an active instance whose
   current step has not been opened comes back as pending, from where it cannot be returned.
   */
  lemma {:induction false} ResumeUndoesSuspend(snap: Snapshot, s: State, reason: string)
    requires Shaped(snap, s) && AttemptsOk(s) && !Blank(reason)
    requires s.state.Pending? || s.state.Active?
    ensures var req := Request(s.revision, true, true, Suspend(reason));
            var there := Handle(snap, s, req);
            && there.Ok?
            && var back := Handle(snap, there.value, Request(s.revision + 1, true, true, Resume(reason)));
               && back.Ok?
               && back.value == s.(revision := s.revision + 2, state := back.value.state)
               && (back.value.state == s.state <==> !(s.state.Active? && s.attempts[s.current].state.Waiting?))
               && (back.value.state != s.state ==> back.value.state.Pending?)
  {
  }

  /** An attempt is added and made current; the earlier ones keep their steps and numbers. */
  ghost predicate Continues(s: State, t: State) {
    && t.state == s.state && t.current == |s.attempts| && |t.attempts| == |s.attempts| + 1
    && (forall i :: 0 <= i < |s.attempts| ==>
          t.attempts[i].step == s.attempts[i].step && t.attempts[i].number == s.attempts[i].number)
  }

  lemma {:induction false} AdvanceShape(snap: Snapshot, s: State)
    requires Inv(snap, s) && AdvanceStep(snap, s, true).Ok? && !AdvanceStep(snap, s, true).value.state.Completed?
    ensures var t := AdvanceStep(snap, s, true).value; Continues(s, t) && t.path == s.path + [s.current]
  {
  }

  lemma {:induction false} ReturnShape(snap: Snapshot, s: State, reason: string)
    requires Inv(snap, s) && s.state.Active? && s.path != [] && !Blank(reason)
    ensures ReturnStep(snap, s, reason).Ok?
    ensures var t, n := ReturnStep(snap, s, reason).value, |s.path| - 1;
            && Continues(s, t) && t.path == s.path[..n]
            && t.attempts[t.current].state.Waiting? && t.attempts[t.current].step == s.attempts[s.path[n]].step
  {
  }

  /** Returning straight after an advance gives back the trail of before, on a new attempt of the same step. */
  lemma {:induction false} ReturnUndoesAdvance(snap: Snapshot, s: State, reason: string)
    requires Published(snap) && Inv(snap, s) && s.state.Active? && !Blank(reason)
    requires AdvanceStep(snap, s, true).Ok? && !AdvanceStep(snap, s, true).value.state.Completed?
    ensures var there := AdvanceStep(snap, s, true).value;
            && Inv(snap, there)
            && ReturnStep(snap, there, reason).Ok?
            && var back := ReturnStep(snap, there, reason).value;
               && Inv(snap, back)
               && back.path == s.path && Trail(back) == Trail(s) && back.state == s.state
               && back.attempts[back.current].state.Waiting?
               && back.attempts[back.current].number > s.attempts[s.current].number
  {
    AdvanceKeepsInv(snap, s);
    var there := AdvanceStep(snap, s, true).value;
    AdvanceShape(snap, s);
    ReturnShape(snap, there, reason);
    ReturnKeepsInv(snap, there, reason);
    var back := ReturnStep(snap, there, reason).value;
    assert back.path == s.path;
    InvNumbered(snap, back);
    hide AdvanceStep, ReturnStep, Published;
    assert StepsOf(back.attempts, s.path) == StepsOf(s.attempts, s.path);
    LaterAttemptNumber(back.attempts, s.current, back.current);
  }

  lemma {:induction false} InvNumbered(snap: Snapshot, s: State)
    requires Inv(snap, s)
    ensures Numbered(s.attempts)
  {
  }

  lemma {:induction false} LaterAttemptNumber(a: seq<Attempt>, i: nat, j: nat)
    requires Numbered(a) && i < j < |a| && a[i].step == a[j].step
    ensures a[j].number > a[i].number
  {
    assert NumberedAt(a, i) && NumberedAt(a, j);
    CountGrows(a, i, j, a[i].step);
  }

  /** Marks change exactly the boxes they name. */
  lemma {:induction false} ApplyMarksMeaning(marks: seq<(nat, bool)>, items: seq<Item>)
    requires MarksFit(marks, items)
    ensures forall k :: 0 <= k < |items| ==>
              ApplyMarks(marks, items)[k] == items[k].(checked := ApplyMarks(marks, items)[k].checked)
    ensures forall j :: 0 <= j < |marks| ==> ApplyMarks(marks, items)[marks[j].0].checked == marks[j].1
    ensures forall k :: 0 <= k < |items| && (forall j :: 0 <= j < |marks| ==> marks[j].0 != k) ==>
              ApplyMarks(marks, items)[k] == items[k]
    decreases |marks|
  {
    if marks != [] {
      var once := items[marks[0].0 := items[marks[0].0].(checked := marks[0].1)];
      var rest := marks[1..];
      assert forall j :: 0 <= j < |rest| ==> rest[j] == marks[j + 1];
      ApplyMarksMeaning(rest, once);
      assert forall j :: 0 < j < |marks| ==> marks[j] == rest[j - 1];
    }
  }

  ghost predicate Live(s: State) {
    !s.state.Completed? && !s.state.Cancelled?
  }

  /** A permitted request with the current revision is accepted when its handler accepts it. */
  lemma {:induction false} Do(snap: Snapshot, s: State, action: Action) returns (req: Request, t: State)
    requires Published(snap) && Inv(snap, s) && Live(s)
    requires IsWork(action) ==> !s.state.Suspended?
    requires Act(snap, s, Request(s.revision, true, true, action)).Ok?
    ensures req == Request(s.revision, true, true, action)
    ensures Inv(snap, t) && Run(snap, s, [req]) == t
    ensures t == Act(snap, s, req).value.(revision := t.revision)
  {
    req := Request(s.revision, true, true, action);
    t := Step1(snap, s, req);
    assert [req][1..] == [];
    assert Run(snap, t, []) == t;
  }

  lemma {:induction false} Then(snap: Snapshot, s: State, reqs: seq<Request>, req: Request)
    requires Published(snap) && Inv(snap, s)
    ensures Run(snap, s, reqs + [req]) == Run(snap, Run(snap, s, reqs), [req])
  {
    RunAppend(snap, s, reqs, [req]);
  }

  /** A suspended instance can be resumed. */
  lemma {:induction false} CanResume(snap: Snapshot, s: State) returns (reqs: seq<Request>)
    requires Published(snap) && Inv(snap, s) && Live(s)
    ensures var t := Run(snap, s, reqs); Live(t) && !t.state.Suspended? && t.path == s.path
  {
    if s.state.Suspended? {
      assert !Blank("-") by {
        assert !IsSpace("-"[0]);
      }
      var req, t := Do(snap, s, Resume("-"));
      return [req];
    }
    return [];
  }

  /** From any live state requests lead to the current step being worked on. */
  lemma {:induction false} CanWork(snap: Snapshot, s: State) returns (reqs: seq<Request>)
    requires Published(snap) && Inv(snap, s) && Live(s)
    ensures var t := Run(snap, s, reqs);
            t.state.Active? && t.attempts[t.current].state.Working? && t.path == s.path
  {
    reqs := CanResume(snap, s);
    var t := Run(snap, s, reqs);
    if t.attempts[t.current].state.Waiting? {
      var req, u := Do(snap, t, Open);
      Then(snap, s, reqs, req);
      reqs := reqs + [req];
    }
  }

  /** A step being worked on can be given a result. */
  lemma {:induction false} CanSave(snap: Snapshot, s: State) returns (req: Request)
    requires Published(snap) && Inv(snap, s)
    requires s.state.Active? && s.attempts[s.current].state.Working?
    ensures var t := Run(snap, s, [req]);
            && t.state.Active? && t.path == s.path
            && t.attempts[t.current].state.Working? && t.attempts[t.current].result.Some?
  {
    var t;
    req, t := Do(snap, s, Save(Some(map[])));
  }

  /** The checklist of a step being worked on can be ticked off. */
  lemma {:induction false} CanCheck(snap: Snapshot, s: State) returns (req: Request)
    requires Published(snap) && Inv(snap, s)
    requires s.state.Active? && s.attempts[s.current].state.Working?
    ensures var t := Run(snap, s, [req]);
            && t.state.Active? && t.path == s.path
            && t.attempts[t.current].state.Working? && t.attempts[t.current].result == s.attempts[s.current].result
            && AllChecked(t.attempts[t.current].items)
  {
    var items := s.attempts[s.current].items;
    var marks := Ticks(|items|);
    ApplyMarksMeaning(marks, items);
    forall k | 0 <= k < |items|
      ensures ApplyMarks(marks, items)[k].checked
    {
      assert marks[k] == (k, true);
    }
    var t;
    req, t := Do(snap, s, Check(marks));
  }

  ghost function Ticks(n: nat): seq<(nat, bool)> {
    seq(n, i => (i, true))
  }

  /** A step being worked on can be advanced: the path grows, or the route is finished. */
  lemma {:induction false} CanAdvance(snap: Snapshot, s: State) returns (reqs: seq<Request>)
    requires Published(snap) && Inv(snap, s)
    requires s.state.Active? && s.attempts[s.current].state.Working?
    ensures var t := Run(snap, s, reqs);
            && |t.path| == |s.path| + 1
            && (t.state.Completed? || (t.state.Active? && t.attempts[t.current].state.Waiting?))
  {
    hide Inv, Published, Run;
    var save := CanSave(snap, s);
    var saved := Run(snap, s, [save]);
    var check := CanCheck(snap, saved);
    var checked := Run(snap, saved, [check]);
    Then(snap, s, [save], check);
    var advance, t := Do(snap, checked, Advance(true));
    Then(snap, s, [save] + [check], advance);
    reqs := [save] + [check] + [advance];
  }

  /** No live instance is stuck: permitted requests can always finish its route. */
  lemma {:induction false} CanFinish(snap: Snapshot, s: State) returns (reqs: seq<Request>)
    requires Published(snap) && Inv(snap, s) && Live(s)
    ensures Run(snap, s, reqs).state.Completed?
    decreases |snap.steps| - |s.path|
  {
    var open := CanWork(snap, s);
    var worked := Run(snap, s, open);
    var forward := CanAdvance(snap, worked);
    var t := Run(snap, worked, forward);
    RunAppend(snap, s, open, forward);
    reqs := open + forward;
    if !t.state.Completed? {
      TrailFits(snap, t);
      var rest := CanFinish(snap, t);
      RunAppend(snap, s, reqs, rest);
      reqs := reqs + rest;
    }
  }

  // ---------------------------------------------------------------------------
  // A return that is lost
  // ---------------------------------------------------------------------------

  ghost function Suspending(s: State, reason: string): Request {
    Request(s.revision, true, true, Suspend(reason))
  }

  ghost function Resuming(s: State, reason: string): Request {
    Request(s.revision + 1, true, true, Resume(reason))
  }

  /** A return of the current revision is accepted now, and refused once the instance was suspended and resumed. */
  ghost predicate LosesReturn(snap: Snapshot, s: State, reason: string)
    requires Published(snap) && Inv(snap, s)
  {
    var back := Run(snap, s, [Suspending(s, reason), Resuming(s, reason)]);
    && Handle(snap, s, Request(s.revision, true, true, Return(reason))).Ok?
    && back.revision == s.revision + 2
    && Handle(snap, back, Request(back.revision, true, true, Return(reason))) == Err(ReturnUnavailable)
  }

  /** On every route that does not end where it starts an instance reaches a state that loses its return. */
  lemma {:induction false} ReturnCanBeLost(snap: Snapshot, reason: string) returns (reqs: seq<Request>)
    requires Published(snap) && !Blank(reason)
    requires StartCount(snap.steps) > 0 && Outgoing(snap.transitions, StartKey(snap.steps)) != []
    ensures LosesReturn(snap, Reached(snap, reqs), reason)
  {
    hide Published, Inv, Run, LosesReturn, Blank, Outgoing;
    var s := Fresh(snap);
    FreshIsLive(snap);
    var open := CanWork(snap, s);
    var worked := Run(snap, s, open);
    var forward := CanAdvance(snap, worked);
    RunAppend(snap, s, open, forward);
    reqs := open + forward;
    NotFinished(snap, Reached(snap, reqs));
    WaitingLosesReturn(snap, Reached(snap, reqs), reason);
  }

  lemma {:induction false} FreshIsLive(snap: Snapshot)
    requires Published(snap)
    ensures Live(Fresh(snap)) && Fresh(snap).path == []
  {
  }

  /** A route with a path of one step is not finished if the start leads on. */
  lemma {:induction false} NotFinished(snap: Snapshot, s: State)
    requires Inv(snap, s) && |s.path| == 1 && Outgoing(snap.transitions, StartKey(snap.steps)) != []
    ensures !s.state.Completed?
  {
    hide Outgoing, IsWalk, AttemptsOk, Numbered;
    assert StepsOf(s.attempts, s.path)[0] == s.attempts[s.path[0]].step;
  }

  /** Every active instance on a step still to be opened that could be returned loses its return. */
  lemma {:induction false} WaitingLosesReturn(snap: Snapshot, s: State, reason: string)
    requires Published(snap) && Inv(snap, s) && !Blank(reason)
    requires s.state.Active? && s.attempts[s.current].state.Waiting? && s.path != []
    ensures LosesReturn(snap, s, reason)
  {
    hide Published, Blank, Numbered, PathOk;
    ResumeUndoesSuspend(snap, s, reason);
    ReturnShape(snap, s, reason);
    var there := Step1(snap, s, Suspending(s, reason));
    var back := Step1(snap, there, Resuming(s, reason));
    var reqs := [Suspending(s, reason), Resuming(s, reason)];
    assert reqs[1..] == [Resuming(s, reason)] && reqs[1..][1..] == [];
    assert Run(snap, back, []) == back;
    assert Run(snap, there, reqs[1..]) == back;
  }

  /** A route of two steps. */
  function TwoSteps(): Snapshot {
    Snapshot([Step(Key("a"), true, false, [], [], ""), Step(Key("b"), false, true, [], [], "")],
             [Transition(Key("ab"), Key("a"), Key("b"), None, false)], (_, _) => false)
  }

  /** There are such routes, so the loss does happen. */
  lemma {:induction false} TwoStepsLoseReturn() returns (reqs: seq<Request>)
    ensures Published(TwoSteps()) && LosesReturn(TwoSteps(), Reached(TwoSteps(), reqs), "-")
  {
    hide LosesReturn, Reached;
    var snap := TwoSteps();
    TwoStepsPublished();
    assert !Blank("-") by {
      assert !IsSpace("-"[0]);
    }
    assert snap.transitions[0] in Outgoing(snap.transitions, Key("a")) by {
      OutgoingMember(snap.transitions, 1, Key("a"), snap.transitions[0]);
    }
    reqs := ReturnCanBeLost(snap, "-");
  }

  lemma {:induction false} TwoStepsPublished()
    ensures Published(TwoSteps())
    ensures StartCount(TwoSteps().steps) == 1 && StartKey(TwoSteps().steps) == Key("a")
  {
    hide WellFormed;
    TwoStepsWellFormed((_, _) => true);
    OneStart(TwoSteps().steps);
  }

  lemma {:induction false} OneStart(steps: seq<Step>)
    requires |steps| == 2 && steps[0].isStart && !steps[1].isStart
    ensures StartCount(steps) == 1 && StartKey(steps) == steps[0].key
    ensures Keys(steps) == {steps[0].key, steps[1].key}
  {
    assert StartCount(steps[1..]) == StartCount(steps[1..][1..]);
    assert KeysUpTo(steps, 1) == KeysUpTo(steps, 0) + {steps[0].key};
  }

  lemma {:induction false} TwoStepsWellFormed(valid: (Key, Condition) -> bool)
    ensures WellFormed(TwoSteps().steps, TwoSteps().transitions, valid)
  {
    hide Acyclic, Keys, StartCount, StartKey, Outgoing, Reaches, BranchingOk;
    var steps, ts := TwoSteps().steps, TwoSteps().transitions;
    var a, b := Key("a"), Key("b");
    OneStart(steps);
    OneEdgeBranches(ts, a, b);
    assert TransitionOk(Keys(steps), valid, ts[0]);
    OneEdgeReaches(ts, a, b);
    OneEdgeAcyclic(ts, a, b);
  }

  lemma {:induction false} OneEdgeBranches(ts: seq<Transition>, a: Key, b: Key)
    requires a != b && |ts| == 1 && ts[0].from == a && ts[0].to == b && ts[0].condition.None? && !ts[0].isElse
    ensures BranchingOk(false, Outgoing(ts, a)) && BranchingOk(true, Outgoing(ts, b))
  {
    assert OutgoingUpTo(ts, 0, a) == [] && OutgoingUpTo(ts, 0, b) == [];
    assert Outgoing(ts, a) == [ts[0]];
    assert ElseCount([ts[0]]) == ElseCount([ts[0]][1..]);
  }

  lemma {:induction false} OneEdgeReaches(ts: seq<Transition>, a: Key, b: Key)
    requires |ts| == 1 && ts[0].from == a && ts[0].to == b
    ensures Reaches(ts, a, a) && Reaches(ts, a, b)
  {
    assert WalkTo(ts, [a], a, a);
    assert Edge(ts, a, b) && EdgeAt(ts, [a, b], 0);
    assert WalkTo(ts, [a, b], a, b);
  }

  lemma {:induction false} OneEdgeAcyclic(ts: seq<Transition>, a: Key, b: Key)
    requires a != b && |ts| == 1 && ts[0].from == a && ts[0].to == b
    ensures Acyclic(ts)
  {
    assert FinishOrder(ts, []);
    assert [b][..0] == [] && [b, a][..1] == [b];
    assert FinishOrder(ts, [b]);
    assert FinishOrder(ts, [b, a]);
    forall p | IsWalk(ts, p) && |p| > 1
      ensures p[0] != p[|p| - 1]
    {
      assert EdgeAt(ts, p, 0);
      FinishOrderForbidsCycle(ts, [b, a], p);
    }
  }
}
