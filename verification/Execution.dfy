/**
 A process instance walking the frozen route of its snapshot. The handlers are functions on the
 stored state; `ProcessInstances` holds the methods that change the stored fields in place.
 */
module Execution {
  import opened Prelude
  import opened ProcessGraph

  type Values = map<string, string>

  /** The frozen route. `matches` decides a condition on confirmed values. */
  datatype Snapshot = Snapshot(
    steps: seq<Step>,
    transitions: seq<Transition>,
    matches: (Values, Condition) -> bool
  )

  datatype InstanceState = Pending | Active | Suspended | Completed | Cancelled
  datatype AttemptState = Waiting | Working | Done | Returned
  datatype ItemKind = Input | Output | Control

  datatype Item = Item(text: string, kind: ItemKind, required: bool, checked: bool)

  datatype Attempt = Attempt(
    step: Key,
    number: nat,
    state: AttemptState,
    started: bool,
    result: Option<Values>,
    items: seq<Item>
  )

  /** The stored instance. Attempts are only ever added, so an attempt's identity is its position. */
  datatype State = State(
    state: InstanceState,
    revision: nat,
    current: nat,
    path: seq<nat>,
    attempts: seq<Attempt>
  )

  datatype Action =
    | Open
    | Check(marks: seq<(nat, bool)>)
    | Save(confirmed: Option<Values>)   // None: the supplied values were refused
    | Advance(routable: bool)           // false: access or document checks in `route` refused
    | Suspend(reason: string)
    | Resume(reason: string)
    | Cancel(reason: string)
    | Return(reason: string)
    | Assign
    | Reschedule(reason: string)

  /** `permitted` is the work or control permission, `eligible` the check on the assignee. */
  datatype Request = Request(revision: nat, permitted: bool, eligible: bool, action: Action)

  datatype Refusal =
    | RevisionConflict | Terminal | Forbidden | Ineligible | NotResumed | AlreadyOpen | NotOpen
    | BadChecklist | BadResult | ResultRequired | ChecklistRequired | RouteRefused | BlankReason
    | AlreadySuspended | NotSuspended | ReturnUnavailable

  // ---------------------------------------------------------------------------
  // Snapshot lookups
  // ---------------------------------------------------------------------------

  /** The snapshots validation lets through. */
  ghost predicate Published(snap: Snapshot) {
    exists valid :: WellFormed(snap.steps, snap.transitions, valid)
  }

  /** Transitions join steps of the snapshot. */
  predicate Linked(snap: Snapshot) {
    && StartCount(snap.steps) > 0
    && StartKey(snap.steps) in Keys(snap.steps)
    && forall i :: 0 <= i < |snap.transitions| ==> snap.transitions[i].to in Keys(snap.steps)
  }

  function Definition(steps: seq<Step>, key: Key): (step: Step)
    requires key in Keys(steps)
    ensures step in steps && step.key == key
  {
    KeysMember(steps, |steps|, key);
    FindStep(steps, key)
  }

  function FindStep(steps: seq<Step>, key: Key): (step: Step)
    requires exists i :: 0 <= i < |steps| && steps[i].key == key
    ensures step in steps && step.key == key
  {
    if steps[0].key == key then steps[0]
    else
      assert exists i :: 0 <= i < |steps[1..]| && steps[1..][i].key == key by {
        var i :| 0 <= i < |steps| && steps[i].key == key;
        assert steps[1..][i - 1].key == key;
      }
      FindStep(steps[1..], key)
  }

  function Labelled(labels: seq<string>, kind: ItemKind): (items: seq<Item>) {
    seq(|labels|, i requires 0 <= i < |labels| => Item(labels[i], kind, true, false))
  }

  function ChecklistOf(step: Step): seq<Item> {
    Labelled(step.inputs, Input) + Labelled(step.outputs, Output) +
    (if step.controlNote == "" then [] else [Item(step.controlNote, Control, true, false)])
  }

  // ---------------------------------------------------------------------------
  // Handlers
  // ---------------------------------------------------------------------------

  /** References between the stored rows resolve. */
  predicate Shaped(snap: Snapshot, s: State) {
    && Linked(snap)
    && s.current < |s.attempts|
    && (forall i :: 0 <= i < |s.path| ==> s.path[i] < |s.attempts|)
    && (forall i :: 0 <= i < |s.attempts| ==> s.attempts[i].step in Keys(snap.steps))
  }

  /** The highest attempt number of a step among the first `n` attempts, 0 when there is none. */
  function MaxNumber(attempts: seq<Attempt>, n: nat, step: Key): nat
    requires n <= |attempts|
  {
    if n == 0 then 0
    else
      var before := MaxNumber(attempts, n - 1, step);
      if attempts[n - 1].step == step && attempts[n - 1].number > before then attempts[n - 1].number else before
  }

  function MakeAttempt(snap: Snapshot, s: State, step: Key): State
    requires step in Keys(snap.steps)
  {
    var attempt := Attempt(step, MaxNumber(s.attempts, |s.attempts|, step) + 1, Waiting, false, None,
                           ChecklistOf(Definition(snap.steps, step)));
    s.(attempts := s.attempts + [attempt], current := |s.attempts|)
  }

  function Start(snap: Snapshot): State
    requires Linked(snap)
  {
    MakeAttempt(snap, State(Pending, 1, 0, [], []), StartKey(snap.steps))
  }

  predicate IsWork(action: Action) {
    action.Open? || action.Check? || action.Save? || action.Advance?
  }

  /** The checks common to every handler, in the order they are made. */
  function Guard(s: State, req: Request): Option<Refusal> {
    if s.revision != req.revision then Some(RevisionConflict)
    else if s.state.Completed? || s.state.Cancelled? then Some(Terminal)
    else if !req.permitted then Some(Forbidden)
    else if IsWork(req.action) && !req.eligible then Some(Ineligible)
    else if IsWork(req.action) && s.state.Suspended? then Some(NotResumed)
    else None
  }

  function SetCurrent(s: State, attempt: Attempt): State
    requires s.current < |s.attempts|
  {
    s.(attempts := s.attempts[s.current := attempt])
  }

  function OpenStep(s: State): Result<State, Refusal>
    requires s.current < |s.attempts|
  {
    var attempt := s.attempts[s.current];
    if !attempt.state.Waiting? then Err(AlreadyOpen)
    else Ok(SetCurrent(s, attempt.(state := Working, started := true)).(state := Active))
  }

  predicate MarksFit(marks: seq<(nat, bool)>, items: seq<Item>) {
    && (forall i :: 0 <= i < |marks| ==> marks[i].0 < |items|)
    && (forall i, j :: 0 <= i < j < |marks| ==> marks[i].0 != marks[j].0)
  }

  function ApplyMarks(marks: seq<(nat, bool)>, items: seq<Item>): (r: seq<Item>)
    requires forall i :: 0 <= i < |marks| ==> marks[i].0 < |items|
    ensures |r| == |items|
  {
    if marks == [] then items
    else ApplyMarks(marks[1..], items[marks[0].0 := items[marks[0].0].(checked := marks[0].1)])
  }

  function Checklist(s: State, marks: seq<(nat, bool)>): Result<State, Refusal>
    requires s.current < |s.attempts|
  {
    var attempt := s.attempts[s.current];
    if !attempt.state.Working? then Err(NotOpen)
    else if !MarksFit(marks, attempt.items) then Err(BadChecklist)
    else Ok(SetCurrent(s, attempt.(items := ApplyMarks(marks, attempt.items))))
  }

  function SaveResult(s: State, confirmed: Option<Values>): Result<State, Refusal>
    requires s.current < |s.attempts|
  {
    var attempt := s.attempts[s.current];
    if !attempt.state.Working? then Err(NotOpen)
    else if confirmed.None? then Err(BadResult)
    else Ok(SetCurrent(s, attempt.(result := confirmed)))
  }

  predicate AllChecked(items: seq<Item>) {
    forall i :: 0 <= i < |items| && items[i].required ==> items[i].checked
  }

  /** The edge `route` selects for the values of a result. */
  function Route(snap: Snapshot, step: Key, values: Values): Option<Transition> {
    SelectEdge(Outgoing(snap.transitions, step), c => snap.matches(values, c))
  }

  lemma {:induction false} RouteMember(snap: Snapshot, step: Key, values: Values)
    ensures Route(snap, step, values).Some? ==>
              exists i :: 0 <= i < |snap.transitions| && snap.transitions[i] == Route(snap, step, values).value
                          && snap.transitions[i].from == step
  {
    var paths, matches := Outgoing(snap.transitions, step), (c: Condition) => snap.matches(values, c);
    FirstTakenMeaning(paths, matches);
    FirstElseMeaning(paths);
    var r := SelectEdge(paths, matches);
    if r.Some? {
      assert r.value in paths;
      OutgoingMember(snap.transitions, |snap.transitions|, step, r.value);
    }
  }

  function AdvanceStep(snap: Snapshot, s: State, routable: bool): Result<State, Refusal>
    requires Shaped(snap, s)
  {
    var attempt := s.attempts[s.current];
    if !attempt.state.Working? then Err(NotOpen)
    else if attempt.result.None? then Err(ResultRequired)
    else if !AllChecked(attempt.items) then Err(ChecklistRequired)
    else if !routable then Err(RouteRefused)
    else
      var selected := Route(snap, attempt.step, attempt.result.value);
      var left := SetCurrent(s, attempt.(state := Done)).(path := s.path + [s.current]);
      RouteMember(snap, attempt.step, attempt.result.value);
      Ok(if selected.Some? then MakeAttempt(snap, left, selected.value.to) else left.(state := Completed))
  }

  function SuspendInstance(s: State, reason: string): Result<State, Refusal> {
    if Blank(reason) then Err(BlankReason)
    else if s.state.Suspended? then Err(AlreadySuspended)
    else Ok(s.(state := Suspended))
  }

  function ResumeInstance(s: State, reason: string): Result<State, Refusal>
    requires s.current < |s.attempts|
  {
    if Blank(reason) then Err(BlankReason)
    else if !s.state.Suspended? then Err(NotSuspended)
    else Ok(s.(state := if s.attempts[s.current].started then Active else Pending))
  }

  function CancelInstance(s: State, reason: string): Result<State, Refusal> {
    if Blank(reason) then Err(BlankReason) else Ok(s.(state := Cancelled))
  }

  function ReturnStep(snap: Snapshot, s: State, reason: string): Result<State, Refusal>
    requires Shaped(snap, s)
  {
    if Blank(reason) then Err(BlankReason)
    else if !s.state.Active? || s.path == [] then Err(ReturnUnavailable)
    else
      var previous := s.attempts[s.path[|s.path| - 1]];
      var left := SetCurrent(s, s.attempts[s.current].(state := Returned)).(path := s.path[..|s.path| - 1]);
      Ok(MakeAttempt(snap, left, previous.step))
  }

  function Act(snap: Snapshot, s: State, req: Request): Result<State, Refusal>
    requires Shaped(snap, s)
  {
    match req.action
    case Open => OpenStep(s)
    case Check(marks) => Checklist(s, marks)
    case Save(confirmed) => SaveResult(s, confirmed)
    case Advance(routable) => AdvanceStep(snap, s, routable)
    case Suspend(reason) => SuspendInstance(s, reason)
    case Resume(reason) => ResumeInstance(s, reason)
    case Cancel(reason) => CancelInstance(s, reason)
    case Return(reason) => ReturnStep(snap, s, reason)
    case Assign => if req.eligible then Ok(s) else Err(Ineligible)
    case Reschedule(reason) => if Blank(reason) then Err(BlankReason) else Ok(s)
  }

  /** One request: the common checks, the handler, and a revision raised by one on success. */
  function Handle(snap: Snapshot, s: State, req: Request): Result<State, Refusal>
    requires Shaped(snap, s)
  {
    var refusal := Guard(s, req);
    if refusal.Some? then Err(refusal.value)
    else match Act(snap, s, req)
      case Ok(t) => Ok(t.(revision := t.revision + 1))
      case Err(e) => Err(e)
  }

  /** An accepted request leaves references that resolve. */
  lemma {:induction false} HandleKeepsShape(snap: Snapshot, s: State, req: Request)
    requires Shaped(snap, s)
    ensures Handle(snap, s, req).Ok? ==> Shaped(snap, Handle(snap, s, req).value)
  {
    hide AdvanceStep, ReturnStep, Linked, ApplyMarks, MarksFit, Keys, Guard, Blank;
    if req.action.Advance? && AdvanceStep(snap, s, req.action.routable).Ok? {
      AdvanceKeepsShape(snap, s, req.action.routable);
    } else if req.action.Return? && ReturnStep(snap, s, req.action.reason).Ok? {
      ReturnKeepsShape(snap, s, req.action.reason);
    }
  }

  lemma {:induction false} AdvanceKeepsShape(snap: Snapshot, s: State, routable: bool)
    requires Shaped(snap, s) && AdvanceStep(snap, s, routable).Ok?
    ensures Shaped(snap, AdvanceStep(snap, s, routable).value)
  {
    hide Route, ChecklistOf, MaxNumber, Keys, AllChecked;
    RouteMember(snap, s.attempts[s.current].step, s.attempts[s.current].result.value);
  }

  lemma {:induction false} ReturnKeepsShape(snap: Snapshot, s: State, reason: string)
    requires Shaped(snap, s) && ReturnStep(snap, s, reason).Ok?
    ensures Shaped(snap, ReturnStep(snap, s, reason).value)
  {
    hide ChecklistOf, MaxNumber, Keys, Linked, Blank;
  }

  // ---------------------------------------------------------------------------
  // The invariant
  // ---------------------------------------------------------------------------

  predicate Finished(a: Attempt) {
    a.state.Done? || a.state.Returned?
  }

  predicate LegalAttempt(a: Attempt) {
    && (a.state.Waiting? ==> !a.started && a.result.None?)
    && (a.state.Working? ==> a.started)
    && (a.state.Done? ==> a.started && a.result.Some? && AllChecked(a.items))
  }

  /** Attempts of one step before position `n`. */
  function CountOf(attempts: seq<Attempt>, n: nat, step: Key): nat
    requires n <= |attempts|
  {
    if n == 0 then 0
    else CountOf(attempts, n - 1, step) + (if attempts[n - 1].step == step then 1 else 0)
  }

  ghost predicate NumberedAt(attempts: seq<Attempt>, i: int)
    requires 0 <= i < |attempts|
  {
    attempts[i].number == CountOf(attempts, i, attempts[i].step) + 1
  }

  ghost predicate Numbered(attempts: seq<Attempt>) {
    forall i :: 0 <= i < |attempts| ==> NumberedAt(attempts, i)
  }

  function StepsOf(attempts: seq<Attempt>, path: seq<nat>): seq<Key>
    requires forall i :: 0 <= i < |path| ==> path[i] < |attempts|
  {
    seq(|path|, i requires 0 <= i < |path| => attempts[path[i]].step)
  }

  /** The steps passed so far, ending in the current step unless the route is finished. */
  function Trail(s: State): seq<Key>
    requires s.current < |s.attempts| && forall i :: 0 <= i < |s.path| ==> s.path[i] < |s.attempts|
  {
    StepsOf(s.attempts, s.path) + (if s.state.Completed? then [] else [s.attempts[s.current].step])
  }

  ghost predicate AttemptsOk(s: State) {
    && s.current < |s.attempts|
    && (forall i :: 0 <= i < |s.attempts| ==> LegalAttempt(s.attempts[i]))
    && (forall i :: 0 <= i < |s.attempts| && i != s.current ==> Finished(s.attempts[i]))
    && (if s.state.Completed? then s.attempts[s.current].state.Done? else !Finished(s.attempts[s.current]))
    && (s.state.Pending? ==> s.attempts[s.current].state.Waiting?)
  }

  ghost predicate PathOk(snap: Snapshot, s: State)
    requires Shaped(snap, s)
  {
    && (forall i :: 0 <= i < |s.path| ==> s.attempts[s.path[i]].state.Done?)
    && (s.state.Completed? ==> s.path != [] && s.path[|s.path| - 1] == s.current)
    && IsWalk(snap.transitions, Trail(s))
    && Trail(s)[0] == StartKey(snap.steps)
    && (s.state.Completed? ==> Outgoing(snap.transitions, s.attempts[s.current].step) == [])
  }

  ghost predicate Inv(snap: Snapshot, s: State) {
    Shaped(snap, s) && AttemptsOk(s) && Numbered(s.attempts) && PathOk(snap, s)
  }

  // ---------------------------------------------------------------------------
  // Every handler keeps the invariant
  // ---------------------------------------------------------------------------

  lemma {:induction false} CountSame(a: seq<Attempt>, b: seq<Attempt>, n: nat, step: Key)
    requires n <= |a| && n <= |b|
    requires forall i :: 0 <= i < n ==> a[i].step == b[i].step
    ensures CountOf(a, n, step) == CountOf(b, n, step)
  {
    if n > 0 {
      CountSame(a, b, n - 1, step);
    }
  }

  lemma {:induction false} NumberedSame(a: seq<Attempt>, b: seq<Attempt>)
    requires Numbered(a) && |a| == |b|
    requires forall i :: 0 <= i < |a| ==> a[i].step == b[i].step && a[i].number == b[i].number
    ensures Numbered(b)
  {
    forall i | 0 <= i < |b|
      ensures NumberedAt(b, i)
    {
      assert NumberedAt(a, i);
      CountSame(a, b, i, b[i].step);
    }
  }

  /** Numbers without gaps: the highest number of a step is how many attempts it had. */
  lemma {:induction false} MaxIsCount(attempts: seq<Attempt>, n: nat, step: Key)
    requires n <= |attempts| && Numbered(attempts)
    ensures MaxNumber(attempts, n, step) == CountOf(attempts, n, step)
  {
    if n > 0 {
      MaxIsCount(attempts, n - 1, step);
      assert NumberedAt(attempts, n - 1);
    }
  }

  /** Replacing the current attempt by one of the same step leaves numbers and trail as they were. */
  lemma {:induction false} SetCurrentKeeps(snap: Snapshot, s: State, attempt: Attempt)
    requires Shaped(snap, s)
    requires attempt.step == s.attempts[s.current].step && attempt.number == s.attempts[s.current].number
    ensures Shaped(snap, SetCurrent(s, attempt))
    ensures Numbered(s.attempts) ==> Numbered(SetCurrent(s, attempt).attempts)
    ensures StepsOf(SetCurrent(s, attempt).attempts, s.path) == StepsOf(s.attempts, s.path)
  {
    if Numbered(s.attempts) {
      NumberedSame(s.attempts, SetCurrent(s, attempt).attempts);
    }
  }

  lemma {:induction false} NumberedAppend(attempts: seq<Attempt>, more: seq<Attempt>)
    requires Numbered(attempts) && |more| == |attempts| + 1
    requires forall i :: 0 <= i < |attempts| ==> more[i] == attempts[i]
    requires var a := more[|attempts|]; a.number == CountOf(attempts, |attempts|, a.step) + 1
    ensures Numbered(more)
  {
    forall i | 0 <= i < |more|
      ensures NumberedAt(more, i)
    {
      CountSame(attempts, more, i, more[i].step);
      if i < |attempts| {
        assert NumberedAt(attempts, i);
      }
    }
  }

  /** Between two attempts: everything so far is finished, and `step` prolongs the path to a walk. */
  ghost predicate Between(snap: Snapshot, s: State, step: Key) {
    && Linked(snap) && step in Keys(snap.steps) && !s.state.Completed?
    && (forall i :: 0 <= i < |s.path| ==> s.path[i] < |s.attempts| && s.attempts[s.path[i]].state.Done?)
    && (forall i :: 0 <= i < |s.attempts| ==> s.attempts[i].step in Keys(snap.steps))
    && (forall i :: 0 <= i < |s.attempts| ==> Finished(s.attempts[i]) && LegalAttempt(s.attempts[i]))
    && Numbered(s.attempts)
    && IsWalk(snap.transitions, StepsOf(s.attempts, s.path) + [step])
    && (StepsOf(s.attempts, s.path) + [step])[0] == StartKey(snap.steps)
  }

  /** Making the next attempt restores the invariant. */
  lemma {:induction false} MakeAttemptKeeps(snap: Snapshot, s: State, step: Key)
    requires Between(snap, s, step)
    ensures Inv(snap, MakeAttempt(snap, s, step))
  {
    var t := MakeAttempt(snap, s, step);
    MaxIsCount(s.attempts, |s.attempts|, step);
    NumberedAppend(s.attempts, t.attempts);
    assert StepsOf(t.attempts, t.path) == StepsOf(s.attempts, s.path);
    assert Trail(t) == StepsOf(s.attempts, s.path) + [step];
  }

  lemma {:induction false} StartKeepsInv(snap: Snapshot)
    requires Linked(snap)
    ensures Inv(snap, Start(snap))
  {
  }

  lemma {:induction false} OpenKeepsInv(snap: Snapshot, s: State)
    requires Inv(snap, s) && !s.state.Completed? && OpenStep(s).Ok?
    ensures Inv(snap, OpenStep(s).value)
  {
    var attempt := s.attempts[s.current].(state := Working, started := true);
    SetCurrentKeeps(snap, s, attempt);
    assert Trail(OpenStep(s).value) == Trail(s);
  }

  lemma {:induction false} ChecklistKeepsInv(snap: Snapshot, s: State, marks: seq<(nat, bool)>)
    requires Inv(snap, s) && Checklist(s, marks).Ok?
    ensures Inv(snap, Checklist(s, marks).value)
  {
    var attempt := s.attempts[s.current];
    SetCurrentKeeps(snap, s, attempt.(items := ApplyMarks(marks, attempt.items)));
    assert Trail(Checklist(s, marks).value) == Trail(s);
  }

  lemma {:induction false} SaveKeepsInv(snap: Snapshot, s: State, confirmed: Option<Values>)
    requires Inv(snap, s) && SaveResult(s, confirmed).Ok?
    ensures Inv(snap, SaveResult(s, confirmed).value)
  {
    SetCurrentKeeps(snap, s, s.attempts[s.current].(result := confirmed));
    assert Trail(SaveResult(s, confirmed).value) == Trail(s);
  }

  /** `route` finds an edge exactly at the steps that have one. */
  lemma {:induction false} RouteTotal(snap: Snapshot, step: Key, values: Values)
    requires Published(snap) && step in Keys(snap.steps)
    ensures Route(snap, step, values).Some? <==> Outgoing(snap.transitions, step) != []
    ensures Route(snap, step, values).Some? <==> !Definition(snap.steps, step).isTerminal
    ensures Route(snap, step, values).Some? ==> Edge(snap.transitions, step, Route(snap, step, values).value.to)
  {
    var definition := Definition(snap.steps, step);
    var i :| 0 <= i < |snap.steps| && snap.steps[i] == definition;
    SelectEdgeTotal(definition.isTerminal, Outgoing(snap.transitions, step), c => snap.matches(values, c));
    RouteMember(snap, step, values);
  }

  /** What is left when the current attempt is closed, before the next one is made. */
  ghost predicate Closed(snap: Snapshot, left: State) {
    && Shaped(snap, left)
    && (forall i :: 0 <= i < |left.path| ==> left.attempts[left.path[i]].state.Done?)
    && (forall i :: 0 <= i < |left.attempts| ==> Finished(left.attempts[i]) && LegalAttempt(left.attempts[i]))
    && Numbered(left.attempts)
  }

  lemma {:induction false} CloseCurrent(snap: Snapshot, s: State, attempt: Attempt)
    requires Inv(snap, s)
    requires attempt.step == s.attempts[s.current].step && attempt.number == s.attempts[s.current].number
    requires Finished(attempt) && LegalAttempt(attempt) && !s.state.Completed?
    ensures Closed(snap, SetCurrent(s, attempt))
    ensures StepsOf(SetCurrent(s, attempt).attempts, s.path) == StepsOf(s.attempts, s.path)
  {
    SetCurrentKeeps(snap, s, attempt);
    var left := SetCurrent(s, attempt);
    forall i | 0 <= i < |left.path|
      ensures left.attempts[left.path[i]].state.Done?
    {
      assert left.path[i] != s.current;
    }
  }

  lemma {:induction false} AdvanceLeaves(snap: Snapshot, s: State) returns (left: State)
    requires Inv(snap, s) && !s.state.Completed? && AdvanceStep(snap, s, true).Ok?
    ensures left == SetCurrent(s, s.attempts[s.current].(state := Done)).(path := s.path + [s.current])
    ensures Closed(snap, left) && StepsOf(left.attempts, left.path) == Trail(s)
  {
    var attempt := s.attempts[s.current].(state := Done);
    CloseCurrent(snap, s, attempt);
    left := SetCurrent(s, attempt).(path := s.path + [s.current]);
    assert StepsOf(left.attempts, left.path) == Trail(s);
  }

  lemma {:induction false} AdvanceKeepsInv(snap: Snapshot, s: State)
    requires Published(snap) && Inv(snap, s) && !s.state.Completed? && AdvanceStep(snap, s, true).Ok?
    ensures Inv(snap, AdvanceStep(snap, s, true).value)
  {
    var attempt := s.attempts[s.current];
    var left := AdvanceLeaves(snap, s);
    var selected := Route(snap, attempt.step, attempt.result.value);
    RouteTotal(snap, attempt.step, attempt.result.value);
    if selected.Some? {
      RouteMember(snap, attempt.step, attempt.result.value);
      WalkAppend(snap.transitions, Trail(s), selected.value.to);
      MakeAttemptKeeps(snap, left, selected.value.to);
    } else {
      assert Trail(left.(state := Completed)) == Trail(s);
    }
  }

  lemma {:induction false} ReturnLeaves(snap: Snapshot, s: State, reason: string) returns (left: State)
    requires Inv(snap, s) && ReturnStep(snap, s, reason).Ok?
    ensures left == SetCurrent(s, s.attempts[s.current].(state := Returned)).(path := s.path[..|s.path| - 1])
    ensures Between(snap, left, s.attempts[s.path[|s.path| - 1]].step)
  {
    var attempt := s.attempts[s.current].(state := Returned);
    var n := |s.path| - 1;
    CloseCurrent(snap, s, attempt);
    left := SetCurrent(s, attempt).(path := s.path[..n]);
    WalkSlice(snap.transitions, Trail(s), 0, n + 1);
    assert StepsOf(left.attempts, left.path) + [s.attempts[s.path[n]].step] == Trail(s)[0..n + 1];
    hide IsWalk, Numbered, LegalAttempt, Linked, Keys;
  }

  lemma {:induction false} ReturnKeepsInv(snap: Snapshot, s: State, reason: string)
    requires Inv(snap, s) && ReturnStep(snap, s, reason).Ok?
    ensures Inv(snap, ReturnStep(snap, s, reason).value)
  {
    var left := ReturnLeaves(snap, s, reason);
    MakeAttemptKeeps(snap, left, s.attempts[s.path[|s.path| - 1]].step);
  }

  /** The handlers that only change the instance's own state. */
  lemma {:induction false} InstanceStateKeepsInv(snap: Snapshot, s: State, state: InstanceState, revision: nat)
    requires Inv(snap, s) && (state.Completed? <==> s.state.Completed?)
    requires state.Pending? ==> s.attempts[s.current].state.Waiting?
    ensures Inv(snap, s.(state := state, revision := revision))
  {
  }

  lemma {:induction false} WorkKeepsInv(snap: Snapshot, s: State, req: Request)
    requires Published(snap) && Inv(snap, s) && !s.state.Completed? && IsWork(req.action) && Act(snap, s, req).Ok?
    ensures Inv(snap, Act(snap, s, req).value)
  {
    match req.action {
      case Open => OpenKeepsInv(snap, s);
      case Check(marks) => ChecklistKeepsInv(snap, s, marks);
      case Save(confirmed) => SaveKeepsInv(snap, s, confirmed);
      case Advance(routable) => AdvanceKeepsInv(snap, s);
    }
  }

  lemma {:induction false} ControlKeepsInv(snap: Snapshot, s: State, req: Request)
    requires Inv(snap, s) && !s.state.Completed? && !IsWork(req.action) && Act(snap, s, req).Ok?
    ensures Inv(snap, Act(snap, s, req).value)
  {
    if req.action.Return? {
      ReturnKeepsInv(snap, s, req.action.reason);
    } else {
      var t := Act(snap, s, req).value;
      InstanceStateKeepsInv(snap, s, t.state, s.revision);
    }
  }

  lemma {:induction false} HandleKeepsInv(snap: Snapshot, s: State, req: Request)
    requires Published(snap) && Inv(snap, s) && Handle(snap, s, req).Ok?
    ensures Inv(snap, Handle(snap, s, req).value)
  {
    if IsWork(req.action) {
      WorkKeepsInv(snap, s, req);
    } else {
      ControlKeepsInv(snap, s, req);
    }
    var t := Act(snap, s, req).value;
    InstanceStateKeepsInv(snap, t, t.state, t.revision + 1);
  }
}
