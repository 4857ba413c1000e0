/**
 What one request to a process instance does, in terms of the stored rows and the frozen route: when
 it is accepted, what it changes, and which edge an advance takes.
 */
module ExecutionOutcomes {
  import opened Prelude
  import opened ProcessGraph
  import opened Execution
  import opened ExecutionRuns

  // ---------------------------------------------------------------------------
  // When a request is accepted
  // ---------------------------------------------------------------------------

  ghost predicate HasText(reason: string) {
    exists i :: 0 <= i < |reason| && !IsSpace(reason[i])
  }

  /** Every mark names a box of the list, and no box is named twice. */
  ghost predicate NamesBoxes(marks: seq<(nat, bool)>, items: seq<Item>) {
    && (forall m :: m in marks ==> m.0 < |items|)
    && (forall i, j :: 0 <= i < |marks| && 0 <= j < |marks| && marks[i].0 == marks[j].0 ==> i == j)
  }

  /** Work is done by an eligible assignee, and not while the instance is suspended. */
  ghost predicate MayWork(s: State, req: Request) {
    req.eligible && (s.state == Pending || s.state == Active)
  }

  /** The caller holds the current revision of an instance that is not over, and may change it. */
  ghost predicate MayChange(s: State, req: Request) {
    req.permitted && req.revision == s.revision && s.state in {Pending, Active, Suspended}
  }

  /** What a request needs of the instance. */
  ghost predicate InOrder(s: State, req: Request)
    requires s.current < |s.attempts|
  {
    var attempt := s.attempts[s.current];
    match req.action
    case Open => MayWork(s, req) && attempt.state == Waiting
    case Check(marks) => MayWork(s, req) && attempt.state == Working && NamesBoxes(marks, attempt.items)
    case Save(confirmed) => MayWork(s, req) && attempt.state == Working && confirmed != None
    case Advance(routable) =>
      && MayWork(s, req) && attempt.state == Working && attempt.result != None && routable
      && !exists i :: 0 <= i < |attempt.items| && attempt.items[i].required && !attempt.items[i].checked
    case Suspend(reason) => HasText(reason) && s.state != Suspended
    case Resume(reason) => HasText(reason) && s.state == Suspended
    case Cancel(reason) => HasText(reason)
    case Return(reason) => HasText(reason) && s.state == Active && s.path != []
    case Assign => req.eligible
    case Reschedule(reason) => HasText(reason)
  }

  lemma {:induction false} BlankExactly(reason: string)
    ensures Blank(reason) <==> !HasText(reason)
  {
  }

  lemma {:induction false} MarksFitExactly(marks: seq<(nat, bool)>, items: seq<Item>)
    ensures MarksFit(marks, items) <==> NamesBoxes(marks, items)
  {
    assert forall i :: 0 <= i < |marks| ==> marks[i] in marks;
  }

  /** A request is accepted if and only if the caller may change the instance and the request is in order. */
  lemma {:induction false} AcceptedExactly(snap: Snapshot, s: State, req: Request)
    requires Shaped(snap, s)
    ensures Handle(snap, s, req).Ok? <==> MayChange(s, req) && InOrder(s, req)
  {
    hide Blank, HasText, MarksFit, NamesBoxes, Route, MakeAttempt, ApplyMarks, Linked;
    match req.action
    case Open =>
    case Check(marks) => MarksFitExactly(marks, s.attempts[s.current].items);
    case Save(_) =>
    case Advance(_) =>
    case Suspend(reason) => BlankExactly(reason);
    case Resume(reason) => BlankExactly(reason);
    case Cancel(reason) => BlankExactly(reason);
    case Return(reason) => BlankExactly(reason);
    case Assign =>
    case Reschedule(reason) => BlankExactly(reason);
  }

  /** The reason of a refusal: the first of these that applies. */
  ghost predicate Reason(s: State, req: Request, e: Refusal)
    requires s.current < |s.attempts|
  {
    var attempt := s.attempts[s.current];
    var work := req.action.Open? || req.action.Check? || req.action.Save? || req.action.Advance?;
    if req.revision != s.revision then e == RevisionConflict
    else if s.state == Completed || s.state == Cancelled then e == Terminal
    else if !req.permitted then e == Forbidden
    else if work && !req.eligible then e == Ineligible
    else if work && s.state == Suspended then e == NotResumed
    else match e
      case AlreadyOpen => req.action.Open?
      case NotOpen => work && !req.action.Open? && attempt.state != Working
      case BadChecklist => req.action.Check? && attempt.state == Working
      case BadResult => req.action.Save? && attempt.state == Working
      case ResultRequired => req.action.Advance? && attempt.state == Working && attempt.result == None
      case ChecklistRequired =>
        req.action.Advance? && attempt.state == Working && attempt.result != None
        && exists i :: 0 <= i < |attempt.items| && attempt.items[i].required && !attempt.items[i].checked
      case RouteRefused =>
        req.action.Advance? && attempt.state == Working && attempt.result != None && !req.action.routable
      case BlankReason => !work && !req.action.Assign? && !HasText(req.action.reason)
      case AlreadySuspended => req.action.Suspend? && HasText(req.action.reason)
      case NotSuspended => req.action.Resume? && HasText(req.action.reason)
      case ReturnUnavailable => req.action.Return? && HasText(req.action.reason)
      case Ineligible => req.action.Assign?
      case _ => false
  }

  /** A refused request is refused for the first reason that applies. */
  lemma {:induction false} RefusedWithReason(snap: Snapshot, s: State, req: Request)
    requires Shaped(snap, s) && Handle(snap, s, req).Err?
    ensures Reason(s, req, Handle(snap, s, req).error)
  {
    hide Blank, HasText, MarksFit, Route, MakeAttempt, ApplyMarks, Linked;
    match req.action
    case Suspend(reason) => BlankExactly(reason);
    case Resume(reason) => BlankExactly(reason);
    case Cancel(reason) => BlankExactly(reason);
    case Return(reason) => BlankExactly(reason);
    case Reschedule(reason) => BlankExactly(reason);
    case _ =>
  }

  /** So no work is accepted while an instance is suspended, whoever asks and whatever for. */
  lemma {:induction false} SuspendedRefusesWork(snap: Snapshot, s: State, req: Request)
    requires Shaped(snap, s) && s.state.Suspended?
    requires req.action.Open? || req.action.Check? || req.action.Save? || req.action.Advance?
    ensures Handle(snap, s, req).Err?
  {
    hide Handle, InOrder, MayChange;
    AcceptedExactly(snap, s, req);
    assert !InOrder(s, req) by {
      SuspendedNotInOrder(s, req);
    }
  }

  lemma {:induction false} SuspendedNotInOrder(s: State, req: Request)
    requires s.current < |s.attempts| && s.state.Suspended?
    requires req.action.Open? || req.action.Check? || req.action.Save? || req.action.Advance?
    ensures !InOrder(s, req)
  {
  }

  // ---------------------------------------------------------------------------
  // What an accepted request changes
  // ---------------------------------------------------------------------------

  /** Nothing but the current attempt, the state of the instance and the revision has changed. */
  ghost predicate OnlyCurrent(s: State, t: State, attempt: Attempt)
    requires s.current < |s.attempts|
  {
    && t.revision == s.revision + 1 && t.current == s.current && t.path == s.path
    && |t.attempts| == |s.attempts| && t.attempts[t.current] == attempt
    && forall i :: 0 <= i < |s.attempts| && i != s.current ==> t.attempts[i] == s.attempts[i]
  }

  /** Opening, saving, ticking, suspending, resuming and cancelling change what they name. */
  lemma {:induction false} AcceptedChanges(snap: Snapshot, s: State, req: Request)
    requires Shaped(snap, s) && Handle(snap, s, req).Ok?
    ensures var t, a := Handle(snap, s, req).value, s.attempts[s.current];
            match req.action
            case Open => OnlyCurrent(s, t, a.(state := Working, started := true)) && t.state == Active
            case Check(_) => OnlyCurrent(s, t, t.attempts[s.current]) && t.state == s.state
                             && t.attempts[s.current] == a.(items := t.attempts[s.current].items)
            case Save(v) => OnlyCurrent(s, t, a.(result := v)) && t.state == s.state
            case Suspend(_) => OnlyCurrent(s, t, a) && t.state == Suspended
            case Resume(_) => OnlyCurrent(s, t, a) && t.state == if a.started then Active else Pending
            case Cancel(_) => OnlyCurrent(s, t, a) && t.state == Cancelled
            case Assign => OnlyCurrent(s, t, a) && t.state == s.state
            case Reschedule(_) => OnlyCurrent(s, t, a) && t.state == s.state
            case _ => true
  {
    hide Blank, MarksFit, Route, MakeAttempt, ApplyMarks, Linked;
  }

  /** A checklist request ticks the boxes it names as it says, and leaves the other boxes and all labels alone. */
  lemma {:induction false} ChecklistChanges(snap: Snapshot, s: State, req: Request)
    requires Shaped(snap, s) && req.action.Check? && Handle(snap, s, req).Ok?
    ensures var t := Handle(snap, s, req).value;
            var before, items, marks := s.attempts[s.current].items, t.attempts[s.current].items, req.action.marks;
            && |items| == |before|
            && (forall k :: 0 <= k < |items| ==> items[k] == before[k].(checked := items[k].checked))
            && (forall m :: m in marks ==> m.0 < |items| && items[m.0].checked == m.1)
            && (forall k :: 0 <= k < |items| && (forall m :: m in marks ==> m.0 != k) ==> items[k] == before[k])
  {
    hide Linked, ApplyMarks;
    var marks, before := req.action.marks, s.attempts[s.current].items;
    ApplyMarksMeaning(marks, before);
    assert Handle(snap, s, req).value.attempts[s.current].items == ApplyMarks(marks, before);
    assert forall j :: 0 <= j < |marks| ==> marks[j] in marks;
  }

  // ---------------------------------------------------------------------------
  // The edge of an advance
  // ---------------------------------------------------------------------------

  /** An edge that leaves the step and whose condition, if it has one, holds of the values. */
  ghost predicate Fits(snap: Snapshot, step: Key, values: Values, i: nat)
    requires i < |snap.transitions|
  {
    var edge := snap.transitions[i];
    && edge.from == step && !edge.isElse
    && (edge.condition.Some? ==> snap.matches(values, edge.condition.value))
  }

  /** The edge to take: the first that fits, or the else edge of the step if none does. */
  ghost predicate Leads(snap: Snapshot, step: Key, values: Values, i: nat)
    requires i < |snap.transitions|
  {
    if snap.transitions[i].isElse then
      snap.transitions[i].from == step && forall j :: 0 <= j < |snap.transitions| ==> !Fits(snap, step, values, j)
    else
      Fits(snap, step, values, i) && forall j :: 0 <= j < i ==> !Fits(snap, step, values, j)
  }

  /** The boxes of a step: its inputs, its outputs and its control note, all required, none ticked. */
  ghost predicate FreshBoxes(step: Step, items: seq<Item>) {
    var n, m := |step.inputs|, |step.outputs|;
    && |items| == n + m + (if step.controlNote != "" then 1 else 0)
    && (forall k :: 0 <= k < n ==> items[k] == Item(step.inputs[k], Input, true, false))
    && (forall k :: 0 <= k < m ==> items[n + k] == Item(step.outputs[k], Output, true, false))
    && (step.controlNote != "" ==> items[n + m] == Item(step.controlNote, Control, true, false))
  }

  /** The new current attempt waits at `step` with nothing done yet. */
  ghost predicate Begins(snap: Snapshot, t: State, step: Key) {
    && t.current < |t.attempts|
    && var a := t.attempts[t.current];
       && a.step == step && a.state == Waiting && !a.started && a.result == None
       && exists k :: 0 <= k < |snap.steps| && snap.steps[k].key == step && FreshBoxes(snap.steps[k], a.items)
  }

  lemma {:induction false} MakeAttemptBegins(snap: Snapshot, s: State, step: Key)
    requires step in Keys(snap.steps)
    ensures Begins(snap, MakeAttempt(snap, s, step), step)
    ensures var t := MakeAttempt(snap, s, step);
            t.current == |s.attempts| && |t.attempts| == |s.attempts| + 1 && t.attempts[..|s.attempts|] == s.attempts
  {
    hide MaxNumber;
    var definition := Definition(snap.steps, step);
    var k :| 0 <= k < |snap.steps| && snap.steps[k] == definition;
    BoxesAreFresh(definition);
  }

  lemma {:induction false} BoxesAreFresh(step: Step)
    ensures FreshBoxes(step, ChecklistOf(step))
  {
  }

  lemma {:induction false} FirstTakenAppend(paths: seq<Transition>, edge: Transition, matches: Condition -> bool)
    ensures FirstTaken(paths + [edge], matches) ==
            if FirstTaken(paths, matches).Some? then FirstTaken(paths, matches)
            else if Taken(edge, matches) then Some(edge) else None
  {
    if paths == [] {
      assert paths + [edge] == [edge] && [edge][1..] == [];
    } else {
      assert (paths + [edge])[1..] == paths[1..] + [edge];
      FirstTakenAppend(paths[1..], edge, matches);
    }
  }

  /** The first taken path of a step is the first transition of the route that leaves it and is taken. */
  lemma {:induction false} FirstOfOutgoing(ts: seq<Transition>, n: nat, step: Key, matches: Condition -> bool)
    requires n <= |ts|
    ensures match FirstTaken(OutgoingUpTo(ts, n, step), matches)
            case None => forall j :: 0 <= j < n && ts[j].from == step ==> !Taken(ts[j], matches)
            case Some(edge) =>
              exists i :: 0 <= i < n && ts[i] == edge && ts[i].from == step && Taken(ts[i], matches)
                          && forall j :: 0 <= j < i && ts[j].from == step ==> !Taken(ts[j], matches)
  {
    hide Taken;
    if n > 0 {
      FirstOfOutgoing(ts, n - 1, step, matches);
      var before := OutgoingUpTo(ts, n - 1, step);
      FirstTakenAppend(before, ts[n - 1], matches);
      assert before + [] == before;
    }
  }

  lemma {:induction false} FitsIsTaken(snap: Snapshot, step: Key, values: Values, matches: Condition -> bool, i: nat)
    requires i < |snap.transitions| && forall c :: matches(c) == snap.matches(values, c)
    ensures Fits(snap, step, values, i) <==>
            snap.transitions[i].from == step && Taken(snap.transitions[i], matches)
  {
  }

  /** The edge the route selects is the one that leads on. */
  lemma {:induction false} RouteLeads(snap: Snapshot, step: Key, values: Values) returns (i: nat)
    requires Route(snap, step, values).Some?
    ensures i < |snap.transitions| && snap.transitions[i] == Route(snap, step, values).value
    ensures Leads(snap, step, values, i)
  {
    hide Fits, Taken, OutgoingUpTo;
    var matches := (c: Condition) => snap.matches(values, c);
    var ts := snap.transitions;
    FirstOfOutgoing(ts, |ts|, step, matches);
    forall j: nat | j < |ts|
      ensures Fits(snap, step, values, j) <==> ts[j].from == step && Taken(ts[j], matches)
    {
      FitsIsTaken(snap, step, values, matches, j);
    }
    var first := FirstTaken(Outgoing(ts, step), matches);
    if first.Some? {
      i :| 0 <= i < |ts| && ts[i] == first.value && ts[i].from == step && Taken(ts[i], matches)
           && forall j :: 0 <= j < i && ts[j].from == step ==> !Taken(ts[j], matches);
      TakenIsPlain(ts[i], matches);
    } else {
      FirstElseMeaning(Outgoing(ts, step));
      var edge := FirstElse(Outgoing(ts, step)).value;
      OutgoingMember(ts, |ts|, step, edge);
      i :| 0 <= i < |ts| && ts[i] == edge;
    }
  }

  lemma {:induction false} TakenIsPlain(edge: Transition, matches: Condition -> bool)
    ensures Taken(edge, matches) ==> !edge.isElse
  {
  }

  /** An advance from a step that is not terminal begins the step its values lead to. */
  ghost predicate MovesOn(snap: Snapshot, s: State, t: State, values: Values)
    requires s.current < |s.attempts|
  {
    exists i: nat :: i < |snap.transitions| && Leads(snap, s.attempts[s.current].step, values, i)
                     && Begins(snap, t, snap.transitions[i].to)
  }

  ghost predicate Final(snap: Snapshot, step: Key) {
    forall k :: 0 <= k < |snap.steps| && snap.steps[k].key == step ==> snap.steps[k].isTerminal
  }

  lemma {:induction false} DefinitionTerminal(snap: Snapshot, step: Key)
    requires Published(snap) && step in Keys(snap.steps)
    ensures Final(snap, step) <==> Definition(snap.steps, step).isTerminal
  {
    var valid :| WellFormed(snap.steps, snap.transitions, valid);
    var definition := Definition(snap.steps, step);
    var i :| 0 <= i < |snap.steps| && snap.steps[i] == definition;
    assert forall k :: 0 <= k < |snap.steps| && snap.steps[k].key == step ==> k == i;
  }

  /**
   What an accepted advance does: the current attempt is done and joins the path; at a terminal step
   the instance is completed, and at any other step a new attempt begins where the first fitting edge
   leads in the order of the route, or the else edge if no edge fits.
   */
  lemma {:induction false} AdvanceFollowsTheRoute(snap: Snapshot, s: State, req: Request)
    requires Published(snap) && Inv(snap, s) && req.action.Advance? && Handle(snap, s, req).Ok?
    ensures var t, a := Handle(snap, s, req).value, s.attempts[s.current];
            && a.result.Some? && t.revision == s.revision + 1 && t.path == s.path + [s.current]
            && |s.attempts| <= |t.attempts| && t.attempts[s.current] == a.(state := Done)
            && (forall i :: 0 <= i < |s.attempts| && i != s.current ==> t.attempts[i] == s.attempts[i])
            && if Final(snap, a.step) then t.state == Completed && |t.attempts| == |s.attempts|
               else && t.state == s.state && |t.attempts| == |s.attempts| + 1 && t.current == |s.attempts|
                    && MovesOn(snap, s, t, a.result.value)
  {
    hide Published, AttemptsOk, PathOk, Numbered, Route, MakeAttempt, Leads, Begins, Final, Keys, AllChecked;
    var t, a := Handle(snap, s, req).value, s.attempts[s.current];
    var values := a.result.value;
    DefinitionTerminal(snap, a.step);
    RouteTotal(snap, a.step, values);
    if Route(snap, a.step, values).Some? {
      var i := RouteLeads(snap, a.step, values);
      RouteMember(snap, a.step, values);
      var left := SetCurrent(s, a.(state := Done)).(path := s.path + [s.current]);
      var u := MakeAttempt(snap, left, snap.transitions[i].to);
      MakeAttemptBegins(snap, left, snap.transitions[i].to);
      MakeAttemptRest(snap, left, snap.transitions[i].to);
      assert t == u.(revision := u.revision + 1);
      assert u.attempts[..|left.attempts|][s.current] == a.(state := Done);
      forall k | 0 <= k < |s.attempts| && k != s.current
        ensures t.attempts[k] == s.attempts[k]
      {
        assert u.attempts[..|left.attempts|][k] == left.attempts[k];
      }
      BeginsAgain(snap, u, t, snap.transitions[i].to);
    }
  }

  lemma {:induction false} MakeAttemptRest(snap: Snapshot, s: State, step: Key)
    requires step in Keys(snap.steps)
    ensures var t := MakeAttempt(snap, s, step);
            t.state == s.state && t.revision == s.revision && t.path == s.path
  {
  }

  lemma {:induction false} BeginsAgain(snap: Snapshot, u: State, t: State, step: Key)
    requires Begins(snap, u, step) && t.attempts == u.attempts && t.current == u.current
    ensures Begins(snap, t, step)
  {
  }

  /** What an accepted return does: the attempt is given up and the last step of the path begins again. */
  lemma {:induction false} ReturnGoesBack(snap: Snapshot, s: State, req: Request)
    requires Published(snap) && Inv(snap, s) && req.action.Return? && Handle(snap, s, req).Ok?
    ensures var t, n := Handle(snap, s, req).value, |s.path| - 1;
            && n >= 0 && t.revision == s.revision + 1 && t.state == s.state && t.path == s.path[..n]
            && |t.attempts| == |s.attempts| + 1 && t.current == |s.attempts|
            && t.attempts[s.current] == s.attempts[s.current].(state := Returned)
            && (forall i :: 0 <= i < |s.attempts| && i != s.current ==> t.attempts[i] == s.attempts[i])
            && Begins(snap, t, s.attempts[s.path[n]].step)
  {
    hide Published, AttemptsOk, PathOk, Numbered, MakeAttempt, Begins, Keys, Blank;
    var t, n := Handle(snap, s, req).value, |s.path| - 1;
    var left := SetCurrent(s, s.attempts[s.current].(state := Returned)).(path := s.path[..n]);
    var step := s.attempts[s.path[n]].step;
    var u := MakeAttempt(snap, left, step);
    MakeAttemptBegins(snap, left, step);
    MakeAttemptRest(snap, left, step);
    assert t == u.(revision := u.revision + 1);
    forall k | 0 <= k < |s.attempts|
      ensures t.attempts[k] == left.attempts[k]
    {
      assert u.attempts[..|left.attempts|][k] == left.attempts[k];
    }
    BeginsAgain(snap, u, t, step);
  }

  /** A fresh instance waits at the start with an empty path. */
  lemma {:induction false} FreshBegins(snap: Snapshot)
    requires Published(snap)
    ensures var t := Fresh(snap);
            && t.state == Pending && t.revision == 1 && t.path == [] && |t.attempts| == 1
            && exists k :: 0 <= k < |snap.steps| && snap.steps[k].isStart && Begins(snap, t, snap.steps[k].key)
  {
    hide Published, MakeAttempt, Begins, Keys, StartKey;
    PublishedLinked(snap);
    StartPosition(snap.steps);
    var s := State(Pending, 1, 0, [], []);
    MakeAttemptBegins(snap, s, StartKey(snap.steps));
    MakeAttemptRest(snap, s, StartKey(snap.steps));
  }
}
