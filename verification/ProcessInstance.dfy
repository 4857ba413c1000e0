/** The stored instance as the request handlers change it, field by field. */
module ProcessInstances {
  import opened Prelude
  import opened ProcessGraph
  import opened Execution

  class ProcessInstance {
    const snapshot: Snapshot
    var state: InstanceState
    var revision: nat
    var current: nat
    var path: seq<nat>
    var attempts: seq<Attempt>

    function Stored(): State
      reads this
    {
      State(state, revision, current, path, attempts)
    }

    predicate Valid()
      reads this
    {
      Shaped(snapshot, Stored())
    }

    /** As much of it as holds while the current attempt is being replaced. */
    predicate Resolves()
      reads this
    {
      && Linked(snapshot)
      && (forall i :: 0 <= i < |path| ==> path[i] < |attempts|)
      && (forall i :: 0 <= i < |attempts| ==> attempts[i].step in Keys(snapshot.steps))
    }

    /** What a handler must leave behind: the accepted state, or nothing changed. */
    predicate Did(before: State, req: Request, refusal: Option<Refusal>)
      requires Shaped(snapshot, before)
      reads this
    {
      match Handle(snapshot, before, req)
      case Ok(t) => refusal == None && Stored() == t
      case Err(e) => refusal == Some(e) && Stored() == before
    }

    constructor (snapshot: Snapshot)
      requires Linked(snapshot)
      ensures this.snapshot == snapshot && Valid() && Stored() == Start(snapshot)
    {
      this.snapshot := snapshot;
      state, revision, current, path, attempts := Pending, 1, 0, [], [];
      new;
      MakeNext(StartKey(snapshot.steps));
    }

    method MakeNext(step: Key)
      requires Resolves() && step in Keys(snapshot.steps)
      modifies this
      ensures Valid() && Stored() == MakeAttempt(snapshot, old(Stored()), step)
    {
      var definition := Definition(snapshot.steps, step);
      var previous := MaxNumber(attempts, |attempts|, step);
      var attempt := Attempt(step, previous + 1, Waiting, false, None, ChecklistOf(definition));
      attempts := attempts + [attempt];
      current := |attempts| - 1;
    }

    method OpenCurrent(req: Request) returns (refusal: Option<Refusal>)
      requires Valid() && req.action.Open?
      modifies this
      ensures Valid() && Did(old(Stored()), req, refusal)
    {
      HandleKeepsShape(snapshot, Stored(), req);
      refusal := Guard(Stored(), req);
      if refusal.Some? {
        return;
      }
      var attempt := attempts[current];
      if !attempt.state.Waiting? {
        return Some(AlreadyOpen);
      }
      attempts := attempts[current := attempt.(state := Working, started := true)];
      state := Active;
      revision := revision + 1;
    }

    method SaveChecklist(req: Request) returns (refusal: Option<Refusal>)
      requires Valid() && req.action.Check?
      modifies this
      ensures Valid() && Did(old(Stored()), req, refusal)
    {
      HandleKeepsShape(snapshot, Stored(), req);
      refusal := Guard(Stored(), req);
      if refusal.Some? {
        return;
      }
      var attempt := attempts[current];
      if !attempt.state.Working? {
        return Some(NotOpen);
      }
      var marks := req.action.marks;
      if !MarksFit(marks, attempt.items) {
        return Some(BadChecklist);
      }
      var items := attempt.items;
      for i := 0 to |marks|
        invariant |items| == |attempt.items|
        invariant ApplyMarks(marks[i..], items) == ApplyMarks(marks, attempt.items)
      {
        items := items[marks[i].0 := items[marks[i].0].(checked := marks[i].1)];
      }
      attempts := attempts[current := attempt.(items := items)];
      revision := revision + 1;
    }

    method Record(req: Request) returns (refusal: Option<Refusal>)
      requires Valid() && req.action.Save?
      modifies this
      ensures Valid() && Did(old(Stored()), req, refusal)
    {
      HandleKeepsShape(snapshot, Stored(), req);
      refusal := Guard(Stored(), req);
      if refusal.Some? {
        return;
      }
      var attempt := attempts[current];
      if !attempt.state.Working? {
        return Some(NotOpen);
      }
      if req.action.confirmed.None? {
        return Some(BadResult);
      }
      attempts := attempts[current := attempt.(result := req.action.confirmed)];
      revision := revision + 1;
    }

    method AdvanceCurrent(req: Request) returns (refusal: Option<Refusal>)
      requires Valid() && req.action.Advance?
      modifies this
      ensures Valid() && Did(old(Stored()), req, refusal)
    {
      HandleKeepsShape(snapshot, Stored(), req);
      refusal := Guard(Stored(), req);
      if refusal.Some? {
        return;
      }
      var attempt := attempts[current];
      if !attempt.state.Working? {
        return Some(NotOpen);
      }
      if attempt.result.None? {
        return Some(ResultRequired);
      }
      if !AllChecked(attempt.items) {
        return Some(ChecklistRequired);
      }
      if !req.action.routable {
        return Some(RouteRefused);
      }
      var selected := Route(snapshot, attempt.step, attempt.result.value);
      RouteMember(snapshot, attempt.step, attempt.result.value);
      attempts := attempts[current := attempt.(state := Done)];
      path := path + [current];
      if selected.Some? {
        MakeNext(selected.value.to);
      } else {
        state := Completed;
      }
      revision := revision + 1;
    }

    method SuspendCurrent(req: Request) returns (refusal: Option<Refusal>)
      requires Valid() && req.action.Suspend?
      modifies this
      ensures Valid() && Did(old(Stored()), req, refusal)
    {
      HandleKeepsShape(snapshot, Stored(), req);
      refusal := Guard(Stored(), req);
      if refusal.Some? {
        return;
      }
      if Blank(req.action.reason) {
        return Some(BlankReason);
      }
      if state.Suspended? {
        return Some(AlreadySuspended);
      }
      state := Suspended;
      revision := revision + 1;
    }

    method ResumeCurrent(req: Request) returns (refusal: Option<Refusal>)
      requires Valid() && req.action.Resume?
      modifies this
      ensures Valid() && Did(old(Stored()), req, refusal)
    {
      HandleKeepsShape(snapshot, Stored(), req);
      refusal := Guard(Stored(), req);
      if refusal.Some? {
        return;
      }
      if Blank(req.action.reason) {
        return Some(BlankReason);
      }
      if !state.Suspended? {
        return Some(NotSuspended);
      }
      state := if attempts[current].started then Active else Pending;
      revision := revision + 1;
    }

    method CancelCurrent(req: Request) returns (refusal: Option<Refusal>)
      requires Valid() && req.action.Cancel?
      modifies this
      ensures Valid() && Did(old(Stored()), req, refusal)
    {
      HandleKeepsShape(snapshot, Stored(), req);
      refusal := Guard(Stored(), req);
      if refusal.Some? {
        return;
      }
      if Blank(req.action.reason) {
        return Some(BlankReason);
      }
      state := Cancelled;
      revision := revision + 1;
    }

    method ReturnToPrevious(req: Request) returns (refusal: Option<Refusal>)
      requires Valid() && req.action.Return?
      modifies this
      ensures Valid() && Did(old(Stored()), req, refusal)
    {
      HandleKeepsShape(snapshot, Stored(), req);
      refusal := Guard(Stored(), req);
      if refusal.Some? {
        return;
      }
      if Blank(req.action.reason) {
        return Some(BlankReason);
      }
      if !state.Active? || path == [] {
        return Some(ReturnUnavailable);
      }
      var previous := attempts[path[|path| - 1]];
      attempts := attempts[current := attempts[current].(state := Returned)];
      path := path[..|path| - 1];
      MakeNext(previous.step);
      revision := revision + 1;
    }
  }
}
