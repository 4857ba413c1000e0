/** Which process graphs are refused and why, in terms of their steps and transitions alone. */
module GraphOutcomes {
  import opened Prelude
  import opened ProcessGraph

  /** No two steps share a key, and one of them is the start. */
  ghost predicate OneStart(steps: seq<Step>) {
    && (forall i, j :: 0 <= i < j < |steps| ==> steps[i].key != steps[j].key)
    && exists s :: IsStart(steps, s)
  }

  ghost predicate IsStart(steps: seq<Step>, s: nat) {
    s < |steps| && steps[s].isStart && forall i :: 0 <= i < |steps| && i != s ==> !steps[i].isStart
  }

  ghost predicate IsStep(steps: seq<Step>, k: Key) {
    exists i :: 0 <= i < |steps| && steps[i].key == k
  }

  /** The transition joins steps of the graph; its condition, if any, is admissible and not on an else path. */
  ghost predicate PathFits(steps: seq<Step>, valid: (Key, Condition) -> bool, t: Transition) {
    && IsStep(steps, t.from) && IsStep(steps, t.to)
    && match t.condition case None => true case Some(c) => !t.isElse && valid(t.from, c)
  }

  ghost predicate SamePath(t: Transition, u: Transition) {
    t.from == u.from && t.to == u.to && t.condition == u.condition && t.isElse == u.isElse
  }

  ghost predicate PathsFit(steps: seq<Step>, ts: seq<Transition>, valid: (Key, Condition) -> bool) {
    && (forall i :: 0 <= i < |ts| ==> PathFits(steps, valid, ts[i]))
    && (forall i, j :: 0 <= i < j < |ts| ==> !SamePath(ts[i], ts[j]))
  }

  ghost predicate Leaves(ts: seq<Transition>, k: Key, i: nat) {
    i < |ts| && ts[i].from == k
  }

  /** The only way out has neither a condition nor an else. */
  ghost predicate OneWay(ts: seq<Transition>, k: Key) {
    exists i: nat :: Leaves(ts, k, i) && ts[i].condition == None && !ts[i].isElse
                     && forall j: nat :: Leaves(ts, k, j) ==> j == i
  }

  ghost predicate OneElse(ts: seq<Transition>, k: Key) {
    exists e: nat :: Leaves(ts, k, e) && ts[e].isElse && forall j: nat :: Leaves(ts, k, j) && j != e ==> !ts[j].isElse
  }

  ghost predicate SomeCondition(ts: seq<Transition>, k: Key) {
    exists i: nat :: Leaves(ts, k, i) && ts[i].condition != None
  }

  ghost predicate OthersHaveConditions(ts: seq<Transition>, k: Key) {
    forall i: nat :: Leaves(ts, k, i) && !ts[i].isElse ==> ts[i].condition != None
  }

  ghost predicate ConditionsDiffer(ts: seq<Transition>, k: Key) {
    forall i: nat, j: nat :: Leaves(ts, k, i) && Leaves(ts, k, j) && i != j && ts[i].condition != None ==>
      ts[i].condition != ts[j].condition
  }

  /** Several ways out: one of them is the else path, the others have conditions, which all differ. */
  ghost predicate ManyWays(ts: seq<Transition>, k: Key) {
    OneElse(ts, k) && SomeCondition(ts, k) && OthersHaveConditions(ts, k) && ConditionsDiffer(ts, k)
  }

  /** A step branches well: a terminal one has no way out, any other one or, with conditions, several. */
  ghost predicate BranchesWell(ts: seq<Transition>, step: Step) {
    if step.isTerminal then forall i: nat :: !Leaves(ts, step.key, i)
    else OneWay(ts, step.key) || ManyWays(ts, step.key)
  }

  // ---------------------------------------------------------------------------
  // The start and the transitions
  // ---------------------------------------------------------------------------

  lemma {:induction false} NoStart(steps: seq<Step>)
    ensures StartCount(steps) == 0 <==> forall i :: 0 <= i < |steps| ==> !steps[i].isStart
  {
    if steps != [] {
      NoStart(steps[1..]);
      assert forall i :: 0 < i < |steps| ==> steps[i] == steps[1..][i - 1];
      assert forall i :: 0 <= i < |steps[1..]| ==> steps[1..][i] == steps[i + 1];
    }
  }

  lemma {:induction false} StartCounted(steps: seq<Step>)
    ensures StartCount(steps) == 1 <==> exists s :: IsStart(steps, s)
  {
    if steps != [] {
      var rest := steps[1..];
      StartCounted(rest);
      NoStart(rest);
      assert forall i :: 0 < i < |steps| ==> steps[i] == rest[i - 1];
      assert forall i :: 0 <= i < |rest| ==> rest[i] == steps[i + 1];
      if steps[0].isStart {
        assert StartCount(rest) == 0 ==> IsStart(steps, 0);
      } else {
        if s: nat :| IsStart(rest, s) {
          assert IsStart(steps, s + 1);
        }
        if s: nat :| IsStart(steps, s) {
          assert s > 0 && IsStart(rest, s - 1);
        }
      }
    }
  }

  lemma {:induction false} StartExactly(steps: seq<Step>)
    ensures StartOk(steps) <==> OneStart(steps)
  {
    StartCounted(steps);
    if s: nat :| IsStart(steps, s) {
      assert steps != [];
    }
  }

  lemma {:induction false} PathsExactly(steps: seq<Step>, ts: seq<Transition>, valid: (Key, Condition) -> bool)
    ensures TransitionsOk(Keys(steps), valid, ts) <==> PathsFit(steps, ts, valid)
  {
    forall k
      ensures k in Keys(steps) <==> IsStep(steps, k)
    {
      KeysMember(steps, |steps|, k);
    }
    hide Keys;
    assert forall t :: TransitionOk(Keys(steps), valid, t) <==> PathFits(steps, valid, t);
    assert forall t, u :: Identity(t) == Identity(u) <==> SamePath(t, u);
  }

  // ---------------------------------------------------------------------------
  // Branching
  // ---------------------------------------------------------------------------

  /** Where in the list the transitions of a step stand. */
  ghost predicate Places(ts: seq<Transition>, n: nat, k: Key, places: seq<nat>)
    requires n <= |ts|
  {
    var paths := OutgoingUpTo(ts, n, k);
    && |places| == |paths|
    && (forall x :: 0 <= x < |places| ==> places[x] < n && ts[places[x]].from == k && ts[places[x]] == paths[x])
    && (forall x, y :: 0 <= x < y < |places| ==> places[x] < places[y])
    && (forall i: nat :: i < n && ts[i].from == k ==> i in places)
  }

  lemma {:induction false} FindPlaces(ts: seq<Transition>, n: nat, k: Key) returns (places: seq<nat>)
    requires n <= |ts|
    ensures Places(ts, n, k, places)
  {
    if n == 0 {
      places := [];
    } else {
      places := FindPlaces(ts, n - 1, k);
      if ts[n - 1].from == k {
        places := places + [n - 1];
      }
    }
  }

  /** The list has the transitions that leave the step, each once. */
  ghost predicate Lists(ts: seq<Transition>, k: Key, paths: seq<Transition>, places: seq<nat>) {
    && |places| == |paths|
    && (forall x :: 0 <= x < |places| ==> Leaves(ts, k, places[x]) && ts[places[x]] == paths[x])
    && (forall x, y :: 0 <= x < |places| && 0 <= y < |places| && x != y ==> places[x] != places[y])
    && (forall i: nat :: Leaves(ts, k, i) ==> i in places)
  }

  lemma {:induction false} PlacesList(ts: seq<Transition>, k: Key, places: seq<nat>)
    requires Places(ts, |ts|, k, places)
    ensures Lists(ts, k, Outgoing(ts, k), places)
  {
    hide OutgoingUpTo;
    forall x, y | 0 <= x < |places| && 0 <= y < |places| && x != y
      ensures places[x] != places[y]
    {
      assert if x < y then places[x] < places[y] else places[y] < places[x];
    }
  }

  lemma {:induction false} OneElseExactly(ts: seq<Transition>, k: Key, paths: seq<Transition>, places: seq<nat>)
    requires Lists(ts, k, paths, places)
    ensures (exists e :: OnlyElse(paths, e)) <==> OneElse(ts, k)
  {
    if e :| OnlyElse(paths, e) {
      assert Leaves(ts, k, places[e]) && ts[places[e]].isElse;
      forall j: nat | Leaves(ts, k, j) && j != places[e]
        ensures !ts[j].isElse
      {
        var x :| 0 <= x < |places| && places[x] == j;
        assert paths[x] == ts[j];
      }
    }
    if e: nat :| Leaves(ts, k, e) && ts[e].isElse && forall j: nat :: Leaves(ts, k, j) && j != e ==> !ts[j].isElse {
      var x :| 0 <= x < |places| && places[x] == e;
      assert paths[x] == ts[e];
      assert OnlyElse(paths, x);
    }
  }

  lemma {:induction false} ConditionsExactly(ts: seq<Transition>, k: Key, paths: seq<Transition>, places: seq<nat>)
    requires Lists(ts, k, paths, places)
    ensures (exists i :: 0 <= i < |paths| && paths[i].condition.Some?) <==> SomeCondition(ts, k)
    ensures (forall i :: 0 <= i < |paths| && !paths[i].isElse ==> paths[i].condition.Some?)
       <==> OthersHaveConditions(ts, k)
  {
    if i: nat :| Leaves(ts, k, i) && ts[i].condition != None {
      var x :| 0 <= x < |places| && places[x] == i;
      assert paths[x].condition.Some?;
    }
    if i :| 0 <= i < |paths| && paths[i].condition.Some? {
      assert Leaves(ts, k, places[i]) && ts[places[i]].condition != None;
    }
    if i :| 0 <= i < |paths| && !paths[i].isElse && paths[i].condition.None? {
      assert Leaves(ts, k, places[i]) && !ts[places[i]].isElse && ts[places[i]].condition == None;
    }
  }

  ghost predicate DifferIn(paths: seq<Transition>) {
    forall i, j :: 0 <= i < j < |paths| && paths[i].condition.Some? && paths[j].condition.Some?
                   ==> paths[i].condition != paths[j].condition
  }

  lemma {:induction false} DifferExactly(ts: seq<Transition>, k: Key, paths: seq<Transition>, places: seq<nat>)
    requires Lists(ts, k, paths, places)
    ensures DifferIn(paths) <==> ConditionsDiffer(ts, k)
  {
    if ConditionsDiffer(ts, k) {
      forall i, j | 0 <= i < j < |paths| && paths[i].condition.Some? && paths[j].condition.Some?
        ensures paths[i].condition != paths[j].condition
      {
        assert Leaves(ts, k, places[i]) && Leaves(ts, k, places[j]) && places[i] != places[j];
      }
    }
    if DifferIn(paths) {
      forall i: nat, j: nat | Leaves(ts, k, i) && Leaves(ts, k, j) && i != j && ts[i].condition != None
        ensures ts[i].condition != ts[j].condition
      {
        var x :| 0 <= x < |places| && places[x] == i;
        var y :| 0 <= y < |places| && places[y] == j;
        assert paths[x] == ts[i] && paths[y] == ts[j] && x != y;
      }
    }
  }

  lemma {:induction false} TwoDiffer(places: seq<nat>)
    requires |places| > 1
    requires forall x, y :: 0 <= x < |places| && 0 <= y < |places| && x != y ==> places[x] != places[y]
    ensures places[0] != places[1]
  {
  }

  lemma {:induction false} OneWayExactly(ts: seq<Transition>, k: Key, paths: seq<Transition>, places: seq<nat>)
    requires Lists(ts, k, paths, places)
    ensures |paths| == 1 && paths[0].condition == None && !paths[0].isElse <==> OneWay(ts, k)
    ensures paths == [] <==> forall i: nat :: !Leaves(ts, k, i)
  {
    if |paths| > 0 {
      assert Leaves(ts, k, places[0]);
    }
    if i: nat :| Leaves(ts, k, i) && ts[i].condition == None && !ts[i].isElse
                 && forall j: nat :: Leaves(ts, k, j) ==> j == i
    {
      var x :| 0 <= x < |places| && places[x] == i;
      assert forall y :: 0 <= y < |places| ==> places[y] == i;
      if |places| > 1 {
        TwoDiffer(places);
      }
    }
  }

  ghost predicate Single(paths: seq<Transition>) {
    |paths| == 1 && paths[0].condition == None && !paths[0].isElse
  }

  ghost predicate Several(paths: seq<Transition>) {
    && (exists e :: OnlyElse(paths, e))
    && (exists i :: 0 <= i < |paths| && paths[i].condition.Some?)
    && (forall i :: 0 <= i < |paths| && !paths[i].isElse ==> paths[i].condition.Some?)
    && DifferIn(paths)
  }

  lemma {:induction false} BranchingParts(terminal: bool, paths: seq<Transition>)
    ensures BranchingOk(terminal, paths) <==> if terminal then paths == [] else Single(paths) || Several(paths)
  {
    hide ElseCount, OnlyElse;
    ElseCountOne(paths);
  }

  lemma {:induction false} SeveralExactly(ts: seq<Transition>, k: Key, paths: seq<Transition>, places: seq<nat>)
    requires Lists(ts, k, paths, places)
    ensures Several(paths) <==> ManyWays(ts, k)
  {
    hide Lists, OnlyElse, DifferIn, OneElse, SomeCondition, OthersHaveConditions, ConditionsDiffer;
    OneElseExactly(ts, k, paths, places);
    ConditionsExactly(ts, k, paths, places);
    DifferExactly(ts, k, paths, places);
  }

  /** The rule the validator evaluates for a step is that it branches well. */
  lemma {:induction false} BranchingExactly(ts: seq<Transition>, step: Step)
    ensures BranchingOk(step.isTerminal, Outgoing(ts, step.key)) <==> BranchesWell(ts, step)
  {
    hide BranchingOk, Outgoing, Lists, OneWay, ManyWays, Several;
    var paths := Outgoing(ts, step.key);
    var places := FindPlaces(ts, |ts|, step.key);
    PlacesList(ts, step.key, places);
    BranchingParts(step.isTerminal, paths);
    SeveralExactly(ts, step.key, paths, places);
    OneWayExactly(ts, step.key, paths, places);
  }

  // ---------------------------------------------------------------------------
  // The verdict
  // ---------------------------------------------------------------------------

  ghost predicate StepsBranchWell(steps: seq<Step>, ts: seq<Transition>) {
    forall i :: 0 <= i < |steps| ==> BranchesWell(ts, steps[i])
  }

  /** The steps and transitions are in order by themselves. */
  ghost predicate InOrder(steps: seq<Step>, ts: seq<Transition>, valid: (Key, Condition) -> bool) {
    OneStart(steps) && PathsFit(steps, ts, valid) && StepsBranchWell(steps, ts)
  }

  ghost predicate Comes(steps: seq<Step>, ts: seq<Transition>, s: nat, i: nat)
    requires s < |steps| && i < |steps|
  {
    Reaches(ts, steps[s].key, steps[i].key)
  }

  /** What each verdict says of the graph: the first rule that fails, in the order of the rules. */
  ghost predicate Says(steps: seq<Step>, ts: seq<Transition>, valid: (Key, Condition) -> bool, verdict: Verdict) {
    match verdict
    case BadStart => !OneStart(steps)
    case BadTransition => OneStart(steps) && !PathsFit(steps, ts, valid)
    case BadBranching => OneStart(steps) && PathsFit(steps, ts, valid) && !StepsBranchWell(steps, ts)
    case Cyclic => InOrder(steps, ts, valid) && exists s: nat :: IsStart(steps, s) && ReachableCycle(ts, steps[s].key)
    case Unreachable =>
      && InOrder(steps, ts, valid)
      && exists s: nat :: IsStart(steps, s) && !ReachableCycle(ts, steps[s].key)
                          && exists i :: 0 <= i < |steps| && !Comes(steps, ts, s, i)
    case Valid =>
      && InOrder(steps, ts, valid) && Acyclic(ts)
      && exists s: nat :: IsStart(steps, s) && forall i :: 0 <= i < |steps| ==> Comes(steps, ts, s, i)
  }

  /** The verdict of the validator says what is the matter. */
  lemma {:induction false} VerdictMeaning(steps: seq<Step>, ts: seq<Transition>, valid: (Key, Condition) -> bool)
    ensures Says(steps, ts, valid, Judge(steps, ts, valid))
  {
    hide StartOk, OneStart, TransitionsOk, PathsFit, BranchingOk, BranchesWell, ReachableCycle, Reaches, Acyclic, Keys;
    StartExactly(steps);
    PathsExactly(steps, ts, valid);
    forall i | 0 <= i < |steps|
      ensures BranchingOk(steps[i].isTerminal, Outgoing(ts, steps[i].key)) <==> BranchesWell(ts, steps[i])
    {
      BranchingExactly(ts, steps[i]);
    }
    if OneStart(steps) {
      var s := StartPlace(steps);
      forall i | 0 <= i < |steps|
        ensures steps[i].key in Keys(steps)
      {
        StepIsKey(steps, i);
      }
      KeysAreSteps(steps);
      if InOrder(steps, ts, valid) {
        SearchSays(steps, ts, valid, s);
      }
    }
  }

  lemma {:induction false} SearchSays(steps: seq<Step>, ts: seq<Transition>, valid: (Key, Condition) -> bool, s: nat)
    requires InOrder(steps, ts, valid) && IsStart(steps, s)
    requires StartOk(steps) && TransitionsOk(Keys(steps), valid, ts) && StepsBranchOk(steps, ts)
    requires StartKey(steps) == steps[s].key
    requires forall i :: 0 <= i < |steps| ==> steps[i].key in Keys(steps)
    requires forall k :: k in Keys(steps) ==> exists i :: 0 <= i < |steps| && steps[i].key == k
    ensures Says(steps, ts, valid, Judge(steps, ts, valid))
  {
    hide UniqueUpTo, OneStart, TransitionsOk, PathsFit, StepsBranchOk, StepsBranchWell, ReachableCycle, Reaches;
    hide Acyclic, Keys, StartKey;
    AcceptsWellFormed(steps, ts, valid);
    var verdict := Judge(steps, ts, valid);
    if verdict == Unreachable {
      var k :| k in Keys(steps) && !Reaches(ts, StartKey(steps), k);
      var i :| 0 <= i < |steps| && steps[i].key == k;
      assert !Comes(steps, ts, s, i);
    } else if verdict == Valid {
      assert forall i :: 0 <= i < |steps| ==> Comes(steps, ts, s, i);
    }
  }

  lemma {:induction false} StepIsKey(steps: seq<Step>, i: nat)
    requires i < |steps|
    ensures steps[i].key in Keys(steps)
  {
    KeysMember(steps, |steps|, steps[i].key);
  }

  lemma {:induction false} KeysAreSteps(steps: seq<Step>)
    ensures forall k :: k in Keys(steps) ==> exists i :: 0 <= i < |steps| && steps[i].key == k
  {
    forall k | k in Keys(steps)
      ensures exists i :: 0 <= i < |steps| && steps[i].key == k
    {
      KeysMember(steps, |steps|, k);
    }
  }

  lemma {:induction false} StartPlace(steps: seq<Step>) returns (s: nat)
    requires OneStart(steps)
    ensures IsStart(steps, s) && StartCount(steps) > 0 && StartKey(steps) == steps[s].key
  {
    StartCounted(steps);
    s :| IsStart(steps, s);
    KeyOfStart(steps, s);
  }

  lemma {:induction false} KeyOfStart(steps: seq<Step>, s: nat)
    requires StartCount(steps) > 0 && IsStart(steps, s)
    ensures StartKey(steps) == steps[s].key
  {
    if !steps[0].isStart {
      var rest := steps[1..];
      assert s > 0 && IsStart(rest, s - 1) by {
        assert forall i :: 0 <= i < |rest| ==> rest[i] == steps[i + 1];
      }
      KeyOfStart(rest, s - 1);
    }
  }
}
