/**
 Route graphs of a process version: the structural rules, the depth-first search that
 rejects cycles and unreachable steps, and the choice of the outgoing edge.
 */
module ProcessGraph {
  import opened Prelude

  datatype Key = Key(text: string)

  datatype Condition = Condition(field: string, op: string, expected: string)

  datatype Step = Step(
    key: Key,
    isStart: bool,
    isTerminal: bool,
    inputs: seq<string>,
    outputs: seq<string>,
    controlNote: string
  )

  datatype Transition = Transition(
    key: Key,
    from: Key,
    to: Key,
    condition: Option<Condition>,
    isElse: bool
  )

  /** What validation reports: the first group of rules that fails. */
  datatype Verdict = Valid | BadStart | BadTransition | BadBranching | Cyclic | Unreachable

  // ---------------------------------------------------------------------------
  // Reference definitions: walks, reachability, cycles
  // ---------------------------------------------------------------------------

  ghost predicate Edge(ts: seq<Transition>, a: Key, b: Key) {
    exists i :: 0 <= i < |ts| && ts[i].from == a && ts[i].to == b
  }

  ghost predicate EdgeAt(ts: seq<Transition>, p: seq<Key>, i: int)
    requires 0 <= i < |p| - 1
  {
    Edge(ts, p[i], p[i + 1])
  }

  ghost predicate IsWalk(ts: seq<Transition>, p: seq<Key>) {
    |p| > 0 && forall i :: 0 <= i < |p| - 1 ==> EdgeAt(ts, p, i)
  }

  ghost predicate WalkTo(ts: seq<Transition>, p: seq<Key>, a: Key, b: Key) {
    IsWalk(ts, p) && p[0] == a && p[|p| - 1] == b
  }

  ghost predicate Reaches(ts: seq<Transition>, a: Key, b: Key) {
    exists p :: WalkTo(ts, p, a, b)
  }

  ghost predicate Acyclic(ts: seq<Transition>) {
    forall p :: IsWalk(ts, p) && |p| > 1 ==> p[0] != p[|p| - 1]
  }

  /** Some walk from `start` comes back to a step it has already passed. */
  ghost predicate ReachableCycle(ts: seq<Transition>, start: Key) {
    exists p, i :: IsWalk(ts, p) && p[0] == start && 0 <= i < |p| - 1 && p[i] == p[|p| - 1]
  }

  ghost predicate NoRepeats(p: seq<Key>) {
    forall i, j :: 0 <= i < j < |p| ==> p[i] != p[j]
  }

  lemma {:induction false} WalkSlice(ts: seq<Transition>, p: seq<Key>, i: nat, j: nat)
    requires IsWalk(ts, p) && i < j <= |p|
    ensures IsWalk(ts, p[i..j])
  {
    forall k | 0 <= k < |p[i..j]| - 1
      ensures EdgeAt(ts, p[i..j], k)
    {
      assert EdgeAt(ts, p, i + k);
    }
  }

  lemma {:induction false} WalkAppend(ts: seq<Transition>, p: seq<Key>, b: Key)
    requires p == [] || (IsWalk(ts, p) && Edge(ts, p[|p| - 1], b))
    ensures IsWalk(ts, p + [b])
  {
    forall k | 0 <= k < |p + [b]| - 1
      ensures EdgeAt(ts, p + [b], k)
    {
      if k < |p| - 1 {
        assert EdgeAt(ts, p, k);
      }
    }
  }

  /** In an acyclic graph no walk visits a step twice. */
  lemma {:induction false} AcyclicWalkNoRepeats(ts: seq<Transition>, p: seq<Key>)
    requires Acyclic(ts) && IsWalk(ts, p)
    ensures NoRepeats(p)
  {
    forall i, j | 0 <= i < j < |p|
      ensures p[i] != p[j]
    {
      WalkSlice(ts, p, i, j + 1);
      var q := p[i..j + 1];
      assert q[0] == p[i] && q[|q| - 1] == p[j];
    }
  }

  // ---------------------------------------------------------------------------
  // Structural rules
  // ---------------------------------------------------------------------------

  function KeysUpTo(steps: seq<Step>, n: nat): set<Key>
    requires n <= |steps|
  {
    if n == 0 then {} else KeysUpTo(steps, n - 1) + {steps[n - 1].key}
  }

  function Keys(steps: seq<Step>): set<Key> {
    KeysUpTo(steps, |steps|)
  }

  lemma {:induction false} KeysMember(steps: seq<Step>, n: nat, k: Key)
    requires n <= |steps|
    ensures k in KeysUpTo(steps, n) <==> exists i :: 0 <= i < n && steps[i].key == k
  {
    if n > 0 {
      KeysMember(steps, n - 1, k);
    }
  }

  function StartCount(steps: seq<Step>): nat {
    if steps == [] then 0 else (if steps[0].isStart then 1 else 0) + StartCount(steps[1..])
  }

  /** Key of the first start step. */
  function StartKey(steps: seq<Step>): Key
    requires StartCount(steps) > 0
  {
    if steps[0].isStart then steps[0].key else StartKey(steps[1..])
  }

  ghost predicate UniqueUpTo(steps: seq<Step>, n: nat)
    requires n <= |steps|
  {
    forall i, j :: 0 <= i < j < n ==> steps[i].key != steps[j].key
  }

  ghost predicate StartOk(steps: seq<Step>) {
    steps != [] && UniqueUpTo(steps, |steps|) && StartCount(steps) == 1
  }

  /** The identity under which a transition may appear only once. */
  function Identity(t: Transition): (Key, Key, Option<Condition>, bool) {
    (t.from, t.to, t.condition, t.isElse)
  }

  predicate TransitionOk(keys: set<Key>, valid: (Key, Condition) -> bool, t: Transition) {
    && t.from in keys
    && t.to in keys
    && (t.condition.Some? ==> valid(t.from, t.condition.value))
    && !(t.isElse && t.condition.Some?)
  }

  ghost predicate TransitionsOk(keys: set<Key>, valid: (Key, Condition) -> bool, ts: seq<Transition>) {
    && (forall i :: 0 <= i < |ts| ==> TransitionOk(keys, valid, ts[i]))
    && (forall i, j :: 0 <= i < j < |ts| ==> Identity(ts[i]) != Identity(ts[j]))
  }

  /** The transitions among the first `n` that leave `key`, in order. */
  function OutgoingUpTo(ts: seq<Transition>, n: nat, key: Key): seq<Transition>
    requires n <= |ts|
  {
    if n == 0 then []
    else OutgoingUpTo(ts, n - 1, key) + (if ts[n - 1].from == key then [ts[n - 1]] else [])
  }

  function Outgoing(ts: seq<Transition>, key: Key): seq<Transition> {
    OutgoingUpTo(ts, |ts|, key)
  }

  lemma {:induction false} OutgoingMember(ts: seq<Transition>, n: nat, key: Key, t: Transition)
    requires n <= |ts|
    ensures t in OutgoingUpTo(ts, n, key) <==> t.from == key && exists i :: 0 <= i < n && ts[i] == t
  {
    if n > 0 {
      OutgoingMember(ts, n - 1, key, t);
    }
  }

  function ElseCount(paths: seq<Transition>): nat {
    if paths == [] then 0 else (if paths[0].isElse then 1 else 0) + ElseCount(paths[1..])
  }

  /** The branching rule of one step as the validator evaluates it. */
  predicate BranchingOk(terminal: bool, paths: seq<Transition>) {
    if terminal then paths == []
    else if paths == [] then false
    else if exists i :: 0 <= i < |paths| && paths[i].condition.Some? then
      && ElseCount(paths) == 1
      && (forall i :: 0 <= i < |paths| && !paths[i].isElse ==> paths[i].condition.Some?)
      && (forall i, j :: 0 <= i < j < |paths| && paths[i].condition.Some? && paths[j].condition.Some?
                         ==> paths[i].condition != paths[j].condition)
    else |paths| == 1 && !paths[0].isElse
  }

  ghost predicate StepsBranchOk(steps: seq<Step>, ts: seq<Transition>) {
    forall i :: 0 <= i < |steps| ==> BranchingOk(steps[i].isTerminal, Outgoing(ts, steps[i].key))
  }

  /** Position of the only else path. */
  ghost predicate OnlyElse(paths: seq<Transition>, e: int) {
    && 0 <= e < |paths| && paths[e].isElse
    && forall i :: 0 <= i < |paths| && i != e ==> !paths[i].isElse
  }

  lemma {:induction false} ElseCountZero(paths: seq<Transition>)
    ensures ElseCount(paths) == 0 <==> forall i :: 0 <= i < |paths| ==> !paths[i].isElse
  {
    if paths != [] {
      ElseCountZero(paths[1..]);
      assert forall i :: 0 < i < |paths| ==> paths[i] == paths[1..][i - 1];
      assert forall i :: 0 <= i < |paths[1..]| ==> paths[1..][i] == paths[i + 1];
    }
  }

  lemma {:induction false} ElseCountOne(paths: seq<Transition>)
    ensures ElseCount(paths) == 1 <==> exists e :: OnlyElse(paths, e)
  {
    if paths != [] {
      var rest := paths[1..];
      ElseCountOne(rest);
      ElseCountZero(rest);
      if paths[0].isElse {
        if ElseCount(rest) == 0 {
          assert OnlyElse(paths, 0) by {
            forall i | 0 <= i < |paths| && i != 0 ensures !paths[i].isElse { assert paths[i] == rest[i - 1]; }
          }
        }
        if e :| OnlyElse(paths, e) {
          assert e == 0;
          forall i | 0 <= i < |rest| ensures !rest[i].isElse { assert rest[i] == paths[i + 1]; }
        }
      } else {
        if e :| OnlyElse(rest, e) {
          assert OnlyElse(paths, e + 1) by {
            forall i | 0 <= i < |paths| && i != e + 1 ensures !paths[i].isElse {
              if i > 0 { assert paths[i] == rest[i - 1]; }
            }
          }
        }
        if e :| OnlyElse(paths, e) {
          assert OnlyElse(rest, e - 1) by {
            forall i | 0 <= i < |rest| && i != e - 1 ensures !rest[i].isElse { assert rest[i] == paths[i + 1]; }
          }
        }
      }
    }
  }

  // ---------------------------------------------------------------------------
  // Choosing an edge
  // ---------------------------------------------------------------------------

  predicate Taken(t: Transition, matches: Condition -> bool) {
    !t.isElse && (t.condition.None? || matches(t.condition.value))
  }

  function FirstTaken(paths: seq<Transition>, matches: Condition -> bool): Option<Transition> {
    if paths == [] then None
    else if Taken(paths[0], matches) then Some(paths[0])
    else FirstTaken(paths[1..], matches)
  }

  function FirstElse(paths: seq<Transition>): Option<Transition> {
    if paths == [] then None else if paths[0].isElse then Some(paths[0]) else FirstElse(paths[1..])
  }

  /** The edge both `route` and `preview` select. */
  function SelectEdge(paths: seq<Transition>, matches: Condition -> bool): Option<Transition> {
    var selected := FirstTaken(paths, matches);
    if selected.Some? then selected else FirstElse(paths)
  }

  lemma {:induction false} FirstTakenMeaning(paths: seq<Transition>, matches: Condition -> bool)
    ensures FirstTaken(paths, matches).None? <==> forall i :: 0 <= i < |paths| ==> !Taken(paths[i], matches)
    ensures FirstTaken(paths, matches).Some? ==>
              exists i :: 0 <= i < |paths| && paths[i] == FirstTaken(paths, matches).value && Taken(paths[i], matches)
                          && forall j :: 0 <= j < i ==> !Taken(paths[j], matches)
  {
    if paths != [] && !Taken(paths[0], matches) {
      var rest := paths[1..];
      FirstTakenMeaning(rest, matches);
      assert forall i :: 0 < i < |paths| ==> paths[i] == rest[i - 1];
      if FirstTaken(rest, matches).Some? {
        var i :| 0 <= i < |rest| && rest[i] == FirstTaken(rest, matches).value && Taken(rest[i], matches)
                 && forall j :: 0 <= j < i ==> !Taken(rest[j], matches);
        assert paths[i + 1] == rest[i];
      } else {
        forall i | 0 <= i < |paths| ensures !Taken(paths[i], matches) {
          if i > 0 { assert paths[i] == rest[i - 1]; }
        }
      }
    }
  }

  lemma {:induction false} FirstElseMeaning(paths: seq<Transition>)
    ensures FirstElse(paths).None? <==> forall i :: 0 <= i < |paths| ==> !paths[i].isElse
    ensures FirstElse(paths).Some? ==> FirstElse(paths).value in paths && FirstElse(paths).value.isElse
  {
    if paths != [] && !paths[0].isElse {
      FirstElseMeaning(paths[1..]);
      assert forall i :: 0 < i < |paths| ==> paths[i] == paths[1..][i - 1];
      assert forall i :: 0 <= i < |paths[1..]| ==> paths[1..][i] == paths[i + 1];
    }
  }

  /**
   Under the branching rule a step has a next edge exactly when it is not terminal. The edge is
   the first one whose condition holds, and the else edge exactly when no condition holds.
   */
  lemma {:induction false} SelectEdgeTotal(terminal: bool, paths: seq<Transition>, matches: Condition -> bool)
    requires BranchingOk(terminal, paths)
    ensures SelectEdge(paths, matches).Some? <==> !terminal
    ensures !terminal ==> SelectEdge(paths, matches).value in paths
    ensures !terminal ==>
              (SelectEdge(paths, matches).value.isElse <==> forall i :: 0 <= i < |paths| ==> !Taken(paths[i], matches))
    ensures !terminal && !SelectEdge(paths, matches).value.isElse ==>
              exists i :: 0 <= i < |paths| && paths[i] == SelectEdge(paths, matches).value && Taken(paths[i], matches)
                          && forall j :: 0 <= j < i ==> !Taken(paths[j], matches)
  {
    FirstTakenMeaning(paths, matches);
    FirstElseMeaning(paths);
    if !terminal && exists i :: 0 <= i < |paths| && paths[i].condition.Some? {
      ElseCountOne(paths);
    } else if !terminal {
      assert Taken(paths[0], matches);
    }
  }

  // ---------------------------------------------------------------------------
  // Depth-first search
  // ---------------------------------------------------------------------------

  /** The search's two sets. `order` records steps as they leave `visiting`. */
  class Search {
    const keys: set<Key>
    const outgoing: map<Key, seq<Transition>>
    ghost const transitions: seq<Transition>
    ghost const start: Key
    var visiting: set<Key>
    var visited: set<Key>
    ghost var order: seq<Key>

    ghost predicate Shaped() {
      && outgoing.Keys == keys
      && (forall k :: k in keys ==> outgoing[k] == Outgoing(transitions, k))
      && (forall i :: 0 <= i < |transitions| ==> transitions[i].from in keys && transitions[i].to in keys)
    }

    ghost predicate Valid()
      reads this
    {
      && Shaped()
      && visiting !! visited
      && visiting <= keys
      && (forall k :: k in visited <==> k in order)
      && FinishOrder(transitions, order)
      && (forall k :: k in visited ==> k in keys && Reaches(transitions, start, k))
    }

    /** `stack` is the chain of open calls. */
    ghost predicate OnStack(stack: seq<Key>)
      reads this
    {
      && (forall k :: k in visiting <==> k in stack)
      && (stack != [] ==> IsWalk(transitions, stack) && stack[0] == start)
    }

    constructor (keys: set<Key>, outgoing: map<Key, seq<Transition>>,
                 ghost transitions: seq<Transition>, ghost start: Key)
      requires outgoing.Keys == keys
      requires forall k :: k in keys ==> outgoing[k] == Outgoing(transitions, k)
      requires forall i :: 0 <= i < |transitions| ==> transitions[i].from in keys && transitions[i].to in keys
      ensures Valid() && OnStack([]) && visited == {} && order == []
      ensures this.keys == keys && this.transitions == transitions && this.start == start
    {
      this.keys := keys;
      this.outgoing := outgoing;
      this.transitions := transitions;
      this.start := start;
      visiting, visited, order := {}, {}, [];
    }

    /** One recursive call of the search; `ok` is false when it raises. */
    method Visit(key: Key, ghost stack: seq<Key>) returns (ok: bool)
      requires Valid() && OnStack(stack) && key in keys
      requires if stack == [] then key == start else Edge(transitions, stack[|stack| - 1], key)
      modifies this
      ensures ok ==> Valid() && OnStack(stack) && key in visited && old(visited) <= visited && visiting == old(visiting)
      ensures !ok ==> ReachableCycle(transitions, start)
      decreases keys - visiting, 1
    {
      ghost var here := stack + [key];
      WalkAppend(transitions, stack, key);
      if key in visiting {
        ClosedCycle(transitions, start, stack, key);
        return false;
      }
      if key in visited {
        return true;
      }
      visiting := visiting + {key};
      ok := VisitPaths(key, here);
      if ok {
        ghost var finished := FinishStep(transitions, outgoing[key], order, key);
        assert Reaches(transitions, start, key) by {
          assert WalkTo(transitions, here, start, key);
        }
        visiting, visited, order := visiting - {key}, visited + {key}, finished;
      }
    }

    /** The loop over the transitions of a step that is being visited. */
    method VisitPaths(key: Key, ghost here: seq<Key>) returns (ok: bool)
      requires Valid() && OnStack(here) && key in keys && here != [] && here[|here| - 1] == key
      modifies this
      ensures ok ==> Valid() && OnStack(here) && old(visited) <= visited && visiting == old(visiting)
      ensures ok ==> forall j :: 0 <= j < |outgoing[key]| ==> outgoing[key][j].to in order
      ensures !ok ==> ReachableCycle(transitions, start)
      decreases keys - visiting, 2
    {
      for i := 0 to |outgoing[key]|
        invariant Valid() && OnStack(here) && old(visited) <= visited && visiting == old(visiting)
        invariant forall j :: 0 <= j < i ==> outgoing[key][j].to in order
      {
        var edge := outgoing[key][i];
        OutgoingMember(transitions, |transitions|, key, edge);
        ok := Visit(edge.to, here);
        if !ok {
          return;
        }
      }
      ok := true;
    }
  }

  /** Each step comes once, after every step it leads to. */
  ghost predicate FinishOrder(ts: seq<Transition>, order: seq<Key>)
    decreases |order|
  {
    order == [] ||
    var init, key := order[..|order| - 1], order[|order| - 1];
    key !in init && FinishOrder(ts, init) && forall b :: Edge(ts, key, b) ==> b in init
  }

  /** A step all of whose successors are finished may be put last in the finish order. */
  lemma {:induction false} FinishStep(ts: seq<Transition>, paths: seq<Transition>, order: seq<Key>, key: Key)
      returns (finished: seq<Key>)
    requires FinishOrder(ts, order) && key !in order && paths == Outgoing(ts, key)
    requires forall j :: 0 <= j < |paths| ==> paths[j].to in order
    ensures FinishOrder(ts, finished)
    ensures forall k :: k in finished <==> k in order || k == key
  {
    forall b | Edge(ts, key, b)
      ensures b in order
    {
      var t :| 0 <= t < |ts| && ts[t].from == key && ts[t].to == b;
      OutgoingMember(ts, |ts|, key, ts[t]);
    }
    finished := order + [key];
    assert finished[..|order|] == order;
  }

  lemma {:induction false} EdgeStays(ts: seq<Transition>, order: seq<Key>, a: Key, b: Key)
    requires FinishOrder(ts, order) && a in order && Edge(ts, a, b)
    ensures b in order
    decreases |order|
  {
    if a != order[|order| - 1] {
      EdgeStays(ts, order[..|order| - 1], a, b);
    }
  }

  lemma {:induction false} WalkStays(ts: seq<Transition>, order: seq<Key>, p: seq<Key>)
    requires FinishOrder(ts, order) && IsWalk(ts, p) && p[0] in order
    ensures p[|p| - 1] in order
    decreases |p|
  {
    if |p| > 1 {
      assert EdgeAt(ts, p, 0);
      EdgeStays(ts, order, p[0], p[1]);
      WalkSlice(ts, p, 1, |p|);
      WalkStays(ts, order, p[1..|p|]);
    }
  }

  lemma {:induction false} FinishOrderForbidsCycle(ts: seq<Transition>, order: seq<Key>, p: seq<Key>)
    requires FinishOrder(ts, order) && IsWalk(ts, p) && |p| > 1 && p[0] in order
    ensures p[0] != p[|p| - 1]
    decreases |order|
  {
    var init, key := order[..|order| - 1], order[|order| - 1];
    if p[0] == key {
      assert EdgeAt(ts, p, 0);
      WalkSlice(ts, p, 1, |p|);
      WalkStays(ts, init, p[1..|p|]);
    } else {
      FinishOrderForbidsCycle(ts, init, p);
    }
  }

  /** What a finished search proves: nothing else is reachable, and no cycle is. */
  lemma {:induction false} FinishedSearch(ts: seq<Transition>, order: seq<Key>, start: Key)
    requires FinishOrder(ts, order) && start in order
    ensures forall k :: Reaches(ts, start, k) ==> k in order
    ensures !ReachableCycle(ts, start)
  {
    forall k | Reaches(ts, start, k)
      ensures k in order
    {
      var p :| WalkTo(ts, p, start, k);
      WalkStays(ts, order, p);
    }
    forall p, c | IsWalk(ts, p) && p[0] == start && 0 <= c < |p| - 1
      ensures p[c] != p[|p| - 1]
    {
      WalkSlice(ts, p, 0, c + 1);
      WalkStays(ts, order, p[0..c + 1]);
      WalkSlice(ts, p, c, |p|);
      FinishOrderForbidsCycle(ts, order, p[c..|p|]);
    }
  }

  /** An edge from the end of a walk back into it closes a cycle. */
  lemma {:induction false} ClosedCycle(ts: seq<Transition>, start: Key, stack: seq<Key>, key: Key)
    requires IsWalk(ts, stack) && stack[0] == start && key in stack
    requires Edge(ts, stack[|stack| - 1], key)
    ensures ReachableCycle(ts, start)
  {
    var p := stack + [key];
    WalkAppend(ts, stack, key);
    var i :| 0 <= i < |stack| && stack[i] == key;
    assert IsWalk(ts, p) && p[0] == start && 0 <= i < |p| - 1 && p[i] == p[|p| - 1];
  }

  lemma {:induction false} JoinWalks(ts: seq<Transition>, q: seq<Key>, p: seq<Key>)
    requires IsWalk(ts, q) && IsWalk(ts, p) && q[|q| - 1] == p[0]
    ensures IsWalk(ts, q + p[1..])
  {
    var whole := q + p[1..];
    forall i | 0 <= i < |whole| - 1
      ensures EdgeAt(ts, whole, i)
    {
      if i < |q| - 1 {
        assert EdgeAt(ts, q, i);
      } else {
        assert EdgeAt(ts, p, i - |q| + 1);
      }
    }
  }

  /** A cycle the search meets is a cycle of the graph. */
  lemma {:induction false} ReachableCycleIsCycle(ts: seq<Transition>, start: Key)
    requires ReachableCycle(ts, start)
    ensures !Acyclic(ts)
  {
    var p, c :| IsWalk(ts, p) && p[0] == start && 0 <= c < |p| - 1 && p[c] == p[|p| - 1];
    WalkSlice(ts, p, c, |p|);
    var q := p[c..|p|];
    assert IsWalk(ts, q) && |q| > 1 && q[0] == q[|q| - 1];
  }

  /** When every step is reachable, a cycle anywhere is a cycle the search meets. */
  lemma {:induction false} CycleIsReachable(ts: seq<Transition>, start: Key, p: seq<Key>)
    requires IsWalk(ts, p) && |p| > 1 && p[0] == p[|p| - 1]
    requires Reaches(ts, start, p[0])
    ensures ReachableCycle(ts, start)
  {
    var q :| WalkTo(ts, q, start, p[0]);
    JoinWalks(ts, q, p);
    var whole, c := q + p[1..], |q| - 1;
    assert IsWalk(ts, whole) && whole[0] == start && 0 <= c < |whole| - 1 && whole[c] == whole[|whole| - 1];
  }

  lemma {:induction false} ReachableAcyclic(ts: seq<Transition>, start: Key, keys: set<Key>)
    requires !ReachableCycle(ts, start)
    requires forall k :: k in keys ==> Reaches(ts, start, k)
    requires forall i :: 0 <= i < |ts| ==> ts[i].from in keys
    ensures Acyclic(ts)
  {
    forall p | IsWalk(ts, p) && |p| > 1
      ensures p[0] != p[|p| - 1]
    {
      assert EdgeAt(ts, p, 0);
      if p[0] == p[|p| - 1] {
        CycleIsReachable(ts, start, p);
      }
    }
  }

  // ---------------------------------------------------------------------------
  // The validator
  // ---------------------------------------------------------------------------

  /** The graphs a process version may be published with. */
  ghost predicate WellFormed(steps: seq<Step>, ts: seq<Transition>, valid: (Key, Condition) -> bool) {
    && StartOk(steps)
    && TransitionsOk(Keys(steps), valid, ts)
    && StepsBranchOk(steps, ts)
    && (forall k :: k in Keys(steps) ==> Reaches(ts, StartKey(steps), k))
    && Acyclic(ts)
  }

  function Identities(ts: seq<Transition>, n: nat): set<(Key, Key, Option<Condition>, bool)>
    requires n <= |ts|
  {
    if n == 0 then {} else Identities(ts, n - 1) + {Identity(ts[n - 1])}
  }

  /** The first `n` transitions pass, taken one after the other. */
  ghost predicate PassUpTo(keys: set<Key>, valid: (Key, Condition) -> bool, ts: seq<Transition>, n: nat)
    requires n <= |ts|
  {
    n == 0 || (PassUpTo(keys, valid, ts, n - 1) && Passes(keys, valid, ts, n - 1))
  }

  ghost predicate Passes(keys: set<Key>, valid: (Key, Condition) -> bool, ts: seq<Transition>, n: nat)
    requires n < |ts|
  {
    TransitionOk(keys, valid, ts[n]) && Identity(ts[n]) !in Identities(ts, n)
  }

  lemma {:induction false} IdentitiesMeaning(ts: seq<Transition>, n: nat, x: (Key, Key, Option<Condition>, bool))
    requires n <= |ts|
    ensures x in Identities(ts, n) <==> exists j :: 0 <= j < n && Identity(ts[j]) == x
  {
    if n > 0 {
      IdentitiesMeaning(ts, n - 1, x);
    }
  }

  lemma {:induction false} PassUpToPrefix(keys: set<Key>, valid: (Key, Condition) -> bool, ts: seq<Transition>,
                                          i: nat, n: nat)
    requires i <= n <= |ts| && PassUpTo(keys, valid, ts, n)
    ensures PassUpTo(keys, valid, ts, i)
  {
    if i < n {
      PassUpToPrefix(keys, valid, ts, i, n - 1);
    }
  }

  lemma {:induction false} PassUpToMeaning(keys: set<Key>, valid: (Key, Condition) -> bool, ts: seq<Transition>, n: nat)
    requires n <= |ts|
    ensures PassUpTo(keys, valid, ts, n) <==> forall i :: 0 <= i < n ==> Passes(keys, valid, ts, i)
  {
    if n > 0 {
      PassUpToMeaning(keys, valid, ts, n - 1);
    }
  }

  lemma {:induction false} PassAllIsOk(keys: set<Key>, valid: (Key, Condition) -> bool, ts: seq<Transition>)
    ensures PassUpTo(keys, valid, ts, |ts|) <==> TransitionsOk(keys, valid, ts)
  {
    PassUpToMeaning(keys, valid, ts, |ts|);
    forall j | 0 <= j < |ts|
      ensures Passes(keys, valid, ts, j) <==>
              TransitionOk(keys, valid, ts[j]) && forall i :: 0 <= i < j ==> Identity(ts[i]) != Identity(ts[j])
    {
      IdentitiesMeaning(ts, j, Identity(ts[j]));
    }
  }

  /** One more transition passes, or the first one does not. */
  lemma {:induction false} PassStep(keys: set<Key>, valid: (Key, Condition) -> bool, ts: seq<Transition>, n: nat)
    requires n < |ts|
    ensures PassUpTo(keys, valid, ts, n + 1) <==>
            PassUpTo(keys, valid, ts, n) && TransitionOk(keys, valid, ts[n]) && Identity(ts[n]) !in Identities(ts, n)
    ensures Identities(ts, n + 1) == Identities(ts, n) + {Identity(ts[n])}
  {
  }

  lemma {:induction false} OutgoingStep(ts: seq<Transition>, n: nat, key: Key)
    requires n < |ts|
    ensures OutgoingUpTo(ts, n + 1, key) == OutgoingUpTo(ts, n, key) + if ts[n].from == key then [ts[n]] else []
  {
  }

  lemma {:induction false} NothingYet(keys: set<Key>, valid: (Key, Condition) -> bool, ts: seq<Transition>)
    ensures PassUpTo(keys, valid, ts, 0) && Identities(ts, 0) == {}
    ensures forall k :: OutgoingUpTo(ts, 0, k) == []
  {
  }

  /** Checks every transition and groups the transitions by the step they leave. */
  method CollectTransitions(keys: set<Key>, ts: seq<Transition>, valid: (Key, Condition) -> bool)
    returns (outgoing: map<Key, seq<Transition>>, ok: bool)
    ensures ok <==> PassUpTo(keys, valid, ts, |ts|)
    ensures ok ==> outgoing.Keys == keys && forall k :: k in keys ==> outgoing[k] == Outgoing(ts, k)
  {
    hide PassUpTo, Identities, OutgoingUpTo;
    NothingYet(keys, valid, ts);
    outgoing := map k | k in keys :: [];
    var seen: set<(Key, Key, Option<Condition>, bool)> := {};
    ok := true;
    var i := 0;
    while i < |ts| && ok
      invariant 0 <= i <= |ts|
      invariant outgoing.Keys == keys
      invariant ok ==> forall k :: k in keys ==> outgoing[k] == OutgoingUpTo(ts, i, k)
      invariant ok ==> seen == Identities(ts, i)
      invariant ok <==> PassUpTo(keys, valid, ts, i)
    {
      var t := ts[i];
      PassStep(keys, valid, ts, i);
      ghost var before := outgoing;
      if t.from !in keys || t.to !in keys || Identity(t) in seen {
        ok := false;
      } else {
        seen := seen + {Identity(t)};
        outgoing := outgoing[t.from := outgoing[t.from] + [t]];
        ok := (t.condition.None? || valid(t.from, t.condition.value)) && !(t.isElse && t.condition.Some?);
        forall k | k in keys
          ensures outgoing[k] == OutgoingUpTo(ts, i + 1, k)
        {
          OutgoingStep(ts, i, k);
          assert before[k] == OutgoingUpTo(ts, i, k);
        }
      }
      i := i + 1;
    }
    if !ok && PassUpTo(keys, valid, ts, |ts|) {
      PassUpToPrefix(keys, valid, ts, i, |ts|);
    }
  }

  /** The verdict each graph deserves: the first group of rules it breaks. */
  ghost function Judge(steps: seq<Step>, ts: seq<Transition>, valid: (Key, Condition) -> bool): Verdict {
    if !StartOk(steps) then BadStart
    else if !TransitionsOk(Keys(steps), valid, ts) then BadTransition
    else if !StepsBranchOk(steps, ts) then BadBranching
    else if ReachableCycle(ts, StartKey(steps)) then Cyclic
    else if exists k :: k in Keys(steps) && !Reaches(ts, StartKey(steps), k) then Unreachable
    else Valid
  }

  /** Accepted graphs are exactly the well-formed ones: every step reachable and no cycle anywhere. */
  lemma {:induction false} AcceptsWellFormed(steps: seq<Step>, ts: seq<Transition>, valid: (Key, Condition) -> bool)
    ensures Judge(steps, ts, valid) == Valid <==> WellFormed(steps, ts, valid)
  {
    if StartOk(steps) && TransitionsOk(Keys(steps), valid, ts) {
      var start := StartKey(steps);
      if ReachableCycle(ts, start) {
        ReachableCycleIsCycle(ts, start);
      } else if forall k :: k in Keys(steps) ==> Reaches(ts, start, k) {
        ReachableAcyclic(ts, start, Keys(steps));
      }
    }
  }

  /** Refuses with the verdict the graph deserves; a reachable cycle is reported before an unreachable step. */
  method ValidateGraph(steps: seq<Step>, ts: seq<Transition>, valid: (Key, Condition) -> bool)
    returns (verdict: Verdict)
    ensures verdict == Judge(steps, ts, valid)
  {
    hide BranchingOk, Reaches, ReachableCycle, StartKey, StartCount, KeysUpTo, PassUpTo, OutgoingUpTo;
    var keys := Keys(steps);
    KeyCount(steps, |steps|);
    if steps == [] || |keys| != |steps| || StartCount(steps) != 1 {
      return BadStart;
    }
    PassAllIsOk(keys, valid, ts);
    var outgoing, ok := CollectTransitions(keys, ts, valid);
    if !ok {
      return BadTransition;
    }
    for i := 0 to |steps|
      invariant forall j :: 0 <= j < i ==> BranchingOk(steps[j].isTerminal, Outgoing(ts, steps[j].key))
    {
      KeysMember(steps, |steps|, steps[i].key);
      if !BranchingOk(steps[i].isTerminal, outgoing[steps[i].key]) {
        return BadBranching;
      }
    }
    StartIsKey(steps);
    verdict := SearchFrom(keys, outgoing, ts, StartKey(steps));
  }

  /** Runs the search from the start and compares what it visited with all the steps. */
  method SearchFrom(keys: set<Key>, outgoing: map<Key, seq<Transition>>, ts: seq<Transition>, start: Key)
    returns (verdict: Verdict)
    requires outgoing.Keys == keys && start in keys
    requires forall k :: k in keys ==> outgoing[k] == Outgoing(ts, k)
    requires forall i :: 0 <= i < |ts| ==> ts[i].from in keys && ts[i].to in keys
    ensures verdict == if ReachableCycle(ts, start) then Cyclic
                       else if exists k :: k in keys && !Reaches(ts, start, k) then Unreachable
                       else Valid
  {
    var search := new Search(keys, outgoing, ts, start);
    var ok := search.Visit(start, []);
    if !ok {
      return Cyclic;
    }
    FinishedSearch(ts, search.order, start);
    if search.visited != keys {
      assert exists k :: k in keys && k !in search.visited;
      return Unreachable;
    }
    return Valid;
  }

  /** Comparing the number of distinct keys with the number of steps tests uniqueness. */
  lemma {:induction false} KeyCount(steps: seq<Step>, n: nat)
    requires n <= |steps|
    ensures |KeysUpTo(steps, n)| <= n
    ensures |KeysUpTo(steps, n)| == n <==> UniqueUpTo(steps, n)
  {
    if n > 0 {
      KeyCount(steps, n - 1);
      KeysMember(steps, n - 1, steps[n - 1].key);
      if steps[n - 1].key in KeysUpTo(steps, n - 1) {
        assert KeysUpTo(steps, n) == KeysUpTo(steps, n - 1);
        assert !UniqueUpTo(steps, n);
      } else {
        assert UniqueUpTo(steps, n) <==> UniqueUpTo(steps, n - 1);
      }
    }
  }

  lemma {:induction false} StartIsKey(steps: seq<Step>)
    requires StartCount(steps) > 0
    ensures StartKey(steps) in Keys(steps)
  {
    StartPosition(steps);
    KeysMember(steps, |steps|, StartKey(steps));
  }

  lemma {:induction false} StartPosition(steps: seq<Step>)
    requires StartCount(steps) > 0
    ensures exists i :: 0 <= i < |steps| && steps[i].isStart && steps[i].key == StartKey(steps)
  {
    if !steps[0].isStart {
      StartPosition(steps[1..]);
      var i :| 0 <= i < |steps[1..]| && steps[1..][i].isStart && steps[1..][i].key == StartKey(steps[1..]);
      assert steps[i + 1].key == StartKey(steps) && steps[i + 1].isStart;
    }
  }
}
