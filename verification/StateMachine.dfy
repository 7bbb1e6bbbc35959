/** The generic state machine and its reachability search. */
module StateMachines {
  import opened Basics
  import opened Status
  import opened Strings

  datatype StateMachine = StateMachine(states: map<string, set<string>>) {
    predicate Allows(source: string, target: string) {
      source in states && target in states[source]
    }

    /** Consecutive states joined by edges; a single state is a path of no edges. */
    predicate Walk(path: seq<string>) {
      path != [] && forall i :: 1 <= i < |path| ==> Allows(path[i - 1], path[i])
    }

    predicate ValidPath(path: seq<string>) {
      |path| >= 2 && Walk(path)
    }

    ghost predicate Connects(path: seq<string>, start: string, state: string) {
      Walk(path) && path[0] == start && path[|path| - 1] == state
    }
  }

  function Targets(destinations: seq<string>): set<string> {
    set x | x in destinations
  }

  function Graph(edges: map<string, seq<string>>): map<string, set<string>> {
    map source | source in edges :: Targets(edges[source])
  }

  method NewStateMachine(edges: map<string, seq<string>>) returns (m: StateMachine)
    ensures m == StateMachine(Graph(edges))
  {
    var graph: map<string, set<string>> := map[];
    var todo := edges.Keys;
    while todo != {}
      invariant todo <= edges.Keys
      invariant graph == map source | source in edges && source !in todo :: Targets(edges[source])
      decreases |todo|
    {
      var source :| source in todo;
      var targets: set<string> := {};
      for i := 0 to |edges[source]|
        invariant targets == Targets(edges[source][..i])
      {
        assert edges[source][..i + 1] == edges[source][..i] + [edges[source][i]];
        targets := targets + {edges[source][i]};
      }
      assert edges[source][..|edges[source]|] == edges[source];
      graph := graph[source := targets];
      todo := todo - {source};
    }
    m := StateMachine(graph);
  }

  method ValidatePath(m: StateMachine, path: seq<string>) returns (o: Outcome)
    ensures o == if m.ValidPath(path) then Pass else Fail(InvalidTransition)
  {
    if |path| < 2 {
      return Fail(InvalidTransition);
    }
    for i := 1 to |path|
      invariant m.Walk(path[..i])
    {
      if !m.Allows(path[i - 1], path[i]) {
        return Fail(InvalidTransition);
      }
    }
    assert path[..|path|] == path;
    return Pass;
  }

  // ---------- reachability ----------

  /** Some path, possibly of no edges, leads from start to the state. */
  ghost predicate Reaches(m: StateMachine, start: string, state: string) {
    exists path :: m.Connects(path, start, state)
  }

  lemma ReachesSelf(m: StateMachine, start: string)
    ensures Reaches(m, start, start)
  {
    assert m.Connects([start], start, start);
  }

  lemma ReachesStep(m: StateMachine, start: string, state: string, next: string)
    requires Reaches(m, start, state) && m.Allows(state, next)
    ensures Reaches(m, start, next)
  {
    var path :| m.Connects(path, start, state);
    assert m.Connects(path + [next], start, next);
  }

  /** The start itself, or the end of a path from it that ValidatePath accepts. */
  ghost predicate ReachedBy(m: StateMachine, start: string, state: string) {
    state == start || exists path :: m.ValidPath(path) && m.Connects(path, start, state)
  }

  /** Apart from the start itself, what is reached is what ends a path that ValidatePath accepts. */
  lemma ReachesByValidPath(m: StateMachine, start: string, state: string)
    ensures Reaches(m, start, state) <==>
              ReachedBy(m, start, state)
  {
    ReachesSelf(m, start);
    if Reaches(m, start, state) && state != start {
      var path :| m.Connects(path, start, state);
      assert m.ValidPath(path);
    }
  }

  /** A set closed under edges contains everything its members connect to. */
  lemma {:induction false} ClosedContains(
    m: StateMachine, closed: set<string>, path: seq<string>, start: string, state: string)
    requires start in closed
    requires forall x, y :: x in closed && m.Allows(x, y) ==> y in closed
    requires m.Connects(path, start, state)
    ensures state in closed
    decreases |path|
  {
    if |path| > 1 {
      ClosedContains(m, closed, path[..|path| - 1], start, path[|path| - 2]);
    }
  }

  ghost function Universe(m: StateMachine, start: string): set<string> {
    {start} + set x, y | x in m.states && y in m.states[x] :: y
  }

  /** Visits the successors of one state in any order, as ranging over a map does. */
  method Visit(m: StateMachine, current: string, visited0: set<string>, queue0: seq<string>)
    returns (visited: set<string>, queue: seq<string>)
    ensures visited == visited0 + (if current in m.states then m.states[current] else {})
    ensures queue0 <= queue
    ensures |queue| - |queue0| == |visited| - |visited0|
    ensures forall i :: |queue0| <= i < |queue| ==> queue[i] in visited && queue[i] !in visited0
    ensures forall x :: x in visited && x !in visited0 ==> x in queue
  {
    visited, queue := visited0, queue0;
    var todo := if current in m.states then m.states[current] else {};
    ghost var all := todo;
    while todo != {}
      invariant todo <= all && visited == visited0 + (all - todo)
      invariant queue0 <= queue
      invariant |queue| - |queue0| == |visited| - |visited0|
      invariant forall i :: |queue0| <= i < |queue| ==> queue[i] in visited && queue[i] !in visited0
      invariant forall x :: x in visited && x !in visited0 ==> x in queue
      decreases |todo|
    {
      var next :| next in todo;
      if next !in visited {
        visited := visited + {next};
        queue := queue + [next];
      }
      todo := todo - {next};
    }
  }

  ghost predicate Frontier(m: StateMachine, visited: set<string>, queue: seq<string>) {
    && (forall x :: x in queue ==> x in visited)
    && (forall x, y :: x in visited && x !in queue && m.Allows(x, y) ==> y in visited)
  }

  lemma VisitKeeps(m: StateMachine, seen: set<string>, before: seq<string>, visited: set<string>, queue: seq<string>)
    requires before != [] && Frontier(m, seen, before)
    requires visited == seen + (if before[0] in m.states then m.states[before[0]] else {})
    requires before[1..] <= queue
    requires forall i :: |before| - 1 <= i < |queue| ==> queue[i] in visited
    requires forall x :: x in visited && x !in seen ==> x in queue
    ensures Frontier(m, visited, queue)
  {
    forall x | x in queue ensures x in visited {
      var i :| 0 <= i < |queue| && queue[i] == x;
      if i < |before| - 1 { assert x == before[1..][i] == before[i + 1]; }
    }
    forall x | x in before[1..] ensures x in queue {
      var i :| 0 <= i < |before[1..]| && before[1..][i] == x;
      assert queue[i] == x;
    }
    assert forall x :: x in before <==> x == before[0] || x in before[1..];
  }

  lemma VisitReaches(m: StateMachine, start: string, current: string, seen: set<string>, visited: set<string>)
    requires forall x :: x in seen ==> Reaches(m, start, x)
    requires current in seen && visited == seen + (if current in m.states then m.states[current] else {})
    ensures forall x :: x in visited ==> Reaches(m, start, x)
  {
    forall x | x in visited && x !in seen ensures Reaches(m, start, x) { ReachesStep(m, start, current, x); }
  }

  /** Start, and every state some path leads to: sorted, without repeats, and nothing else. */
  method Reachable(m: StateMachine, start: string) returns (result: seq<string>)
    ensures StrictlySorted(result)
    ensures forall state :: state in result <==> ReachedBy(m, start, state)
  {
    var visited := {start};
    var queue := [start];
    ReachesSelf(m, start);
    while queue != []
      invariant start in visited && visited <= Universe(m, start)
      invariant Frontier(m, visited, queue)
      invariant forall x :: x in visited ==> Reaches(m, start, x)
      decreases |Universe(m, start) - visited|, |queue|
    {
      var current := queue[0];
      ghost var before, seen := queue, visited;
      visited, queue := Visit(m, current, visited, queue[1..]);
      VisitKeeps(m, seen, before, visited, queue);
      VisitReaches(m, start, current, seen, visited);
      Shrinks(Universe(m, start), seen, visited);
    }
    result := SortedListing(visited);
    ReachedExactly(m, start, visited);
  }

  lemma ReachedExactly(m: StateMachine, start: string, visited: set<string>)
    requires start in visited && Frontier(m, visited, [])
    requires forall x :: x in visited ==> Reaches(m, start, x)
    ensures forall state :: state in visited <==> ReachedBy(m, start, state)
  {
    forall state
      ensures state in visited <==> ReachedBy(m, start, state)
    {
      ReachesByValidPath(m, start, state);
      if Reaches(m, start, state) {
        var path :| m.Connects(path, start, state);
        ClosedContains(m, visited, path, start, state);
      }
    }
  }

  lemma Shrinks(universe: set<string>, seen: set<string>, visited: set<string>)
    requires seen <= visited <= universe
    ensures visited != seen ==> |universe - visited| < |universe - seen|
  {
    if visited != seen {
      assert universe - seen == (universe - visited) + (visited - seen);
    }
  }

  /** Whatever order the maps are visited in, two searches return the same listing. */
  lemma ReachableUnique(m: StateMachine, start: string, a: seq<string>, b: seq<string>)
    requires StrictlySorted(a) && StrictlySorted(b)
    requires forall state :: state in a <==> ReachedBy(m, start, state)
    requires forall state :: state in b <==> ReachedBy(m, start, state)
    ensures a == b
  {
    forall state ensures state in a <==> state in b {}
    ListingUnique(a, b);
  }

  // ---------- the default machines ----------

  const MISSION_EDGES: map<string, seq<string>> :=
    map["draft" := ["scheduled"], "scheduled" := ["active", "closed"], "active" := ["closed"]]

  const TASK_EDGES: map<string, seq<string>> :=
    map["queued" := ["completed"], "completed" := ["device_transfer_pending"],
        "device_transfer_pending" := ["accepted"], "accepted" := ["in_progress"],
        "in_progress" := ["verified", "rejected"], "verified" := ["archived"], "rejected" := ["archived"]]

  const BATCH_EDGES: map<string, seq<string>> :=
    map["queued" := ["running", "cancelled"], "running" := ["completed", "cancelled"]]

  /** For all strings, an edge of the default mission machine is a move of the mission status, and conversely. */
  lemma MissionMachineExact(source: string, target: string)
    ensures StateMachine(Graph(MISSION_EDGES)).Allows(source, target)
       <==> exists a: MissionStatus, b: MissionStatus :: a.Name() == source && b.Name() == target && a.CanMoveTo(b)
  {
    var m := StateMachine(Graph(MISSION_EDGES));
    if m.Allows(source, target) {
      var a := if source == "draft" then MissionStatus.Draft
               else if source == "scheduled" then MissionStatus.Scheduled else MissionStatus.Active;
      var b := if target == "scheduled" then MissionStatus.Scheduled
               else if target == "active" then MissionStatus.Active else MissionStatus.Closed;
      assert a.Name() == source && b.Name() == target && a.CanMoveTo(b);
    }
  }

  function TaskStatusOf(name: string): TaskStatus {
    if name == "queued" then TaskStatus.Queued else if name == "completed" then TaskStatus.Completed
    else if name == "device_transfer_pending" then TaskStatus.TransferPending
    else if name == "accepted" then TaskStatus.Accepted
    else if name == "in_progress" then TaskStatus.InProgress else if name == "verified" then TaskStatus.Verified
    else if name == "rejected" then TaskStatus.Rejected else TaskStatus.Archived
  }

  lemma TaskMachineExact(source: string, target: string)
    ensures StateMachine(Graph(TASK_EDGES)).Allows(source, target)
       <==> exists a: TaskStatus, b: TaskStatus :: a.Name() == source && b.Name() == target && a.CanMoveTo(b)
  {
    var m := StateMachine(Graph(TASK_EDGES));
    if m.Allows(source, target) {
      var a, b := TaskStatusOf(source), TaskStatusOf(target);
      assert a.Name() == source && b.Name() == target && a.CanMoveTo(b);
    }
  }

  lemma BatchMachineExact(source: string, target: string)
    ensures StateMachine(Graph(BATCH_EDGES)).Allows(source, target)
       <==> exists a: BatchStatus, b: BatchStatus :: a.Name() == source && b.Name() == target && a.CanMoveTo(b)
  {
    var m := StateMachine(Graph(BATCH_EDGES));
    if m.Allows(source, target) {
      var a := if source == "queued" then BatchStatus.Queued else BatchStatus.Running;
      var b := if target == "running" then BatchStatus.Running
               else if target == "completed" then BatchStatus.Completed else BatchStatus.Cancelled;
      assert a.Name() == source && b.Name() == target && a.CanMoveTo(b);
    }
  }
}
