/** The frontier scheduler as a step machine: forward transitions, spawning,
    reaping, and whole runs. Which task finishes or is reaped next, whether its
    node succeeded, and what routers answer are all chosen by the environment. */
module WorkflowStep {
  import opened Options
  import opened WorkflowGraph

  // ------------------------------------------------------------------
  // Forward transition
  // ------------------------------------------------------------------

  /** The AND-join arrival table. A missing key reads as the empty set. */
  type Arrivals = map<Node, set<Node>>

  function Arrived(a: Arrivals, t: Node): set<Node> {
    if t in a then a[t] else {}
  }

  datatype RouterOutcome = Raises | Chooses(key: string)

  /** What the routers answer during one transition, by conditional edge index. */
  type Routing = nat -> RouterOutcome

  datatype Joined = Joined(arrivals: Arrivals, fired: seq<Node>)

  /** Node `n` arrives at one waiting edge: the table resets when the join fires. */
  function Arrive(w: WaitingEdge, n: Node, a: Arrivals): Joined {
    if n !in w.sources then Joined(a, [])
    else
      var got := Arrived(a, w.target) + {n};
      if SourceSet(w) <= got then Joined(a[w.target := {}], [w.target])
      else Joined(a[w.target := got], [])
  }

  function Joins(ws: seq<WaitingEdge>, n: Node, a: Arrivals): Joined {
    if ws == [] then Joined(a, [])
    else
      var before := Joins(ws[..|ws| - 1], n, a);
      var last := Arrive(ws[|ws| - 1], n, before.arrivals);
      Joined(last.arrivals, before.fired + last.fired)
  }

  function StaticHops(edges: seq<Edge>, n: Node): seq<Node> {
    if edges == [] then []
    else
      var e := edges[|edges| - 1];
      StaticHops(edges[..|edges| - 1], n) + if e.source == n then [e.target] else []
  }

  /** The routed hops, or None when a router raises or answers an unmapped key. */
  function RoutedHops(ces: seq<ConditionalEdge>, n: Node, route: Routing): Option<seq<Node>> {
    if ces == [] then Some([])
    else
      var k := |ces| - 1;
      match RoutedHops(ces[..k], n, route)
      case None => None
      case Some(before) =>
        if ces[k].source != n then Some(before)
        else
          match route(k)
          case Raises => None
          case Chooses(key) =>
            if key in ces[k].mapping then Some(before + [ces[k].mapping[key]]) else None
  }

  function FirstLlm(les: seq<LlmEdge>, n: Node): Option<LlmEdge> {
    if les == [] then None
    else
      match FirstLlm(les[..|les| - 1], n)
      case Some(e) => Some(e)
      case None => if les[|les| - 1].source == n then Some(les[|les| - 1]) else None
  }

  datatype Transition =
    | LlmPause(edge: LlmEdge)
    | RouterError
    | Hops(out: seq<Node>, joined: Joined)

  function Successors(g: Graph, n: Node, route: Routing, a: Arrivals): Transition {
    match FirstLlm(g.llm, n)
    case Some(e) => LlmPause(e)
    case None =>
      match RoutedHops(g.conditional, n, route)
      case None => RouterError
      case Some(routed) =>
        var joined := Joins(g.waiting, n, a);
        Hops(routed + StaticHops(g.edges, n) + joined.fired, joined)
  }

  // ------------------------------------------------------------------
  // Driver state
  // ------------------------------------------------------------------

  datatype Phase = Working | Succeeded | Failed

  datatype Task = Task(node: Node, phase: Phase)

  datatype Status =
    | Active
    | Paused(edge: LlmEdge)
    | RecursionError
    | RouterFailure
    | SeedingCrash

  /** One transition taken by the driver. The sequence of calls is a history
      variable: the driver itself keeps only the arrival table. */
  datatype Call = Call(node: Node, fired: seq<Node>)

  datatype State = State(
    completed: set<Node>,
    arrivals: Arrivals,
    running: map<nat, Task>,
    scheduled: set<Node>,
    activations: nat,
    errors: seq<Node>,
    status: Status,
    log: seq<Call>)

  function Start(completed: set<Node>, arrivals: Arrivals): State {
    State(completed, arrivals, map[], {}, 0, [], Active, [])
  }

  /** Leaving the loop early cancels and forgets whatever is still running. */
  function Abort(s: State, why: Status): State {
    s.(running := map[], status := why)
  }

  function Spawn(limit: int, s: State, n: Node): State {
    if n == END || n in s.scheduled then s
    else if s.activations + 1 > limit then
      Abort(s.(activations := s.activations + 1), RecursionError)
    else
      var t := s.activations + 1;
      s.(activations := t, scheduled := s.scheduled + {n}, running := s.running[t := Task(n, Working)])
  }

  function SpawnAll(limit: int, s: State, ns: seq<Node>): State {
    if ns == [] then s
    else
      var before := SpawnAll(limit, s, ns[..|ns| - 1]);
      if before.status.Active? then Spawn(limit, before, ns[|ns| - 1]) else before
  }

  /** `n` counts as just finished: follow its edges and spawn the hops. An LLM edge
      pauses the run, but only after a reap: while seeding, nobody records the edge
      before the pause is announced, and announcing it fails. */
  function Advance(g: Graph, s: State, n: Node, route: Routing, seeding: bool): State {
    match Successors(g, n, route, s.arrivals)
    case LlmPause(e) => Abort(s, if seeding then SeedingCrash else Paused(e))
    case RouterError => Abort(s, RouterFailure)
    case Hops(out, joined) =>
      SpawnAll(g.recursionLimit, s.(arrivals := joined.arrivals, log := s.log + [Call(n, joined.fired)]), out)
  }

  /** Skipped nodes are advanced without running them. */
  function SeedSkipped(g: Graph, s: State, skipped: seq<Node>, routes: nat -> Routing): State {
    if skipped == [] then s
    else
      var k := |skipped| - 1;
      var before := SeedSkipped(g, s, skipped[..k], routes);
      if before.status.Active? then Advance(g, before, skipped[k], routes(k), true) else before
  }

  /** Everything the driver does before its first wait. */
  function Seed(g: Graph, s: State, skipped: seq<Node>, execute: seq<Node>, routes: nat -> Routing): State {
    var before := SeedSkipped(g, s, skipped, routes);
    if before.status.Active? then SpawnAll(g.recursionLimit, before, execute) else before
  }

  // ------------------------------------------------------------------
  // Steps and runs
  // ------------------------------------------------------------------

  /** A node finishing and the driver noticing it are separate steps: a finished
      task stays in flight until it is reaped. */
  datatype Action =
    | Finish(task: nat, ok: bool)
    | Reap(task: nat, route: Routing)

  predicate Enabled(s: State, a: Action) {
    && s.status.Active?
    && a.task in s.running
    && (a.Finish? <==> s.running[a.task].phase.Working?)
  }

  function FinishTask(s: State, t: nat, ok: bool): State
    requires t in s.running
  {
    var n := s.running[t].node;
    s.(running := s.running[t := Task(n, if ok then Succeeded else Failed)],
       completed := if ok then s.completed + {n} else s.completed)
  }

  function ReapTask(g: Graph, s: State, t: nat, route: Routing): State
    requires t in s.running
  {
    var task := s.running[t];
    var s1 := s.(running := s.running - {t}, scheduled := s.scheduled - {task.node});
    if task.phase.Failed? then s1.(errors := s.errors + [task.node])
    else Advance(g, s1, task.node, route, false)
  }

  function Step(g: Graph, s: State, a: Action): State
    requires Enabled(s, a)
  {
    match a
    case Finish(t, ok) => FinishTask(s, t, ok)
    case Reap(t, route) => ReapTask(g, s, t, route)
  }

  /** `acts` can be performed one after the other from `s`. */
  ghost predicate Legal(g: Graph, s: State, acts: seq<Action>)
    decreases |acts|, 0
  {
    acts == [] ||
    (Legal(g, s, acts[..|acts| - 1]) && Enabled(Exec(g, s, acts[..|acts| - 1]), acts[|acts| - 1]))
  }

  ghost function Exec(g: Graph, s: State, acts: seq<Action>): State
    requires Legal(g, s, acts)
    decreases |acts|, 1
  {
    if acts == [] then s
    else Step(g, Exec(g, s, acts[..|acts| - 1]), acts[|acts| - 1])
  }

  /** The loop ended normally: nothing in flight and no early exit. */
  predicate Drained(s: State) {
    s.status.Active? && s.running == map[]
  }

  lemma {:induction false} SpawnAllStatus(limit: int, s: State, ns: seq<Node>)
    ensures SpawnAll(limit, s, ns).status == s.status || SpawnAll(limit, s, ns).status.RecursionError?
  {
    if ns == [] {
    } else {
      SpawnAllStatus(limit, s, ns[..|ns| - 1]);
    }
  }

  // ------------------------------------------------------------------
  // In-flight bookkeeping and termination
  // ------------------------------------------------------------------

  function Max0(x: int): nat {
    if x < 0 then 0 else x
  }

  function WorkingTasks(running: map<nat, Task>): set<nat> {
    set t | t in running && running[t].phase.Working?
  }

  function Names(running: map<nat, Task>): set<Node> {
    set t | t in running :: running[t].node
  }

  /** `scheduled` is exactly the names in flight, no name is in flight twice, END
      never is, and task numbers are those already handed out. */
  ghost predicate Tracks(running: map<nat, Task>, scheduled: set<Node>, created: nat) {
    && scheduled == Names(running)
    && END !in scheduled
    && (forall t | t in running :: 1 <= t <= created)
    && (forall t, u | t in running && u in running && t != u :: running[t].node != running[u].node)
  }

  ghost predicate InFlightOk(limit: int, s: State) {
    s.activations <= Max0(limit) && Tracks(s.running, s.scheduled, s.activations)
  }

  /** At most `limit` tasks are ever created; exactly the attempt beyond it aborts. */
  ghost predicate Bounded(limit: int, s: State) {
    && (if s.status.Active? then InFlightOk(limit, s) else s.running == map[] && s.activations <= Max0(limit) + 1)
    && (s.status.RecursionError? <==> s.activations == Max0(limit) + 1)
  }

  /** The finishes and reaps still owed by the tasks in flight. */
  ghost function Owed(running: map<nat, Task>): nat {
    |running.Keys| + |WorkingTasks(running)|
  }

  /** Every started task still owes a finish and a reap, every unused activation both. */
  ghost function Fuel(limit: int, s: State): int {
    if s.status.Active? then
      2 * (Max0(limit) - s.activations) + Owed(s.running)
    else 0
  }

  lemma NamesAdd(running: map<nat, Task>, t: nat, task: Task)
    requires t !in running
    ensures Names(running[t := task]) == Names(running) + {task.node}
  {
    var running' := running[t := task];
    assert running'[t] == task;
    forall u | u in running ensures running[u].node in Names(running') {
      assert running'[u] == running[u];
    }
  }

  lemma CountsAdd(running: map<nat, Task>, t: nat, n: Node)
    requires t !in running
    ensures Owed(running[t := Task(n, Working)]) == Owed(running) + 2
  {
    var running' := running[t := Task(n, Working)];
    var keys, working := running.Keys, WorkingTasks(running);
    assert t !in keys && t !in working;
    assert running'.Keys == keys + {t};
    assert WorkingTasks(running') == working + {t} by {
      forall u ensures u in WorkingTasks(running') <==> u in working + {t} {
        assert u in running ==> u == t || running'[u] == running[u];
      }
    }
    assert |keys + {t}| == |keys| + 1;
    assert |working + {t}| == |working| + 1;
  }

  lemma TracksAdd(running: map<nat, Task>, scheduled: set<Node>, created: nat, n: Node)
    requires Tracks(running, scheduled, created)
    requires n != END && n !in scheduled
    ensures Tracks(running[created + 1 := Task(n, Working)], scheduled + {n}, created + 1)
  {
    var running' := running[created + 1 := Task(n, Working)];
    NamesAdd(running, created + 1, Task(n, Working));
    forall t, u | t in running' && u in running' && t != u ensures running'[t].node != running'[u].node {
      assert t in running ==> running[t].node in scheduled;
      assert u in running ==> running[u].node in scheduled;
    }
  }

  lemma SpawnKeeps(limit: int, s: State, n: Node)
    requires s.status.Active? && Bounded(limit, s)
    ensures Bounded(limit, Spawn(limit, s, n))
    ensures 0 <= Fuel(limit, Spawn(limit, s, n)) <= Fuel(limit, s)
  {
    var s' := Spawn(limit, s, n);
    if n == END || n in s.scheduled {
      assert s' == s;
    } else if s.activations + 1 > limit {
      assert !s'.status.Active? && s'.running == map[];
    } else {
      SpawnedOne(s.running, s'.running, s.scheduled, s.activations, n);
    }
  }

  /** Below the limit a node that is not in flight is started, and nothing aborts. */
  lemma SpawnStarts(limit: int, s: State, n: Node)
    requires s.status.Active? && s.activations < limit && n != END && n !in s.scheduled
    ensures var s' := Spawn(limit, s, n);
            && s'.status.Active? && s'.activations == s.activations + 1 && s'.scheduled == s.scheduled + {n}
            && exists t :: t in s'.running && s'.running[t] == Task(n, Working)
  {
    var s' := Spawn(limit, s, n);
    assert s'.running[s.activations + 1] == Task(n, Working);
  }

  lemma SpawnedOne(running: map<nat, Task>, running': map<nat, Task>, scheduled: set<Node>, created: nat, n: Node)
    requires Tracks(running, scheduled, created)
    requires n != END && n !in scheduled
    requires running' == running[created + 1 := Task(n, Working)]
    ensures Tracks(running', scheduled + {n}, created + 1)
    ensures Owed(running') == Owed(running) + 2
  {
    TracksAdd(running, scheduled, created, n);
    CountsAdd(running, created + 1, n);
  }

  lemma {:induction false} SpawnAllKeeps(limit: int, s: State, ns: seq<Node>)
    requires s.status.Active? && Bounded(limit, s)
    ensures Bounded(limit, SpawnAll(limit, s, ns))
    ensures 0 <= Fuel(limit, SpawnAll(limit, s, ns)) <= Fuel(limit, s)
  {
    if ns == [] {
    } else {
      SpawnAllKeeps(limit, s, ns[..|ns| - 1]);
      var before := SpawnAll(limit, s, ns[..|ns| - 1]);
      if before.status.Active? {
        SpawnKeeps(limit, before, ns[|ns| - 1]);
      }
    }
  }

  lemma AdvanceKeeps(g: Graph, s: State, n: Node, route: Routing, seeding: bool)
    requires s.status.Active? && Bounded(g.recursionLimit, s)
    ensures Bounded(g.recursionLimit, Advance(g, s, n, route, seeding))
    ensures 0 <= Fuel(g.recursionLimit, Advance(g, s, n, route, seeding)) <= Fuel(g.recursionLimit, s)
  {
    match Successors(g, n, route, s.arrivals) {
      case LlmPause(e) =>
      case RouterError =>
      case Hops(out, joined) =>
        SpawnAllKeeps(g.recursionLimit,
                      s.(arrivals := joined.arrivals, log := s.log + [Call(n, joined.fired)]), out);
    }
  }

  lemma {:induction false} SeedSkippedKeeps(g: Graph, s: State, skipped: seq<Node>, routes: nat -> Routing)
    requires s.status.Active? && Bounded(g.recursionLimit, s)
    ensures Bounded(g.recursionLimit, SeedSkipped(g, s, skipped, routes))
    ensures 0 <= Fuel(g.recursionLimit, SeedSkipped(g, s, skipped, routes)) <= Fuel(g.recursionLimit, s)
  {
    if skipped == [] {
    } else {
      var k := |skipped| - 1;
      SeedSkippedKeeps(g, s, skipped[..k], routes);
      var before := SeedSkipped(g, s, skipped[..k], routes);
      if before.status.Active? {
        AdvanceKeeps(g, before, skipped[k], routes(k), true);
      }
    }
  }

  lemma SeedBounded(g: Graph, completed: set<Node>, arrivals: Arrivals, skipped: seq<Node>, execute: seq<Node>,
                    routes: nat -> Routing)
    ensures Bounded(g.recursionLimit, Seed(g, Start(completed, arrivals), skipped, execute, routes))
    ensures var s := Seed(g, Start(completed, arrivals), skipped, execute, routes);
            0 <= Fuel(g.recursionLimit, s) <= 2 * Max0(g.recursionLimit)
  {
    var s0 := Start(completed, arrivals);
    SeedSkippedKeeps(g, s0, skipped, routes);
    var before := SeedSkipped(g, s0, skipped, routes);
    if before.status.Active? {
      SpawnAllKeeps(g.recursionLimit, before, execute);
    }
  }

  lemma TracksFinish(running: map<nat, Task>, scheduled: set<Node>, created: nat, t: nat, phase: Phase)
    requires Tracks(running, scheduled, created)
    requires t in running && running[t].phase.Working? && !phase.Working?
    ensures var running' := running[t := Task(running[t].node, phase)];
            && Tracks(running', scheduled, created)
            && Owed(running') == Owed(running) - 1
  {
    var running' := running[t := Task(running[t].node, phase)];
    assert running'.Keys == running.Keys;
    assert WorkingTasks(running') == WorkingTasks(running) - {t};
    assert forall u | u in running :: running'[u].node == running[u].node;
    assert Names(running') == Names(running);
  }

  lemma TracksDrop(running: map<nat, Task>, scheduled: set<Node>, created: nat, t: nat)
    requires Tracks(running, scheduled, created)
    requires t in running && !running[t].phase.Working?
    ensures var running' := running - {t};
            && Tracks(running', scheduled - {running[t].node}, created)
            && Owed(running') == Owed(running) - 1
  {
    var running' := running - {t};
    assert running'.Keys == running.Keys - {t};
    assert WorkingTasks(running') == WorkingTasks(running);
    forall m ensures m in Names(running') <==> m in scheduled - {running[t].node} {
      if m in scheduled - {running[t].node} {
        var u :| u in running && running[u].node == m;
        assert running'[u].node == m;
      }
    }
  }

  lemma FinishKeeps(limit: int, s: State, t: nat, ok: bool)
    requires s.status.Active? && Bounded(limit, s)
    requires t in s.running && s.running[t].phase.Working?
    ensures Bounded(limit, FinishTask(s, t, ok))
    ensures 0 <= Fuel(limit, FinishTask(s, t, ok)) < Fuel(limit, s)
  {
    TracksFinish(s.running, s.scheduled, s.activations, t, if ok then Succeeded else Failed);
  }

  lemma ReapKeeps(g: Graph, s: State, t: nat, route: Routing)
    requires s.status.Active? && Bounded(g.recursionLimit, s)
    requires t in s.running && !s.running[t].phase.Working?
    ensures Bounded(g.recursionLimit, ReapTask(g, s, t, route))
    ensures 0 <= Fuel(g.recursionLimit, ReapTask(g, s, t, route)) < Fuel(g.recursionLimit, s)
  {
    TracksDrop(s.running, s.scheduled, s.activations, t);
    var task := s.running[t];
    var s1 := s.(running := s.running - {t}, scheduled := s.scheduled - {task.node});
    assert Fuel(g.recursionLimit, s1) == Fuel(g.recursionLimit, s) - 1;
    if !task.phase.Failed? {
      AdvanceKeeps(g, s1, task.node, route, false);
    }
  }

  lemma StepKeeps(g: Graph, s: State, a: Action)
    requires Bounded(g.recursionLimit, s) && Enabled(s, a)
    ensures Bounded(g.recursionLimit, Step(g, s, a))
    ensures 0 <= Fuel(g.recursionLimit, Step(g, s, a)) < Fuel(g.recursionLimit, s)
  {
    match a {
      case Finish(t, ok) => FinishKeeps(g.recursionLimit, s, t, ok);
      case Reap(t, route) => ReapKeeps(g, s, t, route);
    }
  }

  /** Termination over whole runs: whatever the environment does, a driver that
      starts from `s` takes at most Fuel(s) steps, and bookkeeping stays exact. */
  lemma {:induction false} RunsAreBounded(g: Graph, s: State, acts: seq<Action>)
    requires Bounded(g.recursionLimit, s) && 0 <= Fuel(g.recursionLimit, s)
    requires Legal(g, s, acts)
    ensures Bounded(g.recursionLimit, Exec(g, s, acts))
    ensures |acts| + Fuel(g.recursionLimit, Exec(g, s, acts)) <= Fuel(g.recursionLimit, s)
    ensures 0 <= Fuel(g.recursionLimit, Exec(g, s, acts))
    decreases |acts|
  {
    if acts == [] {
    } else {
      var init := acts[..|acts| - 1];
      RunsAreBounded(g, s, init);
      StepKeeps(g, Exec(g, s, init), acts[|acts| - 1]);
    }
  }

  /** The driver's termination guarantee: at most `recursion_limit` tasks, so at
      most two steps per allowed activation, with exact in-flight bookkeeping. */
  lemma DriverTerminates(g: Graph, completed: set<Node>, arrivals: Arrivals, skipped: seq<Node>,
                         execute: seq<Node>, routes: nat -> Routing, acts: seq<Action>)
    requires Legal(g, Seed(g, Start(completed, arrivals), skipped, execute, routes), acts)
    ensures |acts| <= 2 * Max0(g.recursionLimit)
    ensures Bounded(g.recursionLimit, Exec(g, Seed(g, Start(completed, arrivals), skipped, execute, routes), acts))
  {
    SeedBounded(g, completed, arrivals, skipped, execute, routes);
    RunsAreBounded(g, Seed(g, Start(completed, arrivals), skipped, execute, routes), acts);
  }

  /** Short of draining or aborting, some step is always possible. */
  lemma NeverStuck(s: State)
    requires s.status.Active? && s.running != map[]
    ensures exists a :: Enabled(s, a)
  {
    var t :| t in s.running;
    if s.running[t].phase.Working? {
      assert Enabled(s, Finish(t, true));
    } else {
      var route: Routing := k => Raises;
      assert Enabled(s, Reap(t, route));
    }
  }
}
