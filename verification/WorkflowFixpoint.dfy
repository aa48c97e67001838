/** What a fresh run computes. A run that drains without error completes exactly
    the least set closed under the graph's rules, whatever order tasks finish
    in, and the stall report read off the arrival table is the history-free one. */
module WorkflowFixpoint {
  import opened WorkflowGraph
  import opened WorkflowStep
  import opened WorkflowHistory

  /** `closed` contains the entry nodes, follows static edges, and contains a
      join target once it has sources and all of them are in. */
  ghost predicate Closed(g: Graph, entry: seq<Node>, closed: set<Node>) {
    && (forall n | n in entry && n != END :: n in closed)
    && (forall e | e in g.edges && e.source in closed && e.target != END :: e.target in closed)
    && (forall w | w in g.waiting && w.sources != [] && SourceSet(w) <= closed && w.target != END :: w.target in closed)
  }

  ghost predicate LeastClosed(g: Graph, entry: seq<Node>, nodes: set<Node>) {
    && Closed(g, entry, nodes)
    && (forall other: set<Node> | Closed(g, entry, other) :: nodes <= other)
  }

  function Mentioned(g: Graph, entry: seq<Node>): set<Node> {
    (set n | n in entry) + (set e | e in g.edges :: e.target) + (set w | w in g.waiting :: w.target)
  }

  /** The least closed set, which the declaration alone determines. */
  ghost function Least(g: Graph, entry: seq<Node>): set<Node> {
    set n | n in Mentioned(g, entry) && forall other: set<Node> | Closed(g, entry, other) :: n in other
  }

  lemma LeastIsLeast(g: Graph, entry: seq<Node>, nodes: set<Node>)
    ensures LeastClosed(g, entry, Least(g, entry))
    ensures LeastClosed(g, entry, nodes) ==> nodes == Least(g, entry)
  {
    var least := Least(g, entry);
    forall w | w in g.waiting && w.sources != [] && SourceSet(w) <= least && w.target != END ensures w.target in least {
      forall other: set<Node> | Closed(g, entry, other) ensures w.target in other {
        assert SourceSet(w) <= other;
      }
    }
    forall e | e in g.edges && e.source in least && e.target != END ensures e.target in least {
      forall other: set<Node> | Closed(g, entry, other) ensures e.target in other {
        assert e.source in other;
      }
    }
    forall n | n in entry && n != END ensures n in least {
      assert n in Mentioned(g, entry);
      forall other: set<Node> | Closed(g, entry, other) ensures n in other {}
    }
    assert Closed(g, entry, least);
    if LeastClosed(g, entry, nodes) {
      assert nodes <= least;
      forall n | n in least ensures n in nodes {}
    }
  }

  /** The state before the first wait of a fresh run. */
  function Fresh(g: Graph, entry: seq<Node>): State {
    SpawnAll(g.recursionLimit, Start({}, map[]), entry)
  }

  lemma FreshIsSeed(g: Graph, entry: seq<Node>)
    ensures Fresh(g, entry) == Seed(g, Start({}, map[]), [], entry, k => (j => Raises))
  {
  }

  // ------------------------------------------------------------------
  // Completeness: whatever was triggered is settled or in flight
  // ------------------------------------------------------------------

  function Reached(s: State): set<Node> {
    Settled(s.log) + s.scheduled
  }

  /** Entry nodes, targets of settled nodes' static edges, and targets of fired
      joins have all been settled or are in flight. */
  ghost predicate Served(g: Graph, execute: seq<Node>, s: State) {
    && (forall n | n in execute && n != END :: n in Reached(s))
    && (forall e | e in g.edges && e.source in Settled(s.log) && e.target != END :: e.target in Reached(s))
    && (forall c, t | c in s.log && t in c.fired && t != END :: t in Reached(s))
  }

  lemma {:induction false} SpawnAllSchedules(limit: int, s: State, ns: seq<Node>)
    requires s.status.Active? && SpawnAll(limit, s, ns).status.Active?
    ensures SpawnAll(limit, s, ns).scheduled == s.scheduled + (set n | n in ns && n != END)
  {
    if ns == [] {
    } else {
      var init, n := ns[..|ns| - 1], ns[|ns| - 1];
      assert ns == init + [n];
      SpawnAllSchedules(limit, s, init);
    }
  }

  lemma {:induction false} StaticHopsExact(edges: seq<Edge>, n: Node, m: Node)
    ensures m in StaticHops(edges, n) <==> Edge(n, m) in edges
  {
    if edges == [] {
    } else {
      var k := |edges| - 1;
      assert edges == edges[..k] + [edges[k]];
      StaticHopsExact(edges[..k], n, m);
    }
  }

  /** The hops of one transition all end up in flight. */
  lemma AdvanceReaches(g: Graph, s: State, n: Node, route: Routing, seeding: bool)
    requires s.status.Active? && Advance(g, s, n, route, seeding).status.Active?
    ensures Successors(g, n, route, s.arrivals).Hops?
    ensures var h, s' := Successors(g, n, route, s.arrivals), Advance(g, s, n, route, seeding);
            && s'.log == s.log + [Call(n, h.joined.fired)]
            && s'.arrivals == h.joined.arrivals && s'.completed == s.completed && s'.errors == s.errors
            && s'.scheduled == s.scheduled + (set m | m in h.out && m != END)
  {
    var h := Successors(g, n, route, s.arrivals);
    var s1 := s.(arrivals := h.joined.arrivals, log := s.log + [Call(n, h.joined.fired)]);
    SpawnAllFrame(g.recursionLimit, s1, h.out);
    SpawnAllSchedules(g.recursionLimit, s1, h.out);
  }

  lemma AdvanceServes(g: Graph, execute: seq<Node>, s: State, s1: State, n: Node, route: Routing, seeding: bool)
    requires Served(g, execute, s)
    requires s1.status.Active? && s1.log == s.log && s.scheduled <= s1.scheduled + {n}
    requires Advance(g, s1, n, route, seeding).status.Active?
    ensures Served(g, execute, Advance(g, s1, n, route, seeding))
  {
    var s' := Advance(g, s1, n, route, seeding);
    AdvanceReaches(g, s1, n, route, seeding);
    var h := Successors(g, n, route, s1.arrivals);
    var call := Call(n, h.joined.fired);
    SettledAppend(s.log, call);
    assert Reached(s) <= Reached(s');
    forall e | e in g.edges && e.source in Settled(s'.log) && e.target != END ensures e.target in Reached(s') {
      if e.source == n {
        StaticHopsExact(g.edges, n, e.target);
        assert e == Edge(n, e.target);
        assert e.target in h.out;
      }
    }
    forall c, t | c in s'.log && t in c.fired && t != END ensures t in Reached(s') {
      if c in s.log {
      } else {
        assert t in h.out;
      }
    }
  }

  lemma StepServes(g: Graph, execute: seq<Node>, s: State, a: Action)
    requires Enabled(s, a) && Served(g, execute, s)
    requires Step(g, s, a).status.Active? && Step(g, s, a).errors == []
    ensures Served(g, execute, Step(g, s, a))
  {
    match a {
      case Finish(t, ok) =>
        assert Reached(Step(g, s, a)) == Reached(s);
      case Reap(t, route) =>
        var task := s.running[t];
        var s1 := s.(running := s.running - {t}, scheduled := s.scheduled - {task.node});
        if !task.phase.Failed? {
          AdvanceServes(g, execute, s, s1, task.node, route, false);
        }
    }
  }

  /** Errors and early exits are never taken back. */
  lemma StepMonotone(g: Graph, s: State, a: Action)
    requires Enabled(s, a)
    ensures s.errors <= Step(g, s, a).errors
  {
    match a {
      case Finish(t, ok) =>
      case Reap(t, route) =>
        var task := s.running[t];
        var s1 := s.(running := s.running - {t}, scheduled := s.scheduled - {task.node});
        match Successors(g, task.node, route, s1.arrivals) {
          case LlmPause(e) =>
          case RouterError =>
          case Hops(out, joined) =>
            SpawnAllFrame(g.recursionLimit,
                          s1.(arrivals := joined.arrivals, log := s1.log + [Call(task.node, joined.fired)]), out);
        }
    }
  }

  lemma {:induction false} RunServes(g: Graph, execute: seq<Node>, s: State, acts: seq<Action>)
    requires Legal(g, s, acts) && (s.status.Active? && s.errors == [] ==> Served(g, execute, s))
    requires Exec(g, s, acts).status.Active? && Exec(g, s, acts).errors == []
    ensures Served(g, execute, Exec(g, s, acts))
    decreases |acts|
  {
    if acts == [] {
    } else {
      var init, a := acts[..|acts| - 1], acts[|acts| - 1];
      StepMonotone(g, Exec(g, s, init), a);
      RunServes(g, execute, s, init);
      StepServes(g, execute, Exec(g, s, init), a);
    }
  }

  // ------------------------------------------------------------------
  // `completed` against the history
  // ------------------------------------------------------------------

  function SucceededNames(running: map<nat, Task>): set<Node> {
    set t | t in running && running[t].phase.Succeeded? :: running[t].node
  }

  /** A node is completed once its task succeeded, reaped or not. */
  ghost predicate CompletedOk(s: State) {
    s.completed == Settled(s.log) + SucceededNames(s.running)
  }

  lemma NamesSplit(running: map<nat, Task>, t: nat)
    requires t in running
    ensures SucceededNames(running) ==
            SucceededNames(running - {t}) + if running[t].phase.Succeeded? then {running[t].node} else {}
  {
    var rest := running - {t};
    forall n ensures n in SucceededNames(running) <==>
                     n in SucceededNames(rest) + if running[t].phase.Succeeded? then {running[t].node} else {}
    {
      if n in SucceededNames(running) {
        var u :| u in running && running[u].phase.Succeeded? && running[u].node == n;
        assert u != t ==> u in rest && rest[u] == running[u];
      }
    }
  }

  lemma {:induction false} SpawnAllNames(limit: int, s: State, ns: seq<Node>)
    requires s.status.Active? && SpawnAll(limit, s, ns).status.Active?
    requires forall t | t in s.running :: t <= s.activations
    ensures SucceededNames(SpawnAll(limit, s, ns).running) == SucceededNames(s.running)
    ensures var s' := SpawnAll(limit, s, ns); forall t | t in s'.running :: t <= s'.activations
  {
    if ns == [] {
    } else {
      var init, n := ns[..|ns| - 1], ns[|ns| - 1];
      SpawnAllNames(limit, s, init);
      var before := SpawnAll(limit, s, init);
      var after := SpawnAll(limit, s, ns);
      if after != before {
        var t := before.activations + 1;
        assert after.running - {t} == before.running;
        NamesSplit(after.running, t);
      }
    }
  }

  lemma StepCompletes(g: Graph, s: State, a: Action)
    requires Bounded(g.recursionLimit, s) && Enabled(s, a) && CompletedOk(s)
    requires Step(g, s, a).status.Active?
    ensures CompletedOk(Step(g, s, a))
  {
    var s' := Step(g, s, a);
    NamesSplit(s.running, a.task);
    match a {
      case Finish(t, ok) =>
        NamesSplit(s'.running, t);
        assert s'.running - {t} == s.running - {t};
      case Reap(t, route) =>
        var task := s.running[t];
        var s1 := s.(running := s.running - {t}, scheduled := s.scheduled - {task.node});
        if !task.phase.Failed? {
          AdvanceReaches(g, s1, task.node, route, false);
          var h := Successors(g, task.node, route, s1.arrivals);
          SettledAppend(s.log, Call(task.node, h.joined.fired));
          SpawnAllNames(g.recursionLimit,
                        s1.(arrivals := h.joined.arrivals, log := s1.log + [Call(task.node, h.joined.fired)]), h.out);
        }
    }
  }

  lemma {:induction false} RunCompletes(g: Graph, s: State, acts: seq<Action>)
    requires Bounded(g.recursionLimit, s) && 0 <= Fuel(g.recursionLimit, s)
    requires Legal(g, s, acts) && (s.status.Active? ==> CompletedOk(s))
    requires Exec(g, s, acts).status.Active?
    ensures CompletedOk(Exec(g, s, acts))
    decreases |acts|
  {
    if acts == [] {
    } else {
      var init := acts[..|acts| - 1];
      RunsAreBounded(g, s, init);
      RunCompletes(g, s, init);
      StepCompletes(g, Exec(g, s, init), acts[|acts| - 1]);
    }
  }

  // ------------------------------------------------------------------
  // Soundness: nothing outside a closed set is ever spawned
  // ------------------------------------------------------------------

  lemma {:induction false} FiredIsTarget(ws: seq<WaitingEdge>, n: Node, a: Arrivals, t: Node) returns (i: nat)
    requires t in Joins(ws, n, a).fired
    ensures i < |ws| && ws[i].target == t
  {
    var k := |ws| - 1;
    if t in Joins(ws[..k], n, a).fired {
      i := FiredIsTarget(ws[..k], n, a, t);
    } else {
      i := k;
    }
  }

  ghost predicate AllAccounted(g: Graph, s: State) {
    forall i | 0 <= i < |g.waiting| && g.waiting[i].target != END :: Accounted(g.waiting[i], {}, s)
  }

  lemma {:induction false} SinceWithin(log: seq<Call>, t: Node)
    ensures Settled(Since(log, t)) <= Settled(log)
  {
    if log == [] {
    } else {
      var k := |log| - 1;
      assert log == log[..k] + [log[k]];
      SettledAppend(log[..k], log[k]);
      SettledAppend(Since(log[..k], t), log[k]);
      SinceWithin(log[..k], t);
    }
  }

  /** Every hop of a static transition stays inside a closed set. */
  lemma HopsStayClosed(g: Graph, entry: seq<Node>, closed: set<Node>, s: State, n: Node, route: Routing, m: Node)
    requires UniqueJoins(g) && StaticOnly(g) && Closed(g, entry, closed)
    requires AllAccounted(g, s) && Settled(s.log) <= closed && n in closed
    requires Successors(g, n, route, s.arrivals).Hops?
    requires m in Successors(g, n, route, s.arrivals).out && m != END
    ensures m in closed
  {
    var joined := Joins(g.waiting, n, s.arrivals);
    if m in joined.fired {
      var i := FiredIsTarget(g.waiting, n, s.arrivals, m);
      var w := g.waiting[i];
      JoinsAtTarget(g.waiting, i, n, s.arrivals);
      SinceWithin(s.log, w.target);
      assert Accounted(w, {}, s);
      assert SourceSet(w) <= closed;
      assert w in g.waiting;
    } else {
      StaticHopsExact(g.edges, n, m);
      assert Edge(n, m) in g.edges;
    }
  }

  lemma StepStaysClosed(g: Graph, entry: seq<Node>, closed: set<Node>, s: State, a: Action)
    requires UniqueJoins(g) && StaticOnly(g) && Closed(g, entry, closed)
    requires Enabled(s, a) && Bounded(g.recursionLimit, s) && AllAccounted(g, s)
    requires Reached(s) <= closed
    requires Step(g, s, a).status.Active?
    ensures Reached(Step(g, s, a)) <= closed
  {
    match a {
      case Finish(t, ok) =>
      case Reap(t, route) =>
        var task := s.running[t];
        var s1 := s.(running := s.running - {t}, scheduled := s.scheduled - {task.node});
        assert task.node in s.scheduled;
        if !task.phase.Failed? {
          AdvanceReaches(g, s1, task.node, route, false);
          var h := Successors(g, task.node, route, s1.arrivals);
          SettledAppend(s.log, Call(task.node, h.joined.fired));
          forall m | m in h.out && m != END ensures m in closed {
            HopsStayClosed(g, entry, closed, s, task.node, route, m);
          }
        }
    }
  }

  lemma {:induction false} RunStaysClosed(g: Graph, entry: seq<Node>, closed: set<Node>, acts: seq<Action>)
    requires UniqueJoins(g) && StaticOnly(g) && Closed(g, entry, closed)
    requires Legal(g, Fresh(g, entry), acts) && Exec(g, Fresh(g, entry), acts).status.Active?
    ensures Reached(Exec(g, Fresh(g, entry), acts)) <= closed
    decreases |acts|
  {
    var s := Fresh(g, entry);
    if acts == [] {
      SpawnAllSchedules(g.recursionLimit, Start({}, map[]), entry);
      SpawnAllFrame(g.recursionLimit, Start({}, map[]), entry);
    } else {
      var init := acts[..|acts| - 1];
      RunStaysClosed(g, entry, closed, init);
      FreshBookkeeping(g, entry, init);
      StepStaysClosed(g, entry, closed, Exec(g, s, init), acts[|acts| - 1]);
    }
  }

  /** In-flight bookkeeping and join accounting in every state of a fresh run. */
  lemma FreshBookkeeping(g: Graph, entry: seq<Node>, acts: seq<Action>)
    requires UniqueJoins(g) && Legal(g, Fresh(g, entry), acts)
    ensures Bounded(g.recursionLimit, Exec(g, Fresh(g, entry), acts))
    ensures AllAccounted(g, Exec(g, Fresh(g, entry), acts))
  {
    FreshIsSeed(g, entry);
    var routes: nat -> Routing := k => (j => Raises);
    DriverTerminates(g, {}, map[], [], entry, routes, acts);
    forall i | 0 <= i < |g.waiting| && g.waiting[i].target != END
      ensures Accounted(g.waiting[i], {}, Exec(g, Fresh(g, entry), acts))
    {
      JoinAccounting(g, i, {}, map[], [], entry, routes, acts);
    }
  }

  lemma {:induction false} EndNeverSettles(g: Graph, entry: seq<Node>, acts: seq<Action>)
    requires UniqueJoins(g) && Legal(g, Fresh(g, entry), acts)
    ensures END !in Settled(Exec(g, Fresh(g, entry), acts).log)
    decreases |acts|
  {
    if acts == [] {
      SpawnAllFrame(g.recursionLimit, Start({}, map[]), entry);
    } else {
      var init, a := acts[..|acts| - 1], acts[|acts| - 1];
      EndNeverSettles(g, entry, init);
      FreshBookkeeping(g, entry, init);
      StepLogs(g, Exec(g, Fresh(g, entry), init), a);
    }
  }

  /** A step settles at most the node whose task it reaps. */
  lemma StepLogs(g: Graph, s: State, a: Action)
    requires Enabled(s, a)
    ensures Settled(Step(g, s, a).log) <= Settled(s.log) + {s.running[a.task].node}
  {
    var n := s.running[a.task].node;
    if a.Reap? {
      var s1 := s.(running := s.running - {a.task}, scheduled := s.scheduled - {n});
      match Successors(g, n, a.route, s1.arrivals) {
        case LlmPause(e) =>
        case RouterError =>
        case Hops(out, joined) =>
          SettledAppend(s.log, Call(n, joined.fired));
          SpawnAllFrame(g.recursionLimit, s1.(arrivals := joined.arrivals, log := s1.log + [Call(n, joined.fired)]),
                        out);
      }
    }
  }

  // ------------------------------------------------------------------
  // Drained runs
  // ------------------------------------------------------------------

  /** Everything known about a fresh run that drained without error, routers or not. */
  lemma DrainedFacts(g: Graph, entry: seq<Node>, acts: seq<Action>)
    requires UniqueJoins(g) && Legal(g, Fresh(g, entry), acts)
    requires Drained(Exec(g, Fresh(g, entry), acts)) && Exec(g, Fresh(g, entry), acts).errors == []
    ensures var s := Exec(g, Fresh(g, entry), acts);
            && s.completed == Settled(s.log) == Reached(s)
            && Served(g, entry, s)
            && AllAccounted(g, s)
  {
    var s0, s := Fresh(g, entry), Exec(g, Fresh(g, entry), acts);
    FreshBookkeeping(g, entry, acts);
    FreshBookkeeping(g, entry, []);
    FreshIsSeed(g, entry);
    var routes: nat -> Routing := k => (j => Raises);
    SeedBounded(g, {}, map[], [], entry, routes);
    SpawnAllFrame(g.recursionLimit, Start({}, map[]), entry);
    if s0.status.Active? {
      SpawnAllSchedules(g.recursionLimit, Start({}, map[]), entry);
      SpawnAllNames(g.recursionLimit, Start({}, map[]), entry);
      assert SucceededNames(map[]) == {};
    }
    RunServes(g, entry, s0, acts);
    RunCompletes(g, s0, acts);
    assert SucceededNames(s.running) == {};
    assert Names(s.running) == {};
  }

  /** With routers or without, a drained error-free run leaves a closed set. */
  lemma DrainedIsClosed(g: Graph, entry: seq<Node>, acts: seq<Action>)
    requires UniqueJoins(g) && Legal(g, Fresh(g, entry), acts)
    requires Drained(Exec(g, Fresh(g, entry), acts)) && Exec(g, Fresh(g, entry), acts).errors == []
    ensures Closed(g, entry, Exec(g, Fresh(g, entry), acts).completed)
  {
    var s := Exec(g, Fresh(g, entry), acts);
    DrainedFacts(g, entry, acts);
    forall w | w in g.waiting && w.sources != [] && SourceSet(w) <= s.completed && w.target != END
      ensures w.target in s.completed
    {
      var i :| 0 <= i < |g.waiting| && g.waiting[i] == w;
      assert Accounted(w, {}, s);
      assert w.sources[0] in SourceSet(w) * Settled(s.log);
      JoinFiresWhenAllArrived(s.log, w, {});
      FiredCounts(s.log, w.target);
      var j :| 0 <= j < |s.log| && w.target in s.log[j].fired;
      assert s.log[j] in s.log;
    }
  }

  /** Main theorem: on a graph of static and waiting edges, every fresh run that
      drains without error completes exactly the least closed set. */
  lemma DrainedIsLeastClosed(g: Graph, entry: seq<Node>, acts: seq<Action>)
    requires UniqueJoins(g) && StaticOnly(g) && Legal(g, Fresh(g, entry), acts)
    requires Drained(Exec(g, Fresh(g, entry), acts)) && Exec(g, Fresh(g, entry), acts).errors == []
    ensures LeastClosed(g, entry, Exec(g, Fresh(g, entry), acts).completed)
    ensures Exec(g, Fresh(g, entry), acts).completed == Least(g, entry)
  {
    DrainedIsClosed(g, entry, acts);
    DrainedFacts(g, entry, acts);
    var s := Exec(g, Fresh(g, entry), acts);
    forall other: set<Node> | Closed(g, entry, other) ensures s.completed <= other {
      RunStaysClosed(g, entry, other, acts);
    }
    LeastIsLeast(g, entry, s.completed);
  }
}
