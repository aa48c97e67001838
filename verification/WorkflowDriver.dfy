/** The imperative driver: the loops and in-place updates of the scheduler, each
    proved against the step machine, and a whole run with its verdict. */
module WorkflowDriver {
  import opened Options
  import opened WorkflowGraph
  import opened W = WorkflowStep
  import opened WorkflowFixpoint
  import opened WorkflowEnd
  import opened WorkflowStall
  import opened WorkflowHops
  import opened WorkflowSeeding

  datatype Verdict =
    | Success
    | Stall(stalled: seq<Node>)
    | LlmRoute(edge: LlmEdge)
    | Recursion
    | Router
    | Crash
    | BatchFailure(failed: seq<Node>)

  /** How the driver reports a finished run. */
  function VerdictOf(g: Graph, s: State): Verdict {
    match s.status
    case Paused(e) => LlmRoute(e)
    case RecursionError => Recursion
    case RouterFailure => Router
    case SeedingCrash => Crash
    case Active =>
      if s.errors != [] then BatchFailure(s.errors)
      else
        var stalled := StallReport(g, s.completed, s.arrivals);
        if stalled != [] then Stall(stalled) else Success
  }

  /** Each verdict, by what led to it. */
  lemma VerdictMeans(g: Graph, s: State)
    ensures VerdictOf(g, s).LlmRoute? <==> s.status.Paused?
    ensures VerdictOf(g, s).LlmRoute? ==> VerdictOf(g, s).edge == s.status.edge
    ensures VerdictOf(g, s).Recursion? <==> s.status.RecursionError?
    ensures VerdictOf(g, s).Router? <==> s.status.RouterFailure?
    ensures VerdictOf(g, s).Crash? <==> s.status.SeedingCrash?
    ensures VerdictOf(g, s).BatchFailure? <==> s.status.Active? && s.errors != []
    ensures VerdictOf(g, s).BatchFailure? ==> VerdictOf(g, s).failed == s.errors
    ensures VerdictOf(g, s).Stall? <==>
            s.status.Active? && s.errors == [] && exists w :: w in g.waiting && StalledEdge(w, s.completed, s.arrivals)
    ensures VerdictOf(g, s).Stall? ==>
            forall n :: n in VerdictOf(g, s).stalled <==>
                        exists w :: w in g.waiting && w.target == n && StalledEdge(w, s.completed, s.arrivals)
  {
    var scan := StallScan(g.waiting, s.completed, s.arrivals);
    DedupProperties(scan);
    forall n ensures n in Dedup(scan) <==>
                     exists w :: w in g.waiting && w.target == n && StalledEdge(w, s.completed, s.arrivals)
    {
      ScanMembers(g.waiting, s.completed, s.arrivals, n);
    }
    if Dedup(scan) != [] {
      assert Dedup(scan)[0] in Dedup(scan);
    } else {
      forall w | w in g.waiting ensures !StalledEdge(w, s.completed, s.arrivals) {
        assert w.target !in Dedup(scan);
      }
    }
  }

  lemma {:induction false} FirstLlmExtends(les: seq<LlmEdge>, n: Node, i: nat)
    requires i <= |les| && FirstLlm(les[..i], n).Some?
    ensures FirstLlm(les, n) == FirstLlm(les[..i], n)
    decreases |les| - i
  {
    if i == |les| {
      assert les[..i] == les;
    } else {
      assert les[..i + 1][..i] == les[..i];
      FirstLlmExtends(les, n, i + 1);
    }
  }

  lemma {:induction false} RoutedFailureExtends(ces: seq<ConditionalEdge>, n: Node, route: Routing, i: nat)
    requires i <= |ces| && RoutedHops(ces[..i], n, route).None?
    ensures RoutedHops(ces, n, route).None?
    decreases |ces| - i
  {
    if i == |ces| {
      assert ces[..i] == ces;
    } else {
      assert ces[..i + 1][..i] == ces[..i];
      RoutedFailureExtends(ces, n, route, i + 1);
    }
  }

  class Driver {
    const graph: Graph
    var completed: set<Node>
    var triggerCount: Arrivals
    var running: map<nat, Task>
    var scheduled: set<Node>
    var activations: nat
    var errors: seq<Node>
    var status: Status
    ghost var log: seq<Call>

    ghost function View(): State
      reads this
    {
      State(completed, triggerCount, running, scheduled, activations, errors, status, log)
    }

    constructor (graph: Graph, completed: set<Node>, triggerCount: Arrivals)
      ensures this.graph == graph && View() == Start(completed, triggerCount)
    {
      this.graph := graph;
      this.completed := completed;
      this.triggerCount := triggerCount;
      running, scheduled, activations, errors, status := map[], {}, 0, [], Active;
      log := [];
    }

    /** `n` arrives at every join it feeds; full ones fire and are reset. */
    method FireJoins(n: Node) returns (fired: seq<Node>)
      modifies this`triggerCount
      ensures Joined(triggerCount, fired) == Joins(graph.waiting, n, old(triggerCount))
    {
      fired := [];
      for i := 0 to |graph.waiting|
        invariant Joined(triggerCount, fired) == Joins(graph.waiting[..i], n, old(triggerCount))
      {
        var w := graph.waiting[i];
        assert graph.waiting[..i + 1][..i] == graph.waiting[..i];
        if n in w.sources {
          triggerCount := triggerCount[w.target := Arrived(triggerCount, w.target) + {n}];
          if (set s | s in w.sources) <= triggerCount[w.target] {
            fired := fired + [w.target];
            triggerCount := triggerCount[w.target := {}];
          }
        }
      }
      assert graph.waiting[..|graph.waiting|] == graph.waiting;
    }

    /** The hops after `n`, updating the arrival table in place. */
    method Successors(n: Node, route: Routing) returns (r: Transition)
      modifies this`triggerCount
      ensures r == W.Successors(graph, n, route, old(triggerCount))
      ensures triggerCount == if r.Hops? then r.joined.arrivals else old(triggerCount)
      ensures r.Hops? ==> forall m :: m in r.out <==>
                || (exists k: nat :: RouterChose(graph.conditional, n, route, k, m))
                || Edge(n, m) in graph.edges
                || m in r.joined.fired
    {
      if W.Successors(graph, n, route, triggerCount).Hops? {
        forall m ensures m in W.Successors(graph, n, route, triggerCount).out <==>
                         || (exists k: nat :: RouterChose(graph.conditional, n, route, k, m))
                         || Edge(n, m) in graph.edges
                         || m in W.Successors(graph, n, route, triggerCount).joined.fired
        {
          HopsExact(graph, n, route, triggerCount, m);
        }
      }
      for i := 0 to |graph.llm|
        invariant FirstLlm(graph.llm[..i], n).None?
      {
        assert graph.llm[..i + 1][..i] == graph.llm[..i];
        if graph.llm[i].source == n {
          FirstLlmExtends(graph.llm, n, i + 1);
          return LlmPause(graph.llm[i]);
        }
      }
      assert graph.llm[..|graph.llm|] == graph.llm;
      var out := [];
      for i := 0 to |graph.conditional|
        invariant RoutedHops(graph.conditional[..i], n, route) == Some(out)
      {
        var ce := graph.conditional[i];
        assert graph.conditional[..i + 1][..i] == graph.conditional[..i];
        if ce.source == n {
          var answer := route(i);
          if answer.Raises? || answer.key !in ce.mapping {
            RoutedFailureExtends(graph.conditional, n, route, i + 1);
            return RouterError;
          }
          out := out + [ce.mapping[answer.key]];
        }
      }
      assert graph.conditional[..|graph.conditional|] == graph.conditional;
      ghost var routed := out;
      for i := 0 to |graph.edges|
        invariant out == routed + StaticHops(graph.edges[..i], n)
      {
        assert graph.edges[..i + 1][..i] == graph.edges[..i];
        if graph.edges[i].source == n {
          out := out + [graph.edges[i].target];
        }
      }
      assert graph.edges[..|graph.edges|] == graph.edges;
      var fired := FireJoins(n);
      r := Hops(out + fired, Joined(triggerCount, fired));
    }

    method Spawn(n: Node)
      requires status.Active?
      modifies this
      ensures View() == W.Spawn(graph.recursionLimit, old(View()), n)
    {
      if n == END || n in scheduled {
        return;
      }
      activations := activations + 1;
      if activations > graph.recursionLimit {
        running, status := map[], RecursionError;
        return;
      }
      scheduled := scheduled + {n};
      running := running[activations := Task(n, Working)];
    }

    method SpawnEach(ns: seq<Node>)
      requires status.Active?
      modifies this
      ensures View() == SpawnAll(graph.recursionLimit, old(View()), ns)
    {
      for i := 0 to |ns|
        invariant status.Active?
        invariant View() == SpawnAll(graph.recursionLimit, old(View()), ns[..i])
      {
        assert ns[..i + 1][..i] == ns[..i];
        Spawn(ns[i]);
        if !status.Active? {
          SpawnStops(graph.recursionLimit, old(View()), ns, i + 1);
          return;
        }
      }
      assert ns[..|ns|] == ns;
    }

    method Advance(n: Node, route: Routing, seeding: bool)
      requires status.Active?
      modifies this
      ensures View() == W.Advance(graph, old(View()), n, route, seeding)
    {
      var r := Successors(n, route);
      match r {
        case LlmPause(e) =>
          running, status := map[], if seeding then SeedingCrash else Paused(e);
        case RouterError =>
          running, status := map[], RouterFailure;
        case Hops(out, joined) =>
          log := log + [Call(n, joined.fired)];
          SpawnEach(out);
      }
    }

    /** Everything before the first wait. */
    method Seed(skipped: seq<Node>, execute: seq<Node>, routes: nat -> Routing)
      requires status.Active?
      modifies this
      ensures View() == W.Seed(graph, old(View()), skipped, execute, routes)
    {
      for i := 0 to |skipped|
        invariant status.Active?
        invariant View() == SeedSkipped(graph, old(View()), skipped[..i], routes)
      {
        assert skipped[..i + 1][..i] == skipped[..i];
        Advance(skipped[i], routes(i), true);
        if !status.Active? {
          SeedStops(graph, old(View()), skipped, routes, i + 1);
          return;
        }
      }
      assert skipped[..|skipped|] == skipped;
      SpawnEach(execute);
    }

    /** A node ends; a success is recorded at once, before the driver reaps it. */
    method Finish(t: nat, ok: bool)
      requires t in running
      modifies this
      ensures View() == FinishTask(old(View()), t, ok)
    {
      var n := running[t].node;
      running := running[t := Task(n, if ok then Succeeded else Failed)];
      if ok {
        completed := completed + {n};
      }
    }

    method Reap(t: nat, route: Routing)
      requires t in running && status.Active?
      modifies this
      ensures View() == ReapTask(graph, old(View()), t, route)
    {
      var task := running[t];
      running := running - {t};
      scheduled := scheduled - {task.node};
      if task.phase.Failed? {
        errors := errors + [task.node];
      } else {
        Advance(task.node, route, false);
      }
    }

    /** The verdict once the loop has ended. */
    method Conclude() returns (verdict: Verdict)
      ensures verdict == VerdictOf(graph, View())
    {
      match status {
        case Paused(e) => verdict := LlmRoute(e);
        case RecursionError => verdict := Recursion;
        case RouterFailure => verdict := Router;
        case SeedingCrash => verdict := Crash;
        case Active =>
          if errors != [] {
            verdict := BatchFailure(errors);
          } else {
            var stalled := DetectStall(graph, completed, triggerCount);
            verdict := if stalled != [] then Stall(stalled) else Success;
          }
      }
    }

    /** Let one running task finish, or reap it if it has. */
    method Move(t: nat, ok: bool, route: Routing) returns (ghost a: Action)
      requires status.Active? && t in running && Bounded(graph.recursionLimit, View())
      modifies this
      ensures Enabled(old(View()), a) && View() == Step(graph, old(View()), a)
      ensures Bounded(graph.recursionLimit, View())
      ensures 0 <= Fuel(graph.recursionLimit, View()) < Fuel(graph.recursionLimit, old(View()))
    {
      ghost var before := View();
      if running[t].phase.Working? {
        a := Action.Finish(t, ok);
        Finish(t, ok);
      } else {
        a := Action.Reap(t, route);
        Reap(t, route);
      }
      StepKeeps(graph, before, a);
    }

    /** Runs to the end. Which task moves next is arbitrary; `outcomes` and
        `reapRoutes` say how each task's node and routers behave. */
    method Run(skipped: seq<Node>, execute: seq<Node>, routes: nat -> Routing,
               outcomes: nat -> bool, reapRoutes: nat -> Routing)
      returns (verdict: Verdict, ghost acts: seq<Action>)
      requires View() == Start(completed, triggerCount)
      modifies this
      ensures Legal(graph, W.Seed(graph, old(View()), skipped, execute, routes), acts)
      ensures View() == Exec(graph, W.Seed(graph, old(View()), skipped, execute, routes), acts)
      ensures status.Active? ==> running == map[]
      ensures verdict == VerdictOf(graph, View())
    {
      ghost var s0 := W.Seed(graph, View(), skipped, execute, routes);
      SeedBounded(graph, completed, triggerCount, skipped, execute, routes);
      Seed(skipped, execute, routes);
      acts := [];
      while status.Active? && running != map[]
        invariant Legal(graph, s0, acts) && View() == Exec(graph, s0, acts)
        invariant Bounded(graph.recursionLimit, View()) && 0 <= Fuel(graph.recursionLimit, View())
        decreases Fuel(graph.recursionLimit, View())
      {
        var t :| t in running;
        ghost var a := Move(t, outcomes(t), reapRoutes(t));
        assert (acts + [a])[..|acts|] == acts;
        acts := acts + [a];
      }
      verdict := Conclude();
    }
  }

  /** Compile and run. Whatever the declared graph, the schedule, the nodes and
      the routers do: a run that ends in success or a stall completed a set closed
      under the compiled graph's rules (the least one if no edge is routed), and it
      is a success only when no join is blocked. END is reported exactly for a join
      partly in wherever the declaration decides that. */
  method CompileAndRun(declared: Graph, outcomes: nat -> bool, reapRoutes: nat -> Routing)
    returns (verdict: Verdict, completed: set<Node>, g: Graph)
    ensures g == Normalized(declared) && UniqueJoins(g)
    ensures verdict.Success? || verdict.Stall? ==> Closed(g, EntryNodes(g), completed)
    ensures StaticOnly(declared) ==>
              !verdict.LlmRoute? && !verdict.Router? && !verdict.Crash? &&
              (verdict.Success? || verdict.Stall? ==> LeastClosed(g, EntryNodes(g), completed))
    ensures verdict.Success? ==>
              forall w | w in g.waiting && w.target != END :: !Blocked(w, completed)
    ensures EndDecided(g, EntryNodes(g), completed) && (verdict.Success? || verdict.Stall?) ==>
              (verdict.Stall? && END in verdict.stalled <==>
               exists w :: w in g.waiting && w.target == END && PartlyIn(w, completed))
    ensures verdict.Stall? ==>
              && verdict.stalled != [] && NoRepeats(verdict.stalled)
              && (forall n | n != END ::
                    n in verdict.stalled <==> exists w :: w in g.waiting && w.target == n && Blocked(w, completed))
  {
    g := NormalizeWaitingEdges(declared);
    var d := new Driver(g, {}, map[]);
    ghost var acts;
    var entry := EntryNodes(g);
    verdict, acts := d.Run([], entry, k => (j => Raises), outcomes, reapRoutes);
    completed := d.completed;
    FreshIsSeed(g, entry);
    if StaticOnly(g) {
      NoEarlyPause(g, entry, acts);
    }
    if verdict.Success? || verdict.Stall? {
      DrainedIsClosed(g, entry, acts);
      if StaticOnly(g) {
        DrainedIsLeastClosed(g, entry, acts);
      }
      StallReportExact(g, entry, acts);
      if EndDecided(g, entry, completed) {
        EndReportExact(g, entry, acts);
      }
      ghost var report := StallReport(g, d.completed, d.triggerCount);
      forall w | w in g.waiting && w.target != END ensures Blocked(w, completed) ==> w.target in report {
      }
    }
  }

  /** Without routers and LLM edges the only early exit is the recursion limit. */
  lemma {:induction false} NoEarlyPause(g: Graph, entry: seq<Node>, acts: seq<Action>)
    requires StaticOnly(g) && Legal(g, Fresh(g, entry), acts)
    ensures var st := Exec(g, Fresh(g, entry), acts).status; st.Active? || st.RecursionError?
    decreases |acts|
  {
    if acts == [] {
      SpawnAllStatus(g.recursionLimit, Start({}, map[]), entry);
    } else {
      var s, a := Exec(g, Fresh(g, entry), acts[..|acts| - 1]), acts[|acts| - 1];
      if a.Reap? {
        var n := s.running[a.task].node;
        var s1 := s.(running := s.running - {a.task}, scheduled := s.scheduled - {n});
        var h := W.Successors(g, n, a.route, s1.arrivals);
        assert h.Hops?;
        SpawnAllStatus(g.recursionLimit,
                       s1.(arrivals := h.joined.arrivals, log := s1.log + [Call(n, h.joined.fired)]), h.out);
      }
    }
  }

  lemma {:induction false} SpawnStops(limit: int, s: State, ns: seq<Node>, i: nat)
    requires i <= |ns| && !SpawnAll(limit, s, ns[..i]).status.Active?
    ensures SpawnAll(limit, s, ns) == SpawnAll(limit, s, ns[..i])
    decreases |ns| - i
  {
    if i == |ns| {
      assert ns[..i] == ns;
    } else {
      assert ns[..i + 1][..i] == ns[..i];
      SpawnStops(limit, s, ns, i + 1);
    }
  }
}
