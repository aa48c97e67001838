/** What one transition follows, and what whole runs reach because of it, routed
    edges included. */
module WorkflowHops {
  import opened Options
  import opened WorkflowGraph
  import opened WorkflowStep
  import opened WorkflowHistory
  import opened WorkflowFixpoint

  predicate HasLlmEdge(g: Graph, n: Node) {
    exists e :: e in g.llm && e.source == n
  }

  /** The `i`th LLM edge is the first one declared for `n`. */
  predicate IsFirstLlm(les: seq<LlmEdge>, n: Node, i: nat) {
    i < |les| && les[i].source == n && forall j | 0 <= j < i :: les[j].source != n
  }

  /** The `k`th conditional edge leaves `n` and its router gives no usable answer. */
  predicate RouterFails(ces: seq<ConditionalEdge>, n: Node, route: Routing, k: nat) {
    k < |ces| && ces[k].source == n && (route(k).Raises? || route(k).key !in ces[k].mapping)
  }

  /** The `k`th conditional edge leaves `n` and its router chose `m`. */
  predicate RouterChose(ces: seq<ConditionalEdge>, n: Node, route: Routing, k: nat, m: Node) {
    && k < |ces| && ces[k].source == n
    && route(k).Chooses? && route(k).key in ces[k].mapping && ces[k].mapping[route(k).key] == m
  }

  // ------------------------------------------------------------------
  // One transition
  // ------------------------------------------------------------------

  lemma {:induction false} FirstLlmIff(les: seq<LlmEdge>, n: Node)
    ensures FirstLlm(les, n).Some? <==> exists e :: e in les && e.source == n
  {
    if les == [] {
    } else {
      var k := |les| - 1;
      assert les == les[..k] + [les[k]];
      FirstLlmIff(les[..k], n);
    }
  }

  lemma {:induction false} WhichLlm(les: seq<LlmEdge>, n: Node) returns (i: nat)
    requires FirstLlm(les, n).Some?
    ensures IsFirstLlm(les, n, i) && FirstLlm(les, n).value == les[i]
  {
    var k := |les| - 1;
    var init := les[..k];
    FirstLlmIff(init, n);
    if FirstLlm(init, n).Some? {
      i := WhichLlm(init, n);
    } else {
      i := k;
      assert forall j | 0 <= j < k :: les[j] == init[j] && init[j] in init;
    }
  }

  /** Routing fails exactly when some router of the node gives no usable answer. */
  lemma {:induction false} RoutingFailsIff(ces: seq<ConditionalEdge>, n: Node, route: Routing)
    ensures RoutedHops(ces, n, route).None? <==> exists k: nat :: RouterFails(ces, n, route, k)
  {
    if ces == [] {
    } else {
      var k := |ces| - 1;
      var init := ces[..k];
      RoutingFailsIff(init, n, route);
      if j: nat :| RouterFails(init, n, route, j) {
        assert RouterFails(ces, n, route, j);
      }
      if j: nat :| RouterFails(ces, n, route, j) {
        assert j < k ==> RouterFails(init, n, route, j);
      }
      if RoutedHops(ces, n, route).None? && RoutedHops(init, n, route).Some? {
        assert RouterFails(ces, n, route, k);
      }
    }
  }

  /** The routed hops are exactly the targets that the node's routers chose. */
  lemma {:induction false} RoutedHopsExact(ces: seq<ConditionalEdge>, n: Node, route: Routing, m: Node)
    requires RoutedHops(ces, n, route).Some?
    ensures m in RoutedHops(ces, n, route).value <==> exists k: nat :: RouterChose(ces, n, route, k, m)
  {
    if ces == [] {
    } else {
      var k := |ces| - 1;
      var init := ces[..k];
      RoutedHopsExact(init, n, route, m);
      if j: nat :| RouterChose(init, n, route, j, m) {
        assert RouterChose(ces, n, route, j, m);
      }
      if j: nat :| RouterChose(ces, n, route, j, m) {
        assert j < k ==> RouterChose(init, n, route, j, m);
      }
      if m in RoutedHops(ces, n, route).value && m !in RoutedHops(init, n, route).value {
        assert RouterChose(ces, n, route, k, m);
      }
    }
  }

  /** A transition pauses at the first LLM edge of the node; otherwise it fails exactly
      when one of its routers does; otherwise it hops. */
  lemma TransitionCases(g: Graph, n: Node, route: Routing, a: Arrivals)
    ensures Successors(g, n, route, a).LlmPause? <==> HasLlmEdge(g, n)
    ensures Successors(g, n, route, a).LlmPause? ==>
              exists i: nat :: IsFirstLlm(g.llm, n, i) && Successors(g, n, route, a).edge == g.llm[i]
    ensures Successors(g, n, route, a).RouterError? <==>
            !HasLlmEdge(g, n) && exists k: nat :: RouterFails(g.conditional, n, route, k)
  {
    FirstLlmIff(g.llm, n);
    RoutingFailsIff(g.conditional, n, route);
    if FirstLlm(g.llm, n).Some? {
      var i := WhichLlm(g.llm, n);
    }
  }

  /** Every hop is a target a router chose, the target of a static edge, or a join that
      just fired, and all of these are hops. */
  lemma HopsExact(g: Graph, n: Node, route: Routing, a: Arrivals, m: Node)
    requires Successors(g, n, route, a).Hops?
    ensures m in Successors(g, n, route, a).out <==>
              || (exists k: nat :: RouterChose(g.conditional, n, route, k, m))
              || Edge(n, m) in g.edges
              || m in Successors(g, n, route, a).joined.fired
  {
    RoutedHopsExact(g.conditional, n, route, m);
    StaticHopsExact(g.edges, n, m);
  }

  lemma {:induction false} StaticHopAt(edges: seq<Edge>, n: Node, i: nat) returns (p: nat)
    requires i < |StaticHops(edges, n)|
    ensures p < |edges| && edges[p] == Edge(n, StaticHops(edges, n)[i])
  {
    var k := |edges| - 1;
    if i < |StaticHops(edges[..k], n)| {
      p := StaticHopAt(edges[..k], n, i);
    } else {
      p := k;
    }
  }

  /** Hops of one kind keep the order in which their edges were declared. */
  lemma {:induction false} StaticHopsInOrder(edges: seq<Edge>, n: Node, i: nat, j: nat) returns (p: nat, q: nat)
    requires i < j < |StaticHops(edges, n)|
    ensures p < q < |edges|
    ensures edges[p] == Edge(n, StaticHops(edges, n)[i]) && edges[q] == Edge(n, StaticHops(edges, n)[j])
  {
    var k := |edges| - 1;
    if j < |StaticHops(edges[..k], n)| {
      p, q := StaticHopsInOrder(edges[..k], n, i, j);
    } else {
      p := StaticHopAt(edges[..k], n, i);
      q := k;
    }
  }

  lemma {:induction false} RoutedHopAt(ces: seq<ConditionalEdge>, n: Node, route: Routing, i: nat) returns (p: nat)
    requires RoutedHops(ces, n, route).Some? && i < |RoutedHops(ces, n, route).value|
    ensures RouterChose(ces, n, route, p, RoutedHops(ces, n, route).value[i])
  {
    var k := |ces| - 1;
    if i < |RoutedHops(ces[..k], n, route).value| {
      p := RoutedHopAt(ces[..k], n, route, i);
    } else {
      p := k;
    }
  }

  lemma {:induction false} RoutedHopsInOrder(ces: seq<ConditionalEdge>, n: Node, route: Routing, i: nat, j: nat)
    returns (p: nat, q: nat)
    requires RoutedHops(ces, n, route).Some? && i < j < |RoutedHops(ces, n, route).value|
    ensures p < q && RouterChose(ces, n, route, p, RoutedHops(ces, n, route).value[i])
    ensures RouterChose(ces, n, route, q, RoutedHops(ces, n, route).value[j])
  {
    var k := |ces| - 1;
    if j < |RoutedHops(ces[..k], n, route).value| {
      p, q := RoutedHopsInOrder(ces[..k], n, route, i, j);
    } else {
      p := RoutedHopAt(ces[..k], n, route, i);
      q := k;
    }
  }

  lemma {:induction false} FiredAt(ws: seq<WaitingEdge>, n: Node, a: Arrivals, i: nat) returns (p: nat)
    requires i < |Joins(ws, n, a).fired|
    ensures p < |ws| && ws[p].target == Joins(ws, n, a).fired[i] && n in ws[p].sources
  {
    var k := |ws| - 1;
    if i < |Joins(ws[..k], n, a).fired| {
      p := FiredAt(ws[..k], n, a, i);
    } else {
      p := k;
    }
  }

  lemma {:induction false} FiredInOrder(ws: seq<WaitingEdge>, n: Node, a: Arrivals, i: nat, j: nat)
    returns (p: nat, q: nat)
    requires i < j < |Joins(ws, n, a).fired|
    ensures p < q < |ws| && ws[p].target == Joins(ws, n, a).fired[i] && ws[q].target == Joins(ws, n, a).fired[j]
  {
    var k := |ws| - 1;
    if j < |Joins(ws[..k], n, a).fired| {
      p, q := FiredInOrder(ws[..k], n, a, i, j);
    } else {
      p := FiredAt(ws[..k], n, a, i);
      q := k;
    }
  }

  /** Routed hops come first and fired joins last. */
  lemma HopsInOrder(g: Graph, n: Node, route: Routing, a: Arrivals)
    requires Successors(g, n, route, a).Hops?
    ensures var h := Successors(g, n, route, a);
            && RoutedHops(g.conditional, n, route).Some? && RoutedHops(g.conditional, n, route).value <= h.out
            && |h.joined.fired| <= |h.out| && h.out[|h.out| - |h.joined.fired|..] == h.joined.fired
            && |h.out| == |RoutedHops(g.conditional, n, route).value| + |StaticHops(g.edges, n)| + |h.joined.fired|
  {
  }

  // ------------------------------------------------------------------
  // Whole runs
  // ------------------------------------------------------------------

  /** The hops that one step follows. */
  ghost function StepHops(g: Graph, s: State, a: Action): set<Node>
    requires Enabled(s, a)
  {
    if a.Reap? && s.running[a.task].phase.Succeeded? then
      var h := Successors(g, s.running[a.task].node, a.route, s.arrivals);
      if h.Hops? then set m | m in h.out && m != END else {}
    else {}
  }

  /** The hops that a whole run follows. */
  ghost function RunHops(g: Graph, s: State, acts: seq<Action>): set<Node>
    requires Legal(g, s, acts)
  {
    if acts == [] then {}
    else
      var init := acts[..|acts| - 1];
      RunHops(g, s, init) + StepHops(g, Exec(g, s, init), acts[|acts| - 1])
  }

  /** One step reaches exactly what was reached before and its hops. */
  lemma StepReaches(g: Graph, s: State, a: Action)
    requires Enabled(s, a) && Bounded(g.recursionLimit, s)
    requires Step(g, s, a).status.Active? && Step(g, s, a).errors == s.errors
    ensures Reached(Step(g, s, a)) == Reached(s) + StepHops(g, s, a)
  {
    match a {
      case Finish(t, ok) =>
      case Reap(t, route) =>
        var n := s.running[t].node;
        var s1 := s.(running := s.running - {t}, scheduled := s.scheduled - {n});
        assert n in s.scheduled;
        AdvanceReaches(g, s1, n, route, false);
        SettledAppend(s.log, Call(n, Successors(g, n, route, s1.arrivals).joined.fired));
    }
  }

  /** In an active, error-free state the nodes settled or in flight are exactly those
      the run started with and the hops of the nodes it reaped: whatever a router
      chose is run, and nothing runs that nobody chose. */
  lemma {:induction false} RunReachesExactly(g: Graph, s: State, acts: seq<Action>)
    requires Bounded(g.recursionLimit, s) && 0 <= Fuel(g.recursionLimit, s) && Legal(g, s, acts)
    requires Exec(g, s, acts).status.Active? && Exec(g, s, acts).errors == []
    ensures Reached(Exec(g, s, acts)) == Reached(s) + RunHops(g, s, acts)
    decreases |acts|
  {
    if acts == [] {
    } else {
      var init, a := acts[..|acts| - 1], acts[|acts| - 1];
      StepMonotone(g, Exec(g, s, init), a);
      RunsAreBounded(g, s, init);
      RunReachesExactly(g, s, init);
      StepReaches(g, Exec(g, s, init), a);
    }
  }

  lemma {:induction false} HopsGrow(g: Graph, s: State, acts: seq<Action>, k: nat)
    requires Legal(g, s, acts) && k <= |acts| && Legal(g, s, acts[..k])
    ensures RunHops(g, s, acts[..k]) <= RunHops(g, s, acts)
    decreases |acts|
  {
    if k == |acts| {
      assert acts[..k] == acts;
    } else {
      assert acts[..|acts| - 1][..k] == acts[..k];
      HopsGrow(g, s, acts[..|acts| - 1], k);
    }
  }

  /** What a router chose when its node was reaped is settled or in flight ever after. */
  lemma ChosenTargetRuns(g: Graph, s: State, acts: seq<Action>, before: seq<Action>, a: Action, j: nat, m: Node)
    requires Bounded(g.recursionLimit, s) && 0 <= Fuel(g.recursionLimit, s) && Legal(g, s, acts)
    requires Exec(g, s, acts).status.Active? && Exec(g, s, acts).errors == []
    requires before + [a] <= acts && Legal(g, s, before) && Enabled(Exec(g, s, before), a)
    requires a.Reap? && Exec(g, s, before).running[a.task].phase.Succeeded? && m != END
    requires RouterChose(g.conditional, Exec(g, s, before).running[a.task].node, a.route, j, m)
    ensures m in Reached(Exec(g, s, acts))
  {
    var st := Exec(g, s, before);
    var n := st.running[a.task].node;
    var k := |before| + 1;
    assert acts[..k] == before + [a] && (before + [a])[..|before|] == before;
    StaysActive(g, s, acts, k);
    AdvanceReaches(g, st.(running := st.running - {a.task}, scheduled := st.scheduled - {n}), n, a.route, false);
    HopsExact(g, n, a.route, st.arrivals, m);
    assert m in StepHops(g, st, a);
    HopsGrow(g, s, acts, k);
    RunReachesExactly(g, s, acts);
  }

  /** A run that is active was active all along. */
  lemma {:induction false} StaysActive(g: Graph, s: State, acts: seq<Action>, k: nat)
    requires Legal(g, s, acts) && k <= |acts| && Exec(g, s, acts).status.Active?
    ensures Legal(g, s, acts[..k]) && Exec(g, s, acts[..k]).status.Active?
    decreases |acts|
  {
    if k == |acts| {
      assert acts[..k] == acts;
    } else {
      StaysActive(g, s, acts[..|acts| - 1], k);
      assert acts[..|acts| - 1][..k] == acts[..k];
    }
  }

  lemma WasActive(g: Graph, s: State, acts: seq<Action>)
    requires Legal(g, s, acts) && Exec(g, s, acts).status.Active?
    ensures s.status.Active?
  {
    StaysActive(g, s, acts, 0);
    assert acts[..0] == [];
  }

  /** A drained error-free fresh run of any graph, routed or not, completes exactly the
      entry nodes and the hops it followed. */
  lemma DrainedIsWhatWasFollowed(g: Graph, entry: seq<Node>, acts: seq<Action>)
    requires UniqueJoins(g) && Legal(g, Fresh(g, entry), acts)
    requires Drained(Exec(g, Fresh(g, entry), acts)) && Exec(g, Fresh(g, entry), acts).errors == []
    ensures Exec(g, Fresh(g, entry), acts).completed ==
            (set n | n in entry && n != END) + RunHops(g, Fresh(g, entry), acts)
  {
    DrainedFacts(g, entry, acts);
    FreshIsSeed(g, entry);
    SeedBounded(g, {}, map[], [], entry, k => (j => Raises));
    WasActive(g, Fresh(g, entry), acts);
    SpawnAllFrame(g.recursionLimit, Start({}, map[]), entry);
    SpawnAllSchedules(g.recursionLimit, Start({}, map[]), entry);
    RunReachesExactly(g, Fresh(g, entry), acts);
  }

  // ------------------------------------------------------------------
  // Pauses and failures
  // ------------------------------------------------------------------

  /** Reaping a node that succeeded pauses exactly if it has an LLM edge, at the first
      one, and fails exactly if it has none and a router gives no answer; either way
      the table and the history stay as they were. */
  lemma ReapOutcome(g: Graph, s: State, t: nat, route: Routing)
    requires Enabled(s, Reap(t, route)) && s.running[t].phase.Succeeded?
    ensures var s', n := Step(g, s, Reap(t, route)), s.running[t].node;
            && (s'.status.Paused? <==> HasLlmEdge(g, n))
            && (s'.status.Paused? ==> exists i: nat :: IsFirstLlm(g.llm, n, i) && s'.status.edge == g.llm[i])
            && (s'.status.RouterFailure? <==>
                !HasLlmEdge(g, n) && exists k: nat :: RouterFails(g.conditional, n, route, k))
            && (s'.status.Paused? || s'.status.RouterFailure? ==>
                  s'.arrivals == s.arrivals && s'.log == s.log && s'.running == map[] && s'.completed == s.completed)
  {
    var n := s.running[t].node;
    var s1 := s.(running := s.running - {t}, scheduled := s.scheduled - {n});
    TransitionCases(g, n, route, s1.arrivals);
    match Successors(g, n, route, s1.arrivals) {
      case LlmPause(e) =>
      case RouterError =>
      case Hops(out, joined) =>
        SpawnAllStatus(g.recursionLimit, s1.(arrivals := joined.arrivals, log := s1.log + [Call(n, joined.fired)]),
                       out);
    }
  }
}
