/** Graphs in which every node has at most one way of being activated: there no
    fresh run completes a node twice, whatever the schedule. */
module WorkflowOnce {
  import opened WorkflowGraph
  import opened WorkflowStep
  import opened WorkflowHistory
  import opened WorkflowFixpoint

  /** Each node is an entry node, or the target of static edges from one source, or
      the target of a join, and only one of these. Nothing leads back to START. */
  predicate OneChannel(g: Graph, entry: seq<Node>) {
    && START !in entry
    && (forall e | e in g.edges :: e.target != START)
    && (forall w | w in g.waiting :: w.target != START && (w.target != END ==> w.target !in entry))
    && (forall e | e in g.edges && e.source != START && e.target != END ::
          && e.target !in entry
          && (forall e' | e' in g.edges && e'.target == e.target :: e'.source == e.source || e'.source == START)
          && (forall w | w in g.waiting :: w.target != e.target))
  }

  /** How often `n` was activated so far. */
  ghost function Load(s: State, n: Node): nat {
    Completions(s.log, n) + if n in s.scheduled then 1 else 0
  }

  /** At most one activation of `n`, and each was triggered. */
  ghost predicate Once(g: Graph, s: State, n: Node) {
    && Load(s, n) <= 1
    && (n == START ==> Load(s, n) == 0)
    && (forall e | e in g.edges && e.target == n && e.source != START :: Load(s, n) <= Completions(s.log, e.source))
    && (forall w | w in g.waiting && w.target == n :: Load(s, n) <= Fires(s.log, n))
  }

  lemma {:induction false} CompletionsAppend(log: seq<Call>, c: Call, n: Node)
    ensures Completions(log + [c], n) == Completions(log, n) + if c.node == n then 1 else 0
    ensures Fires(log + [c], n) == Fires(log, n) + if n in c.fired then 1 else 0
  {
    AppendUnfolds(log, c, n);
  }

  /** Why `n` is a hop of `m`: a static edge or a join that just fired. */
  lemma HopReasons(g: Graph, m: Node, route: Routing, a: Arrivals, n: Node)
    requires UniqueJoins(g) && StaticOnly(g) && n != END
    requires Successors(g, m, route, a).Hops? && n in Successors(g, m, route, a).out
    ensures Edge(m, n) in g.edges || n in Successors(g, m, route, a).joined.fired
    ensures n in Successors(g, m, route, a).joined.fired ==>
              exists w :: w in g.waiting && w.target == n && m in w.sources
  {
    var joined := Joins(g.waiting, m, a);
    StaticHopsExact(g.edges, m, n);
    if n in joined.fired {
      var i := FiredIsTarget(g.waiting, m, a, n);
      JoinsAtTarget(g.waiting, i, m, a);
      assert g.waiting[i] in g.waiting;
    }
  }

  /** A node not spawned by the transition keeps its account. */
  lemma QuietOnce(g: Graph, s: State, s': State, c: Call, n: Node)
    requires Once(g, s, n) && s'.log == s.log + [c] && c.node in s.scheduled
    requires n in s'.scheduled ==> n in s.scheduled && n != c.node
    ensures Once(g, s', n)
  {
    CompletionsAppend(s.log, c, n);
    forall e | e in g.edges && e.target == n && e.source != START
      ensures Load(s', n) <= Completions(s'.log, e.source)
    {
      CompletionsAppend(s.log, c, e.source);
    }
  }

  /** A node spawned over its one static edge. */
  lemma EdgeOnce(g: Graph, entry: seq<Node>, s: State, s': State, c: Call, n: Node)
    requires OneChannel(g, entry) && Once(g, s, n) && Once(g, s, c.node)
    requires s'.log == s.log + [c] && c.node in s.scheduled && n != END
    requires Edge(c.node, n) in g.edges
    ensures Once(g, s', n)
  {
    var m := c.node;
    assert m != START;
    var e0 := Edge(m, n);
    assert e0 in g.edges && e0.source != START && e0.target != END;
    assert Load(s, n) <= Completions(s.log, m) == 0;
    CompletionsAppend(s.log, c, n);
    CompletionsAppend(s.log, c, m);
    assert forall e | e in g.edges && e.target == n && e.source != START :: e.source == m;
  }

  /** A node spawned by its join. */
  lemma JoinOnce(g: Graph, entry: seq<Node>, s: State, s': State, c: Call, n: Node, w: WaitingEdge)
    requires OneChannel(g, entry) && Once(g, s, n) && Once(g, s, c.node)
    requires s'.log == s.log + [c] && c.node in s.scheduled && n != END
    requires w in g.waiting && w.target == n && n in c.fired && c.node in w.sources
    requires FiringLaw(s.log, w, {}) && FiringLaw(s'.log, w, {})
    ensures Once(g, s', n)
  {
    var m := c.node;
    CompletionsAppend(s.log, c, n);
    CompletionsAppend(s.log, c, m);
    FiringsBoundedBySource(s.log, w, {}, m);
    FiringsBoundedBySource(s'.log, w, {}, m);
    assert Completions(s.log, m) == 0;
    assert forall e | e in g.edges && e.target == n :: e.source == START;
  }

  lemma ReapOnce(g: Graph, entry: seq<Node>, s: State, t: nat, route: Routing, n: Node)
    requires UniqueJoins(g) && StaticOnly(g) && OneChannel(g, entry)
    requires Enabled(s, Reap(t, route)) && Bounded(g.recursionLimit, s) && s.running[t].phase.Succeeded?
    requires AllAccounted(g, s) && AllAccounted(g, Step(g, s, Reap(t, route)))
    requires Step(g, s, Reap(t, route)).status.Active?
    requires n != END && Once(g, s, n) && Once(g, s, s.running[t].node)
    ensures Once(g, Step(g, s, Reap(t, route)), n)
  {
    var m, s' := s.running[t].node, Step(g, s, Reap(t, route));
    assert m in s.scheduled;
    var s1 := s.(running := s.running - {t}, scheduled := s.scheduled - {m});
    AdvanceReaches(g, s1, m, route, false);
    var h := Successors(g, m, route, s1.arrivals);
    var c := Call(m, h.joined.fired);
    if n !in h.out {
      QuietOnce(g, s, s', c, n);
    } else {
      HopReasons(g, m, route, s1.arrivals, n);
      if Edge(m, n) in g.edges {
        EdgeOnce(g, entry, s, s', c, n);
      } else {
        var w :| w in g.waiting && w.target == n && m in w.sources;
        var i :| 0 <= i < |g.waiting| && g.waiting[i] == w;
        assert Accounted(w, {}, s) && Accounted(w, {}, s');
        JoinOnce(g, entry, s, s', c, n, w);
      }
    }
  }

  lemma StepOnce(g: Graph, entry: seq<Node>, s: State, a: Action, n: Node)
    requires UniqueJoins(g) && StaticOnly(g) && OneChannel(g, entry)
    requires Enabled(s, a) && Bounded(g.recursionLimit, s)
    requires AllAccounted(g, s) && AllAccounted(g, Step(g, s, a))
    requires Step(g, s, a).status.Active?
    requires n != END && Once(g, s, n) && Once(g, s, s.running[a.task].node)
    ensures Once(g, Step(g, s, a), n)
  {
    if a.Reap? && s.running[a.task].phase.Succeeded? {
      ReapOnce(g, entry, s, a.task, a.route, n);
    }
  }

  lemma FreshOnce(g: Graph, entry: seq<Node>, n: Node)
    requires OneChannel(g, entry) && n != END && Fresh(g, entry).status.Active?
    ensures Once(g, Fresh(g, entry), n)
  {
    SpawnAllSchedules(g.recursionLimit, Start({}, map[]), entry);
    SpawnAllFrame(g.recursionLimit, Start({}, map[]), entry);
  }

  lemma {:induction false} RunOnce(g: Graph, entry: seq<Node>, acts: seq<Action>, n: Node)
    requires UniqueJoins(g) && StaticOnly(g) && OneChannel(g, entry) && n != END
    requires Legal(g, Fresh(g, entry), acts) && Exec(g, Fresh(g, entry), acts).status.Active?
    ensures Once(g, Exec(g, Fresh(g, entry), acts), n)
    decreases |acts|
  {
    if acts == [] {
      FreshOnce(g, entry, n);
    } else {
      var init, a := acts[..|acts| - 1], acts[|acts| - 1];
      var s := Exec(g, Fresh(g, entry), init);
      FreshBookkeeping(g, entry, init);
      FreshBookkeeping(g, entry, acts);
      RunOnce(g, entry, init, n);
      RunOnce(g, entry, init, s.running[a.task].node);
      StepOnce(g, entry, s, a, n);
    }
  }

  lemma {:induction false} CountedTwice(log: seq<Call>, j: nat, k: nat)
    requires j < k < |log| && log[j].node == log[k].node
    ensures Completions(log, log[k].node) >= 2
  {
    var last := |log| - 1;
    if k < last {
      CountedTwice(log[..last], j, k);
    } else {
      CountedOnce(log[..last], j);
    }
  }

  lemma {:induction false} CountedOnce(log: seq<Call>, j: nat)
    requires j < |log|
    ensures Completions(log, log[j].node) >= 1
  {
    var last := |log| - 1;
    if j < last {
      CountedOnce(log[..last], j);
    }
  }

  /** On such a graph no fresh run completes a node twice, or runs a completed node
      again, in any of its states. */
  lemma NobodyRunsTwice(g: Graph, entry: seq<Node>, acts: seq<Action>)
    requires UniqueJoins(g) && StaticOnly(g) && OneChannel(g, entry)
    requires Legal(g, Fresh(g, entry), acts) && Exec(g, Fresh(g, entry), acts).status.Active?
    ensures DistinctCalls(Exec(g, Fresh(g, entry), acts).log)
    ensures var s := Exec(g, Fresh(g, entry), acts); Settled(s.log) !! s.scheduled
  {
    var s := Exec(g, Fresh(g, entry), acts);
    FreshBookkeeping(g, entry, acts);
    EndNeverSettles(g, entry, acts);
    forall j, k | 0 <= j < k < |s.log| ensures s.log[j].node != s.log[k].node {
      assert s.log[k].node in Settled(s.log);
      RunOnce(g, entry, acts, s.log[k].node);
      if s.log[j].node == s.log[k].node {
        CountedTwice(s.log, j, k);
      }
    }
    forall n | n in Settled(s.log) ensures n !in s.scheduled {
      var j :| 0 <= j < |s.log| && s.log[j].node == n;
      CountedOnce(s.log, j);
      RunOnce(g, entry, acts, n);
    }
  }
}
