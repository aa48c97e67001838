/** Resumed runs: the arrival table is pre-seeded from nodes already done, and
    skipped nodes are advanced without being run. */
module WorkflowResume {
  import opened Sequences
  import opened WorkflowGraph
  import opened WorkflowStep
  import opened WorkflowHistory
  import opened WorkflowFixpoint
  import opened WorkflowHops

  /** The completed sources of every waiting edge into `t`. */
  function Present(ws: seq<WaitingEdge>, completed: set<Node>, t: Node): set<Node> {
    set s | s in completed && Feeds(ws, t, s)
  }

  function PrefillEdge(sources: seq<Node>, t: Node, completed: set<Node>, a: Arrivals): Arrivals {
    if sources == [] then a
    else
      var k := |sources| - 1;
      var before := PrefillEdge(sources[..k], t, completed, a);
      if sources[k] in completed then before[t := Arrived(before, t) + {sources[k]}] else before
  }

  /** The seeded arrival table. */
  function Prefill(ws: seq<WaitingEdge>, completed: set<Node>): Arrivals {
    if ws == [] then map[]
    else
      var k := |ws| - 1;
      PrefillEdge(ws[k].sources, ws[k].target, completed, Prefill(ws[..k], completed))
  }

  method PrefillTriggerCount(ws: seq<WaitingEdge>, completed: set<Node>) returns (a: Arrivals)
    ensures a == Prefill(ws, completed)
    ensures forall t :: Arrived(a, t) == Present(ws, completed, t)
  {
    a := map[];
    for i := 0 to |ws|
      invariant a == Prefill(ws[..i], completed)
    {
      var w := ws[i];
      assert ws[..i + 1][..i] == ws[..i];
      ghost var before := a;
      for k := 0 to |w.sources|
        invariant a == PrefillEdge(w.sources[..k], w.target, completed, before)
      {
        var s := w.sources[k];
        assert w.sources[..k + 1][..k] == w.sources[..k];
        if s in completed {
          a := a[w.target := Arrived(a, w.target) + {s}];
        }
      }
      assert w.sources[..|w.sources|] == w.sources;
    }
    assert ws[..|ws|] == ws;
    forall t ensures Arrived(a, t) == Present(ws, completed, t) {
      PrefillArrived(ws, completed, t);
    }
  }

  lemma {:induction false} PrefillEdgeArrived(sources: seq<Node>, t: Node, completed: set<Node>, a: Arrivals, u: Node)
    ensures Arrived(PrefillEdge(sources, t, completed, a), u) ==
            Arrived(a, u) + if u == t then set s | s in sources && s in completed else {}
  {
    if sources == [] {
    } else {
      var k := |sources| - 1;
      assert sources == sources[..k] + [sources[k]];
      PrefillEdgeArrived(sources[..k], t, completed, a, u);
    }
  }

  /** Seeding puts exactly the completed sources of a target into its arrival set. */
  lemma {:induction false} PrefillArrived(ws: seq<WaitingEdge>, completed: set<Node>, t: Node)
    ensures Arrived(Prefill(ws, completed), t) == Present(ws, completed, t)
  {
    if ws == [] {
    } else {
      var k := |ws| - 1;
      assert ws == ws[..k] + [ws[k]];
      PrefillArrived(ws[..k], completed, t);
      PrefillEdgeArrived(ws[k].sources, ws[k].target, completed, Prefill(ws[..k], completed), t);
      forall s ensures s in Present(ws, completed, t) <==>
                       || s in Present(ws[..k], completed, t)
                       || (s in completed && ws[k].target == t && s in ws[k].sources)
      {
        FeedsAppend(ws[..k], ws[k], t, s);
      }
    }
  }

  // ------------------------------------------------------------------
  // The three ways to resume
  // ------------------------------------------------------------------

  datatype Launch = Launch(completed: set<Node>, arrivals: Arrivals, skipped: seq<Node>, execute: seq<Node>)

  function NameSet(ns: seq<Node>): set<Node> {
    set n | n in ns
  }

  /** The launch is one a resume builds: seeded from exactly its completed set. */
  ghost predicate IsPrefilled(g: Graph, l: Launch) {
    l.arrivals == Prefill(g.waiting, l.completed)
  }

  function Prefilled(g: Graph, completed: set<Node>, skipped: seq<Node>, execute: seq<Node>): Launch {
    Launch(completed, Prefill(g.waiting, completed), skipped, execute)
  }

  /** `done` is what the run record says succeeded or was skipped. */
  function Resume(g: Graph, done: set<Node>, fromNodes: seq<Node>): (l: Launch)
    ensures IsPrefilled(g, l)
  {
    Prefilled(g, done - NameSet(fromNodes), [], fromNodes)
  }

  function ResumeSkip(g: Graph, done: set<Node>, skipNodes: seq<Node>): (l: Launch)
    ensures IsPrefilled(g, l)
  {
    Prefilled(g, done + NameSet(skipNodes), skipNodes, [])
  }

  function ResumeSkipAndFrom(g: Graph, done: set<Node>, skipNodes: seq<Node>, fromNodes: seq<Node>): (l: Launch)
    ensures IsPrefilled(g, l)
  {
    Prefilled(g, done + NameSet(skipNodes) - NameSet(fromNodes), skipNodes, fromNodes)
  }

  /** What each variant seeds: an arrival for exactly the sources that are done or
      skipped and not about to run again. */
  lemma ResumeSeeds(g: Graph, done: set<Node>, skipNodes: seq<Node>, fromNodes: seq<Node>, t: Node, s: Node)
    ensures s in Arrived(Resume(g, done, fromNodes).arrivals, t) <==>
              Feeds(g.waiting, t, s) && s in done && s !in fromNodes
    ensures s in Arrived(ResumeSkip(g, done, skipNodes).arrivals, t) <==>
              Feeds(g.waiting, t, s) && (s in done || s in skipNodes)
    ensures s in Arrived(ResumeSkipAndFrom(g, done, skipNodes, fromNodes).arrivals, t) <==>
              Feeds(g.waiting, t, s) && (s in done || s in skipNodes) && s !in fromNodes
  {
    PrefillArrived(g.waiting, Resume(g, done, fromNodes).completed, t);
    PrefillArrived(g.waiting, ResumeSkip(g, done, skipNodes).completed, t);
    PrefillArrived(g.waiting, ResumeSkipAndFrom(g, done, skipNodes, fromNodes).completed, t);
  }

  function Launched(g: Graph, l: Launch, routes: nat -> Routing): State {
    Seed(g, Start(l.completed, l.arrivals), l.skipped, l.execute, routes)
  }

  lemma SeedIsCompletedSources(g: Graph, i: nat, l: Launch)
    requires OnlyJoin(g.waiting, i) && IsPrefilled(g, l)
    ensures Arrived(l.arrivals, g.waiting[i].target) == SourceSet(g.waiting[i]) * l.completed
  {
    var w := g.waiting[i];
    PrefillArrived(g.waiting, l.completed, w.target);
    forall s ensures Feeds(g.waiting, w.target, s) <==> s in w.sources {
      if s in w.sources {
        assert g.waiting[i].target == w.target && s in g.waiting[i].sources;
      }
    }
  }

  // ------------------------------------------------------------------
  // Seeding serves what it triggers
  // ------------------------------------------------------------------

  lemma {:induction false} SeedSkippedServes(g: Graph, s: State, skipped: seq<Node>, routes: nat -> Routing)
    requires s.status.Active? && Served(g, [], s)
    requires SeedSkipped(g, s, skipped, routes).status.Active?
    ensures Served(g, [], SeedSkipped(g, s, skipped, routes))
  {
    if skipped == [] {
    } else {
      var k := |skipped| - 1;
      var before := SeedSkipped(g, s, skipped[..k], routes);
      SeedSkippedServes(g, s, skipped[..k], routes);
      AdvanceServes(g, [], before, before, skipped[k], routes(k), true);
    }
  }

  lemma LaunchServes(g: Graph, l: Launch, routes: nat -> Routing)
    requires Launched(g, l, routes).status.Active?
    ensures Served(g, l.execute, Launched(g, l, routes))
  {
    var s0 := Start(l.completed, l.arrivals);
    var before := SeedSkipped(g, s0, l.skipped, routes);
    var s := Launched(g, l, routes);
    SeedSkippedServes(g, s0, l.skipped, routes);
    SpawnAllFrame(g.recursionLimit, before, l.execute);
    SpawnAllSchedules(g.recursionLimit, before, l.execute);
    assert Reached(before) <= Reached(s);
  }

  // ------------------------------------------------------------------
  // Main results
  // ------------------------------------------------------------------

  /** After any resume, the arrival table accounts for completed and reaped sources alike. */
  lemma ResumedAccounting(g: Graph, i: nat, l: Launch, routes: nat -> Routing, acts: seq<Action>)
    requires OnlyJoin(g.waiting, i) && IsPrefilled(g, l)
    requires Legal(g, Launched(g, l, routes), acts)
    ensures Accounted(g.waiting[i], SourceSet(g.waiting[i]) * l.completed, Exec(g, Launched(g, l, routes), acts))
  {
    JoinAccounting(g, i, l.completed, l.arrivals, l.skipped, l.execute, routes, acts);
    SeedIsCompletedSources(g, i, l);
  }

  /** In any resumed run free of errors so far, a fired join's target has been
      settled or is in flight. */
  lemma FiredTargetServed(g: Graph, l: Launch, routes: nat -> Routing, acts: seq<Action>, t: Node)
    requires Legal(g, Launched(g, l, routes), acts)
    requires var s := Exec(g, Launched(g, l, routes), acts);
             s.status.Active? && s.errors == [] && t != END && Fires(s.log, t) >= 1
    ensures t in Reached(Exec(g, Launched(g, l, routes), acts))
  {
    var s0, s := Launched(g, l, routes), Exec(g, Launched(g, l, routes), acts);
    if s0.status.Active? {
      LaunchServes(g, l, routes);
    }
    RunServes(g, l.execute, s0, acts);
    FiredCounts(s.log, t);
    var j :| 0 <= j < |s.log| && t in s.log[j].fired;
    assert s.log[j] in s.log;
  }

  /** After any resume, a join whose sources are all already completed or reaped
      in this run, at least one of them in this run, has fired; and if nothing
      failed so far its target has been settled or is in flight. */
  lemma ResumedJoinFires(g: Graph, i: nat, l: Launch, routes: nat -> Routing, acts: seq<Action>, s: State)
    requires OnlyJoin(g.waiting, i) && IsPrefilled(g, l)
    requires Legal(g, Launched(g, l, routes), acts) && s == Exec(g, Launched(g, l, routes), acts)
    requires SourceSet(g.waiting[i]) <= l.completed + Settled(s.log)
    requires SourceSet(g.waiting[i]) * Settled(s.log) != {}
    ensures Fires(s.log, g.waiting[i].target) >= 1
    ensures s.status.Active? && s.errors == [] && g.waiting[i].target != END ==> g.waiting[i].target in Reached(s)
  {
    var w := g.waiting[i];
    ResumedAccounting(g, i, l, routes, acts);
    JoinFiresWhenAllArrived(s.log, w, SourceSet(w) * l.completed);
    if s.status.Active? && s.errors == [] && w.target != END {
      FiredTargetServed(g, l, routes, acts, w.target);
    }
  }

  lemma AdvanceLogs(g: Graph, s: State, n: Node, route: Routing, seeding: bool)
    requires s.status.Active?
    ensures var log := Advance(g, s, n, route, seeding).log;
            log == s.log || (|log| == |s.log| + 1 && log[..|s.log|] == s.log && log[|s.log|].node == n)
    ensures Advance(g, s, n, route, seeding).status.Active? ==> |Advance(g, s, n, route, seeding).log| == |s.log| + 1
  {
    match Successors(g, n, route, s.arrivals) {
      case LlmPause(e) =>
      case RouterError =>
      case Hops(out, joined) =>
        SpawnAllFrame(g.recursionLimit, s.(arrivals := joined.arrivals, log := s.log + [Call(n, joined.fired)]), out);
    }
  }

  /** The calls of `log` are those of the first skipped nodes, in order. */
  ghost predicate Follows(log: seq<Call>, skipped: seq<Node>) {
    |log| <= |skipped| && forall j | 0 <= j < |log| :: log[j].node == skipped[j]
  }

  lemma FollowsOneMore(log: seq<Call>, log': seq<Call>, skipped: seq<Node>, n: Node)
    requires Follows(log, skipped)
    requires log' == log || (|log| == |skipped| && |log'| == |log| + 1 && log'[..|log|] == log && log'[|log|].node == n)
    ensures Follows(log', skipped + [n])
  {
    forall j | 0 <= j < |log'| ensures log'[j].node == (skipped + [n])[j] {
      assert j < |log| ==> log'[j] == log'[..|log|][j];
    }
  }

  lemma {:induction false} LogFollowsSkips(g: Graph, s: State, skipped: seq<Node>, routes: nat -> Routing)
    requires s.status.Active? && s.log == []
    ensures var s' := SeedSkipped(g, s, skipped, routes);
            Follows(s'.log, skipped) && (s'.status.Active? ==> |s'.log| == |skipped|)
  {
    if skipped == [] {
    } else {
      var init, n := skipped[..|skipped| - 1], skipped[|skipped| - 1];
      LogFollowsSkips(g, s, init, routes);
      var before := SeedSkipped(g, s, init, routes);
      if before.status.Active? {
        AdvanceLogs(g, before, n, routes(|init|), true);
      }
      FollowsOneMore(before.log, SeedSkipped(g, s, skipped, routes).log, init, n);
      SplitLast([], skipped);
      assert [] + skipped == skipped && [] + init == init;
    }
  }

  /** Skipping distinct nodes whose join sources are then all completed fires
      that join exactly once while the run is being seeded. */
  lemma SkipFiresJoinOnce(g: Graph, i: nat, l: Launch, routes: nat -> Routing, s: State)
    requires OnlyJoin(g.waiting, i) && IsPrefilled(g, l)
    requires forall j, k | 0 <= j < k < |l.skipped| :: l.skipped[j] != l.skipped[k]
    requires SourceSet(g.waiting[i]) <= l.completed
    requires NameSet(l.skipped) * SourceSet(g.waiting[i]) != {}
    requires s == SeedSkipped(g, Start(l.completed, l.arrivals), l.skipped, routes) && s.status.Active?
    ensures Fires(s.log, g.waiting[i].target) == 1
  {
    var s0, w := Start(l.completed, l.arrivals), g.waiting[i];
    var seed := SourceSet(w) * l.completed;
    SeedIsCompletedSources(g, i, l);
    SeedSkippedAccounts(g, i, seed, s0, l.skipped, routes);
    LogFollowsSkips(g, s0, l.skipped, routes);
    DistinctCallsFireOnce(s.log, w, seed);
    var n :| n in NameSet(l.skipped) * SourceSet(w);
    var m :| 0 <= m < |l.skipped| && l.skipped[m] == n;
    assert s.log[m] in s.log;
    assert n in SourceSet(w) * Settled(s.log);
    JoinFiresWhenAllArrived(s.log, w, seed);
  }

  // ------------------------------------------------------------------
  // What each variant runs
  // ------------------------------------------------------------------

  /** Re-running puts exactly the asked nodes in flight, counts all other done nodes as
      completed, and skips nothing. */
  lemma ResumeRuns(g: Graph, done: set<Node>, fromNodes: seq<Node>, routes: nat -> Routing, n: Node)
    requires Launched(g, Resume(g, done, fromNodes), routes).status.Active?
    ensures var s := Launched(g, Resume(g, done, fromNodes), routes);
            && (n in s.scheduled <==> n in fromNodes && n != END)
            && (n in s.completed <==> n in done && n !in fromNodes)
            && s.log == []
  {
    var l := Resume(g, done, fromNodes);
    SpawnAllFrame(g.recursionLimit, Start(l.completed, l.arrivals), l.execute);
    SpawnAllSchedules(g.recursionLimit, Start(l.completed, l.arrivals), l.execute);
  }

  /** The nodes of the history are exactly those of `skipNodes`, in order. */
  ghost predicate LogIs(log: seq<Call>, skipNodes: seq<Node>) {
    Follows(log, skipNodes) && |log| == |skipNodes|
  }

  /** Skipping takes exactly the asked nodes as just finished, in order, completes them
      without running them, and puts exactly what they lead to in flight. */
  lemma ResumeSkipRuns(g: Graph, done: set<Node>, skipNodes: seq<Node>, routes: nat -> Routing, n: Node)
    requires Launched(g, ResumeSkip(g, done, skipNodes), routes).status.Active?
    ensures var s := Launched(g, ResumeSkip(g, done, skipNodes), routes);
            && LogIs(s.log, skipNodes)
            && (n in s.completed <==> n in done || n in skipNodes)
            && s.scheduled == SkipHops(g, ResumeSkip(g, done, skipNodes), skipNodes, routes)
  {
    var l := ResumeSkip(g, done, skipNodes);
    LogFollowsSkips(g, Start(l.completed, l.arrivals), skipNodes, routes);
    SkippingSchedules(g, l, skipNodes, routes);
    var before := SeedSkipped(g, Start(l.completed, l.arrivals), skipNodes, routes);
    SpawnAllFrame(g.recursionLimit, before, l.execute);
    SpawnAllSchedules(g.recursionLimit, before, l.execute);
  }

  /** The combination does both. */
  lemma ResumeSkipAndFromRuns(g: Graph, done: set<Node>, skipNodes: seq<Node>, fromNodes: seq<Node>,
                              routes: nat -> Routing, n: Node)
    requires Launched(g, ResumeSkipAndFrom(g, done, skipNodes, fromNodes), routes).status.Active?
    ensures var l := ResumeSkipAndFrom(g, done, skipNodes, fromNodes);
            var s := Launched(g, l, routes);
            && LogIs(s.log, skipNodes)
            && (n in s.completed <==> (n in done || n in skipNodes) && n !in fromNodes)
            && (n in s.scheduled <==> n in SkipHops(g, l, skipNodes, routes) || (n in fromNodes && n != END))
  {
    var l := ResumeSkipAndFrom(g, done, skipNodes, fromNodes);
    LogFollowsSkips(g, Start(l.completed, l.arrivals), skipNodes, routes);
    SkippingSchedules(g, l, skipNodes, routes);
    var before := SeedSkipped(g, Start(l.completed, l.arrivals), skipNodes, routes);
    SpawnAllFrame(g.recursionLimit, before, l.execute);
    SpawnAllSchedules(g.recursionLimit, before, l.execute);
  }

  /** What the skipped nodes lead to. */
  ghost function SkipHops(g: Graph, l: Launch, skipped: seq<Node>, routes: nat -> Routing): set<Node> {
    if skipped == [] then {}
    else
      var k := |skipped| - 1;
      var before := SeedSkipped(g, Start(l.completed, l.arrivals), skipped[..k], routes);
      var h := Successors(g, skipped[k], routes(k), before.arrivals);
      SkipHops(g, l, skipped[..k], routes) + if h.Hops? then set m | m in h.out && m != END else {}
  }

  lemma {:induction false} SkippingSchedules(g: Graph, l: Launch, skipped: seq<Node>, routes: nat -> Routing)
    requires SeedSkipped(g, Start(l.completed, l.arrivals), skipped, routes).status.Active?
    ensures var s := SeedSkipped(g, Start(l.completed, l.arrivals), skipped, routes);
            s.scheduled == SkipHops(g, l, skipped, routes) && s.completed == l.completed
  {
    if skipped == [] {
    } else {
      var k := |skipped| - 1;
      var before := SeedSkipped(g, Start(l.completed, l.arrivals), skipped[..k], routes);
      SkippingSchedules(g, l, skipped[..k], routes);
      AdvanceReaches(g, before, skipped[k], routes(k), true);
    }
  }

  // ------------------------------------------------------------------
  // What is in flight gets done
  // ------------------------------------------------------------------

  /** `n` is completed or still in flight, and whatever succeeded is completed. */
  ghost predicate OnItsWay(s: State, n: Node) {
    (n in s.completed || n in s.scheduled) && SucceededNames(s.running) <= s.completed
  }

  lemma StepOnItsWay(g: Graph, s: State, a: Action, n: Node)
    requires Enabled(s, a) && Bounded(g.recursionLimit, s) && OnItsWay(s, n)
    requires Step(g, s, a).status.Active? && Step(g, s, a).errors == s.errors
    ensures OnItsWay(Step(g, s, a), n)
  {
    var s' := Step(g, s, a);
    NamesSplit(s.running, a.task);
    match a {
      case Finish(t, ok) =>
        NamesSplit(s'.running, t);
        assert s'.running - {t} == s.running - {t};
      case Reap(t, route) =>
        var m := s.running[t].node;
        var s1 := s.(running := s.running - {t}, scheduled := s.scheduled - {m});
        AdvanceReaches(g, s1, m, route, false);
        var h := Successors(g, m, route, s1.arrivals);
        SpawnAllNames(g.recursionLimit,
                      s1.(arrivals := h.joined.arrivals, log := s1.log + [Call(m, h.joined.fired)]), h.out);
    }
  }

  lemma {:induction false} RunOnItsWay(g: Graph, s: State, acts: seq<Action>, n: Node)
    requires Bounded(g.recursionLimit, s) && 0 <= Fuel(g.recursionLimit, s) && Legal(g, s, acts)
    requires s.status.Active? && s.errors == [] ==> OnItsWay(s, n)
    requires Exec(g, s, acts).status.Active? && Exec(g, s, acts).errors == []
    ensures OnItsWay(Exec(g, s, acts), n)
    decreases |acts|
  {
    if acts == [] {
    } else {
      var init, a := acts[..|acts| - 1], acts[|acts| - 1];
      StepMonotone(g, Exec(g, s, init), a);
      RunsAreBounded(g, s, init);
      RunOnItsWay(g, s, init, n);
      StepOnItsWay(g, Exec(g, s, init), a, n);
    }
  }

  lemma {:induction false} SkippingSucceeds(g: Graph, l: Launch, skipped: seq<Node>, routes: nat -> Routing)
    requires SeedSkipped(g, Start(l.completed, l.arrivals), skipped, routes).status.Active?
    ensures var s := SeedSkipped(g, Start(l.completed, l.arrivals), skipped, routes);
            SucceededNames(s.running) == {} && forall t | t in s.running :: t <= s.activations
  {
    if skipped == [] {
    } else {
      var k := |skipped| - 1;
      var before := SeedSkipped(g, Start(l.completed, l.arrivals), skipped[..k], routes);
      SkippingSucceeds(g, l, skipped[..k], routes);
      AdvanceReaches(g, before, skipped[k], routes(k), true);
      var h := Successors(g, skipped[k], routes(k), before.arrivals);
      SpawnAllNames(g.recursionLimit,
                    before.(arrivals := h.joined.arrivals, log := before.log + [Call(skipped[k], h.joined.fired)]),
                        h.out);
    }
  }

  /** Whatever a launch puts in flight is completed once its run has drained without
      error: in particular every node that a resume was asked to run again. */
  lemma LaunchedIsCompleted(g: Graph, l: Launch, routes: nat -> Routing, acts: seq<Action>, n: Node)
    requires Legal(g, Launched(g, l, routes), acts)
    requires Drained(Exec(g, Launched(g, l, routes), acts)) && Exec(g, Launched(g, l, routes), acts).errors == []
    requires n in Launched(g, l, routes).scheduled
    ensures n in Exec(g, Launched(g, l, routes), acts).completed
  {
    var s0, s := Launched(g, l, routes), Exec(g, Launched(g, l, routes), acts);
    DriverTerminates(g, l.completed, l.arrivals, l.skipped, l.execute, routes, acts);
    SeedBounded(g, l.completed, l.arrivals, l.skipped, l.execute, routes);
    if s0.status.Active? {
      var before := SeedSkipped(g, Start(l.completed, l.arrivals), l.skipped, routes);
      SkippingSucceeds(g, l, l.skipped, routes);
      SpawnAllNames(g.recursionLimit, before, l.execute);
    }
    RunOnItsWay(g, s0, acts, n);
    assert Names(s.running) == {};
  }

  /** A drained error-free resume completed every node it was asked to run. */
  lemma ResumeCompletes(g: Graph, done: set<Node>, fromNodes: seq<Node>, routes: nat -> Routing, acts: seq<Action>,
                        n: Node)
    requires Legal(g, Launched(g, Resume(g, done, fromNodes), routes), acts)
    requires Drained(Exec(g, Launched(g, Resume(g, done, fromNodes), routes), acts))
    requires Exec(g, Launched(g, Resume(g, done, fromNodes), routes), acts).errors == []
    requires n in fromNodes && n != END
    ensures n in Exec(g, Launched(g, Resume(g, done, fromNodes), routes), acts).completed
  {
    var l := Resume(g, done, fromNodes);
    WasActive(g, Launched(g, l, routes), acts);
    ResumeRuns(g, done, fromNodes, routes, n);
    LaunchedIsCompleted(g, l, routes, acts, n);
  }

  lemma ResumeSkipAndFromCompletes(g: Graph, done: set<Node>, skipNodes: seq<Node>, fromNodes: seq<Node>,
                                   routes: nat -> Routing, acts: seq<Action>, n: Node)
    requires Legal(g, Launched(g, ResumeSkipAndFrom(g, done, skipNodes, fromNodes), routes), acts)
    requires Drained(Exec(g, Launched(g, ResumeSkipAndFrom(g, done, skipNodes, fromNodes), routes), acts))
    requires Exec(g, Launched(g, ResumeSkipAndFrom(g, done, skipNodes, fromNodes), routes), acts).errors == []
    requires n in fromNodes && n != END
    ensures n in Exec(g, Launched(g, ResumeSkipAndFrom(g, done, skipNodes, fromNodes), routes), acts).completed
  {
    var l := ResumeSkipAndFrom(g, done, skipNodes, fromNodes);
    WasActive(g, Launched(g, l, routes), acts);
    ResumeSkipAndFromRuns(g, done, skipNodes, fromNodes, routes, n);
    LaunchedIsCompleted(g, l, routes, acts, n);
  }
}
