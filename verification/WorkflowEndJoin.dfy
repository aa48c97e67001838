/** A concrete graph on which the stall verdict depends on scheduling: two entry
    nodes, of which "b" also activates "a", and a join of both into END. All sources
    of the join are inside the least closed set and "a" has two channels. */
module WorkflowEndJoin {
  import opened WorkflowGraph
  import opened WorkflowStep
  import opened WorkflowHistory
  import opened WorkflowFixpoint
  import opened WorkflowStall

  const DEMO := Graph([Edge(START, "a"), Edge(START, "b"), Edge("b", "a")], [WaitingEdge(["a", "b"], END)], [], [], 100)
  const ENTRY: seq<Node> := EntryNodes(DEMO)

  const NO_ROUTE: Routing := k => Raises

  lemma ExecOne(g: Graph, s: State, acts: seq<Action>, a: Action)
    requires Legal(g, s, acts) && Enabled(Exec(g, s, acts), a)
    ensures Legal(g, s, acts + [a]) && Exec(g, s, acts + [a]) == Step(g, Exec(g, s, acts), a)
  {
    assert (acts + [a])[..|acts|] == acts;
  }

  lemma ThreeEdges(e0: Edge, e1: Edge, e2: Edge, n: Node)
    ensures StaticHops([e0, e1, e2], n) ==
            (if e0.source == n then [e0.target] else []) + (if e1.source == n then [e1.target] else [])
            + if e2.source == n then [e2.target] else []
    ensures StartTargets([e0, e1, e2]) ==
            (if e0.source == START then [e0.target] else []) + (if e1.source == START then [e1.target] else [])
            + if e2.source == START then [e2.target] else []
  {
    assert [e0, e1, e2][..2] == [e0, e1] && [e0, e1][..1] == [e0] && [e0][..0] == [];
    assert StaticHops([e0], n) == if e0.source == n then [e0.target] else [];
    assert StartTargets([e0]) == if e0.source == START then [e0.target] else [];
  }

  lemma DemoEntry()
    ensures ENTRY == ["a", "b"]
  {
    ThreeEdges(Edge(START, "a"), Edge(START, "b"), Edge("b", "a"), START);
    assert StartTargets(DEMO.edges) == ["a", "b"];
    assert ["a", "b"][..1] == ["a"] && ["a"][..0] == [];
    assert Dedup(["a"]) == ["a"];
  }

  lemma DemoStart()
    ensures Fresh(DEMO, ENTRY) ==
            State({}, map[], map[1 := Task("a", Working), 2 := Task("b", Working)], {"a", "b"}, 2, [], Active, [])
  {
    DemoEntry();
    assert ENTRY[..1] == ["a"] && ["a"][..0] == [];
    var s0 := Start({}, map[]);
    assert SpawnAll(100, s0, []) == s0;
    assert SpawnAll(100, s0, ["a"]) == Spawn(100, s0, "a");
  }

  lemma DemoHops(n: Node)
    requires n == "a" || n == "b"
    ensures StaticHops(DEMO.edges, n) == if n == "b" then ["a"] else []
  {
    ThreeEdges(Edge(START, "a"), Edge(START, "b"), Edge("b", "a"), n);
  }

  lemma DemoJoins(n: Node, a: Arrivals)
    requires n == "a" || n == "b"
    ensures var got := Arrived(a, END) + {n};
            Joins(DEMO.waiting, n, a) ==
            if {"a", "b"} <= got then Joined(a[END := {}], [END]) else Joined(a[END := got], [])
  {
    var w := WaitingEdge(["a", "b"], END);
    assert SourceSet(w) == {"a", "b"};
    assert [w][..0] == [];
    assert Joins([], n, a) == Joined(a, []);
    assert Joins([w], n, a) == Arrive(w, n, a);
  }

  /** Reaping "a" only adds to the join; reaping "b" also spawns "a" unless in flight. */
  lemma DemoAdvance(s: State, n: Node)
    requires s.status.Active? && (n == "a" || n == "b")
    ensures var joined := Joins(DEMO.waiting, n, s.arrivals);
            var s1 := s.(arrivals := joined.arrivals, log := s.log + [Call(n, joined.fired)]);
            Advance(DEMO, s, n, NO_ROUTE, false) == if n == "b" then Spawn(100, s1, "a") else s1
  {
    DemoHops(n);
    DemoJoins(n, s.arrivals);
    var hops, joined := StaticHops(DEMO.edges, n), Joins(DEMO.waiting, n, s.arrivals);
    assert Successors(DEMO, n, NO_ROUTE, s.arrivals) == Hops([] + hops + joined.fired, joined);
    assert [] + hops == hops;
    SpawnFewAndEnd(s.(arrivals := joined.arrivals, log := s.log + [Call(n, joined.fired)]), hops, joined.fired);
  }

  /** What remains in flight after reaping `n`. */
  function AfterReap(s: State, t: nat, n: Node): State {
    var idle := s.(running := s.running - {t}, scheduled := s.scheduled - {n});
    if n == "b" then Spawn(100, idle, "a") else idle
  }

  lemma DemoReapState(s: State, t: nat, n: Node)
    requires s.status.Active? && (n == "a" || n == "b") && t in s.running && s.running[t] == Task(n, Succeeded)
    ensures var joined := Joins(DEMO.waiting, n, s.arrivals);
            Step(DEMO, s, Reap(t, NO_ROUTE)) ==
            AfterReap(s, t, n).(arrivals := joined.arrivals, log := s.log + [Call(n, joined.fired)])
  {
    var idle := s.(running := s.running - {t}, scheduled := s.scheduled - {n});
    var joined := Joins(DEMO.waiting, n, s.arrivals);
    DemoAdvance(idle, n);
    SpawnFrame(100, idle, "a", joined.arrivals, s.log + [Call(n, joined.fired)]);
  }

  lemma DemoArrived(n: Node, a: Arrivals)
    requires n == "a" || n == "b"
    ensures var got := Arrived(a, END) + {n};
            Arrived(Joins(DEMO.waiting, n, a).arrivals, END) == if {"a", "b"} <= got then {} else got
  {
    DemoJoins(n, a);
  }

  /** One reap, in full. */
  lemma DemoReap(s: State, t: nat, n: Node)
    requires s.status.Active? && (n == "a" || n == "b") && t in s.running && s.running[t] == Task(n, Succeeded)
    ensures var s', next := Step(DEMO, s, Reap(t, NO_ROUTE)), AfterReap(s, t, n);
            var got := Arrived(s.arrivals, END) + {n};
            && Arrived(s'.arrivals, END) == (if {"a", "b"} <= got then {} else got)
            && Completions(s'.log, "a") == Completions(s.log, "a") + (if n == "a" then 1 else 0)
            && s' == next.(arrivals := s'.arrivals, log := s'.log)
  {
    DemoReapState(s, t, n);
    DemoArrived(n, s.arrivals);
    AppendUnfolds(s.log, Call(n, Joins(DEMO.waiting, n, s.arrivals).fired), END);
  }

  /** Spawning neither reads nor changes the table and the log. */
  lemma SpawnFrame(limit: int, s: State, n: Node, arrivals: Arrivals, log: seq<Call>)
    ensures Spawn(limit, s.(arrivals := arrivals, log := log), n) ==
            Spawn(limit, s, n).(arrivals := arrivals, log := log)
  {
  }

  lemma SpawnFewAndEnd(s: State, hops: seq<Node>, fired: seq<Node>)
    requires s.status.Active?
    requires hops == [] || hops == ["a"]
    requires fired == [] || fired == [END]
    ensures SpawnAll(100, s, hops + fired) == if hops == [] then s else Spawn(100, s, "a")
  {
    assert SpawnAll(100, s, []) == s;
    assert ["a"][..0] == [] && [END][..0] == [];
    assert hops + [] == hops && [] + fired == fired;
    if hops != [] && fired != [] {
      assert hops + fired == ["a", END];
      assert ["a", END][..1] == ["a"];
    }
  }

  /** Where a run of the demonstration graph stands. */
  ghost predicate Stands(s0: State, acts: seq<Action>, completed: set<Node>, running: map<nat, Task>, created: nat,
                         arrived: set<Node>, runsOfA: nat)
  {
    && Legal(DEMO, s0, acts)
    && var s := Exec(DEMO, s0, acts);
       && s.status.Active? && s.errors == [] && s.completed == completed
       && s.running == running && s.scheduled == Names(running) && s.activations == created
       && Arrived(s.arrivals, END) == arrived && Completions(s.log, "a") == runsOfA
  }

  lemma FinishOne(s0: State, acts: seq<Action>, completed: set<Node>, running: map<nat, Task>, created: nat,
                  arrived: set<Node>, runsOfA: nat, t: nat)
    requires Stands(s0, acts, completed, running, created, arrived, runsOfA)
    requires t in running && running[t].phase.Working?
    ensures Stands(s0, acts + [Finish(t, true)], completed + {running[t].node},
                   running[t := Task(running[t].node, Succeeded)], created, arrived, runsOfA)
  {
    ExecOne(DEMO, s0, acts, Finish(t, true));
    var running' := running[t := Task(running[t].node, Succeeded)];
    assert forall u | u in running :: running'[u].node == running[u].node;
  }

  lemma ReapA(s0: State, acts: seq<Action>, completed: set<Node>, running: map<nat, Task>, created: nat,
              arrived: set<Node>, runsOfA: nat, t: nat)
    requires Stands(s0, acts, completed, running, created, arrived, runsOfA)
    requires t in running && running[t] == Task("a", Succeeded) && "a" !in Names(running - {t})
    ensures Stands(s0, acts + [Reap(t, NO_ROUTE)], completed, running - {t}, created,
                   if "b" in arrived then {} else arrived + {"a"}, runsOfA + 1)
  {
    var s := Exec(DEMO, s0, acts);
    DemoReap(s, t, "a");
    ExecOne(DEMO, s0, acts, Reap(t, NO_ROUTE));
    NamesWithout(running, t);
  }

  lemma ReapB(s0: State, acts: seq<Action>, completed: set<Node>, running: map<nat, Task>, created: nat,
              arrived: set<Node>, runsOfA: nat, t: nat)
    requires Stands(s0, acts, completed, running, created, arrived, runsOfA)
    requires t in running && running[t] == Task("b", Succeeded) && "b" !in Names(running - {t})
    requires created < 100 && forall u | u in running :: u <= created
    ensures var busy := "a" in Names(running - {t});
            Stands(s0, acts + [Reap(t, NO_ROUTE)], completed,
                   if busy then running - {t} else (running - {t})[created + 1 := Task("a", Working)],
                   if busy then created else created + 1,
                   if "a" in arrived then {} else arrived + {"b"}, runsOfA)
  {
    var s := Exec(DEMO, s0, acts);
    DemoReap(s, t, "b");
    ExecOne(DEMO, s0, acts, Reap(t, NO_ROUTE));
    NamesWithout(running, t);
    if "a" !in Names(running - {t}) {
      NamesAdd(running - {t}, created + 1, Task("a", Working));
    }
  }

  lemma NamesWithout(running: map<nat, Task>, t: nat)
    requires t in running && running[t].node !in Names(running - {t})
    ensures Names(running - {t}) == Names(running) - {running[t].node}
  {
    forall n | n in Names(running) && n != running[t].node ensures n in Names(running - {t}) {
      var u :| u in running && running[u].node == n;
      assert u in running - {t};
    }
  }

  lemma DemoStands()
    ensures Stands(Fresh(DEMO, ENTRY), [], {}, WORKING, 2, {}, 0)
  {
    DemoStart();
    assert WORKING[1].node == "a" && WORKING[2].node == "b";
    assert Names(WORKING) == {"a", "b"};
  }

  const WORKING := map[1 := Task("a", Working), 2 := Task("b", Working)]
  const HALF := map[1 := Task("a", Succeeded), 2 := Task("b", Working)]
  const DONE := map[1 := Task("a", Succeeded), 2 := Task("b", Succeeded)]

  /** Maps of the tasks in flight along the two schedules. */
  lemma TaskMaps()
    ensures WORKING[1 := Task("a", Succeeded)] == HALF && HALF[2 := Task("b", Succeeded)] == DONE
    ensures DONE - {2} == map[1 := Task("a", Succeeded)] && HALF - {1} == map[2 := Task("b", Working)]
    ensures map[1 := Task("a", Succeeded)] - {1} == map[] && map[2 := Task("b", Succeeded)] - {2} == map[]
    ensures map[3 := Task("a", Succeeded)] - {3} == map[]
  {
  }

  lemma NamesOne(t: nat, task: Task)
    ensures Names(map[t := task]) == {task.node}
  {
    assert map[t := task][t] == task;
  }

  lemma NamesNone()
    ensures Names(map[]) == {}
  {
  }

  /** Both finish; then "b" is reaped while "a" is still in flight, and END fires on
      "a": nothing is left over. */
  lemma FinishA(s0: State)
    requires Stands(s0, [], {}, WORKING, 2, {}, 0)
    ensures Stands(s0, [] + [Finish(1, true)], {"a"}, HALF, 2, {}, 0)
  {
    FinishOne(s0, [], {}, WORKING, 2, {}, 0, 1);
    TaskMaps();
    assert {} + {"a"} == {"a"};
  }

  lemma CleanFinishB(s0: State, acts: seq<Action>)
    requires Stands(s0, acts, {"a"}, HALF, 2, {}, 0)
    ensures Stands(s0, acts + [Finish(2, true)], {"a", "b"}, DONE, 2, {}, 0)
  {
    FinishOne(s0, acts, {"a"}, HALF, 2, {}, 0, 2);
    TaskMaps();
    assert {"a"} + {"b"} == {"a", "b"};
  }

  lemma CleanReapB(s0: State, acts: seq<Action>)
    requires Stands(s0, acts, {"a", "b"}, DONE, 2, {}, 0)
    ensures Stands(s0, acts + [Reap(2, NO_ROUTE)], {"a", "b"}, map[1 := Task("a", Succeeded)], 2, {"b"}, 0)
  {
    TaskMaps();
    NamesOne(1, Task("a", Succeeded));
    ReapB(s0, acts, {"a", "b"}, DONE, 2, {}, 0, 2);
    assert {} + {"b"} == {"b"};
  }

  lemma CleanReapA(s0: State, acts: seq<Action>)
    requires Stands(s0, acts, {"a", "b"}, map[1 := Task("a", Succeeded)], 2, {"b"}, 0)
    ensures Stands(s0, acts + [Reap(1, NO_ROUTE)], {"a", "b"}, map[], 2, {}, 1)
  {
    TaskMaps();
    NamesNone();
    ReapA(s0, acts, {"a", "b"}, map[1 := Task("a", Succeeded)], 2, {"b"}, 0, 1);
  }

  /** "a" is reaped first: END fires when "b" arrives, then "a" runs a second time and
      its lone arrival is left in the table. */
  lemma LateReapA(s0: State, acts: seq<Action>)
    requires Stands(s0, acts, {"a"}, HALF, 2, {}, 0)
    ensures Stands(s0, acts + [Reap(1, NO_ROUTE)], {"a"}, map[2 := Task("b", Working)], 2, {"a"}, 1)
  {
    TaskMaps();
    NamesOne(2, Task("b", Working));
    ReapA(s0, acts, {"a"}, HALF, 2, {}, 0, 1);
    assert {} + {"a"} == {"a"};
  }

  lemma LateFinishB(s0: State, acts: seq<Action>)
    requires Stands(s0, acts, {"a"}, map[2 := Task("b", Working)], 2, {"a"}, 1)
    ensures Stands(s0, acts + [Finish(2, true)], {"a", "b"}, map[2 := Task("b", Succeeded)], 2, {"a"}, 1)
  {
    FinishOne(s0, acts, {"a"}, map[2 := Task("b", Working)], 2, {"a"}, 1, 2);
    assert map[2 := Task("b", Working)][2 := Task("b", Succeeded)] == map[2 := Task("b", Succeeded)];
    assert {"a"} + {"b"} == {"a", "b"};
  }

  lemma LateReapB(s0: State, acts: seq<Action>)
    requires Stands(s0, acts, {"a", "b"}, map[2 := Task("b", Succeeded)], 2, {"a"}, 1)
    ensures Stands(s0, acts + [Reap(2, NO_ROUTE)], {"a", "b"}, map[3 := Task("a", Working)], 3, {}, 1)
  {
    TaskMaps();
    NamesNone();
    ReapB(s0, acts, {"a", "b"}, map[2 := Task("b", Succeeded)], 2, {"a"}, 1, 2);
    assert map[][3 := Task("a", Working)] == map[3 := Task("a", Working)];
  }

  lemma LateFinishAgain(s0: State, acts: seq<Action>)
    requires Stands(s0, acts, {"a", "b"}, map[3 := Task("a", Working)], 3, {}, 1)
    ensures Stands(s0, acts + [Finish(3, true)], {"a", "b"}, map[3 := Task("a", Succeeded)], 3, {}, 1)
  {
    FinishOne(s0, acts, {"a", "b"}, map[3 := Task("a", Working)], 3, {}, 1, 3);
    assert map[3 := Task("a", Working)][3 := Task("a", Succeeded)] == map[3 := Task("a", Succeeded)];
    assert {"a", "b"} + {"a"} == {"a", "b"};
  }

  lemma LateReapAgain(s0: State, acts: seq<Action>)
    requires Stands(s0, acts, {"a", "b"}, map[3 := Task("a", Succeeded)], 3, {}, 1)
    ensures Stands(s0, acts + [Reap(3, NO_ROUTE)], {"a", "b"}, map[], 3, {"a"}, 2)
  {
    TaskMaps();
    NamesNone();
    ReapA(s0, acts, {"a", "b"}, map[3 := Task("a", Succeeded)], 3, {}, 1, 3);
    assert {} + {"a"} == {"a"};
  }

  lemma CleanFrom(s0: State) returns (acts: seq<Action>)
    requires Stands(s0, [], {}, WORKING, 2, {}, 0)
    ensures Stands(s0, acts, {"a", "b"}, map[], 2, {}, 1)
  {
    FinishA(s0);
    acts := [] + [Finish(1, true)];
    CleanFinishB(s0, acts);
    acts := acts + [Finish(2, true)];
    CleanReapB(s0, acts);
    acts := acts + [Reap(2, NO_ROUTE)];
    CleanReapA(s0, acts);
    acts := acts + [Reap(1, NO_ROUTE)];
  }

  lemma LateFrom(s0: State) returns (acts: seq<Action>)
    requires Stands(s0, [], {}, WORKING, 2, {}, 0)
    ensures Stands(s0, acts, {"a", "b"}, map[], 3, {"a"}, 2)
  {
    FinishA(s0);
    acts := [] + [Finish(1, true)];
    LateReapA(s0, acts);
    acts := acts + [Reap(1, NO_ROUTE)];
    LateFinishB(s0, acts);
    acts := acts + [Finish(2, true)];
    LateReapB(s0, acts);
    acts := acts + [Reap(2, NO_ROUTE)];
    LateFinishAgain(s0, acts);
    acts := acts + [Finish(3, true)];
    LateReapAgain(s0, acts);
    acts := acts + [Reap(3, NO_ROUTE)];
  }

  /** The two schedules, from the entry nodes. */
  lemma CleanSchedule() returns (acts: seq<Action>)
    ensures Stands(Fresh(DEMO, ENTRY), acts, {"a", "b"}, map[], 2, {}, 1)
  {
    DemoStands();
    acts := CleanFrom(Fresh(DEMO, ENTRY));
  }

  lemma LateSchedule() returns (acts: seq<Action>)
    ensures Stands(Fresh(DEMO, ENTRY), acts, {"a", "b"}, map[], 3, {"a"}, 2)
  {
    DemoStands();
    acts := LateFrom(Fresh(DEMO, ENTRY));
  }

  lemma OneJoinReport(g: Graph, w: WaitingEdge, completed: set<Node>, arrivals: Arrivals)
    requires g.waiting == [w]
    ensures StallReport(g, completed, arrivals) == if StalledEdge(w, completed, arrivals) then [w.target] else []
  {
    assert [w][..0] == [] && [w.target][..0] == [];
    assert StallScan([], completed, arrivals) == [] && Dedup([]) == [];
    assert Dedup([w.target]) == [w.target];
  }

  lemma DemoReport(completed: set<Node>, arrivals: Arrivals)
    requires END !in completed
    ensures Arrived(arrivals, END) == {} ==> StallReport(DEMO, completed, arrivals) == []
    ensures Arrived(arrivals, END) == {"a"} ==> StallReport(DEMO, completed, arrivals) == [END]
  {
    var w := DEMO.waiting[0];
    assert "b" in SourceSet(w) && "b" !in {"a"};
    OneJoinReport(DEMO, w, completed, arrivals);
  }

  /** Two drained error-free runs of one static graph, same completed set: the
      first is a clean finish, the second is reported as a deadlock. */
  lemma EndJoinVerdictDependsOnSchedule()
    ensures Normalized(DEMO) == DEMO && StaticOnly(DEMO) && ENTRY == ["a", "b"]
    ensures exists acts1, acts2 ::
              && Legal(DEMO, Fresh(DEMO, ENTRY), acts1) && Legal(DEMO, Fresh(DEMO, ENTRY), acts2)
              && var s1, s2 := Exec(DEMO, Fresh(DEMO, ENTRY), acts1), Exec(DEMO, Fresh(DEMO, ENTRY), acts2);
              && Drained(s1) && Drained(s2) && s1.errors == [] && s2.errors == []
              && s1.completed == s2.completed
              && StallReport(DEMO, s1.completed, s1.arrivals) == []
              && StallReport(DEMO, s2.completed, s2.arrivals) == [END]
  {
    DemoEntry();
    MergedEnds(DEMO.waiting);
    var acts1 := CleanSchedule();
    var acts2 := LateSchedule();
    var s1, s2 := Exec(DEMO, Fresh(DEMO, ENTRY), acts1), Exec(DEMO, Fresh(DEMO, ENTRY), acts2);
    assert END !in {"a", "b"};
    DemoReport(s1.completed, s1.arrivals);
    DemoReport(s2.completed, s2.arrivals);
  }
}
