/** The state a whole run leaves behind: the updates of the nodes, merged in the
    order in which the nodes finished. When scheduling can change it. */
module WorkflowState {
  import opened Counting
  import opened WorkflowGraph
  import opened WorkflowStep
  import opened WorkflowHistory
  import opened WorkflowFixpoint
  import opened WorkflowOnce
  import opened WorkflowEndJoin
  import C = Channels

  /** The nodes that finished well, in order; each merges its update as it finishes. */
  ghost function Finishers(g: Graph, s: State, acts: seq<Action>): seq<Node>
    requires Legal(g, s, acts)
  {
    if acts == [] then []
    else
      var init, a := acts[..|acts| - 1], acts[|acts| - 1];
      Finishers(g, s, init) + if a.Finish? && a.ok then [Exec(g, s, init).running[a.task].node] else []
  }

  /** What the nodes write: a node's update does not depend on the run. */
  function Updates<V>(writes: Node -> map<C.Field, V>, ns: seq<Node>): seq<map<C.Field, V>> {
    if ns == [] then [] else Updates(writes, ns[..|ns| - 1]) + [writes(ns[|ns| - 1])]
  }

  ghost function FinalStore<V>(g: Graph, entry: seq<Node>, acts: seq<Action>, writes: Node -> map<C.Field, V>,
                               store: C.Store<V>, reducers: map<C.Field, C.Reducer<V>>): C.Store<V>
    requires Legal(g, Fresh(g, entry), acts)
  {
    C.Run(store, reducers, Updates(writes, Finishers(g, Fresh(g, entry), acts)))
  }

  // ------------------------------------------------------------------
  // Finishes and reaps agree
  // ------------------------------------------------------------------

  /** A finish is a reap that happened or is still owed. */
  ghost predicate Balanced(s: State, finishers: seq<Node>, n: Node) {
    Count(finishers, n) == Completions(s.log, n) + if n in SucceededNames(s.running) then 1 else 0
  }

  lemma FinishBalances(g: Graph, s: State, a: Action, finishers: seq<Node>, n: Node)
    requires Enabled(s, a) && a.Finish? && Bounded(g.recursionLimit, s) && Balanced(s, finishers, n)
    ensures Balanced(Step(g, s, a), finishers + if a.ok then [s.running[a.task].node] else [], n)
  {
    var s', m := Step(g, s, a), s.running[a.task].node;
    NamesSplit(s.running, a.task);
    NamesSplit(s'.running, a.task);
    assert s'.running - {a.task} == s.running - {a.task};
    NameOnce(s.running, s.scheduled, s.activations, a.task);
    if a.ok {
      CountAppend(finishers, m, n);
    } else {
      assert finishers + [] == finishers;
    }
  }

  /** Following a node's edges starts tasks, but none that already succeeded. */
  lemma AdvanceSucceeds(g: Graph, s: State, n: Node, route: Routing)
    requires s.status.Active? && Advance(g, s, n, route, false).status.Active?
    requires forall t | t in s.running :: t <= s.activations
    ensures SucceededNames(Advance(g, s, n, route, false).running) == SucceededNames(s.running)
  {
    AdvanceReaches(g, s, n, route, false);
    var h := Successors(g, n, route, s.arrivals);
    SpawnAllNames(g.recursionLimit, s.(arrivals := h.joined.arrivals, log := s.log + [Call(n, h.joined.fired)]), h.out);
  }

  lemma NameOnce(running: map<nat, Task>, scheduled: set<Node>, created: nat, t: nat)
    requires Tracks(running, scheduled, created) && t in running
    ensures running[t].node !in SucceededNames(running - {t})
  {
  }

  lemma CallBalances(s: State, s': State, c: Call, finishers: seq<Node>, n: Node)
    requires Balanced(s, finishers, n) && s'.log == s.log + [c]
    requires SucceededNames(s.running) == SucceededNames(s'.running) + {c.node}
    requires c.node !in SucceededNames(s'.running)
    ensures Balanced(s', finishers, n)
  {
    CompletionsAppend(s.log, c, n);
  }

  lemma ReapBalances(g: Graph, s: State, a: Action, finishers: seq<Node>, n: Node)
    requires Enabled(s, a) && a.Reap? && Bounded(g.recursionLimit, s) && Balanced(s, finishers, n)
    requires Step(g, s, a).status.Active?
    ensures Balanced(Step(g, s, a), finishers, n)
  {
    var task := s.running[a.task];
    var s1 := s.(running := s.running - {a.task}, scheduled := s.scheduled - {task.node});
    NamesSplit(s.running, a.task);
    if !task.phase.Failed? {
      NameOnce(s.running, s.scheduled, s.activations, a.task);
      AdvanceSucceeds(g, s1, task.node, a.route);
      AdvanceReaches(g, s1, task.node, a.route, false);
      var c := Call(task.node, Successors(g, task.node, a.route, s1.arrivals).joined.fired);
      CallBalances(s, Step(g, s, a), c, finishers, n);
    }
  }

  lemma {:induction false} RunBalances(g: Graph, entry: seq<Node>, acts: seq<Action>, n: Node)
    requires UniqueJoins(g) && Legal(g, Fresh(g, entry), acts) && Exec(g, Fresh(g, entry), acts).status.Active?
    ensures Balanced(Exec(g, Fresh(g, entry), acts), Finishers(g, Fresh(g, entry), acts), n)
    decreases |acts|
  {
    var s0 := Fresh(g, entry);
    if acts == [] {
      SpawnAllFrame(g.recursionLimit, Start({}, map[]), entry);
      SpawnAllNames(g.recursionLimit, Start({}, map[]), entry);
      assert SucceededNames(map[]) == {};
    } else {
      var init, a := acts[..|acts| - 1], acts[|acts| - 1];
      RunBalances(g, entry, init, n);
      FreshBookkeeping(g, entry, init);
      if a.Finish? {
        FinishBalances(g, Exec(g, s0, init), a, Finishers(g, s0, init), n);
      } else {
        ReapBalances(g, Exec(g, s0, init), a, Finishers(g, s0, init), n);
        assert Finishers(g, s0, init) + [] == Finishers(g, s0, init);
      }
    }
  }

  /** In a drained run every node finished as often as it was reaped. */
  lemma FinishedAsReaped(g: Graph, entry: seq<Node>, acts: seq<Action>, n: Node)
    requires UniqueJoins(g) && Legal(g, Fresh(g, entry), acts) && Drained(Exec(g, Fresh(g, entry), acts))
    ensures Count(Finishers(g, Fresh(g, entry), acts), n) == Completions(Exec(g, Fresh(g, entry), acts).log, n)
  {
    RunBalances(g, entry, acts, n);
    assert SucceededNames(Exec(g, Fresh(g, entry), acts).running) == {};
  }

  // ------------------------------------------------------------------
  // Failures are reported, each once
  // ------------------------------------------------------------------

  /** The nodes that failed, in order. */
  ghost function Failers(g: Graph, s: State, acts: seq<Action>): seq<Node>
    requires Legal(g, s, acts)
  {
    if acts == [] then []
    else
      var init, a := acts[..|acts| - 1], acts[|acts| - 1];
      Failers(g, s, init) + if a.Finish? && !a.ok then [Exec(g, s, init).running[a.task].node] else []
  }

  function FailedNames(running: map<nat, Task>): set<Node> {
    set t | t in running && running[t].phase.Failed? :: running[t].node
  }

  /** A failure is an error already collected or still owed. */
  ghost predicate ErrorsBalance(s: State, failers: seq<Node>, n: Node) {
    Count(failers, n) == Count(s.errors, n) + if n in FailedNames(s.running) then 1 else 0
  }

  lemma FailedSplit(running: map<nat, Task>, t: nat)
    requires t in running
    ensures FailedNames(running) ==
            FailedNames(running - {t}) + if running[t].phase.Failed? then {running[t].node} else {}
  {
    forall n | n in FailedNames(running) && !(running[t].phase.Failed? && running[t].node == n)
      ensures n in FailedNames(running - {t})
    {
      var u :| u in running && running[u].phase.Failed? && running[u].node == n;
      assert (running - {t})[u] == running[u];
    }
    forall n | n in FailedNames(running - {t}) ensures n in FailedNames(running) {
      var u :| u in running - {t} && (running - {t})[u].phase.Failed? && (running - {t})[u].node == n;
      assert running[u] == (running - {t})[u];
    }
  }

  lemma {:induction false} SpawnAllFailed(limit: int, s: State, ns: seq<Node>)
    requires s.status.Active? && SpawnAll(limit, s, ns).status.Active?
    requires forall t | t in s.running :: t <= s.activations
    ensures FailedNames(SpawnAll(limit, s, ns).running) == FailedNames(s.running)
  {
    if ns == [] {
    } else {
      var init := ns[..|ns| - 1];
      SpawnAllFailed(limit, s, init);
      SpawnAllNames(limit, s, init);
      var before, after := SpawnAll(limit, s, init), SpawnAll(limit, s, ns);
      if after != before {
        var t := before.activations + 1;
        assert after.running - {t} == before.running;
        FailedSplit(after.running, t);
      }
    }
  }

  lemma FailedOnce(running: map<nat, Task>, scheduled: set<Node>, created: nat, t: nat)
    requires Tracks(running, scheduled, created) && t in running
    ensures running[t].node !in FailedNames(running - {t})
  {
  }

  lemma FinishBalancesErrors(g: Graph, s: State, a: Action, failers: seq<Node>, n: Node)
    requires Enabled(s, a) && a.Finish? && Bounded(g.recursionLimit, s) && ErrorsBalance(s, failers, n)
    ensures ErrorsBalance(Step(g, s, a), failers + if a.ok then [] else [s.running[a.task].node], n)
  {
    var s', m := Step(g, s, a), s.running[a.task].node;
    assert failers + [] == failers;
    CountAppend(failers, m, n);
    FailedSplit(s.running, a.task);
    FailedSplit(s'.running, a.task);
    FailedOnce(s.running, s.scheduled, s.activations, a.task);
    assert s'.running - {a.task} == s.running - {a.task};
  }

  lemma AdvanceFails(g: Graph, s: State, n: Node, route: Routing)
    requires s.status.Active? && Advance(g, s, n, route, false).status.Active?
    requires forall t | t in s.running :: t <= s.activations
    ensures FailedNames(Advance(g, s, n, route, false).running) == FailedNames(s.running)
    ensures Advance(g, s, n, route, false).errors == s.errors
  {
    AdvanceReaches(g, s, n, route, false);
    var h := Successors(g, n, route, s.arrivals);
    SpawnAllFailed(g.recursionLimit, s.(arrivals := h.joined.arrivals, log := s.log + [Call(n, h.joined.fired)]),
                   h.out);
  }

  lemma ReapBalancesErrors(g: Graph, s: State, a: Action, failers: seq<Node>, n: Node)
    requires Enabled(s, a) && a.Reap? && Bounded(g.recursionLimit, s) && ErrorsBalance(s, failers, n)
    requires Step(g, s, a).status.Active?
    ensures ErrorsBalance(Step(g, s, a), failers, n)
  {
    var m := s.running[a.task].node;
    var s1 := s.(running := s.running - {a.task}, scheduled := s.scheduled - {m});
    FailedSplit(s.running, a.task);
    if s.running[a.task].phase.Failed? {
      FailedOnce(s.running, s.scheduled, s.activations, a.task);
      CountAppend(s.errors, m, n);
    } else {
      AdvanceFails(g, s1, m, a.route);
    }
  }

  lemma {:induction false} RunBalancesErrors(g: Graph, entry: seq<Node>, acts: seq<Action>, n: Node)
    requires UniqueJoins(g) && Legal(g, Fresh(g, entry), acts) && Exec(g, Fresh(g, entry), acts).status.Active?
    ensures ErrorsBalance(Exec(g, Fresh(g, entry), acts), Failers(g, Fresh(g, entry), acts), n)
    decreases |acts|
  {
    if acts == [] {
      SpawnAllFrame(g.recursionLimit, Start({}, map[]), entry);
      SpawnAllFailed(g.recursionLimit, Start({}, map[]), entry);
      assert FailedNames(map[]) == {};
    } else {
      var init, a := acts[..|acts| - 1], acts[|acts| - 1];
      RunBalancesErrors(g, entry, init, n);
      FreshBookkeeping(g, entry, init);
      var failers := Failers(g, Fresh(g, entry), init);
      if a.Finish? {
        FinishBalancesErrors(g, Exec(g, Fresh(g, entry), init), a, failers, n);
      } else {
        ReapBalancesErrors(g, Exec(g, Fresh(g, entry), init), a, failers, n);
        assert failers + [] == failers;
      }
    }
  }

  /** A drained run reports every node as often as it failed, and no other. */
  lemma FailuresAreReported(g: Graph, entry: seq<Node>, acts: seq<Action>, n: Node)
    requires UniqueJoins(g) && Legal(g, Fresh(g, entry), acts) && Drained(Exec(g, Fresh(g, entry), acts))
    ensures Count(Exec(g, Fresh(g, entry), acts).errors, n) == Count(Failers(g, Fresh(g, entry), acts), n)
  {
    RunBalancesErrors(g, entry, acts, n);
    assert FailedNames(Exec(g, Fresh(g, entry), acts).running) == {};
  }

  lemma {:induction false} SettledCounts(log: seq<Call>, n: Node)
    ensures n in Settled(log) <==> Completions(log, n) > 0
  {
    if log == [] {
    } else {
      var k := |log| - 1;
      assert log == log[..k] + [log[k]];
      SettledAppend(log[..k], log[k]);
      SettledCounts(log[..k], n);
    }
  }

  lemma {:induction false} UpdatesMembers<V>(writes: Node -> map<C.Field, V>, ns: seq<Node>, u: map<C.Field, V>)
    ensures u in Updates(writes, ns) <==> exists n :: n in ns && writes(n) == u
  {
    if ns == [] {
    } else {
      var k := |ns| - 1;
      assert ns == ns[..k] + [ns[k]];
      UpdatesMembers(writes, ns[..k], u);
    }
  }

  lemma {:induction false} UpdatesFold<V>(writes: Node -> map<C.Field, V>, store: C.Store<V>,
                                          reducers: map<C.Field, C.Reducer<V>>, ns: seq<Node>,
                                          step: (C.Store<V>, Node) -> C.Store<V>)
    requires forall st, n :: step(st, n) == C.MergeAll(st, reducers, writes(n))
    ensures C.Run(store, reducers, Updates(writes, ns)) == C.Fold(step, store, ns)
  {
    if ns == [] {
    } else {
      var k := |ns| - 1;
      UpdatesFold(writes, store, reducers, ns[..k], step);
      C.RunAppend(store, reducers, Updates(writes, ns[..k]), writes(ns[k]));
    }
  }

  /** Merging the updates of a rearrangement of agreeing nodes. */
  lemma RearrangedNodes<V(!new)>(writes: Node -> map<C.Field, V>, store: C.Store<V>,
                                 reducers: map<C.Field, C.Reducer<V>>, ms: seq<Node>, ns: seq<Node>)
    requires C.GoodReducers(reducers) && multiset(ms) == multiset(ns)
    requires forall m, n | m in ms && n in ms :: C.Agree(reducers, writes(m), writes(n))
    ensures C.Run(store, reducers, Updates(writes, ms)) == C.Run(store, reducers, Updates(writes, ns))
  {
    var step := (st: C.Store<V>, n: Node) => C.MergeAll(st, reducers, writes(n));
    UpdatesFold(writes, store, reducers, ms, step);
    UpdatesFold(writes, store, reducers, ns, step);
    forall i, j | 0 <= i < j < |ms| ensures C.Swappable(step, ms[i], ms[j]) {
      forall st ensures step(step(st, ms[i]), ms[j]) == step(step(st, ms[j]), ms[i]) {
        C.MergesCommute(st, reducers, writes(ms[i]), writes(ms[j]));
      }
    }
    C.PermutedFold(step, store, ms, ns);
  }

  // ------------------------------------------------------------------
  // When scheduling does not matter
  // ------------------------------------------------------------------

  /** The nodes that run write agreeing values to plain fields. */
  ghost predicate NodesAgree<V>(writes: Node -> map<C.Field, V>, reducers: map<C.Field, C.Reducer<V>>,
                                nodes: set<Node>) {
    forall m, n | m in nodes && n in nodes :: C.Agree(reducers, writes(m), writes(n))
  }

  lemma FinishersAreLeast(g: Graph, entry: seq<Node>, acts: seq<Action>)
    requires UniqueJoins(g) && StaticOnly(g) && Legal(g, Fresh(g, entry), acts)
    requires Drained(Exec(g, Fresh(g, entry), acts)) && Exec(g, Fresh(g, entry), acts).errors == []
    ensures forall n :: n in Finishers(g, Fresh(g, entry), acts) <==> n in Least(g, entry)
  {
    var s, finishers := Exec(g, Fresh(g, entry), acts), Finishers(g, Fresh(g, entry), acts);
    DrainedIsLeastClosed(g, entry, acts);
    DrainedFacts(g, entry, acts);
    forall n ensures n in finishers <==> n in Least(g, entry) {
      FinishedAsReaped(g, entry, acts, n);
      CountIn(finishers, n);
      SettledCounts(s.log, n);
    }
  }

  lemma AgreeingUpdates<V>(g: Graph, entry: seq<Node>, acts: seq<Action>, writes: Node -> map<C.Field, V>,
                           reducers: map<C.Field, C.Reducer<V>>)
    requires UniqueJoins(g) && StaticOnly(g) && Legal(g, Fresh(g, entry), acts)
    requires Drained(Exec(g, Fresh(g, entry), acts)) && Exec(g, Fresh(g, entry), acts).errors == []
    requires NodesAgree(writes, reducers, Least(g, entry))
    ensures C.AllAgree(reducers, Updates(writes, Finishers(g, Fresh(g, entry), acts)))
  {
    FinishersAreLeast(g, entry, acts);
    var us := Updates(writes, Finishers(g, Fresh(g, entry), acts));
    forall u, v | u in us && v in us ensures C.Agree(reducers, u, v) {
      UpdatesMembers(writes, Finishers(g, Fresh(g, entry), acts), u);
      UpdatesMembers(writes, Finishers(g, Fresh(g, entry), acts), v);
    }
  }

  /** On a graph of single channels every schedule leaves the same state, for any
      associative and commutative reducers. */
  lemma SameStateOnce<V(!new)>(g: Graph, entry: seq<Node>, acts1: seq<Action>, acts2: seq<Action>,
                               writes: Node -> map<C.Field, V>, store: C.Store<V>, reducers: map<C.Field, C.Reducer<V>>)
    requires UniqueJoins(g) && StaticOnly(g) && OneChannel(g, entry)
    requires Legal(g, Fresh(g, entry), acts1) && Legal(g, Fresh(g, entry), acts2)
    requires Drained(Exec(g, Fresh(g, entry), acts1)) && Exec(g, Fresh(g, entry), acts1).errors == []
    requires Drained(Exec(g, Fresh(g, entry), acts2)) && Exec(g, Fresh(g, entry), acts2).errors == []
    requires C.GoodReducers(reducers) && NodesAgree(writes, reducers, Least(g, entry))
    ensures FinalStore(g, entry, acts1, writes, store, reducers) == FinalStore(g, entry, acts2, writes, store, reducers)
  {
    var f1, f2 := Finishers(g, Fresh(g, entry), acts1), Finishers(g, Fresh(g, entry), acts2);
    forall n ensures Count(f1, n) == Count(f2, n) {
      CountedOnceEach(g, entry, acts1, n);
      CountedOnceEach(g, entry, acts2, n);
    }
    SameCounts(f1, f2);
    FinishersAreLeast(g, entry, acts1);
    RearrangedNodes(writes, store, reducers, f1, f2);
  }

  lemma CountedOnceEach(g: Graph, entry: seq<Node>, acts: seq<Action>, n: Node)
    requires UniqueJoins(g) && StaticOnly(g) && OneChannel(g, entry) && Legal(g, Fresh(g, entry), acts)
    requires Drained(Exec(g, Fresh(g, entry), acts)) && Exec(g, Fresh(g, entry), acts).errors == []
    ensures Count(Finishers(g, Fresh(g, entry), acts), n) == if n in Least(g, entry) then 1 else 0
  {
    FinishersAreLeast(g, entry, acts);
    FinishedAsReaped(g, entry, acts, n);
    CountIn(Finishers(g, Fresh(g, entry), acts), n);
    if n == END {
      SettledCounts(Exec(g, Fresh(g, entry), acts).log, n);
      EndNeverSettles(g, entry, acts);
    } else {
      RunOnce(g, entry, acts, n);
    }
  }

  /** On any static graph every schedule leaves the same state if the reducers are
      idempotent as well. */
  lemma SameStateIdempotent<V(!new)>(g: Graph, entry: seq<Node>, acts1: seq<Action>, acts2: seq<Action>,
                                     writes: Node -> map<C.Field, V>, store: C.Store<V>,
                                     reducers: map<C.Field, C.Reducer<V>>)
    requires UniqueJoins(g) && StaticOnly(g)
    requires Legal(g, Fresh(g, entry), acts1) && Legal(g, Fresh(g, entry), acts2)
    requires Drained(Exec(g, Fresh(g, entry), acts1)) && Exec(g, Fresh(g, entry), acts1).errors == []
    requires Drained(Exec(g, Fresh(g, entry), acts2)) && Exec(g, Fresh(g, entry), acts2).errors == []
    requires C.GoodReducers(reducers) && C.IdempotentReducers(reducers)
    requires NodesAgree(writes, reducers, Least(g, entry))
    ensures FinalStore(g, entry, acts1, writes, store, reducers) == FinalStore(g, entry, acts2, writes, store, reducers)
  {
    var f1, f2 := Finishers(g, Fresh(g, entry), acts1), Finishers(g, Fresh(g, entry), acts2);
    FinishersAreLeast(g, entry, acts1);
    FinishersAreLeast(g, entry, acts2);
    AgreeingUpdates(g, entry, acts1, writes, reducers);
    forall u ensures u in Updates(writes, f1) <==> u in Updates(writes, f2) {
      UpdatesMembers(writes, f1, u);
      UpdatesMembers(writes, f2, u);
    }
    C.OnlyTheSetMatters(store, reducers, Updates(writes, f1), Updates(writes, f2));
  }

  // ------------------------------------------------------------------
  // When it does
  // ------------------------------------------------------------------

  const SUM: C.Reducer<int> := (x, y) => x + y

  /** Only "a" writes, and it adds one. */
  const TALLY: Node -> map<C.Field, int> := n => if n == "a" then map["x" := 1] else map[]

  lemma {:induction false} TallyCounts(store: C.Store<int>, ns: seq<Node>)
    ensures C.Get(C.Run(store, map["x" := SUM], Updates(TALLY, ns)), "x") == C.Get(store, "x") + Count(ns, "a")
    ensures C.Run(store, map["x" := SUM], Updates(TALLY, ns)).missing == store.missing
  {
    if ns == [] {
    } else {
      var k := |ns| - 1;
      TallyCounts(store, ns[..k]);
      C.RunAppend(store, map["x" := SUM], Updates(TALLY, ns[..k]), TALLY(ns[k]));
    }
  }

  lemma SumIsGood()
    ensures C.GoodReducers(map["x" := SUM])
  {
    assert C.AssociativeCommutative(SUM);
  }

  /** The sum a schedule of the demonstration graph leaves is how often "a" ran. */
  lemma DemoSum(acts: seq<Action>, store: C.Store<int>)
    requires Legal(DEMO, Fresh(DEMO, ENTRY), acts) && Drained(Exec(DEMO, Fresh(DEMO, ENTRY), acts))
    ensures C.Get(FinalStore(DEMO, ENTRY, acts, TALLY, store, map["x" := SUM]), "x") ==
            C.Get(store, "x") + Completions(Exec(DEMO, Fresh(DEMO, ENTRY), acts).log, "a")
  {
    FinishedAsReaped(DEMO, ENTRY, acts, "a");
    TallyCounts(store, Finishers(DEMO, Fresh(DEMO, ENTRY), acts));
  }

  /** Summing is associative and commutative, yet two schedules of one static graph
      leave different sums: a node with two channels may run once or twice. */
  lemma SumDependsOnSchedule(store: C.Store<int>) returns (acts1: seq<Action>, acts2: seq<Action>)
    ensures C.GoodReducers(map["x" := SUM])
    ensures Legal(DEMO, Fresh(DEMO, ENTRY), acts1) && Legal(DEMO, Fresh(DEMO, ENTRY), acts2)
    ensures Drained(Exec(DEMO, Fresh(DEMO, ENTRY), acts1)) && Exec(DEMO, Fresh(DEMO, ENTRY), acts1).errors == []
    ensures Drained(Exec(DEMO, Fresh(DEMO, ENTRY), acts2)) && Exec(DEMO, Fresh(DEMO, ENTRY), acts2).errors == []
    ensures FinalStore(DEMO, ENTRY, acts1, TALLY, store, map["x" := SUM])
            != FinalStore(DEMO, ENTRY, acts2, TALLY, store, map["x" := SUM])
  {
    SumIsGood();
    acts1 := CleanSchedule();
    acts2 := LateSchedule();
    DemoSum(acts1, store);
    DemoSum(acts2, store);
  }
}
