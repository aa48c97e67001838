/** AND-join accounting: the incremental arrival table against the full history
    of transitions, for every graph (cycles and routers included) and every run. */
module WorkflowHistory {
  import opened WorkflowGraph
  import opened WorkflowStep

  // ------------------------------------------------------------------
  // History-based definitions
  // ------------------------------------------------------------------

  function Settled(log: seq<Call>): set<Node> {
    set c | c in log :: c.node
  }

  /** How often the join into `t` fired. */
  function Fires(log: seq<Call>, t: Node): nat {
    if log == [] then 0
    else Fires(log[..|log| - 1], t) + if t in log[|log| - 1].fired then 1 else 0
  }

  /** How often `n` completed. */
  function Completions(log: seq<Call>, n: Node): nat {
    if log == [] then 0
    else Completions(log[..|log| - 1], n) + if log[|log| - 1].node == n then 1 else 0
  }

  /** The transitions taken since the join into `t` last fired. */
  function Since(log: seq<Call>, t: Node): seq<Call> {
    if log == [] then []
    else if t in log[|log| - 1].fired then []
    else Since(log[..|log| - 1], t) + [log[|log| - 1]]
  }

  /** What should be in the arrival set: the sources completed since the last
      firing, plus the seed as long as the join never fired. */
  function Collected(log: seq<Call>, w: WaitingEdge, seed: set<Node>): set<Node> {
    (if Fires(log, w.target) == 0 then seed else {}) + SourceSet(w) * Settled(Since(log, w.target))
  }

  /** The join fires at a transition exactly when that transition brings in the
      last source still missing since the previous firing. */
  ghost predicate FiringLaw(log: seq<Call>, w: WaitingEdge, seed: set<Node>) {
    forall j | 0 <= j < |log| ::
      w.target in log[j].fired <==>
      log[j].node in w.sources && SourceSet(w) <= Collected(log[..j], w, seed) + {log[j].node}
  }

  ghost predicate Accounted(w: WaitingEdge, seed: set<Node>, s: State) {
    && FiringLaw(s.log, w, seed)
    && Arrived(s.arrivals, w.target) == Collected(s.log, w, seed)
  }

  // ------------------------------------------------------------------
  // One transition
  // ------------------------------------------------------------------

  lemma {:induction false} JoinsElsewhere(ws: seq<WaitingEdge>, n: Node, a: Arrivals, t: Node)
    requires forall j | 0 <= j < |ws| :: ws[j].target != t
    ensures Arrived(Joins(ws, n, a).arrivals, t) == Arrived(a, t)
    ensures t !in Joins(ws, n, a).fired
  {
    if ws == [] {
    } else {
      JoinsElsewhere(ws[..|ws| - 1], n, a, t);
    }
  }

  lemma ArriveElsewhere(w: WaitingEdge, n: Node, a: Arrivals, t: Node)
    requires w.target != t
    ensures Arrived(Arrive(w, n, a).arrivals, t) == Arrived(a, t) && t !in Arrive(w, n, a).fired
  {
  }

  lemma {:induction false} JoinsAtTarget(ws: seq<WaitingEdge>, i: nat, n: Node, a: Arrivals)
    requires OnlyJoin(ws, i)
    ensures var w, r := ws[i], Joins(ws, n, a);
            var got := Arrived(a, w.target) + {n};
            && (w.target in r.fired <==> n in w.sources && SourceSet(w) <= got)
            && Arrived(r.arrivals, w.target) ==
               if n !in w.sources then Arrived(a, w.target)
               else if SourceSet(w) <= got then {} else got
  {
    var k := |ws| - 1;
    var init, t := ws[..k], ws[i].target;
    assert forall j | 0 <= j < k :: init[j] == ws[j];
    if i == k {
      JoinsElsewhere(init, n, a, t);
    } else {
      JoinsAtTarget(init, i, n, a);
      ArriveElsewhere(ws[k], n, Joins(init, n, a).arrivals, t);
    }
  }

  lemma {:induction false} SpawnAllFrame(limit: int, s: State, ns: seq<Node>)
    ensures var s' := SpawnAll(limit, s, ns);
            s'.arrivals == s.arrivals && s'.log == s.log && s'.completed == s.completed && s'.errors == s.errors
  {
    if ns == [] {
    } else {
      SpawnAllFrame(limit, s, ns[..|ns| - 1]);
    }
  }

  lemma SettledAppend(log: seq<Call>, c: Call)
    ensures Settled(log + [c]) == Settled(log) + {c.node}
  {
    assert forall x :: x in log + [c] <==> x in log || x == c;
  }

  lemma AppendUnfolds(log: seq<Call>, c: Call, t: Node)
    ensures Fires(log + [c], t) == Fires(log, t) + if t in c.fired then 1 else 0
    ensures Since(log + [c], t) == if t in c.fired then [] else Since(log, t) + [c]
    ensures forall n :: Completions(log + [c], n) == Completions(log, n) + if c.node == n then 1 else 0
  {
    assert (log + [c])[..|log|] == log;
  }

  /** Appending a call that obeys the law extends the law and moves the collection on. */
  lemma CallKeepsLaw(log: seq<Call>, w: WaitingEdge, seed: set<Node>, c: Call)
    requires FiringLaw(log, w, seed)
    requires w.target in c.fired <==> c.node in w.sources && SourceSet(w) <= Collected(log, w, seed) + {c.node}
    ensures FiringLaw(log + [c], w, seed)
    ensures Collected(log + [c], w, seed) ==
            if c.node !in w.sources then Collected(log, w, seed)
            else if w.target in c.fired then {} else Collected(log, w, seed) + {c.node}
  {
    var log' := log + [c];
    AppendUnfolds(log, c, w.target);
    SettledAppend(Since(log, w.target), c);
    forall j | 0 <= j < |log'|
      ensures w.target in log'[j].fired <==>
              log'[j].node in w.sources && SourceSet(w) <= Collected(log'[..j], w, seed) + {log'[j].node}
    {
      if j < |log| {
        assert log'[..j] == log[..j];
      } else {
        assert log'[..j] == log;
      }
    }
  }

  lemma AdvanceAccounts(g: Graph, i: nat, seed: set<Node>, s: State, n: Node, route: Routing, seeding: bool)
    requires OnlyJoin(g.waiting, i) && Accounted(g.waiting[i], seed, s)
    ensures Accounted(g.waiting[i], seed, Advance(g, s, n, route, seeding))
  {
    var w := g.waiting[i];
    match Successors(g, n, route, s.arrivals) {
      case LlmPause(e) =>
      case RouterError =>
      case Hops(out, joined) =>
        JoinsAtTarget(g.waiting, i, n, s.arrivals);
        var c := Call(n, joined.fired);
        CallKeepsLaw(s.log, w, seed, c);
        SpawnAllFrame(g.recursionLimit, s.(arrivals := joined.arrivals, log := s.log + [c]), out);
    }
  }

  // ------------------------------------------------------------------
  // Whole runs
  // ------------------------------------------------------------------

  lemma {:induction false} SeedSkippedAccounts(g: Graph, i: nat, seed: set<Node>, s: State, skipped: seq<Node>,
                                               routes: nat -> Routing)
    requires OnlyJoin(g.waiting, i) && Accounted(g.waiting[i], seed, s)
    ensures Accounted(g.waiting[i], seed, SeedSkipped(g, s, skipped, routes))
  {
    if skipped == [] {
    } else {
      var k := |skipped| - 1;
      SeedSkippedAccounts(g, i, seed, s, skipped[..k], routes);
      var before := SeedSkipped(g, s, skipped[..k], routes);
      if before.status.Active? {
        AdvanceAccounts(g, i, seed, before, skipped[k], routes(k), true);
      }
    }
  }

  lemma SeedAccounts(g: Graph, i: nat, completed: set<Node>, arrivals: Arrivals, skipped: seq<Node>,
                     execute: seq<Node>, routes: nat -> Routing)
    requires OnlyJoin(g.waiting, i)
    ensures Accounted(g.waiting[i], Arrived(arrivals, g.waiting[i].target),
                      Seed(g, Start(completed, arrivals), skipped, execute, routes))
  {
    var seed := Arrived(arrivals, g.waiting[i].target);
    var s0 := Start(completed, arrivals);
    SeedSkippedAccounts(g, i, seed, s0, skipped, routes);
    SpawnAllFrame(g.recursionLimit, SeedSkipped(g, s0, skipped, routes), execute);
  }

  lemma StepAccounts(g: Graph, i: nat, seed: set<Node>, s: State, a: Action)
    requires OnlyJoin(g.waiting, i) && Accounted(g.waiting[i], seed, s)
    requires Enabled(s, a)
    ensures Accounted(g.waiting[i], seed, Step(g, s, a))
  {
    match a {
      case Finish(t, ok) =>
      case Reap(t, route) =>
        var task := s.running[t];
        var s1 := s.(running := s.running - {t}, scheduled := s.scheduled - {task.node});
        if !task.phase.Failed? {
          AdvanceAccounts(g, i, seed, s1, task.node, route, false);
        }
    }
  }

  lemma {:induction false} RunAccounts(g: Graph, i: nat, seed: set<Node>, s: State, acts: seq<Action>)
    requires OnlyJoin(g.waiting, i) && Accounted(g.waiting[i], seed, s)
    requires Legal(g, s, acts)
    ensures Accounted(g.waiting[i], seed, Exec(g, s, acts))
    decreases |acts|
  {
    if acts == [] {
    } else {
      var init := acts[..|acts| - 1];
      RunAccounts(g, i, seed, s, init);
      StepAccounts(g, i, seed, Exec(g, s, init), acts[|acts| - 1]);
    }
  }

  /** In every state of every run, fresh or resumed, the arrival set of a join is
      exactly its sources completed since the join last fired (plus the seed
      before the first firing), and every firing obeyed the firing law. */
  lemma JoinAccounting(g: Graph, i: nat, completed: set<Node>, arrivals: Arrivals, skipped: seq<Node>,
                       execute: seq<Node>, routes: nat -> Routing, acts: seq<Action>)
    requires OnlyJoin(g.waiting, i)
    requires Legal(g, Seed(g, Start(completed, arrivals), skipped, execute, routes), acts)
    ensures Accounted(g.waiting[i], Arrived(arrivals, g.waiting[i].target),
                      Exec(g, Seed(g, Start(completed, arrivals), skipped, execute, routes), acts))
  {
    SeedAccounts(g, i, completed, arrivals, skipped, execute, routes);
    RunAccounts(g, i, Arrived(arrivals, g.waiting[i].target),
                Seed(g, Start(completed, arrivals), skipped, execute, routes), acts);
  }

  // ------------------------------------------------------------------
  // Consequences of the firing law
  // ------------------------------------------------------------------

  lemma LawPrefix(log: seq<Call>, w: WaitingEdge, seed: set<Node>, k: nat)
    requires FiringLaw(log, w, seed) && k <= |log|
    ensures FiringLaw(log[..k], w, seed)
  {
    forall j | 0 <= j < k ensures log[..k][..j] == log[..j] && log[..k][j] == log[j] {}
  }

  lemma FiringStep(log: seq<Call>, w: WaitingEdge, seed: set<Node>, c: Call, src: Node)
    requires FiringLaw(log, w, seed) && src in w.sources
    requires w.target in c.fired <==> c.node in w.sources && SourceSet(w) <= Collected(log, w, seed) + {c.node}
    requires Fires(log, w.target) + (if src in Collected(log, w, seed) then 1 else 0)
             <= Completions(log, src) + (if src in seed then 1 else 0)
    ensures Fires(log + [c], w.target) + (if src in Collected(log + [c], w, seed) then 1 else 0)
            <= Completions(log + [c], src) + (if src in seed then 1 else 0)
  {
    CallKeepsLaw(log, w, seed, c);
    AppendUnfolds(log, c, w.target);
    assert src in SourceSet(w);
  }

  /** A join never fires more often than any one of its sources completed, plus
      one if that source was seeded: it does not degrade to an OR-join. */
  lemma {:induction false} FiringsBoundedBySource(log: seq<Call>, w: WaitingEdge, seed: set<Node>, src: Node)
    requires FiringLaw(log, w, seed) && src in w.sources
    ensures Fires(log, w.target) + (if src in Collected(log, w, seed) then 1 else 0)
            <= Completions(log, src) + (if src in seed then 1 else 0)
  {
    if log == [] {
    } else {
      var k := |log| - 1;
      LawPrefix(log, w, seed, k);
      FiringsBoundedBySource(log[..k], w, seed, src);
      FiringStep(log[..k], w, seed, log[k], src);
      assert log == log[..k] + [log[k]];
    }
  }

  lemma {:induction false} SinceIsRecent(log: seq<Call>, t: Node, j: nat, c: Call)
    requires j < |log| && t in log[j].fired
    requires c in Since(log, t)
    ensures exists m :: j < m < |log| && log[m] == c
  {
    var k := |log| - 1;
    if c != log[k] {
      assert log[..k][j] == log[j];
      SinceIsRecent(log[..k], t, j, c);
      var m :| j < m < k && log[..k][m] == c;
      assert log[m] == c;
    }
  }

  lemma {:induction false} FiredCounts(log: seq<Call>, t: Node)
    ensures Fires(log, t) > 0 <==> exists j :: 0 <= j < |log| && t in log[j].fired
  {
    if log == [] {
    } else {
      var k := |log| - 1;
      FiredCounts(log[..k], t);
      if Fires(log[..k], t) > 0 {
        var j :| 0 <= j < k && t in log[..k][j].fired;
        assert t in log[j].fired;
      }
      if exists j :: 0 <= j < k && t in log[j].fired {
        var j :| 0 <= j < k && t in log[j].fired;
        assert t in log[..k][j].fired;
      }
    }
  }

  /** Between two firings every source completes again, on every lap. */
  lemma EveryLapWaitsForAll(log: seq<Call>, w: WaitingEdge, seed: set<Node>, j: nat, k: nat, src: Node)
    requires FiringLaw(log, w, seed) && src in w.sources
    requires j < k < |log| && w.target in log[j].fired && w.target in log[k].fired
    ensures exists m :: j < m <= k && log[m].node == src
  {
    if src != log[k].node {
      var before := log[..k];
      assert w.target in before[j].fired;
      FiredCounts(before, w.target);
      assert src in SourceSet(w);
      assert src in Settled(Since(before, w.target));
      var c :| c in Since(before, w.target) && c.node == src;
      SinceIsRecent(before, w.target, j, c);
      var m :| j < m < k && before[m] == c;
      assert log[m].node == src;
    }
  }

  lemma {:induction false} SinceAllWhenUnfired(log: seq<Call>, t: Node)
    requires Fires(log, t) == 0
    ensures Since(log, t) == log
  {
    if log == [] {
    } else {
      SinceAllWhenUnfired(log[..|log| - 1], t);
    }
  }

  lemma UnfiredCollects(log: seq<Call>, w: WaitingEdge, seed: set<Node>)
    requires Fires(log, w.target) == 0
    ensures Collected(log, w, seed) == seed + SourceSet(w) * Settled(log)
  {
    SinceAllWhenUnfired(log, w.target);
  }

  /** The last call that brought in a source. */
  lemma {:induction false} LastArrival(log: seq<Call>, sources: set<Node>) returns (j: nat)
    requires Settled(log) * sources != {}
    ensures j < |log| && log[j].node in sources
    ensures Settled(log) * sources <= Settled(log[..j + 1])
  {
    var k := |log| - 1;
    assert log == log[..k] + [log[k]];
    SettledAppend(log[..k], log[k]);
    if log[k].node in sources {
      j := k;
      assert log[..k + 1] == log;
    } else {
      j := LastArrival(log[..k], sources);
      assert log[..k][..j + 1] == log[..j + 1];
    }
  }

  lemma FirstFullCallFires(log: seq<Call>, w: WaitingEdge, seed: set<Node>, j: nat)
    requires FiringLaw(log, w, seed)
    requires j < |log| && Fires(log[..j], w.target) == 0
    requires log[j].node in w.sources
    requires SourceSet(w) <= seed + Settled(log[..j + 1])
    ensures w.target in log[j].fired
  {
    var before := log[..j];
    UnfiredCollects(before, w, seed);
    assert log[..j + 1] == before + [log[j]];
    SettledAppend(before, log[j]);
  }

  lemma FiredPrefix(log: seq<Call>, t: Node, k: nat)
    requires k <= |log| && Fires(log[..k], t) >= 1
    ensures Fires(log, t) >= 1
  {
    FiredCounts(log, t);
    FiredCounts(log[..k], t);
    var m :| 0 <= m < k && t in log[..k][m].fired;
    assert t in log[m].fired;
  }

  /** Liveness of a join, fresh or resumed: once every source is seeded or has
      completed, at least one of them in this run, the join has fired. */
  lemma JoinFiresWhenAllArrived(log: seq<Call>, w: WaitingEdge, seed: set<Node>)
    requires FiringLaw(log, w, seed)
    requires SourceSet(w) <= seed + Settled(log)
    requires SourceSet(w) * Settled(log) != {}
    ensures Fires(log, w.target) >= 1
  {
    var j := LastArrival(log, SourceSet(w));
    if Fires(log[..j], w.target) == 0 {
      forall x | x in SourceSet(w) ensures x in seed + Settled(log[..j + 1]) {
        assert x in Settled(log) ==> x in Settled(log) * SourceSet(w);
      }
      FirstFullCallFires(log, w, seed, j);
      FiredCounts(log, w.target);
    } else {
      FiredPrefix(log, w.target, j);
    }
  }

  /** No node completes twice. */
  ghost predicate DistinctCalls(log: seq<Call>) {
    forall j, k | 0 <= j < k < |log| :: log[j].node != log[k].node
  }

  lemma {:induction false} TwoFirings(log: seq<Call>, t: Node) returns (j: nat, k: nat)
    requires Fires(log, t) >= 2
    ensures j < k < |log| && t in log[j].fired && t in log[k].fired
  {
    var last := |log| - 1;
    if t in log[last].fired {
      k := last;
      FiredCounts(log[..last], t);
      j :| 0 <= j < last && t in log[..last][j].fired;
      assert t in log[j].fired;
    } else {
      j, k := TwoFirings(log[..last], t);
    }
  }

  /** A join fires at most once while no node completes twice. */
  lemma DistinctCallsFireOnce(log: seq<Call>, w: WaitingEdge, seed: set<Node>)
    requires FiringLaw(log, w, seed)
    requires DistinctCalls(log)
    ensures Fires(log, w.target) <= 1
  {
    if Fires(log, w.target) >= 2 {
      var j, k := TwoFirings(log, w.target);
      EveryLapWaitsForAll(log, w, seed, j, k, log[j].node);
    }
  }
}
