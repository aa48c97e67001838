/** The arrival set of END. END never completes, so joins into END are judged by
    what is left in that set when the run has drained. */
module WorkflowEnd {
  import opened WorkflowGraph
  import opened WorkflowStep
  import opened WorkflowHistory
  import opened WorkflowFixpoint
  import opened WorkflowOnce

  /** Some but not all sources are in. */
  predicate PartlyIn(w: WaitingEdge, completed: set<Node>) {
    (exists s :: s in w.sources && s in completed) && !(SourceSet(w) <= completed)
  }

  /** No join into END can ever fire: each has a source outside. */
  predicate EndOutside(g: Graph, completed: set<Node>) {
    forall w | w in g.waiting && w.target == END :: !(SourceSet(w) <= completed)
  }

  /** Every join into END has one source, so it fires at each arrival. */
  predicate EndSingle(g: Graph) {
    forall w | w in g.waiting && w.target == END :: forall x, y | x in w.sources && y in w.sources :: x == y
  }

  /** One join into END, on a graph where nobody runs twice. */
  ghost predicate EndOnce(g: Graph, entry: seq<Node>) {
    && StaticOnly(g) && OneChannel(g, entry)
    && forall i | 0 <= i < |g.waiting| :: OnlyJoin(g.waiting, i)
  }

  /** Cases in which the declaration decides whether END is reported. */
  ghost predicate EndDecided(g: Graph, entry: seq<Node>, completed: set<Node>) {
    EndOutside(g, completed) || EndSingle(g) || EndOnce(g, entry)
  }

  // ------------------------------------------------------------------
  // One transition
  // ------------------------------------------------------------------

  /** Without a full join into `t` the arrivals only accumulate. */
  lemma {:induction false} JoinsUnfilled(ws: seq<WaitingEdge>, n: Node, a: Arrivals, t: Node)
    requires forall w | w in ws && w.target == t :: !(SourceSet(w) <= Arrived(a, t) + {n})
    ensures Arrived(Joins(ws, n, a).arrivals, t) == Arrived(a, t) + if Feeds(ws, t, n) then {n} else {}
  {
    if ws == [] {
    } else {
      var k := |ws| - 1;
      assert ws == ws[..k] + [ws[k]];
      JoinsUnfilled(ws[..k], n, a, t);
      FeedsAppend(ws[..k], ws[k], t, n);
      assert ws[k] in ws;
    }
  }

  /** Joins with one source leave nothing behind. */
  lemma {:induction false} JoinsSingle(ws: seq<WaitingEdge>, n: Node, a: Arrivals, t: Node)
    requires Arrived(a, t) == {}
    requires forall w | w in ws && w.target == t :: forall x, y | x in w.sources && y in w.sources :: x == y
    ensures Arrived(Joins(ws, n, a).arrivals, t) == {}
  {
    if ws == [] {
    } else {
      var k := |ws| - 1;
      assert ws == ws[..k] + [ws[k]];
      JoinsSingle(ws[..k], n, a, t);
      assert ws[k] in ws;
      if ws[k].target == t && n in ws[k].sources {
        assert SourceSet(ws[k]) == {n};
      }
    }
  }

  /** What a step does to the table and the log. */
  lemma StepMoves(g: Graph, s: State, a: Action)
    requires Enabled(s, a)
    ensures var s', n := Step(g, s, a), s.running[a.task].node;
            || (s'.arrivals == s.arrivals && s'.log == s.log)
            || (s'.arrivals == Joins(g.waiting, n, s.arrivals).arrivals
                && s'.log == s.log + [Call(n, Joins(g.waiting, n, s.arrivals).fired)])
  {
    if a.Reap? && !s.running[a.task].phase.Failed? {
      var n := s.running[a.task].node;
      var s1 := s.(running := s.running - {a.task}, scheduled := s.scheduled - {n});
      match Successors(g, n, a.route, s1.arrivals) {
        case LlmPause(e) =>
        case RouterError =>
        case Hops(out, joined) =>
          SpawnAllFrame(g.recursionLimit, s1.(arrivals := joined.arrivals, log := s1.log + [Call(n, joined.fired)]),
                        out);
      }
    }
  }

  // ------------------------------------------------------------------
  // Whole runs
  // ------------------------------------------------------------------

  function EndSources(g: Graph, nodes: set<Node>): set<Node> {
    set s | s in nodes && Feeds(g.waiting, END, s)
  }

  /** With a source of every join into END outside, all arrivals pile up. */
  lemma {:induction false} OutsidePilesUp(g: Graph, entry: seq<Node>, acts: seq<Action>)
    requires Legal(g, Fresh(g, entry), acts)
    requires EndOutside(g, Settled(Exec(g, Fresh(g, entry), acts).log))
    ensures var s := Exec(g, Fresh(g, entry), acts); Arrived(s.arrivals, END) == EndSources(g, Settled(s.log))
    decreases |acts|
  {
    if acts == [] {
      SpawnAllFrame(g.recursionLimit, Start({}, map[]), entry);
    } else {
      var init, a := acts[..|acts| - 1], acts[|acts| - 1];
      var s, s' := Exec(g, Fresh(g, entry), init), Exec(g, Fresh(g, entry), acts);
      var n := s.running[a.task].node;
      StepMoves(g, s, a);
      if s'.log == s.log {
        OutsidePilesUp(g, entry, init);
      } else {
        SettledAppend(s.log, s'.log[|s.log|]);
        assert Settled(s'.log) == Settled(s.log) + {n};
        OutsidePilesUp(g, entry, init);
        JoinsUnfilled(g.waiting, n, s.arrivals, END);
        assert EndSources(g, Settled(s.log) + {n}) ==
               EndSources(g, Settled(s.log)) + if Feeds(g.waiting, END, n) then {n} else {};
      }
    }
  }

  lemma {:induction false} SingleLeavesNothing(g: Graph, entry: seq<Node>, acts: seq<Action>)
    requires Legal(g, Fresh(g, entry), acts) && EndSingle(g)
    ensures Arrived(Exec(g, Fresh(g, entry), acts).arrivals, END) == {}
    decreases |acts|
  {
    if acts == [] {
      SpawnAllFrame(g.recursionLimit, Start({}, map[]), entry);
    } else {
      var init, a := acts[..|acts| - 1], acts[|acts| - 1];
      var s := Exec(g, Fresh(g, entry), init);
      SingleLeavesNothing(g, entry, init);
      StepMoves(g, s, a);
      JoinsSingle(g.waiting, s.running[a.task].node, s.arrivals, END);
    }
  }

  /** Every source completed at or before a firing. */
  lemma SourceBeforeFiring(log: seq<Call>, w: WaitingEdge, j: nat, x: Node) returns (i: nat)
    requires FiringLaw(log, w, {}) && j < |log| && w.target in log[j].fired && x in w.sources
    ensures i <= j && log[i].node == x
  {
    SinceWithin(log[..j], w.target);
    assert x in SourceSet(w);
    if x == log[j].node {
      i := j;
    } else {
      var b :| b in log[..j] && b.node == x;
      i :| 0 <= i < j && log[..j][i] == b;
    }
  }

  /** If nobody completes twice, a join that has all its sources keeps none over. */
  lemma OnceLeavesNothing(log: seq<Call>, w: WaitingEdge)
    requires FiringLaw(log, w, {}) && DistinctCalls(log)
    requires SourceSet(w) <= Settled(log)
    ensures Collected(log, w, {}) == {}
  {
    if w.sources != [] {
      assert w.sources[0] in SourceSet(w) * Settled(log);
      JoinFiresWhenAllArrived(log, w, {});
      FiredCounts(log, w.target);
      var j :| 0 <= j < |log| && w.target in log[j].fired;
      forall c | c in Since(log, w.target) ensures c.node !in w.sources {
        SinceIsRecent(log, w.target, j, c);
        var m :| j < m < |log| && log[m] == c;
        if c.node in w.sources {
          var i := SourceBeforeFiring(log, w, j, c.node);
        }
      }
    }
  }

  // ------------------------------------------------------------------
  // What is left for END when a run has drained
  // ------------------------------------------------------------------

  /** In the decided cases the leftover of a drained run is a function of the
      completed set. */
  function Leftover(g: Graph, completed: set<Node>): set<Node> {
    if EndOutside(g, completed) then EndSources(g, completed) else {}
  }

  lemma EndLeftover(g: Graph, entry: seq<Node>, acts: seq<Action>)
    requires UniqueJoins(g) && Legal(g, Fresh(g, entry), acts)
    requires Drained(Exec(g, Fresh(g, entry), acts)) && Exec(g, Fresh(g, entry), acts).errors == []
    requires EndDecided(g, entry, Exec(g, Fresh(g, entry), acts).completed)
    ensures var s := Exec(g, Fresh(g, entry), acts);
            Arrived(s.arrivals, END) == if EndSingle(g) then {} else Leftover(g, s.completed)
  {
    var s := Exec(g, Fresh(g, entry), acts);
    DrainedFacts(g, entry, acts);
    if EndSingle(g) {
      SingleLeavesNothing(g, entry, acts);
    } else if EndOutside(g, s.completed) {
      OutsidePilesUp(g, entry, acts);
    } else {
      var w :| w in g.waiting && w.target == END && SourceSet(w) <= s.completed;
      var i :| 0 <= i < |g.waiting| && g.waiting[i] == w;
      assert OnlyJoin(g.waiting, i);
      FreshIsSeed(g, entry);
      JoinAccounting(g, i, {}, map[], [], entry, k => (j => Raises), acts);
      NobodyRunsTwice(g, entry, acts);
      OnceLeavesNothing(s.log, w);
    }
  }
}
