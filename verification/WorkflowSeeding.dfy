/** Seeding a resumed run. An LLM edge met while skipped nodes are advanced does not
    pause the run: the driver announces a pause on an edge nobody recorded and
    fails with an attribute error. When exactly that happens. */
module WorkflowSeeding {
  import opened WorkflowGraph
  import opened WorkflowStep
  import opened WorkflowHops
  import opened WorkflowResume

  lemma {:induction false} SeedStops(g: Graph, s: State, skipped: seq<Node>, routes: nat -> Routing, i: nat)
    requires i <= |skipped| && !SeedSkipped(g, s, skipped[..i], routes).status.Active?
    ensures SeedSkipped(g, s, skipped, routes) == SeedSkipped(g, s, skipped[..i], routes)
    decreases |skipped| - i
  {
    if i == |skipped| {
      assert skipped[..i] == skipped;
    } else {
      assert skipped[..i + 1][..i] == skipped[..i];
      SeedStops(g, s, skipped, routes, i + 1);
    }
  }

  lemma AdvanceCrashes(g: Graph, s: State, n: Node, route: Routing)
    requires s.status.Active?
    ensures Advance(g, s, n, route, true).status.SeedingCrash? <==> HasLlmEdge(g, n)
    ensures !Advance(g, s, n, route, true).status.Paused?
  {
    FirstLlmIff(g.llm, n);
    match Successors(g, n, route, s.arrivals) {
      case LlmPause(e) =>
      case RouterError =>
      case Hops(out, joined) =>
        SpawnAllStatus(g.recursionLimit, s.(arrivals := joined.arrivals, log := s.log + [Call(n, joined.fired)]), out);
    }
  }

  /** Seeding reaches the `k`th skipped node, still active, and it has an LLM edge. */
  predicate CrashesAt(g: Graph, s: State, skipped: seq<Node>, routes: nat -> Routing, k: nat) {
    k < |skipped| && HasLlmEdge(g, skipped[k]) && SeedSkipped(g, s, skipped[..k], routes).status.Active?
  }

  lemma CrashAtCrashes(g: Graph, s: State, skipped: seq<Node>, routes: nat -> Routing, k: nat)
    requires s.status.Active? && CrashesAt(g, s, skipped, routes, k)
    ensures SeedSkipped(g, s, skipped, routes).status.SeedingCrash?
  {
    assert skipped[..k + 1][..k] == skipped[..k];
    AdvanceCrashes(g, SeedSkipped(g, s, skipped[..k], routes), skipped[k], routes(k));
    SeedStops(g, s, skipped, routes, k + 1);
  }

  lemma {:induction false} WhereItCrashed(g: Graph, s: State, skipped: seq<Node>, routes: nat -> Routing)
    returns (k: nat)
    requires s.status.Active? && SeedSkipped(g, s, skipped, routes).status.SeedingCrash?
    ensures CrashesAt(g, s, skipped, routes, k)
  {
    var last := |skipped| - 1;
    var before := SeedSkipped(g, s, skipped[..last], routes);
    if before.status.Active? {
      k := last;
      AdvanceCrashes(g, before, skipped[last], routes(last));
    } else {
      k := WhereItCrashed(g, s, skipped[..last], routes);
      assert skipped[..last][..k] == skipped[..k];
    }
  }

  lemma {:induction false} SkippingNeverPauses(g: Graph, s: State, skipped: seq<Node>, routes: nat -> Routing)
    requires s.status.Active?
    ensures !SeedSkipped(g, s, skipped, routes).status.Paused?
  {
    if skipped == [] {
    } else {
      var k := |skipped| - 1;
      SkippingNeverPauses(g, s, skipped[..k], routes);
      var before := SeedSkipped(g, s, skipped[..k], routes);
      if before.status.Active? {
        AdvanceCrashes(g, before, skipped[k], routes(k));
      }
    }
  }

  /** Seeding crashes exactly when it reaches a skipped node with an LLM edge while
      still active; it never pauses. */
  lemma SeedingCrashesIff(g: Graph, s: State, skipped: seq<Node>, execute: seq<Node>, routes: nat -> Routing)
    requires s.status.Active?
    ensures Seed(g, s, skipped, execute, routes).status.SeedingCrash? <==>
            exists k: nat :: CrashesAt(g, s, skipped, routes, k)
    ensures !Seed(g, s, skipped, execute, routes).status.Paused?
  {
    var before := SeedSkipped(g, s, skipped, routes);
    SkippingNeverPauses(g, s, skipped, routes);
    SpawnAllStatus(g.recursionLimit, before, execute);
    if before.status.SeedingCrash? {
      var k := WhereItCrashed(g, s, skipped, routes);
    }
    if k: nat :| CrashesAt(g, s, skipped, routes, k) {
      CrashAtCrashes(g, s, skipped, routes, k);
    }
  }

  /** In terms of the skip list alone: with an LLM edge on a skipped node no run gets
      past seeding, and it crashes unless a router or the activation limit stopped
      it first; without one it never crashes. */
  lemma SkippedLlmNodes(g: Graph, s: State, skipped: seq<Node>, execute: seq<Node>, routes: nat -> Routing)
    requires s.status.Active?
    ensures var st := Seed(g, s, skipped, execute, routes).status;
            if exists n :: n in skipped && HasLlmEdge(g, n)
            then st.SeedingCrash? || st.RouterFailure? || st.RecursionError?
            else !st.SeedingCrash?
  {
    SeedingCrashesIff(g, s, skipped, execute, routes);
    if n :| n in skipped && HasLlmEdge(g, n) {
      var k :| 0 <= k < |skipped| && skipped[k] == n;
      if SeedSkipped(g, s, skipped[..k], routes).status.Active? {
        assert CrashesAt(g, s, skipped, routes, k);
      } else {
        SeedStops(g, s, skipped, routes, k);
      }
    }
  }

  /** After seeding no step crashes: a run is in the crashed state exactly if its
      seeding crashed. */
  lemma {:induction false} CrashOnlyWhileSeeding(g: Graph, s: State, acts: seq<Action>)
    requires Legal(g, s, acts)
    ensures Exec(g, s, acts).status.SeedingCrash? <==> s.status.SeedingCrash?
    decreases |acts|
  {
    if acts == [] {
    } else {
      var init, a := acts[..|acts| - 1], acts[|acts| - 1];
      CrashOnlyWhileSeeding(g, s, init);
      StepNeverCrashes(g, Exec(g, s, init), a);
    }
  }

  lemma StepNeverCrashes(g: Graph, s: State, a: Action)
    requires Enabled(s, a)
    ensures !Step(g, s, a).status.SeedingCrash?
  {
    if a.Reap? {
      var n := s.running[a.task].node;
      var s1 := s.(running := s.running - {a.task}, scheduled := s.scheduled - {n});
      match Successors(g, n, a.route, s1.arrivals) {
        case LlmPause(e) =>
        case RouterError =>
        case Hops(out, joined) =>
          SpawnAllStatus(g.recursionLimit, s1.(arrivals := joined.arrivals, log := s1.log + [Call(n, joined.fired)]),
                         out);
      }
    }
  }

  /** A compiled graph in which "a" asks the model to choose, skipped on resume. */
  const CHOICE := Graph([Edge(START, "a")], [], [], [LlmEdge("a", map["stop" := END])], 100)

  lemma SkippingAnLlmNodeCrashes(done: set<Node>, routes: nat -> Routing)
    ensures Launched(CHOICE, ResumeSkip(CHOICE, done, ["a"]), routes).status.SeedingCrash?
  {
    var l := ResumeSkip(CHOICE, done, ["a"]);
    var s := Start(l.completed, l.arrivals);
    assert CHOICE.llm[0] in CHOICE.llm && HasLlmEdge(CHOICE, "a");
    assert l.skipped[..0] == [];
    assert CrashesAt(CHOICE, s, l.skipped, routes, 0);
    SeedingCrashesIff(CHOICE, s, l.skipped, l.execute, routes);
  }
}
