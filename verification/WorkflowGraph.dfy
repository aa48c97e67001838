/** Declared workflow graphs: node names, the four edge kinds, and the compile-time
    folding of static channels into AND-joins. */
module WorkflowGraph {

  type Node = string

  const START: Node := "__start__"
  const END: Node := "__end__"

  /** A single static edge: `target` is activated as soon as `source` finishes. */
  datatype Edge = Edge(source: Node, target: Node)

  /** A multi-source AND-join. */
  datatype WaitingEdge = WaitingEdge(sources: seq<Node>, target: Node)

  /** A routed edge. The router itself is a parameter of the transition. */
  datatype ConditionalEdge = ConditionalEdge(source: Node, mapping: map<string, Node>)

  /** A routed edge whose choice is made by the model while the graph is paused. */
  datatype LlmEdge = LlmEdge(source: Node, mapping: map<string, Node>)

  datatype Graph = Graph(
    edges: seq<Edge>,
    waiting: seq<WaitingEdge>,
    conditional: seq<ConditionalEdge>,
    llm: seq<LlmEdge>,
    recursionLimit: int)

  function SourceSet(w: WaitingEdge): set<Node> {
    set s | s in w.sources
  }

  /** Waiting edge `i` is the only one that feeds its target's arrival set. */
  ghost predicate OnlyJoin(ws: seq<WaitingEdge>, i: nat) {
    && i < |ws|
    && forall j | 0 <= j < |ws| && j != i :: ws[j].target != ws[i].target
  }

  /** What compilation establishes: no two joins share a target other than END. */
  ghost predicate UniqueJoins(g: Graph) {
    forall i | 0 <= i < |g.waiting| && g.waiting[i].target != END :: OnlyJoin(g.waiting, i)
  }

  /** No router and no LLM edge: every transition is decided by the declaration. */
  predicate StaticOnly(g: Graph) {
    g.conditional == [] && g.llm == []
  }

  /** First occurrences, in order. */
  function Dedup(ns: seq<Node>): seq<Node> {
    if ns == [] then []
    else
      var rest := Dedup(ns[..|ns| - 1]);
      if ns[|ns| - 1] in rest then rest else rest + [ns[|ns| - 1]]
  }

  /** The targets of the edges out of START, in declaration order. */
  function EntryNodes(g: Graph): seq<Node> {
    Dedup(StartTargets(g.edges))
  }

  function StartTargets(edges: seq<Edge>): seq<Node> {
    if edges == [] then []
    else
      var e := edges[|edges| - 1];
      StartTargets(edges[..|edges| - 1]) + if e.source == START then [e.target] else []
  }

  lemma {:induction false} DedupProperties(ns: seq<Node>)
    ensures NoRepeats(Dedup(ns))
    ensures forall n :: n in Dedup(ns) <==> n in ns
  {
    if ns == [] {
    } else {
      var k := |ns| - 1;
      assert ns == ns[..k] + [ns[k]];
      DedupProperties(ns[..k]);
    }
  }

  /** Where `n` first occurs. */
  function IndexOf(ns: seq<Node>, n: Node): (k: nat)
    requires n in ns
    ensures k < |ns| && ns[k] == n && forall j | 0 <= j < k :: ns[j] != n
  {
    if ns[0] == n then 0 else 1 + IndexOf(ns[1..], n)
  }

  /** First occurrences keep their order. */
  lemma {:induction false} DedupKeepsOrder(ns: seq<Node>, i: nat, j: nat)
    requires i < j < |Dedup(ns)|
    ensures Dedup(ns)[i] in ns && Dedup(ns)[j] in ns && IndexOf(ns, Dedup(ns)[i]) < IndexOf(ns, Dedup(ns)[j])
  {
    var k := |ns| - 1;
    var init, d := ns[..k], Dedup(ns);
    DedupProperties(ns);
    DedupProperties(init);
    assert d[i] in d && d[j] in d;
    if j < |Dedup(init)| {
      DedupKeepsOrder(init, i, j);
      IndexOfPrefix(ns, k, d[i]);
      IndexOfPrefix(ns, k, d[j]);
    } else {
      assert d[i] in Dedup(init) && d[j] !in init;
      IndexOfPrefix(ns, k, d[i]);
    }
  }

  lemma IndexOfPrefix(ns: seq<Node>, k: nat, n: Node)
    requires k <= |ns| && n in ns[..k]
    ensures IndexOf(ns, n) == IndexOf(ns[..k], n) < k
  {
    var a, b := IndexOf(ns, n), IndexOf(ns[..k], n);
    assert ns[b] == n && ns[..k][b] == n;
    assert a < k ==> ns[..k][a] == n;
  }

  lemma {:induction false} StartTargetsExact(edges: seq<Edge>, n: Node)
    ensures n in StartTargets(edges) <==> Edge(START, n) in edges
  {
    if edges == [] {
    } else {
      assert edges == edges[..|edges| - 1] + [edges[|edges| - 1]];
      StartTargetsExact(edges[..|edges| - 1], n);
    }
  }

  /** The entry nodes are exactly the targets of START's edges, each once. */
  lemma EntryNodesExact(g: Graph, n: Node)
    ensures n in EntryNodes(g) <==> Edge(START, n) in g.edges
    ensures NoRepeats(EntryNodes(g))
  {
    StartTargetsExact(g.edges, n);
    DedupProperties(StartTargets(g.edges));
  }

  // ------------------------------------------------------------------
  // Folding static channels into their join (graph.py, compile time)
  // ------------------------------------------------------------------

  function TargetsOf(ws: seq<WaitingEdge>): set<Node> {
    set w | w in ws :: w.target
  }

  predicate Feeds(joins: seq<WaitingEdge>, t: Node, s: Node) {
    exists i :: 0 <= i < |joins| && joins[i].target == t && s in joins[i].sources
  }

  ghost predicate NoRepeats(ns: seq<Node>) {
    forall i, j | 0 <= i < j < |ns| :: ns[i] != ns[j]
  }

  /** An insertion-ordered dictionary from targets to duplicate-free source lists. */
  ghost predicate Tidy(joins: seq<WaitingEdge>) {
    && (forall i, j | 0 <= i < j < |joins| :: joins[i].target != joins[j].target)
    && (forall i | 0 <= i < |joins| :: NoRepeats(joins[i].sources))
  }

  predicate Absorbed(targets: set<Node>, e: Edge) {
    e.target in targets && e.source != START
  }

  function Surviving(edges: seq<Edge>, targets: set<Node>): seq<Edge> {
    if edges == [] then []
    else
      var rest := Surviving(edges[..|edges| - 1], targets);
      var e := edges[|edges| - 1];
      if Absorbed(targets, e) then rest else rest + [e]
  }

  function EndJoins(ws: seq<WaitingEdge>): seq<WaitingEdge> {
    if ws == [] then []
    else
      var rest := EndJoins(ws[..|ws| - 1]);
      var w := ws[|ws| - 1];
      if w.target == END then rest + [w] else rest
  }

  /** Where `t` is in the dictionary, or its length. */
  function Find(joins: seq<WaitingEdge>, t: Node): (k: nat)
    ensures k <= |joins| && (k < |joins| ==> joins[k].target == t)
    ensures forall i | 0 <= i < k :: joins[i].target != t
  {
    if joins == [] || joins[0].target == t then 0 else 1 + Find(joins[1..], t)
  }

  /** A join target gets its (possibly empty) source list on first sight. */
  function WithTarget(joins: seq<WaitingEdge>, t: Node): seq<WaitingEdge> {
    if Find(joins, t) == |joins| then joins + [WaitingEdge([], t)] else joins
  }

  /** A new source goes to the end of its target's list. */
  function WithSource(joins: seq<WaitingEdge>, t: Node, s: Node): seq<WaitingEdge> {
    var k := Find(joins, t);
    if k == |joins| || s in joins[k].sources then joins
    else joins[k := WaitingEdge(joins[k].sources + [s], t)]
  }

  function WithSources(joins: seq<WaitingEdge>, t: Node, ss: seq<Node>): seq<WaitingEdge> {
    if ss == [] then joins
    else WithSource(WithSources(joins, t, ss[..|ss| - 1]), t, ss[|ss| - 1])
  }

  /** Every waiting edge not aimed at END, grouped by target. */
  function Merged(ws: seq<WaitingEdge>): seq<WaitingEdge> {
    if ws == [] then []
    else
      var rest := Merged(ws[..|ws| - 1]);
      var w := ws[|ws| - 1];
      if w.target == END then rest else WithSources(WithTarget(rest, w.target), w.target, w.sources)
  }

  /** Single edges folded into the joins they point at. */
  function Absorb(edges: seq<Edge>, joins: seq<WaitingEdge>): seq<WaitingEdge> {
    if edges == [] then joins
    else
      var rest := Absorb(edges[..|edges| - 1], joins);
      var e := edges[|edges| - 1];
      if Absorbed(TargetsOf(joins), e) then WithSource(rest, e.target, e.source) else rest
  }

  function Normalized(g: Graph): Graph {
    var joins := Merged(g.waiting);
    if joins == [] then g
    else g.(edges := Surviving(g.edges, TargetsOf(joins)), waiting := EndJoins(g.waiting) + Absorb(g.edges, joins))
  }

  // ------------------------------------------------------------------
  // One addition to the dictionary
  // ------------------------------------------------------------------

  lemma FeedsAppend(joins: seq<WaitingEdge>, w: WaitingEdge, t: Node, s: Node)
    ensures Feeds(joins + [w], t, s) <==> Feeds(joins, t, s) || (w.target == t && s in w.sources)
  {
    var r := joins + [w];
    if Feeds(joins, t, s) {
      var i :| 0 <= i < |joins| && joins[i].target == t && s in joins[i].sources;
      assert r[i] == joins[i];
    }
    if w.target == t && s in w.sources {
      assert r[|joins|] == w;
    }
  }

  lemma TargetsAppend(joins: seq<WaitingEdge>, w: WaitingEdge)
    ensures TargetsOf(joins + [w]) == TargetsOf(joins) + {w.target}
  {
    var r := joins + [w];
    assert forall x :: x in r <==> x in joins || x == w;
  }

  lemma FoundIff(joins: seq<WaitingEdge>, t: Node)
    ensures Find(joins, t) < |joins| <==> t in TargetsOf(joins)
  {
    var k := Find(joins, t);
    if k < |joins| {
      assert joins[k] in joins;
    }
    if t in TargetsOf(joins) {
      var i :| 0 <= i < |joins| && joins[i].target == t;
    }
  }

  lemma WithTargetKeeps(joins: seq<WaitingEdge>, t: Node)
    requires Tidy(joins)
    ensures Tidy(WithTarget(joins, t)) && TargetsOf(WithTarget(joins, t)) == TargetsOf(joins) + {t}
    ensures forall u, x :: Feeds(WithTarget(joins, t), u, x) <==> Feeds(joins, u, x)
  {
    FoundIff(joins, t);
    TargetsAppend(joins, WaitingEdge([], t));
    forall u, x ensures Feeds(WithTarget(joins, t), u, x) <==> Feeds(joins, u, x) {
      FeedsAppend(joins, WaitingEdge([], t), u, x);
    }
  }

  lemma ReplacedTargets(joins: seq<WaitingEdge>, k: nat, w: WaitingEdge)
    requires k < |joins| && joins[k].target == w.target
    ensures TargetsOf(joins[k := w]) == TargetsOf(joins)
  {
    var r := joins[k := w];
    forall t ensures t in TargetsOf(r) <==> t in TargetsOf(joins) {
      if t in TargetsOf(joins) {
        var i :| 0 <= i < |joins| && joins[i].target == t;
        assert r[i].target == t && r[i] in r;
      }
      if t in TargetsOf(r) {
        var i :| 0 <= i < |r| && r[i].target == t;
        assert joins[i].target == t && joins[i] in joins;
      }
    }
  }

  lemma ReplacedFeeds(joins: seq<WaitingEdge>, k: nat, s: Node, t: Node, u: Node, x: Node)
    requires k < |joins| && joins[k].target == t
    ensures Feeds(joins[k := WaitingEdge(joins[k].sources + [s], t)], u, x) <==>
            Feeds(joins, u, x) || (u == t && x == s)
  {
    var r := joins[k := WaitingEdge(joins[k].sources + [s], t)];
    if Feeds(joins, u, x) {
      var i :| 0 <= i < |joins| && joins[i].target == u && x in joins[i].sources;
      assert r[i].target == u && x in r[i].sources;
    }
    if u == t && x == s {
      assert r[k].target == u && x in r[k].sources;
    }
    if Feeds(r, u, x) {
      var i :| 0 <= i < |r| && r[i].target == u && x in r[i].sources;
      assert i != k ==> joins[i] == r[i];
      assert i == k ==> x == s || x in joins[k].sources;
    }
  }

  lemma WithSourceTidy(joins: seq<WaitingEdge>, t: Node, s: Node)
    requires Tidy(joins)
    ensures Tidy(WithSource(joins, t, s))
  {
    var k, r := Find(joins, t), WithSource(joins, t, s);
    if k < |joins| && s !in joins[k].sources {
      assert forall i | 0 <= i < |joins| :: r[i].target == joins[i].target;
      forall i | 0 <= i < |r| ensures NoRepeats(r[i].sources) {
        assert NoRepeats(joins[i].sources);
      }
    }
  }

  /** Adding a source to a known target changes that target's sources by it. */
  lemma WithSourceKeeps(joins: seq<WaitingEdge>, t: Node, s: Node)
    requires Tidy(joins) && t in TargetsOf(joins)
    ensures Tidy(WithSource(joins, t, s)) && TargetsOf(WithSource(joins, t, s)) == TargetsOf(joins)
    ensures forall u, x :: Feeds(WithSource(joins, t, s), u, x) <==> Feeds(joins, u, x) || (u == t && x == s)
  {
    FoundIff(joins, t);
    WithSourceTidy(joins, t, s);
    var k := Find(joins, t);
    if s in joins[k].sources {
      assert Feeds(joins, t, s);
    } else {
      ReplacedTargets(joins, k, WaitingEdge(joins[k].sources + [s], t));
      forall u, x ensures Feeds(WithSource(joins, t, s), u, x) <==> Feeds(joins, u, x) || (u == t && x == s) {
        ReplacedFeeds(joins, k, s, t, u, x);
      }
    }
  }

  lemma {:induction false} WithSourcesKeeps(joins: seq<WaitingEdge>, t: Node, ss: seq<Node>)
    requires Tidy(joins) && t in TargetsOf(joins)
    ensures Tidy(WithSources(joins, t, ss)) && TargetsOf(WithSources(joins, t, ss)) == TargetsOf(joins)
    ensures forall u, x :: Feeds(WithSources(joins, t, ss), u, x) <==> Feeds(joins, u, x) || (u == t && x in ss)
  {
    if ss == [] {
    } else {
      var init, last := ss[..|ss| - 1], ss[|ss| - 1];
      assert ss == init + [last];
      WithSourcesKeeps(joins, t, init);
      WithSourceKeeps(WithSources(joins, t, init), t, last);
    }
  }

  // ------------------------------------------------------------------
  // The whole fold
  // ------------------------------------------------------------------

  lemma {:induction false} MergedKeeps(ws: seq<WaitingEdge>)
    ensures Tidy(Merged(ws)) && TargetsOf(Merged(ws)) == TargetsOf(ws) - {END}
    ensures forall t, s :: Feeds(Merged(ws), t, s) <==> t != END && Feeds(ws, t, s)
  {
    if ws == [] {
    } else {
      var init, w := ws[..|ws| - 1], ws[|ws| - 1];
      assert ws == init + [w];
      MergedKeeps(init);
      TargetsAppend(init, w);
      forall t, s ensures Feeds(ws, t, s) <==> Feeds(init, t, s) || (w.target == t && s in w.sources) {
        FeedsAppend(init, w, t, s);
      }
      if w.target != END {
        WithTargetKeeps(Merged(init), w.target);
        WithSourcesKeeps(WithTarget(Merged(init), w.target), w.target, w.sources);
      }
    }
  }

  lemma {:induction false} AbsorbKeeps(edges: seq<Edge>, joins: seq<WaitingEdge>)
    requires Tidy(joins)
    ensures Tidy(Absorb(edges, joins)) && TargetsOf(Absorb(edges, joins)) == TargetsOf(joins)
    ensures forall t, s :: Feeds(Absorb(edges, joins), t, s) <==>
              Feeds(joins, t, s) || (t in TargetsOf(joins) && s != START && Edge(s, t) in edges)
  {
    if edges == [] {
    } else {
      var init, e := edges[..|edges| - 1], edges[|edges| - 1];
      assert edges == init + [e];
      AbsorbKeeps(init, joins);
      if Absorbed(TargetsOf(joins), e) {
        WithSourceKeeps(Absorb(init, joins), e.target, e.source);
      }
    }
  }

  lemma {:induction false} EndJoinsTargetEnd(ws: seq<WaitingEdge>)
    ensures forall i | 0 <= i < |EndJoins(ws)| :: EndJoins(ws)[i].target == END
  {
    if ws == [] {
    } else {
      EndJoinsTargetEnd(ws[..|ws| - 1]);
    }
  }

  lemma {:induction false} EndInTargets(ws: seq<WaitingEdge>)
    ensures EndJoins(ws) != [] <==> END in TargetsOf(ws)
  {
    if ws == [] {
    } else {
      var init, w := ws[..|ws| - 1], ws[|ws| - 1];
      EndInTargets(init);
      assert ws == init + [w];
      TargetsAppend(init, w);
    }
  }

  lemma {:induction false} EndJoinsSplit(ends: seq<WaitingEdge>, merged: seq<WaitingEdge>)
    requires forall i | 0 <= i < |ends| :: ends[i].target == END
    requires forall i | 0 <= i < |merged| :: merged[i].target != END
    ensures EndJoins(ends + merged) == ends
  {
    var r := ends + merged;
    if merged != [] {
      assert r[..|r| - 1] == ends + merged[..|merged| - 1];
      EndJoinsSplit(ends, merged[..|merged| - 1]);
    } else if ends != [] {
      assert r == ends;
      assert ends == ends[..|ends| - 1] + [ends[|ends| - 1]];
      assert ends[..|ends| - 1] + [] == ends[..|ends| - 1];
      EndJoinsSplit(ends[..|ends| - 1], []);
    }
  }

  lemma NoneIntoEnd(joins: seq<WaitingEdge>)
    requires END !in TargetsOf(joins)
    ensures forall i | 0 <= i < |joins| :: joins[i].target != END
  {
    forall i | 0 <= i < |joins| ensures joins[i].target != END {
      assert joins[i] in joins;
    }
  }

  lemma RebuiltTargets(ws: seq<WaitingEdge>, merged: seq<WaitingEdge>)
    requires TargetsOf(merged) == TargetsOf(ws) - {END}
    ensures TargetsOf(EndJoins(ws) + merged) == TargetsOf(ws)
  {
    var ends, r := EndJoins(ws), EndJoins(ws) + merged;
    EndJoinsTargetEnd(ws);
    EndInTargets(ws);
    assert forall w :: w in r <==> w in ends || w in merged;
    forall t ensures t in TargetsOf(r) <==> t in TargetsOf(ws) {
      if t == END && END in TargetsOf(ws) {
        assert ends[0] in r;
      }
      if t in TargetsOf(merged) {
        var w :| w in merged && w.target == t;
        assert w in r;
      }
    }
  }

  lemma RebuiltFeeds(ends: seq<WaitingEdge>, merged: seq<WaitingEdge>, t: Node, s: Node)
    requires forall i | 0 <= i < |ends| :: ends[i].target == END
    requires t != END
    ensures Feeds(ends + merged, t, s) <==> Feeds(merged, t, s)
  {
    var r := ends + merged;
    if Feeds(merged, t, s) {
      var i :| 0 <= i < |merged| && merged[i].target == t && s in merged[i].sources;
      assert r[|ends| + i] == merged[i];
    }
    if Feeds(r, t, s) {
      var i :| 0 <= i < |r| && r[i].target == t && s in r[i].sources;
      assert merged[i - |ends|] == r[i];
    }
  }

  lemma RebuiltUnique(ends: seq<WaitingEdge>, merged: seq<WaitingEdge>)
    requires Tidy(merged) && forall i | 0 <= i < |ends| :: ends[i].target == END
    ensures forall i | 0 <= i < |ends + merged| && (ends + merged)[i].target != END :: OnlyJoin(ends + merged, i)
  {
    var r := ends + merged;
    forall i, j | 0 <= i < |r| && 0 <= j < |r| && i != j && r[i].target != END ensures r[j].target != r[i].target {
      assert r[i] == merged[i - |ends|];
      assert j >= |ends| ==> r[j] == merged[j - |ends|];
    }
  }

  lemma {:induction false} SurvivingAll(edges: seq<Edge>, targets: set<Node>)
    requires forall e | e in edges :: !Absorbed(targets, e)
    ensures Surviving(edges, targets) == edges
  {
    if edges == [] {
    } else {
      assert edges == edges[..|edges| - 1] + [edges[|edges| - 1]];
      SurvivingAll(edges[..|edges| - 1], targets);
    }
  }

  lemma {:induction false} SurvivingMembers(edges: seq<Edge>, targets: set<Node>, e: Edge)
    ensures e in Surviving(edges, targets) <==> e in edges && !Absorbed(targets, e)
  {
    if edges == [] {
    } else {
      assert edges == edges[..|edges| - 1] + [edges[|edges| - 1]];
      SurvivingMembers(edges[..|edges| - 1], targets, e);
    }
  }

  lemma OnlyEnds(ws: seq<WaitingEdge>)
    requires Merged(ws) == []
    ensures TargetsOf(ws) - {END} == {} && forall i | 0 <= i < |ws| :: ws[i].target == END
  {
    MergedKeeps(ws);
    forall i | 0 <= i < |ws| ensures ws[i].target == END {
      assert ws[i] in ws;
      assert ws[i].target !in TargetsOf(ws) - {END};
    }
  }

  /** What compilation establishes: joins into END first and untouched, then one join
      per target with distinct sources, and no single edge into such a target but
      START's. */
  ghost predicate IsNormal(g: Graph) {
    var ends := EndJoins(g.waiting);
    && ends <= g.waiting
    && Tidy(g.waiting[|ends|..]) && END !in TargetsOf(g.waiting[|ends|..])
    && forall e | e in g.edges :: !Absorbed(TargetsOf(g.waiting[|ends|..]), e)
  }

  /** A join target other than END is fed by exactly what statically fed it before. */
  lemma NormalizedFeeds(g: Graph, t: Node, s: Node)
    requires t != END
    ensures Feeds(Normalized(g).waiting, t, s) <==>
              t in TargetsOf(g.waiting) && (Feeds(g.waiting, t, s) || (s != START && Edge(s, t) in g.edges))
  {
    var joins := Merged(g.waiting);
    MergedKeeps(g.waiting);
    if Feeds(g.waiting, t, s) {
      var i :| 0 <= i < |g.waiting| && g.waiting[i].target == t && s in g.waiting[i].sources;
      assert g.waiting[i] in g.waiting;
    }
    if joins == [] {
      OnlyEnds(g.waiting);
    } else {
      AbsorbKeeps(g.edges, joins);
      EndJoinsTargetEnd(g.waiting);
      RebuiltFeeds(EndJoins(g.waiting), Absorb(g.edges, joins), t, s);
    }
  }

  lemma NormalizedIsNormal(g: Graph)
    ensures IsNormal(Normalized(g)) && UniqueJoins(Normalized(g))
    ensures TargetsOf(Normalized(g).waiting) == TargetsOf(g.waiting)
    ensures EndJoins(Normalized(g).waiting) == EndJoins(g.waiting)
    ensures Normalized(g).edges == Surviving(g.edges, TargetsOf(g.waiting) - {END})
  {
    var joins, ends, r := Merged(g.waiting), EndJoins(g.waiting), Normalized(g);
    MergedKeeps(g.waiting);
    EndJoinsTargetEnd(g.waiting);
    if joins == [] {
      OnlyEnds(g.waiting);
      EndJoinsSplit(g.waiting, []);
      assert g.waiting + [] == g.waiting && g.waiting[|ends|..] == [];
      SurvivingAll(g.edges, {});
    } else {
      var merged := Absorb(g.edges, joins);
      AbsorbKeeps(g.edges, joins);
      NoneIntoEnd(merged);
      EndJoinsSplit(ends, merged);
      RebuiltTargets(g.waiting, merged);
      RebuiltUnique(ends, merged);
      assert r.waiting[|ends|..] == merged;
      forall e | e in r.edges ensures !Absorbed(TargetsOf(merged), e) {
        SurvivingMembers(g.edges, TargetsOf(joins), e);
      }
    }
  }

  // ------------------------------------------------------------------
  // Idempotence
  // ------------------------------------------------------------------

  lemma FindLast(joins: seq<WaitingEdge>, w: WaitingEdge)
    requires w.target !in TargetsOf(joins)
    ensures Find(joins, w.target) == |joins| && Find(joins + [w], w.target) == |joins|
  {
    FoundIff(joins, w.target);
    var k, all := Find(joins + [w], w.target), joins + [w];
    assert all[|joins|] == w;
  }

  lemma AppendToLast(joins: seq<WaitingEdge>, t: Node, ss: seq<Node>, s: Node)
    requires t !in TargetsOf(joins) && s !in ss
    ensures WithSource(joins + [WaitingEdge(ss, t)], t, s) == joins + [WaitingEdge(ss + [s], t)]
  {
    FindLast(joins, WaitingEdge(ss, t));
  }

  lemma {:induction false} RefillLast(joins: seq<WaitingEdge>, t: Node, ss: seq<Node>)
    requires t !in TargetsOf(joins) && NoRepeats(ss)
    ensures WithSources(joins + [WaitingEdge([], t)], t, ss) == joins + [WaitingEdge(ss, t)]
  {
    if ss == [] {
    } else {
      var init, last := ss[..|ss| - 1], ss[|ss| - 1];
      assert ss == init + [last];
      RefillLast(joins, t, init);
      AppendToLast(joins, t, init, last);
    }
  }

  lemma {:induction false} MergedEnds(ends: seq<WaitingEdge>)
    requires forall i | 0 <= i < |ends| :: ends[i].target == END
    ensures Merged(ends) == []
  {
    if ends == [] {
    } else {
      MergedEnds(ends[..|ends| - 1]);
    }
  }

  lemma MergedMore(ws: seq<WaitingEdge>, w: WaitingEdge)
    requires w.target != END && w.target !in TargetsOf(Merged(ws)) && NoRepeats(w.sources)
    ensures Merged(ws + [w]) == Merged(ws) + [w]
  {
    assert (ws + [w])[..|ws|] == ws;
    FindLast(Merged(ws), w);
    RefillLast(Merged(ws), w.target, w.sources);
  }

  lemma {:induction false} MergedTidy(ends: seq<WaitingEdge>, joins: seq<WaitingEdge>)
    requires forall i | 0 <= i < |ends| :: ends[i].target == END
    requires Tidy(joins) && forall i | 0 <= i < |joins| :: joins[i].target != END
    ensures Merged(ends + joins) == joins
  {
    if joins == [] {
      MergedEnds(ends);
      assert ends + joins == ends;
    } else {
      var init, w := joins[..|joins| - 1], joins[|joins| - 1];
      assert joins == init + [w];
      MergedTidy(ends, init);
      MergedMore(ends + init, w);
      assert ends + joins == ends + init + [w];
    }
  }

  lemma {:induction false} AbsorbNothing(edges: seq<Edge>, joins: seq<WaitingEdge>)
    requires forall e | e in edges :: !Absorbed(TargetsOf(joins), e)
    ensures Absorb(edges, joins) == joins
  {
    if edges == [] {
    } else {
      assert edges == edges[..|edges| - 1] + [edges[|edges| - 1]];
      AbsorbNothing(edges[..|edges| - 1], joins);
    }
  }

  lemma NormalIsFixed(g: Graph)
    requires IsNormal(g)
    ensures Normalized(g) == g
  {
    var ends := EndJoins(g.waiting);
    var joins := g.waiting[|ends|..];
    assert g.waiting == ends + joins;
    EndJoinsTargetEnd(g.waiting);
    NoneIntoEnd(joins);
    MergedTidy(ends, joins);
    AbsorbNothing(g.edges, joins);
    SurvivingAll(g.edges, TargetsOf(joins));
  }

  /** Normalising twice is normalising once. */
  lemma NormalizeIsIdempotent(g: Graph)
    ensures Normalized(Normalized(g)) == Normalized(g)
  {
    NormalizedIsNormal(g);
    NormalIsFixed(Normalized(g));
  }

  // ------------------------------------------------------------------
  // The loops
  // ------------------------------------------------------------------

  method Lookup(joins: seq<WaitingEdge>, t: Node) returns (k: nat)
    ensures k == Find(joins, t)
  {
    k := 0;
    while k < |joins| && joins[k].target != t
      invariant k <= Find(joins, t)
    {
      k := k + 1;
    }
  }

  /** Looks the target up and appends a source that is not there yet. */
  method AddSource(joins: seq<WaitingEdge>, t: Node, s: Node) returns (r: seq<WaitingEdge>)
    requires Tidy(joins) && t in TargetsOf(joins)
    ensures r == WithSource(joins, t, s) && Tidy(r) && TargetsOf(r) == TargetsOf(joins)
    ensures forall u, x :: Feeds(r, u, x) <==> Feeds(joins, u, x) || (u == t && x == s)
  {
    FoundIff(joins, t);
    WithSourceKeeps(joins, t, s);
    var k := Lookup(joins, t);
    r := if s in joins[k].sources then joins else joins[k := WaitingEdge(joins[k].sources + [s], t)];
  }

  /** Groups every waiting edge not aimed at END by target. */
  method MergeWaiting(ws: seq<WaitingEdge>) returns (joins: seq<WaitingEdge>)
    ensures joins == Merged(ws) && Tidy(joins) && TargetsOf(joins) == TargetsOf(ws) - {END}
    ensures forall t, s :: Feeds(joins, t, s) <==> t != END && Feeds(ws, t, s)
  {
    joins := [];
    for n := 0 to |ws|
      invariant joins == Merged(ws[..n])
    {
      var w := ws[n];
      assert ws[..n + 1][..n] == ws[..n];
      MergedKeeps(ws[..n]);
      if w.target != END {
        WithTargetKeeps(joins, w.target);
        FoundIff(joins, w.target);
        if w.target !in TargetsOf(joins) {
          joins := joins + [WaitingEdge([], w.target)];
        }
        joins := AddSources(joins, w.target, w.sources);
      }
    }
    assert ws[..|ws|] == ws;
    MergedKeeps(ws);
  }

  method AddSources(joins: seq<WaitingEdge>, t: Node, ss: seq<Node>) returns (r: seq<WaitingEdge>)
    requires Tidy(joins) && t in TargetsOf(joins)
    ensures r == WithSources(joins, t, ss)
  {
    r := joins;
    for k := 0 to |ss|
      invariant r == WithSources(joins, t, ss[..k]) && Tidy(r) && TargetsOf(r) == TargetsOf(joins)
    {
      assert ss[..k + 1][..k] == ss[..k];
      r := AddSource(r, t, ss[k]);
    }
    assert ss[..|ss|] == ss;
  }

  /** Folds single edges into the joins they point at; START edges are kept. */
  method AbsorbSingles(edges: seq<Edge>, joins: seq<WaitingEdge>) returns (kept: seq<Edge>, merged: seq<WaitingEdge>)
    requires Tidy(joins)
    ensures kept == Surviving(edges, TargetsOf(joins)) && merged == Absorb(edges, joins)
    ensures Tidy(merged) && TargetsOf(merged) == TargetsOf(joins)
    ensures forall t, s :: Feeds(merged, t, s) <==>
              Feeds(joins, t, s) || (t in TargetsOf(joins) && s != START && Edge(s, t) in edges)
  {
    kept, merged := [], joins;
    for n := 0 to |edges|
      invariant kept == Surviving(edges[..n], TargetsOf(joins)) && merged == Absorb(edges[..n], joins)
    {
      var e := edges[n];
      assert edges[..n + 1][..n] == edges[..n];
      AbsorbKeeps(edges[..n], joins);
      if e.target in TargetsOf(joins) && e.source != START {
        merged := AddSource(merged, e.target, e.source);
      } else {
        kept := kept + [e];
      }
    }
    assert edges[..|edges|] == edges;
    AbsorbKeeps(edges, joins);
  }

  /** Compile-time normalisation. Afterwards a join target other than END has one
      waiting edge, over the union of everything that statically fed it, and no
      single edge except one from START still points at it; a graph in that form is
      left as it is. */
  method NormalizeWaitingEdges(g: Graph) returns (r: Graph)
    ensures r == Normalized(g) && IsNormal(r) && UniqueJoins(r)
    ensures r.conditional == g.conditional && r.llm == g.llm && r.recursionLimit == g.recursionLimit
    ensures r.edges == Surviving(g.edges, TargetsOf(g.waiting) - {END})
    ensures TargetsOf(r.waiting) == TargetsOf(g.waiting)
    ensures forall t, s | t != END :: Feeds(r.waiting, t, s) <==>
              t in TargetsOf(g.waiting) && (Feeds(g.waiting, t, s) || (s != START && Edge(s, t) in g.edges))
    ensures EndJoins(r.waiting) == EndJoins(g.waiting)
    ensures IsNormal(g) ==> r == g
  {
    var joins := MergeWaiting(g.waiting);
    if joins == [] {
      r := g;
    } else {
      var kept, merged := AbsorbSingles(g.edges, joins);
      r := Graph(kept, EndJoins(g.waiting) + merged, g.conditional, g.llm, g.recursionLimit);
    }
    NormalizedIsNormal(g);
    forall t, s | t != END
      ensures Feeds(r.waiting, t, s) <==>
                t in TargetsOf(g.waiting) && (Feeds(g.waiting, t, s) || (s != START && Edge(s, t) in g.edges))
    {
      NormalizedFeeds(g, t, s);
    }
    if IsNormal(g) {
      NormalIsFixed(g);
    }
  }
}
