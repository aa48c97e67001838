/** The stall report of a drained run, and what scheduling can and cannot change. */
module WorkflowStall {
  import opened WorkflowGraph
  import opened WorkflowStep
  import opened WorkflowHistory
  import opened WorkflowFixpoint
  import opened WorkflowEnd

  /** A waiting edge with some but not all sources in its arrival set, into a node
      that never completed. */
  predicate StalledEdge(w: WaitingEdge, completed: set<Node>, a: Arrivals) {
    && w.target !in completed
    && Arrived(a, w.target) != {}
    && !(SourceSet(w) <= Arrived(a, w.target))
  }

  function StallScan(ws: seq<WaitingEdge>, completed: set<Node>, a: Arrivals): seq<Node> {
    if ws == [] then []
    else
      var w := ws[|ws| - 1];
      StallScan(ws[..|ws| - 1], completed, a) + if StalledEdge(w, completed, a) then [w.target] else []
  }

  function StallReport(g: Graph, completed: set<Node>, a: Arrivals): seq<Node> {
    Dedup(StallScan(g.waiting, completed, a))
  }

  method ScanJoins(ws: seq<WaitingEdge>, completed: set<Node>, a: Arrivals) returns (found: seq<Node>)
    ensures found == StallScan(ws, completed, a)
  {
    found := [];
    for i := 0 to |ws|
      invariant found == StallScan(ws[..i], completed, a)
    {
      var w := ws[i];
      assert ws[..i + 1][..i] == ws[..i];
      if w.target !in completed {
        var arrived := if w.target in a then a[w.target] else {};
        var sources := set s | s in w.sources;
        if arrived != {} && !(sources <= arrived) {
          found := found + [w.target];
        }
      }
    }
    assert ws[..|ws|] == ws;
  }

  method DropRepeats(found: seq<Node>) returns (seen: seq<Node>)
    ensures seen == Dedup(found)
  {
    seen := [];
    for i := 0 to |found|
      invariant seen == Dedup(found[..i])
    {
      assert found[..i + 1][..i] == found[..i];
      if found[i] !in seen {
        seen := seen + [found[i]];
      }
    }
    assert found[..|found|] == found;
  }

  method DetectStall(g: Graph, completed: set<Node>, a: Arrivals) returns (stalled: seq<Node>)
    ensures stalled == StallReport(g, completed, a)
  {
    var found := ScanJoins(g.waiting, completed, a);
    stalled := DropRepeats(found);
  }

  // ------------------------------------------------------------------
  // The report, without the table
  // ------------------------------------------------------------------

  /** The join is blocked: some source is in, the target is not. */
  predicate Blocked(w: WaitingEdge, completed: set<Node>) {
    w.target !in completed && exists s :: s in w.sources && s in completed
  }

  lemma {:induction false} ScanMembers(ws: seq<WaitingEdge>, completed: set<Node>, a: Arrivals, n: Node)
    ensures n in StallScan(ws, completed, a) <==> exists w :: w in ws && w.target == n && StalledEdge(w, completed, a)
  {
    if ws == [] {
    } else {
      var k := |ws| - 1;
      assert ws == ws[..k] + [ws[k]];
      ScanMembers(ws[..k], completed, a, n);
      if n in StallScan(ws, completed, a) {
        if n in StallScan(ws[..k], completed, a) {
          var w :| w in ws[..k] && w.target == n && StalledEdge(w, completed, a);
          assert w in ws;
        } else {
          assert ws[k] in ws;
        }
      }
    }
  }

  lemma {:induction false} ScannedAt(ws: seq<WaitingEdge>, completed: set<Node>, a: Arrivals, i: nat) returns (p: nat)
    requires i < |StallScan(ws, completed, a)|
    ensures p < |ws| && ws[p].target == StallScan(ws, completed, a)[i] && StalledEdge(ws[p], completed, a)
  {
    var k := |ws| - 1;
    if i < |StallScan(ws[..k], completed, a)| {
      p := ScannedAt(ws[..k], completed, a, i);
    } else {
      p := k;
    }
  }

  /** Stalled joins are found in the order of their waiting edges. */
  lemma {:induction false} ScanInOrder(ws: seq<WaitingEdge>, completed: set<Node>, a: Arrivals, i: nat, j: nat)
    returns (p: nat, q: nat)
    requires i < j < |StallScan(ws, completed, a)|
    ensures p < q < |ws| && StalledEdge(ws[p], completed, a) && StalledEdge(ws[q], completed, a)
    ensures ws[p].target == StallScan(ws, completed, a)[i] && ws[q].target == StallScan(ws, completed, a)[j]
  {
    var k := |ws| - 1;
    if j < |StallScan(ws[..k], completed, a)| {
      p, q := ScanInOrder(ws[..k], completed, a, i, j);
    } else {
      p := ScannedAt(ws[..k], completed, a, i);
      q := k;
    }
  }

  /** At the end of a drained error-free run, a join other than one into END is
      stalled according to the table exactly when it is blocked. */
  lemma StalledIffBlocked(g: Graph, entry: seq<Node>, acts: seq<Action>, i: nat)
    requires UniqueJoins(g) && Legal(g, Fresh(g, entry), acts)
    requires Drained(Exec(g, Fresh(g, entry), acts)) && Exec(g, Fresh(g, entry), acts).errors == []
    requires i < |g.waiting| && g.waiting[i].target != END
    ensures var s := Exec(g, Fresh(g, entry), acts);
            StalledEdge(g.waiting[i], s.completed, s.arrivals) <==> Blocked(g.waiting[i], s.completed)
  {
    var s, w := Exec(g, Fresh(g, entry), acts), g.waiting[i];
    DrainedFacts(g, entry, acts);
    DrainedIsClosed(g, entry, acts);
    assert w in g.waiting;
    if w.target !in s.completed {
      FiredCounts(s.log, w.target);
      assert Fires(s.log, w.target) == 0 by {
        forall j | 0 <= j < |s.log| ensures w.target !in s.log[j].fired {
          assert s.log[j] in s.log;
        }
      }
      UnfiredCollects(s.log, w, {});
      assert Accounted(w, {}, s);
      assert Arrived(s.arrivals, w.target) == SourceSet(w) * s.completed;
      if Blocked(w, s.completed) {
        var x :| x in w.sources && x in s.completed;
        assert x in Arrived(s.arrivals, w.target);
      }
    }
  }

  /** The stall report names, without duplicates, exactly the joins with a
      completed source whose target never completed. */
  lemma StallReportExact(g: Graph, entry: seq<Node>, acts: seq<Action>)
    requires UniqueJoins(g) && Legal(g, Fresh(g, entry), acts)
    requires Drained(Exec(g, Fresh(g, entry), acts)) && Exec(g, Fresh(g, entry), acts).errors == []
    ensures var s := Exec(g, Fresh(g, entry), acts);
            var report := StallReport(g, s.completed, s.arrivals);
            && NoRepeats(report)
            && (forall n | n != END ::
                  n in report <==> exists w :: w in g.waiting && w.target == n && Blocked(w, s.completed))
            && (END in report ==> END in TargetsOf(g.waiting))
  {
    var s := Exec(g, Fresh(g, entry), acts);
    var scan := StallScan(g.waiting, s.completed, s.arrivals);
    DedupProperties(scan);
    forall n | n != END
      ensures n in scan <==> exists w :: w in g.waiting && w.target == n && Blocked(w, s.completed)
    {
      ScanMembers(g.waiting, s.completed, s.arrivals, n);
      forall i | 0 <= i < |g.waiting| && g.waiting[i].target == n
        ensures StalledEdge(g.waiting[i], s.completed, s.arrivals) <==> Blocked(g.waiting[i], s.completed)
      {
        StalledIffBlocked(g, entry, acts, i);
      }
    }
    ScanMembers(g.waiting, s.completed, s.arrivals, END);
  }

  // ------------------------------------------------------------------
  // Schedule independence
  // ------------------------------------------------------------------

  lemma {:induction false} ScanCongruent(ws: seq<WaitingEdge>, c: set<Node>, a: Arrivals, b: Arrivals)
    requires forall i | 0 <= i < |ws| :: StalledEdge(ws[i], c, a) <==> StalledEdge(ws[i], c, b)
    ensures StallScan(ws, c, a) == StallScan(ws, c, b)
  {
    if ws == [] {
    } else {
      var k := |ws| - 1;
      assert forall i | 0 <= i < k :: ws[..k][i] == ws[i];
      ScanCongruent(ws[..k], c, a, b);
    }
  }

  /** An arrival set that the completed set determines gives a stall that it
      determines. */
  lemma SameEndStalls(g: Graph, entry: seq<Node>, acts1: seq<Action>, acts2: seq<Action>, w: WaitingEdge)
    requires UniqueJoins(g) && Legal(g, Fresh(g, entry), acts1) && Legal(g, Fresh(g, entry), acts2)
    requires Drained(Exec(g, Fresh(g, entry), acts1)) && Exec(g, Fresh(g, entry), acts1).errors == []
    requires Drained(Exec(g, Fresh(g, entry), acts2)) && Exec(g, Fresh(g, entry), acts2).errors == []
    requires Exec(g, Fresh(g, entry), acts1).completed == Exec(g, Fresh(g, entry), acts2).completed
    requires EndDecided(g, entry, Exec(g, Fresh(g, entry), acts1).completed) && w.target == END
    ensures var s1, s2 := Exec(g, Fresh(g, entry), acts1), Exec(g, Fresh(g, entry), acts2);
            StalledEdge(w, s1.completed, s1.arrivals) <==> StalledEdge(w, s2.completed, s2.arrivals)
  {
    EndLeftover(g, entry, acts1);
    EndLeftover(g, entry, acts2);
  }

  /** Main theorem: two fresh runs of the same static graph that both drain without
      error complete the same nodes, the least closed set, and report the same stalled
      nodes other than END. If moreover every join into END has a source outside that
      set, or has just one source, or is the only one on a graph of single channels,
      the two reports are identical. */
  lemma ScheduleIndependence(g: Graph, entry: seq<Node>, acts1: seq<Action>, acts2: seq<Action>)
    requires UniqueJoins(g) && StaticOnly(g)
    requires Legal(g, Fresh(g, entry), acts1) && Legal(g, Fresh(g, entry), acts2)
    requires Drained(Exec(g, Fresh(g, entry), acts1)) && Exec(g, Fresh(g, entry), acts1).errors == []
    requires Drained(Exec(g, Fresh(g, entry), acts2)) && Exec(g, Fresh(g, entry), acts2).errors == []
    ensures var s1, s2 := Exec(g, Fresh(g, entry), acts1), Exec(g, Fresh(g, entry), acts2);
            && s1.completed == s2.completed == Least(g, entry)
            && (forall n | n != END :: n in StallReport(g, s1.completed, s1.arrivals)
                                       <==> n in StallReport(g, s2.completed, s2.arrivals))
            && (EndDecided(g, entry, Least(g, entry)) ==>
                  StallReport(g, s1.completed, s1.arrivals) == StallReport(g, s2.completed, s2.arrivals))
  {
    var s1, s2 := Exec(g, Fresh(g, entry), acts1), Exec(g, Fresh(g, entry), acts2);
    DrainedIsLeastClosed(g, entry, acts1);
    DrainedIsLeastClosed(g, entry, acts2);
    StallReportExact(g, entry, acts1);
    StallReportExact(g, entry, acts2);
    if EndDecided(g, entry, Least(g, entry)) {
      forall i | 0 <= i < |g.waiting|
        ensures StalledEdge(g.waiting[i], s1.completed, s1.arrivals) <==>
                StalledEdge(g.waiting[i], s2.completed, s2.arrivals)
      {
        if g.waiting[i].target == END {
          SameEndStalls(g, entry, acts1, acts2, g.waiting[i]);
        } else {
          StalledIffBlocked(g, entry, acts1, i);
          StalledIffBlocked(g, entry, acts2, i);
        }
      }
      ScanCongruent(g.waiting, s1.completed, s1.arrivals, s2.arrivals);
    }
  }

  // ------------------------------------------------------------------
  // Joins into END: the exception
  // ------------------------------------------------------------------

  /** In the decided cases END is reported exactly when a join into it has some but
      not all of its sources in the completed set. */
  lemma EndReportExact(g: Graph, entry: seq<Node>, acts: seq<Action>)
    requires UniqueJoins(g) && Legal(g, Fresh(g, entry), acts)
    requires Drained(Exec(g, Fresh(g, entry), acts)) && Exec(g, Fresh(g, entry), acts).errors == []
    requires EndDecided(g, entry, Exec(g, Fresh(g, entry), acts).completed)
    ensures var s := Exec(g, Fresh(g, entry), acts);
            END in StallReport(g, s.completed, s.arrivals) <==>
            exists w :: w in g.waiting && w.target == END && PartlyIn(w, s.completed)
  {
    var s := Exec(g, Fresh(g, entry), acts);
    DrainedFacts(g, entry, acts);
    EndNeverSettles(g, entry, acts);
    EndLeftover(g, entry, acts);
    ScanMembers(g.waiting, s.completed, s.arrivals, END);
    DedupProperties(StallScan(g.waiting, s.completed, s.arrivals));
    if !EndSingle(g) && EndOutside(g, s.completed) {
      OutsideStalls(g, s);
    } else {
      assert Arrived(s.arrivals, END) == {};
      forall w | w in g.waiting && w.target == END ensures !PartlyIn(w, s.completed) {
        if EndSingle(g) {
          assert forall x, y | x in w.sources && y in w.sources :: x == y;
        } else {
          OnlyEndJoin(g, s.completed, w);
        }
      }
    }
  }

  lemma OnlyEndJoin(g: Graph, completed: set<Node>, w: WaitingEdge)
    requires forall i | 0 <= i < |g.waiting| :: OnlyJoin(g.waiting, i)
    requires !EndOutside(g, completed) && w in g.waiting && w.target == END
    ensures SourceSet(w) <= completed
  {
    var v :| v in g.waiting && v.target == END && SourceSet(v) <= completed;
    var i :| 0 <= i < |g.waiting| && g.waiting[i] == v;
    var j :| 0 <= j < |g.waiting| && g.waiting[j] == w;
    assert OnlyJoin(g.waiting, i);
  }

  lemma OutsideStalls(g: Graph, s: State)
    requires END !in s.completed && EndOutside(g, s.completed)
    requires Arrived(s.arrivals, END) == EndSources(g, s.completed)
    ensures (exists w :: w in g.waiting && w.target == END && StalledEdge(w, s.completed, s.arrivals)) <==>
            (exists w :: w in g.waiting && w.target == END && PartlyIn(w, s.completed))
  {
    if w :| w in g.waiting && w.target == END && StalledEdge(w, s.completed, s.arrivals) {
      var x :| x in EndSources(g, s.completed);
      var i: nat :| i < |g.waiting| && g.waiting[i].target == END && x in g.waiting[i].sources;
      assert PartlyIn(g.waiting[i], s.completed);
    }
    if w :| w in g.waiting && w.target == END && PartlyIn(w, s.completed) {
      var x :| x in w.sources && x in s.completed;
      assert Feeds(g.waiting, END, x);
      assert x in Arrived(s.arrivals, END);
      assert StalledEdge(w, s.completed, s.arrivals);
    }
  }

  /** END never enters `completed`, so a join into END is judged by its arrival
      set alone: it is reported exactly when some source completed after its last
      firing, even if it did fire. */
  lemma EndReportedIff(g: Graph, entry: seq<Node>, acts: seq<Action>, i: nat)
    requires UniqueJoins(g) && Legal(g, Fresh(g, entry), acts)
    requires Drained(Exec(g, Fresh(g, entry), acts)) && Exec(g, Fresh(g, entry), acts).errors == []
    requires OnlyJoin(g.waiting, i) && g.waiting[i].target == END
    ensures var s := Exec(g, Fresh(g, entry), acts);
            END in StallReport(g, s.completed, s.arrivals) <==>
            exists c :: c in Since(s.log, END) && c.node in g.waiting[i].sources
  {
    var s, w := Exec(g, Fresh(g, entry), acts), g.waiting[i];
    DrainedFacts(g, entry, acts);
    FreshBookkeeping(g, entry, acts);
    FreshIsSeed(g, entry);
    JoinAccounting(g, i, {}, map[], [], entry, k => (j => Raises), acts);
    assert Arrived(s.arrivals, END) == SourceSet(w) * Settled(Since(s.log, END));
    ScanMembers(g.waiting, s.completed, s.arrivals, END);
    DedupProperties(StallScan(g.waiting, s.completed, s.arrivals));
    EndNeverSettles(g, entry, acts);
    if w.sources != [] {
      assert w.sources[0] in SourceSet(w);
      NeverFull(s.log, w, {});
    }
    assert w in g.waiting;
    if exists c :: c in Since(s.log, END) && c.node in w.sources {
      var c :| c in Since(s.log, END) && c.node in w.sources;
      assert c.node in Arrived(s.arrivals, END);
      assert StalledEdge(w, s.completed, s.arrivals);
    }
    if END in StallScan(g.waiting, s.completed, s.arrivals) {
      var v :| v in g.waiting && v.target == END && StalledEdge(v, s.completed, s.arrivals);
      var x :| x in Arrived(s.arrivals, END);
      var c :| c in Since(s.log, END) && c.node == x;
    }
  }

  /** A full arrival set never survives a transition. */
  lemma {:induction false} NeverFull(log: seq<Call>, w: WaitingEdge, seed: set<Node>)
    requires FiringLaw(log, w, seed) && !(SourceSet(w) <= seed)
    ensures !(SourceSet(w) <= Collected(log, w, seed))
  {
    if log == [] {
    } else {
      var k := |log| - 1;
      LawPrefix(log, w, seed, k);
      NeverFull(log[..k], w, seed);
      assert log == log[..k] + [log[k]];
      CallKeepsLaw(log[..k], w, seed, log[k]);
    }
  }
}
