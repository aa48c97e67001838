/** Engine shutdown: agents minted while open, released one by one, and a close
    that can be retried and keeps only the owners whose cleanup failed.

    A release and the locked part of a close hold the ownership lock throughout,
    minting is refused once closing has begun, and later callers share the close
    task in progress; so each of these is one step, and a close attempt is two:
    announcing it and its locked part. */
module EngineShutdown {
  import opened Counting

  type Agent = nat

  datatype Status = Open | Closing | Closed

  /** What happened, in order. A history variable. */
  datatype Event =
    | AttemptStarted
    | Cleaned(agent: Agent)
    | CleanFailed(agent: Agent)
    | ServicesClosed

  datatype State = State(status: Status, agents: seq<Agent>, attempt: bool, minted: set<Agent>, log: seq<Event>)

  const START := State(Open, [], false, {}, [])

  /** How cleanups behave during one close attempt. */
  type Cleanups = Agent -> bool

  datatype Action =
    | Mint(agent: Agent)
    | Release(agent: Agent, ok: bool)
    | BeginClose
    | RunClose(cleanups: Cleanups, servicesOk: bool)

  /** A minted agent is a new object; a close runs only after it was announced. */
  predicate Enabled(s: State, a: Action) {
    match a
    case Mint(x) => x !in s.minted
    case Release(_, _) => true
    case BeginClose => !s.attempt
    case RunClose(_, _) => s.attempt
  }

  function Remove(agents: seq<Agent>, x: Agent): seq<Agent> {
    if agents == [] then []
    else if agents[0] == x then agents[1..]
    else [agents[0]] + Remove(agents[1..], x)
  }

  function Reverse(agents: seq<Agent>): seq<Agent> {
    if agents == [] then [] else [agents[|agents| - 1]] + Reverse(agents[..|agents| - 1])
  }

  /** The events of cleaning up one agent after the other. */
  function CleanupEvents(order: seq<Agent>, cleanups: Cleanups): seq<Event> {
    if order == [] then []
    else
      var x := order[|order| - 1];
      CleanupEvents(order[..|order| - 1], cleanups) + [if cleanups(x) then Cleaned(x) else CleanFailed(x)]
  }

  /** The agents whose cleanup failed, in the order they were tried. */
  function Failing(order: seq<Agent>, cleanups: Cleanups): seq<Agent> {
    if order == [] then []
    else
      var x := order[|order| - 1];
      Failing(order[..|order| - 1], cleanups) + if cleanups(x) then [] else [x]
  }

  function Step(s: State, a: Action): State
    requires Enabled(s, a)
  {
    match a
    case Mint(x) =>
      if !s.status.Open? then s else s.(agents := s.agents + [x], minted := s.minted + {x})
    case Release(x, ok) =>
      if x !in s.agents || !ok then s
      else s.(agents := Remove(s.agents, x), log := s.log + [Cleaned(x)])
    case BeginClose =>
      if s.status.Closed? then s else s.(status := Closing, attempt := true)
    case RunClose(cleanups, servicesOk) =>
      var order := Reverse(s.agents);
      var failed := Failing(order, cleanups);
      var log := s.log + [AttemptStarted] + CleanupEvents(order, cleanups);
      if failed == [] && servicesOk then
        s.(status := Closed, agents := [], attempt := false, log := log + [ServicesClosed])
      else s.(agents := failed, attempt := false, log := log)
  }

  ghost predicate Legal(s: State, acts: seq<Action>)
    decreases |acts|
  {
    acts == [] || (Enabled(s, acts[0]) && Legal(Step(s, acts[0]), acts[1..]))
  }

  ghost function Exec(s: State, acts: seq<Action>): State
    requires Legal(s, acts)
    decreases |acts|
  {
    if acts == [] then s else Exec(Step(s, acts[0]), acts[1..])
  }

  /** How often `x` is owned. */
  function Owned(s: State, x: Agent): nat {
    Count(s.agents, x)
  }

  /** Conservation: every minted agent is either still owned once or was cleaned
      once, never both; and services close once, last, with nobody owned. */
  ghost predicate Inv(s: State) {
    && (forall x :: Owned(s, x) + Count(s.log, Cleaned(x)) == if x in s.minted then 1 else 0)
    && (s.status.Closed? <==> Count(s.log, ServicesClosed) == 1)
    && Count(s.log, ServicesClosed) <= 1
    && (s.status.Closed? ==> s.agents == [] && !s.attempt && s.log != [] && s.log[|s.log| - 1] == ServicesClosed)
  }

  lemma {:induction false} RemoveOne(agents: seq<Agent>, x: Agent, y: Agent)
    requires x in agents
    ensures Count(Remove(agents, x), y) == Count(agents, y) - if x == y then 1 else 0
  {
    assert agents == [agents[0]] + agents[1..];
    CountConcat([agents[0]], agents[1..], y);
    CountAppend([], agents[0], y);
    assert [] + [agents[0]] == [agents[0]];
    if agents[0] != x {
      RemoveOne(agents[1..], x, y);
      CountConcat([agents[0]], Remove(agents[1..], x), y);
    }
  }

  lemma {:induction false} ReverseCounts(agents: seq<Agent>, x: Agent)
    ensures Count(Reverse(agents), x) == Count(agents, x)
  {
    if agents == [] {
    } else {
      var k := |agents| - 1;
      ReverseCounts(agents[..k], x);
      CountConcat([agents[k]], Reverse(agents[..k]), x);
      CountAppend([], agents[k], x);
      assert [] + [agents[k]] == [agents[k]];
    }
  }

  /** Cleaning splits the agents tried into the cleaned and the failing. */
  lemma {:induction false} CleanupSplits(order: seq<Agent>, cleanups: Cleanups, x: Agent)
    ensures Count(Failing(order, cleanups), x) == if cleanups(x) then 0 else Count(order, x)
    ensures Count(CleanupEvents(order, cleanups), Cleaned(x)) == if cleanups(x) then Count(order, x) else 0
    ensures Count(CleanupEvents(order, cleanups), ServicesClosed) == 0
  {
    if order == [] {
    } else {
      var k := |order| - 1;
      var y := order[k];
      CleanupSplits(order[..k], cleanups, x);
      var failing, events := Failing(order[..k], cleanups), CleanupEvents(order[..k], cleanups);
      CountAppend(failing, y, x);
      assert failing + [] == failing;
      var e := if cleanups(y) then Cleaned(y) else CleanFailed(y);
      CountAppend(events, e, Cleaned(x));
      CountAppend(events, e, ServicesClosed);
    }
  }

  /** How the events of one attempt count. */
  lemma AttemptCounts(log: seq<Event>, order: seq<Agent>, cleanups: Cleanups, closed: bool, x: Agent)
    ensures var log1 := log + [AttemptStarted] + CleanupEvents(order, cleanups);
            var log' := if closed then log1 + [ServicesClosed] else log1;
            && Count(log', Cleaned(x)) == Count(log, Cleaned(x)) + (if cleanups(x) then Count(order, x) else 0)
            && Count(log', ServicesClosed) == Count(log, ServicesClosed) + if closed then 1 else 0
  {
    var events := CleanupEvents(order, cleanups);
    CleanupSplits(order, cleanups, x);
    forall e | e == Cleaned(x) || e == ServicesClosed
      ensures Count(log + [AttemptStarted] + events, e) == Count(log, e) + Count(events, e)
      ensures Count(log + [AttemptStarted] + events + [ServicesClosed], e) ==
              Count(log, e) + Count(events, e) + if e == ServicesClosed then 1 else 0
    {
      CountAppend(log, AttemptStarted, e);
      CountConcat(log + [AttemptStarted], events, e);
      CountAppend(log + [AttemptStarted] + events, ServicesClosed, e);
    }
  }

  lemma RunCloseKeeps(s: State, cleanups: Cleanups, servicesOk: bool)
    requires Inv(s) && s.attempt
    ensures Inv(Step(s, RunClose(cleanups, servicesOk)))
  {
    var s', order := Step(s, RunClose(cleanups, servicesOk)), Reverse(s.agents);
    forall x ensures Owned(s', x) + Count(s'.log, Cleaned(x)) == if x in s'.minted then 1 else 0 {
      ReverseCounts(s.agents, x);
      CleanupSplits(order, cleanups, x);
      AttemptCounts(s.log, order, cleanups, s'.status.Closed?, x);
    }
    AttemptCounts(s.log, order, cleanups, s'.status.Closed?, 0);
  }

  lemma StepKeeps(s: State, a: Action)
    requires Inv(s) && Enabled(s, a)
    ensures Inv(Step(s, a))
  {
    match a {
      case Mint(x) =>
        forall y ensures Count(s.agents + [x], y) == Owned(s, y) + if x == y then 1 else 0 {
          CountAppend(s.agents, x, y);
        }
      case Release(x, ok) =>
        if x in s.agents && ok {
          forall y ensures Owned(Step(s, a), y) == Owned(s, y) - if x == y then 1 else 0
            ensures Count(s.log + [Cleaned(x)], Cleaned(y)) == Count(s.log, Cleaned(y)) + if x == y then 1 else 0
          {
            RemoveOne(s.agents, x, y);
            CountAppend(s.log, Cleaned(x), Cleaned(y));
          }
          CountAppend(s.log, Cleaned(x), ServicesClosed);
        }
      case BeginClose =>
      case RunClose(cleanups, servicesOk) => RunCloseKeeps(s, cleanups, servicesOk);
    }
  }

  lemma {:induction false} RunKeeps(s: State, acts: seq<Action>)
    requires Inv(s) && Legal(s, acts)
    ensures Inv(Exec(s, acts))
    decreases |acts|
  {
    if acts == [] {
    } else {
      StepKeeps(s, acts[0]);
      RunKeeps(Step(s, acts[0]), acts[1..]);
    }
  }

  /** Over any sequence of mints, releases and close attempts, however cleanups
      fail: no agent is cleaned twice, none is forgotten, services close at most
      once, and a closed engine cleaned every agent it ever minted exactly once
      before it closed the services. */
  lemma ShutdownIsExact(acts: seq<Action>, x: Agent)
    requires Legal(START, acts)
    ensures var s := Exec(START, acts);
            && Inv(s)
            && Count(s.log, Cleaned(x)) <= 1
            && (x in s.agents <==> x in s.minted && Count(s.log, Cleaned(x)) == 0)
            && (s.status.Closed? && x in s.minted ==> Count(s.log[..|s.log| - 1], Cleaned(x)) == 1)
  {
    RunKeeps(START, acts);
    var s := Exec(START, acts);
    assert Owned(s, x) + Count(s.log, Cleaned(x)) == if x in s.minted then 1 else 0;
    if s.status.Closed? {
      var k := |s.log| - 1;
      assert s.log == s.log[..k] + [ServicesClosed];
      CountAppend(s.log[..k], ServicesClosed, Cleaned(x));
    }
    CountIn(s.agents, x);
  }

  /** A failed attempt keeps exactly the agents whose cleanup failed in it, and
      the next attempt can finish the job. */
  lemma FailedAttemptKeepsFailing(s: State, cleanups: Cleanups, servicesOk: bool, x: Agent)
    requires Inv(s) && s.attempt
    ensures var s' := Step(s, RunClose(cleanups, servicesOk));
            && (x in s'.agents <==> x in s.agents && !cleanups(x))
            && (s'.status.Closed? <==> servicesOk && forall y | y in s.agents :: cleanups(y))
            && (!s'.status.Closed? ==> s'.status == s.status)
  {
    var order := Reverse(s.agents);
    var failed := Failing(order, cleanups);
    forall y ensures y in failed <==> y in s.agents && !cleanups(y) {
      ReverseCounts(s.agents, y);
      CleanupSplits(order, cleanups, y);
      CountIn(failed, y);
      CountIn(s.agents, y);
    }
    if failed != [] {
      assert failed[0] in failed;
    }
  }

  // ------------------------------------------------------------------
  // What each step achieves
  // ------------------------------------------------------------------

  /** An open engine owns what it mints, once; any other mints nothing. */
  lemma MintEffect(acts: seq<Action>, x: Agent, y: Agent)
    requires Legal(START, acts) && x !in Exec(START, acts).minted
    ensures var s := Exec(START, acts);
            var s' := Step(s, Mint(x));
            if s.status.Open? then
              && Owned(s', x) == 1 && x in s'.minted && (y != x ==> Owned(s', y) == Owned(s, y))
              && s'.status.Open? && s'.log == s.log
            else s' == s
  {
    RunKeeps(START, acts);
    var s := Exec(START, acts);
    CountAppend(s.agents, x, x);
    CountAppend(s.agents, x, y);
  }

  lemma ReleaseDrops(s: State, x: Agent)
    requires Inv(s)
    ensures x in s.agents ==>
              var s' := Step(s, Release(x, true));
              x !in s'.agents && Count(s'.log, Cleaned(x)) == 1 && Count(s.log, Cleaned(x)) == 0
  {
    if x in s.agents {
      var s' := Step(s, Release(x, true));
      StepKeeps(s, Release(x, true));
      RemoveOne(s.agents, x, x);
      CountAppend(s.log, Cleaned(x), Cleaned(x));
      CountIn(s'.agents, x);
      CountIn(s.agents, x);
      assert Owned(s, x) + Count(s.log, Cleaned(x)) == if x in s.minted then 1 else 0;
    }
  }

  /** A successful release cleans an owned agent and drops it, and only it; a failed
      one, or that of an agent not owned, changes nothing. */
  lemma ReleaseEffect(acts: seq<Action>, x: Agent, ok: bool, y: Agent)
    requires Legal(START, acts)
    ensures var s := Exec(START, acts);
            var s' := Step(s, Release(x, ok));
            if x in s.agents && ok then
              && x !in s'.agents && Count(s'.log, Cleaned(x)) == 1 && Count(s.log, Cleaned(x)) == 0
              && (y != x ==> Owned(s', y) == Owned(s, y) && Count(s'.log, Cleaned(y)) == Count(s.log, Cleaned(y)))
              && s'.status == s.status && s'.minted == s.minted
            else s' == s
  {
    RunKeeps(START, acts);
    var s := Exec(START, acts);
    ReleaseDrops(s, x);
    if x in s.agents && ok {
      RemoveOne(s.agents, x, y);
      CountAppend(s.log, Cleaned(x), Cleaned(y));
    }
  }

  /** Announcing a close ends minting and lets the close run; a closed engine stays so. */
  lemma BeginCloseEffect(s: State)
    requires !s.attempt
    ensures var s' := Step(s, BeginClose);
            if s.status.Closed? then s' == s
            else s'.status.Closing? && s'.attempt && s'.agents == s.agents && s'.minted == s.minted && s'.log == s.log
  {
  }

  lemma {:induction false} ReverseReverses(agents: seq<Agent>, i: nat)
    requires i < |agents|
    ensures |Reverse(agents)| == |agents| && Reverse(agents)[i] == agents[|agents| - 1 - i]
  {
    var k := |agents| - 1;
    if i == 0 {
      if k > 0 {
        ReverseReverses(agents[..k], 0);
      }
    } else {
      ReverseReverses(agents[..k], i - 1);
    }
  }

  lemma {:induction false} EventsInOrder(order: seq<Agent>, cleanups: Cleanups, i: nat)
    requires i < |order|
    ensures |CleanupEvents(order, cleanups)| == |order|
    ensures CleanupEvents(order, cleanups)[i] == if cleanups(order[i]) then Cleaned(order[i]) else CleanFailed(order[i])
  {
    var k := |order| - 1;
    if i < k {
      EventsInOrder(order[..k], cleanups, i);
    } else if k > 0 {
      EventsInOrder(order[..k], cleanups, 0);
    }
  }

  /** A close attempt tries every owned agent once, the last minted first. */
  lemma LastMintedFirst(s: State, cleanups: Cleanups, servicesOk: bool, i: nat)
    requires s.attempt && i < |s.agents|
    ensures var log, x := Step(s, RunClose(cleanups, servicesOk)).log, s.agents[|s.agents| - 1 - i];
            && |log| >= |s.log| + 1 + |s.agents| && log[..|s.log|] == s.log && log[|s.log|] == AttemptStarted
            && log[|s.log| + 1 + i] == if cleanups(x) then Cleaned(x) else CleanFailed(x)
  {
    ReverseReverses(s.agents, i);
    EventsInOrder(Reverse(s.agents), cleanups, i);
  }

  /** From every reachable state that is not closed the engine can be closed, whatever
      failed before: one more attempt in which nothing fails does it. */
  lemma CanAlwaysClose(acts: seq<Action>)
    requires Legal(START, acts) && !Exec(START, acts).status.Closed?
    ensures var s := Exec(START, acts);
            var rest := (if s.attempt then [] else [BeginClose]) + [RunClose(x => true, true)];
            Legal(s, rest) && Exec(s, rest).status.Closed? && Exec(s, rest).agents == []
  {
    RunKeeps(START, acts);
    var s := Exec(START, acts);
    var s1 := if s.attempt then s else Step(s, BeginClose);
    if !s.attempt {
      StepKeeps(s, BeginClose);
    }
    var all: Cleanups := x => true;
    FailedAttemptKeepsFailing(s1, all, true, 0);
    RunCloseKeeps(s1, all, true);
    var last := [RunClose(all, true)];
    assert last[1..] == [] && Legal(Step(s1, last[0]), []);
    assert Legal(s1, last) && Exec(s1, last) == Step(s1, last[0]);
    if s.attempt {
      assert [] + last == last;
    } else {
      var rest := [BeginClose] + last;
      assert rest[1..] == last;
    }
  }

  // ------------------------------------------------------------------
  // The engine object, updated in place
  // ------------------------------------------------------------------

  class Engine {
    var status: Status
    var agents: seq<Agent>
    ghost var attempt: bool
    ghost var minted: set<Agent>
    ghost var log: seq<Event>

    ghost function View(): State
      reads this
    {
      State(status, agents, attempt, minted, log)
    }

    constructor ()
      ensures View() == START && Inv(View())
    {
      status, agents, attempt, minted, log := Open, [], false, {}, [];
    }

    method Mint(x: Agent) returns (accepted: bool)
      requires Inv(View()) && x !in minted
      modifies this
      ensures View() == Step(old(View()), Action.Mint(x)) && Inv(View())
      ensures accepted <==> old(status).Open?
    {
      StepKeeps(View(), Action.Mint(x));
      if !status.Open? {
        return false;
      }
      agents := agents + [x];
      minted := minted + {x};
      accepted := true;
    }

    method Release(x: Agent, ok: bool)
      requires Inv(View())
      modifies this
      ensures View() == Step(old(View()), Action.Release(x, ok)) && Inv(View())
      ensures x in old(agents) && ok ==> x !in agents && Count(log, Cleaned(x)) == 1
      ensures x !in old(agents) || !ok ==> agents == old(agents) && log == old(log)
    {
      StepKeeps(View(), Action.Release(x, ok));
      ReleaseDrops(View(), x);
      if x !in agents || !ok {
        return;
      }
      log := log + [Cleaned(x)];
      agents := Remove(agents, x);
    }

    method BeginClose()
      requires Inv(View()) && !attempt
      modifies this
      ensures View() == Step(old(View()), Action.BeginClose) && Inv(View())
    {
      StepKeeps(View(), Action.BeginClose);
      if status.Closed? {
        return;
      }
      status, attempt := Closing, true;
    }

    /** Cleans one agent after the other and collects the failures. */
    method CleanUp(order: seq<Agent>, cleanups: Cleanups) returns (failed: seq<Agent>)
      modifies this`log
      ensures failed == Failing(order, cleanups)
      ensures log == old(log) + CleanupEvents(order, cleanups)
    {
      failed := [];
      for i := 0 to |order|
        invariant failed == Failing(order[..i], cleanups)
        invariant log == old(log) + CleanupEvents(order[..i], cleanups)
      {
        var x := order[i];
        assert order[..i + 1][..i] == order[..i];
        if cleanups(x) {
          log := log + [Cleaned(x)];
        } else {
          log := log + [CleanFailed(x)];
          failed := failed + [x];
        }
      }
      assert order[..|order|] == order;
    }

    /** The locked part of a close: clean up in reverse order, keep the failures,
        and close the services only if there were none. */
    method RunClose(cleanups: Cleanups, servicesOk: bool) returns (failures: nat)
      requires Inv(View()) && attempt
      modifies this
      ensures View() == Step(old(View()), Action.RunClose(cleanups, servicesOk)) && Inv(View())
      ensures failures == 0 <==> agents == [] && servicesOk
    {
      RunCloseKeeps(View(), cleanups, servicesOk);
      log := log + [AttemptStarted];
      var failed := CleanUp(Reverse(agents), cleanups);
      agents, attempt, failures := failed, false, |failed|;
      if failures == 0 {
        if servicesOk {
          log := log + [ServicesClosed];
          status := Closed;
        } else {
          failures := 1;
        }
      }
    }
  }
}
