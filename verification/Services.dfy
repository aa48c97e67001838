/** Shared engine services owned through leases: the last lease closes the
    container, and a failed close can be retried. Every synchronous section
    between two awaits is one atomic step; the environment picks the order. */
module Services {
  import opened Options

  /** The task behind a lease's close, as the lease sees it. */
  datatype Release = NotStarted | Pending | Closing | Raised | Done

  datatype Lease = Lease(released: bool, release: Release)

  /** `closes` and `underflow` are history variables. */
  datatype State = State(
    ownerCount: int,
    closeStarted: bool,
    leases: map<nat, Lease>,
    next: nat,
    closes: nat,
    underflow: bool)

  const START := State(0, false, map[], 0, 0, false)

  datatype Action =
    | Acquire
    | Aclose(lease: nat)
    | RunRelease(lease: nat)
    | CancelRelease(lease: nat)
    | CloseEnds(lease: nat, ok: bool)

  /** Steps the runtime can take. Acquiring and closing a lease are always allowed
      (they may be refused); the rest need the lease's task in the right place. */
  predicate Enabled(s: State, a: Action) {
    match a
    case Acquire => true
    case Aclose(l) => l in s.leases
    case RunRelease(l) => l in s.leases && s.leases[l].release.Pending?
    case CancelRelease(l) => l in s.leases && s.leases[l].release.Pending?
    case CloseEnds(l, _) => l in s.leases && s.leases[l].release.Closing?
  }

  function SetLease(s: State, l: nat, lease: Lease): State {
    s.(leases := s.leases[l := lease])
  }

  function Step(s: State, a: Action): State
    requires Enabled(s, a)
  {
    match a
    case Acquire =>
      if s.closeStarted then s
      else s.(ownerCount := s.ownerCount + 1, leases := s.leases[s.next := Lease(false, NotStarted)],
              next := s.next + 1)
    case Aclose(l) =>
      var lease := s.leases[l];
      if lease.released || lease.release.Pending? || lease.release.Closing? then s
      else SetLease(s, l, lease.(release := Pending))
    case RunRelease(l) =>
      if s.ownerCount < 1 then SetLease(s, l, s.leases[l].(release := Raised)).(underflow := true)
      else if s.ownerCount > 1 then SetLease(s, l, Lease(true, Done)).(ownerCount := s.ownerCount - 1)
      else SetLease(s, l, s.leases[l].(release := Closing)).(closeStarted := true)
    case CancelRelease(l) =>
      SetLease(s, l, s.leases[l].(release := Raised))
    case CloseEnds(l, ok) =>
      if ok then SetLease(s, l, Lease(true, Done)).(ownerCount := 0, closes := s.closes + 1)
      else SetLease(s, l, s.leases[l].(release := Raised)).(closeStarted := false)
  }

  /** `acts` can be performed one after the other from `s`. */
  ghost predicate Legal(s: State, acts: seq<Action>)
    decreases |acts|
  {
    acts == [] || (Enabled(s, acts[0]) && Legal(Step(s, acts[0]), acts[1..]))
  }

  ghost function Exec(s: State, acts: seq<Action>): State
    requires Legal(s, acts)
    decreases |acts|
  {
    if acts == [] then s else Exec(Step(s, acts[0]), acts[1..])
  }

  function Unreleased(leases: map<nat, Lease>): set<nat> {
    set l | l in leases && !leases[l].released
  }

  ghost predicate Closed(s: State) {
    s.closes > 0
  }

  /** The protocol invariant. */
  ghost predicate Inv(s: State) {
    && s.ownerCount == |Unreleased(s.leases)|
    && !s.underflow
    && (forall l | l in s.leases :: l < s.next && (s.leases[l].released <==> s.leases[l].release.Done?))
    && (forall l | l in s.leases && s.leases[l].release.Closing? ::
          Unreleased(s.leases) == {l} && s.closeStarted && s.closes == 0)
    && (s.closeStarted ==> Closed(s) || exists l :: l in s.leases && s.leases[l].release.Closing?)
    && s.closes <= 1
    && (Closed(s) ==> s.closeStarted && Unreleased(s.leases) == {})
    && (Unreleased(s.leases) == {} && s.next > 0 ==> Closed(s))
  }

  lemma ReleaseOne(leases: map<nat, Lease>, l: nat)
    requires l in leases && !leases[l].released
    ensures Unreleased(leases[l := Lease(true, Done)]) == Unreleased(leases) - {l}
    ensures |Unreleased(leases) - {l}| == |Unreleased(leases)| - 1
  {
    assert l in Unreleased(leases);
  }

  lemma KeepReleased(leases: map<nat, Lease>, l: nat, r: Release)
    requires l in leases
    ensures Unreleased(leases[l := leases[l].(release := r)]) == Unreleased(leases)
  {
  }

  lemma SoleMember(s: set<nat>, l: nat)
    requires l in s && |s| == 1
    ensures s == {l}
  {
    var rest := s - {l};
    assert s == rest + {l};
  }

  lemma AcquireKeeps(s: State)
    requires Inv(s)
    ensures Inv(Step(s, Acquire))
  {
    if !s.closeStarted {
      var s' := Step(s, Acquire);
      assert s.next !in s.leases;
      assert Unreleased(s'.leases) == Unreleased(s.leases) + {s.next};
    }
  }

  lemma RunKeeps(s: State, l: nat)
    requires Inv(s) && Enabled(s, RunRelease(l))
    ensures Inv(Step(s, RunRelease(l)))
  {
    var s' := Step(s, RunRelease(l));
    assert l in Unreleased(s.leases);
    assert s.ownerCount >= 1;
    if s.ownerCount > 1 {
      ReleaseOne(s.leases, l);
      forall k | k in s.leases ensures !s.leases[k].release.Closing? {
      }
      assert |Unreleased(s'.leases)| >= 1;
    } else {
      SoleMember(Unreleased(s.leases), l);
      KeepReleased(s.leases, l, Closing);
      assert s'.leases[l].release.Closing?;
      forall k | k in s'.leases && s'.leases[k].release.Closing?
        ensures Unreleased(s'.leases) == {k} && s'.closes == 0
      {
      }
    }
  }

  lemma CloseKeeps(s: State, l: nat, ok: bool)
    requires Inv(s) && Enabled(s, CloseEnds(l, ok))
    ensures Inv(Step(s, CloseEnds(l, ok)))
  {
    if ok {
      ReleaseOne(s.leases, l);
    } else {
      KeepReleased(s.leases, l, Raised);
    }
  }

  lemma StepKeeps(s: State, a: Action)
    requires Inv(s) && Enabled(s, a)
    ensures Inv(Step(s, a))
    ensures Closed(s) ==> Closed(Step(s, a))
  {
    match a {
      case Acquire => AcquireKeeps(s);
      case Aclose(l) =>
        if Step(s, a) != s {
          RequestKeeps(s, l, Pending);
        }
      case RunRelease(l) => RunKeeps(s, l);
      case CancelRelease(l) => RequestKeeps(s, l, Raised);
      case CloseEnds(l, ok) => CloseKeeps(s, l, ok);
    }
  }

  /** Starting or losing a task that has not run yet touches nothing else. */
  lemma RequestKeeps(s: State, l: nat, r: Release)
    requires Inv(s) && l in s.leases && !s.leases[l].released && !s.leases[l].release.Closing?
    requires r.Pending? || r.Raised?
    ensures Inv(SetLease(s, l, s.leases[l].(release := r)))
  {
    KeepReleased(s.leases, l, r);
    var s' := SetLease(s, l, s.leases[l].(release := r));
    if s.closeStarted && !Closed(s) {
      var k :| k in s.leases && s.leases[k].release.Closing?;
      assert s'.leases[k].release.Closing?;
    }
  }

  /** In every state any interleaving of lease operations can reach: the owner
      count is the number of unreleased leases, the underflow branch was never
      taken, a close runs at most for the single unreleased lease, the container
      is closed at most once, and it is closed as soon as nobody holds a lease. */
  lemma {:induction false} LeasesAreSafe(s: State, acts: seq<Action>)
    requires Inv(s) && Legal(s, acts)
    ensures Inv(Exec(s, acts))
    ensures Closed(s) ==> Closed(Exec(s, acts)) && Exec(s, acts).next == s.next
    decreases |acts|
  {
    if acts == [] {
    } else {
      StepKeeps(s, acts[0]);
      LeasesAreSafe(Step(s, acts[0]), acts[1..]);
    }
  }

  /** The invariant holds initially, so it holds in every run. */
  lemma AllRunsAreSafe(acts: seq<Action>)
    requires Legal(START, acts)
    ensures Inv(Exec(START, acts))
  {
    assert Unreleased(START.leases) == {};
    LeasesAreSafe(START, acts);
  }

  /** Two closes are never in progress at once, and none can start while another
      owner is left. */
  lemma OneCloseAtATime(acts: seq<Action>, l: nat, k: nat)
    requires Legal(START, acts)
    requires var s := Exec(START, acts);
             l in s.leases && k in s.leases && s.leases[l].release.Closing? && !s.leases[k].released
    ensures l == k && Exec(START, acts).ownerCount == 1
  {
    AllRunsAreSafe(acts);
    var s := Exec(START, acts);
    assert k in Unreleased(s.leases);
  }

  /** After a successful close no acquire ever succeeds again. */
  lemma NoOwnerAfterClose(acts: seq<Action>, more: seq<Action>)
    requires Legal(START, acts) && Closed(Exec(START, acts)) && Legal(Exec(START, acts), more)
    ensures Step(Exec(Exec(START, acts), more), Acquire) == Exec(Exec(START, acts), more)
    ensures Exec(Exec(START, acts), more).ownerCount == 0
    ensures Exec(Exec(START, acts), more).next == Exec(START, acts).next
  {
    AllRunsAreSafe(acts);
    LeasesAreSafe(Exec(START, acts), more);
  }

  /** A failed close loses nothing: the same lease can close again and succeed. */
  lemma FailedCloseCanRetry(acts: seq<Action>, l: nat)
    requires Legal(START, acts) && Enabled(Exec(START, acts), CloseEnds(l, false))
    ensures var retry := [CloseEnds(l, false), Aclose(l), RunRelease(l), CloseEnds(l, true)];
            Legal(Exec(START, acts), retry) && Closed(Exec(Exec(START, acts), retry))
  {
    AllRunsAreSafe(acts);
    var s0 := Exec(START, acts);
    var s1 := Step(s0, CloseEnds(l, false));
    StepKeeps(s0, CloseEnds(l, false));
    var s2 := Step(s1, Aclose(l));
    var s3 := Step(s2, RunRelease(l));
    var s4 := Step(s3, CloseEnds(l, true));
    assert s1.ownerCount == 1 && s3.leases[l].release.Closing?;
    var a4 := [CloseEnds(l, true)];
    var a3 := [RunRelease(l), CloseEnds(l, true)];
    var a2 := [Aclose(l), RunRelease(l), CloseEnds(l, true)];
    var a1 := [CloseEnds(l, false), Aclose(l), RunRelease(l), CloseEnds(l, true)];
    assert a1[1..] == a2 && a2[1..] == a3 && a3[1..] == a4 && a4[1..] == [];
    assert Legal(s4, []) && Legal(s3, a4) && Legal(s2, a3) && Legal(s1, a2) && Legal(s0, a1);
    assert Exec(s3, a4) == s4;
    assert Exec(s2, a3) == s4;
    assert Exec(s1, a2) == s4;
  }

  // ------------------------------------------------------------------
  // What each step achieves
  // ------------------------------------------------------------------

  /** While no close has started an acquire grants a new, unreleased lease and counts
      its owner; otherwise it is refused. */
  lemma AcquireGrants(acts: seq<Action>, k: nat)
    requires Legal(START, acts)
    ensures var s := Exec(START, acts);
            var s' := Step(s, Acquire);
            if s.closeStarted then s' == s
            else
              && s.next !in s.leases && s.next in s'.leases && s'.next == s.next + 1
              && !s'.leases[s.next].released && s'.leases[s.next].release.NotStarted?
              && s'.ownerCount == s.ownerCount + 1
              && (k in s.leases ==> k in s'.leases && s'.leases[k] == s.leases[k])
  {
    AllRunsAreSafe(acts);
  }

  /** Closing a lease always leads somewhere: afterwards it is released, or its release
      is about to run, or it is closing the services; no other lease is touched. */
  lemma AcloseStartsRelease(acts: seq<Action>, l: nat, k: nat)
    requires Legal(START, acts) && l in Exec(START, acts).leases
    ensures var s := Exec(START, acts);
            var s' := Step(s, Aclose(l));
            && l in s'.leases
            && (s'.leases[l].released || s'.leases[l].release.Pending? || s'.leases[l].release.Closing?)
            && (s'.leases[l].released <==> s.leases[l].released)
            && (s.leases[l].release.Closing? ==> s' == s)
            && (k != l && k in s.leases ==> k in s'.leases && s'.leases[k] == s.leases[k])
            && s'.ownerCount == s.ownerCount && s'.closeStarted == s.closeStarted
  {
    AllRunsAreSafe(acts);
  }

  /** A release that runs frees one of several owners, or starts the close for the last. */
  lemma ReleaseRuns(acts: seq<Action>, l: nat)
    requires Legal(START, acts) && Enabled(Exec(START, acts), RunRelease(l))
    ensures var s := Exec(START, acts);
            var s' := Step(s, RunRelease(l));
            && l in Unreleased(s.leases)
            && (Unreleased(s.leases) != {l} ==>
                  s'.leases[l].released && s'.ownerCount == s.ownerCount - 1 && !s'.closeStarted
                      && s'.closes == s.closes)
            && (Unreleased(s.leases) == {l} ==> s'.leases[l].release.Closing? && s'.closeStarted && s'.ownerCount == 1)
  {
    AllRunsAreSafe(acts);
    var s := Exec(START, acts);
    assert l in Unreleased(s.leases);
    if s.ownerCount == 1 {
      SoleMember(Unreleased(s.leases), l);
    }
  }

  /** A close that ends releases its lease for good, or gives the services back. */
  lemma CloseEffect(acts: seq<Action>, l: nat, ok: bool)
    requires Legal(START, acts) && Enabled(Exec(START, acts), CloseEnds(l, ok))
    ensures var s' := Step(Exec(START, acts), CloseEnds(l, ok));
            if ok then Closed(s') && s'.leases[l].released && s'.ownerCount == 0 && s'.closeStarted
            else !Closed(s') && !s'.leases[l].released && s'.leases[l].release.Raised?
                 && s'.ownerCount == 1 && !s'.closeStarted
  {
    AllRunsAreSafe(acts);
  }

  /** A release task lost before it ran leaves its lease owned and ready to be closed. */
  lemma LostReleaseEffect(acts: seq<Action>, l: nat)
    requires Legal(START, acts) && Enabled(Exec(START, acts), CancelRelease(l))
    ensures var s := Exec(START, acts);
            var s' := Step(s, CancelRelease(l));
            && l in Unreleased(s'.leases) && s'.leases[l].release.Raised?
            && s'.ownerCount == s.ownerCount && s'.closeStarted == s.closeStarted
  {
    AllRunsAreSafe(acts);
  }

  lemma ExecTwo(s: State, a: Action, b: Action)
    requires Enabled(s, a) && Enabled(Step(s, a), b)
    ensures Legal(s, [a, b]) && Exec(s, [a, b]) == Step(Step(s, a), b)
  {
    assert [a, b][1..] == [b] && [b][1..] == [];
    assert Legal(Step(Step(s, a), b), []) && Legal(Step(s, a), [b]);
    assert Exec(Step(s, a), [b]) == Step(Step(s, a), b);
  }

  /** From every reachable state an unreleased lease whose release has not started, or
      failed, can be closed: it is freed at once if others are left; otherwise the
      close starts and, if it succeeds, closes the services. */
  lemma LeaseCanClose(acts: seq<Action>, l: nat)
    requires Legal(START, acts) && l in Unreleased(Exec(START, acts).leases)
    requires Exec(START, acts).leases[l].release.NotStarted? || Exec(START, acts).leases[l].release.Raised?
    ensures Legal(Exec(START, acts), [Aclose(l), RunRelease(l)])
    ensures var s := Exec(START, acts);
            var s' := Exec(s, [Aclose(l), RunRelease(l)]);
            && l in s'.leases
            && (Unreleased(s.leases) != {l} ==> s'.leases[l].released && s'.ownerCount == s.ownerCount - 1)
            && (Unreleased(s.leases) == {l} ==>
                  Enabled(s', CloseEnds(l, true)) && Closed(Step(s', CloseEnds(l, true))))
  {
    AllRunsAreSafe(acts);
    var s := Exec(START, acts);
    var s1 := Step(s, Aclose(l));
    StepKeeps(s, Aclose(l));
    KeepReleased(s.leases, l, Pending);
    ExecTwo(s, Aclose(l), RunRelease(l));
    if s.ownerCount == 1 {
      SoleMember(Unreleased(s.leases), l);
    }
  }

  // ------------------------------------------------------------------
  // The services object, updated in place
  // ------------------------------------------------------------------

  class EngineServices {
    var ownerCount: int
    var ownedCloseStarted: bool
    var leases: map<nat, Lease>
    var next: nat
    ghost var closes: nat
    ghost var underflow: bool

    ghost function View(): State
      reads this
    {
      State(ownerCount, ownedCloseStarted, leases, next, closes, underflow)
    }

    constructor ()
      ensures View() == START && Inv(View())
    {
      ownerCount, ownedCloseStarted, leases, next := 0, false, map[], 0;
      closes, underflow := 0, false;
      new;
      assert Unreleased(leases) == {};
    }

    method Acquire() returns (lease: Option<nat>)
      requires Inv(View())
      modifies this
      ensures View() == Step(old(View()), Action.Acquire) && Inv(View())
      ensures lease == if old(ownedCloseStarted) then None else Some(old(next))
    {
      AcquireKeeps(View());
      if ownedCloseStarted {
        return None;
      }
      ownerCount := ownerCount + 1;
      lease := Some(next);
      leases := leases[next := Lease(false, NotStarted)];
      next := next + 1;
    }

    /** The lease's own close: idempotent, and a failed task is replaced. */
    method Aclose(l: nat)
      requires Inv(View()) && l in leases
      modifies this
      ensures View() == Step(old(View()), Action.Aclose(l)) && Inv(View())
      ensures l in leases && (leases[l].released || leases[l].release.Pending? || leases[l].release.Closing?)
    {
      StepKeeps(View(), Action.Aclose(l));
      if leases[l].released {
        return;
      }
      if leases[l].release.NotStarted? || leases[l].release.Raised? {
        leases := leases[l := leases[l].(release := Pending)];
      }
    }

    /** The release task up to its first await; `closing` means it now closes the services. */
    method RunRelease(l: nat) returns (closing: bool)
      requires Inv(View()) && Enabled(View(), Action.RunRelease(l))
      modifies this
      ensures View() == Step(old(View()), Action.RunRelease(l)) && Inv(View())
      ensures closing <==> old(ownerCount) == 1
    {
      StepKeeps(View(), Action.RunRelease(l));
      assert l in Unreleased(leases);
      if ownerCount < 1 {
        assert false; // ownership underflow
      }
      if ownerCount > 1 {
        ownerCount := ownerCount - 1;
        leases := leases[l := Lease(true, Done)];
        return false;
      }
      ownedCloseStarted := true;
      leases := leases[l := leases[l].(release := Closing)];
      closing := true;
    }

    method CloseEnds(l: nat, ok: bool)
      requires Inv(View()) && Enabled(View(), Action.CloseEnds(l, ok))
      modifies this
      ensures View() == Step(old(View()), Action.CloseEnds(l, ok)) && Inv(View())
    {
      StepKeeps(View(), Action.CloseEnds(l, ok));
      if ok {
        ownerCount := 0;
        leases := leases[l := Lease(true, Done)];
        closes := closes + 1;
      } else {
        ownedCloseStarted := false;
        leases := leases[l := leases[l].(release := Raised)];
      }
    }
  }
}
