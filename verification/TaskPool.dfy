/** The background task pool: tracking tables, completion, consumption and resume
    as a step machine over every order in which the event loop can run them. */
module TaskPool {

  /** Task ids are handed out by a counter ("bg_1", "bg_2", ...). */
  type TaskId = nat

  datatype BgStatus = PENDING | RUNNING | SUCCESS | FAILED | CANCELLED | TIMEOUT | WAITING_FOR_ROUTE | STALLED

  predicate IsPause(s: BgStatus) {
    s.WAITING_FOR_ROUTE? || s.STALLED?
  }

  predicate IsFinal(s: BgStatus) {
    s.SUCCESS? || s.FAILED? || s.CANCELLED? || s.TIMEOUT?
  }

  datatype TaskMeta = TaskMeta(status: BgStatus, retrieved: bool, registered: bool, notified: bool)

  /** What a task's coroutine may return: a plain value or an operation outcome. */
  datatype Raw =
    | Plain
    | OpSucceeded(output: Raw)
    | OpFailed
    | OpPaused(stall: bool)
    | OpTimedOut
    | OpCancelled

  datatype Ending = WasCancelled | Raised(timeout: bool) | Returned(raw: Raw)

  /** A delivered notification. `cancelled` records whether a cancel had been
      requested for the run that ended; it is a history variable. */
  datatype Notice = Notice(task: TaskId, status: BgStatus, terminal: bool, cancelled: bool)

  /** A one-shot completion future. */
  datatype Waiter = Waiter(token: nat, done: bool)

  /** `notices` and what follows it are history variables; `since` is the number of
      completions seen when a future was created. */
  datatype State = State(
    tasks: set<TaskId>,
    operations: set<TaskId>,
    meta: map<TaskId, TaskMeta>,
    counter: nat,
    waiters: seq<Waiter>,
    notices: seq<Notice>,
    started: seq<TaskId>,
    cancelRequested: set<TaskId>,
    completions: nat,
    since: map<nat, nat>)

  const START := State({}, {}, map[], 0, [], [], [], {}, 0, map[])

  datatype Action =
    | Submit
    | Adopt
    | AcquireSlot(task: TaskId)
    | Cancel(task: TaskId)
    | Progress(task: TaskId, atEnd: bool, status: BgStatus)
    | Done(task: TaskId, ending: Ending, register: bool)
    | MarkRetrieved(task: TaskId)
    | Resubmit(task: TaskId)
    | NextCompletion(token: nat)
    | DiscardWaiter(token: nat)

  /** A task ends once, while tracked. Resuming is only done for a task that is not
      running: the pool does not check that itself, and `ResubmitKeepsIff` shows that
      nothing less will do. */
  predicate Enabled(s: State, a: Action) {
    match a
    case Done(t, _, _) => t in s.tasks
    case AcquireSlot(t) => t in s.tasks
    case Progress(t, _, _) => t in s.tasks
    case Resubmit(t) => t !in s.tasks
    case _ => true
  }

  // ------------------------------------------------------------------
  // Operations
  // ------------------------------------------------------------------

  /** The status a run ends with. A success wrapper is opened once; a cancel
      requested before the end overrides whatever was returned. */
  function EndStatus(e: Ending, cancelled: bool): BgStatus {
    match e
    case WasCancelled => CANCELLED
    case Raised(timeout) => if timeout then TIMEOUT else FAILED
    case Returned(r) =>
      var raw := if cancelled then OpCancelled else if r.OpSucceeded? then r.output else r;
      match raw
      case OpFailed => FAILED
      case OpPaused(stall) => if stall then STALLED else WAITING_FOR_ROUTE
      case OpTimedOut => TIMEOUT
      case OpCancelled => CANCELLED
      case _ => SUCCESS
  }

  /** Which progress events the in-graph writer delivers: node failures, but
      never a whole-task outcome. */
  predicate WriterDelivers(atEnd: bool, status: BgStatus) {
    status.FAILED? && !IsTaskTerminal(atEnd, status)
  }

  predicate IsTaskTerminal(atEnd: bool, status: BgStatus) {
    IsPause(status) || (atEnd && IsFinal(status))
  }

  function ResolveAll(ws: seq<Waiter>): seq<Waiter> {
    if ws == [] then [] else ResolveAll(ws[..|ws| - 1]) + [ws[|ws| - 1].(done := true)]
  }

  function Discard(ws: seq<Waiter>, token: nat): seq<Waiter> {
    if ws == [] then []
    else if ws[0].token == token then ws[1..]
    else [ws[0]] + Discard(ws[1..], token)
  }

  /** Forget a consumed task that is neither running nor paused. */
  function MaybeReap(s: State, t: TaskId): State {
    if t !in s.meta || !s.meta[t].retrieved || t in s.tasks || IsPause(s.meta[t].status) then s
    else s.(meta := s.meta - {t})
  }

  function NewTask(s: State, status: BgStatus, operation: bool): State {
    var t := s.counter + 1;
    s.(counter := t,
       meta := s.meta[t := TaskMeta(status, false, false, false)],
       operations := if operation then s.operations + {t} else s.operations,
       tasks := s.tasks + {t},
       started := s.started + [t])
  }

  function EndMeta(m: TaskMeta, status: BgStatus, register: bool): TaskMeta {
    TaskMeta(status, m.retrieved, m.registered || (register && !m.retrieved), true)
  }

  /** Settle the record, notify, wake the waiters and stop tracking the task. */
  function Settle(s: State, t: TaskId, ending: Ending, register: bool): State {
    var status := EndStatus(ending, t in s.meta && s.meta[t].status.CANCELLED?);
    s.(meta := if t in s.meta then s.meta[t := EndMeta(s.meta[t], status, register)] else s.meta,
       notices := s.notices + [Notice(t, status, true, t in s.cancelRequested)],
       waiters := ResolveAll(s.waiters),
       tasks := s.tasks - {t},
       operations := s.operations - {t},
       cancelRequested := s.cancelRequested - {t},
       completions := s.completions + 1)
  }

  function Finish(s: State, t: TaskId, ending: Ending, register: bool): State {
    MaybeReap(Settle(s, t, ending, register), t)
  }

  /** A new run under an old id; unknown ids are refused. */
  function Resubmitted(s: State, t: TaskId): State {
    if t !in s.meta then s
    else s.(meta := s.meta[t := TaskMeta(RUNNING, false, false, false)],
            tasks := s.tasks + {t}, operations := s.operations + {t}, started := s.started + [t])
  }

  function SetStatus(s: State, t: TaskId, status: BgStatus): State {
    if t in s.meta then s.(meta := s.meta[t := s.meta[t].(status := status)]) else s
  }

  function Step(s: State, a: Action): State
    requires Enabled(s, a)
  {
    match a
    case Submit => NewTask(s, PENDING, true)
    case Adopt => NewTask(s, RUNNING, false)
    case AcquireSlot(t) =>
      if t in s.meta && s.meta[t].status.PENDING? then SetStatus(s, t, RUNNING) else s
    case Cancel(t) =>
      if t !in s.tasks then s
      else SetStatus(s, t, CANCELLED).(cancelRequested := s.cancelRequested + {t})
    case Progress(t, atEnd, status) =>
      if WriterDelivers(atEnd, status) then
        s.(notices := s.notices + [Notice(t, status, false, t in s.cancelRequested)])
      else s
    case Done(t, ending, register) => Finish(s, t, ending, register)
    case MarkRetrieved(t) =>
      if t !in s.meta || IsPause(s.meta[t].status) then s
      else MaybeReap(s.(meta := s.meta[t := s.meta[t].(retrieved := true)]), t)
    case Resubmit(t) => Resubmitted(s, t)
    case NextCompletion(token) =>
      s.(waiters := s.waiters + [Waiter(token, false)], since := s.since[token := s.completions])
    case DiscardWaiter(token) => s.(waiters := Discard(s.waiters, token))
  }

  ghost predicate Legal(s: State, acts: seq<Action>)
    decreases |acts|
  {
    acts == [] || (Enabled(s, acts[0]) && Legal(Step(s, acts[0]), acts[1..]))
  }

  ghost function Exec(s: State, acts: seq<Action>): State
    requires Legal(s, acts)
    decreases |acts|
  {
    if acts == [] then s else Exec(Step(s, acts[0]), acts[1..])
  }

  // ------------------------------------------------------------------
  // The invariant
  // ------------------------------------------------------------------

  function Starts(started: seq<TaskId>, t: TaskId): nat {
    if started == [] then 0
    else Starts(started[..|started| - 1], t) + if started[|started| - 1] == t then 1 else 0
  }

  function Terminals(ns: seq<Notice>, t: TaskId): nat {
    if ns == [] then 0
    else
      var n := ns[|ns| - 1];
      Terminals(ns[..|ns| - 1], t) + if n.task == t && n.terminal then 1 else 0
  }

  /** One task's tables agree: consumed and retained means running or paused, a
      pause is never running, a finished task shows a final or paused status, and
      a requested cancel, and nothing else, shows as cancelled until the run ends. */
  ghost predicate TaskOk(s: State, t: TaskId) {
    && (t in s.tasks ==> t in s.meta && t <= s.counter)
    && (t in s.operations ==> t in s.tasks)
    && (t in s.meta ==>
          && 1 <= t <= s.counter
          && (s.meta[t].retrieved ==> t in s.tasks || IsPause(s.meta[t].status))
          && (IsPause(s.meta[t].status) ==> t !in s.tasks)
          && (t !in s.tasks ==> IsFinal(s.meta[t].status) || IsPause(s.meta[t].status)))
    && (t in s.cancelRequested <==> t in s.tasks && t in s.meta && s.meta[t].status.CANCELLED?)
    && Terminals(s.notices, t) + (if t in s.tasks then 1 else 0) == Starts(s.started, t)
    && (t > s.counter || t == 0 ==> Starts(s.started, t) == 0)
  }

  /** A run on which a cancel was requested never ends in success or a pause;
      progress notices are node failures and never terminal. */
  ghost predicate NoticeOk(n: Notice) {
    if n.terminal then
      (IsFinal(n.status) || IsPause(n.status)) && (n.cancelled ==> !n.status.SUCCESS? && !IsPause(n.status))
    else n.status.FAILED?
  }

  ghost predicate Inv(s: State) {
    && (forall t: TaskId :: TaskOk(s, t))
    && (forall n | n in s.notices :: NoticeOk(n))
    && (forall w | w in s.waiters && !w.done :: w.token in s.since && s.since[w.token] == s.completions)
  }

  lemma StartsAppend(started: seq<TaskId>, x: TaskId, t: TaskId)
    ensures Starts(started + [x], t) == Starts(started, t) + if x == t then 1 else 0
  {
    assert (started + [x])[..|started|] == started;
  }

  lemma TerminalsAppend(ns: seq<Notice>, n: Notice, t: TaskId)
    ensures Terminals(ns + [n], t) == Terminals(ns, t) + if n.task == t && n.terminal then 1 else 0
  {
    assert (ns + [n])[..|ns|] == ns;
  }

  lemma {:induction false} ResolveAllDone(ws: seq<Waiter>)
    ensures |ResolveAll(ws)| == |ws|
    ensures forall w | w in ResolveAll(ws) :: w.done
  {
    if ws == [] {
    } else {
      ResolveAllDone(ws[..|ws| - 1]);
    }
  }

  lemma {:induction false} DiscardKeeps(ws: seq<Waiter>, token: nat)
    ensures forall w | w in Discard(ws, token) :: w in ws
  {
    if ws == [] {
    } else {
      DiscardKeeps(ws[1..], token);
    }
  }

  lemma NewTaskFresh(s: State, status: BgStatus, operation: bool)
    requires TaskOk(s, s.counter + 1) && (status.PENDING? || status.RUNNING?)
    ensures TaskOk(NewTask(s, status, operation), s.counter + 1)
  {
    var t, s' := s.counter + 1, NewTask(s, status, operation);
    StartsAppend(s.started, t, t);
    assert t in s'.tasks && s'.meta[t] == TaskMeta(status, false, false, false);
    assert t !in s.tasks && t !in s.cancelRequested;
  }

  lemma NewTaskOthers(s: State, status: BgStatus, operation: bool, t: TaskId)
    requires TaskOk(s, t) && t != s.counter + 1
    ensures TaskOk(NewTask(s, status, operation), t)
  {
    var s' := NewTask(s, status, operation);
    StartsAppend(s.started, s.counter + 1, t);
    assert (t in s'.tasks <==> t in s.tasks) && (t in s'.operations <==> t in s.operations);
    assert (t in s'.meta <==> t in s.meta) && (t in s.meta ==> s'.meta[t] == s.meta[t]);
  }

  lemma NewTaskKeeps(s: State, status: BgStatus, operation: bool)
    requires Inv(s) && (status.PENDING? || status.RUNNING?)
    ensures Inv(NewTask(s, status, operation))
  {
    forall t: TaskId ensures TaskOk(NewTask(s, status, operation), t) {
      assert TaskOk(s, t);
      if t == s.counter + 1 {
        NewTaskFresh(s, status, operation);
      } else {
        NewTaskOthers(s, status, operation, t);
      }
    }
  }

  lemma ResubmitOk(s: State, x: TaskId, t: TaskId)
    requires TaskOk(s, t) && TaskOk(s, x) && x !in s.tasks && x in s.meta
    ensures TaskOk(Resubmitted(s, x), t)
  {
    StartsAppend(s.started, x, t);
  }

  /** Resuming keeps the tables consistent exactly when the id is not running: a
      tracked task would be overwritten, and one of its two runs never accounted for. */
  lemma ResubmitKeepsIff(s: State, x: TaskId)
    requires Inv(s)
    ensures Inv(Resubmitted(s, x)) <==> x !in s.tasks
  {
    var s' := Resubmitted(s, x);
    assert TaskOk(s, x);
    StartsAppend(s.started, x, x);
    if x in s.tasks {
      assert !TaskOk(s', x);
    } else if x in s.meta {
      forall t: TaskId ensures TaskOk(s', t) {
        assert TaskOk(s, t);
        ResubmitOk(s, x, t);
      }
    }
  }

  /** A cancelled task is still tracked until it ends, and then resuming it is the
      breaking case: its status is neither success nor running. */
  lemma ResumeTooEarly()
    ensures Legal(START, [Submit, Cancel(1)])
    ensures var s := Exec(START, [Submit, Cancel(1)]);
            && 1 in s.tasks && s.meta[1].status.CANCELLED?
            && !Inv(Resubmitted(s, 1))
  {
    var acts := [Submit, Cancel(1)];
    assert acts[1..] == [Cancel(1)] && acts[1..][1..] == [];
    var s1 := Step(START, Submit);
    assert Legal(s1, [Cancel(1)]) && Legal(Step(s1, Cancel(1)), []);
    assert Exec(START, acts) == Exec(s1, [Cancel(1)]) == Step(s1, Cancel(1));
    StartIsOk();
    RunKeeps(START, acts);
    ResubmitKeepsIff(Exec(START, acts), 1);
  }

  /** A run ends with a final or paused status, and with neither success nor a pause
      if a cancel came first. */
  lemma EndStatusOk(e: Ending, cancelled: bool)
    ensures IsFinal(EndStatus(e, cancelled)) || IsPause(EndStatus(e, cancelled))
    ensures cancelled ==> !EndStatus(e, cancelled).SUCCESS? && !IsPause(EndStatus(e, cancelled))
  {
  }

  /** The tables right after the end of a run, before the record is possibly dropped. */
  lemma SettledTables(s: State, x: TaskId, ending: Ending, register: bool)
    requires x in s.tasks && x in s.meta
    ensures var s', status := Settle(s, x, ending, register), EndStatus(ending, s.meta[x].status.CANCELLED?);
            && s'.meta == s.meta[x := EndMeta(s.meta[x], status, register)]
            && s'.notices == s.notices + [Notice(x, status, true, x in s.cancelRequested)]
  {
  }

  lemma FinishSelf(s: State, x: TaskId, ending: Ending, register: bool)
    requires TaskOk(s, x) && x in s.tasks
    ensures TaskOk(Finish(s, x, ending, register), x)
  {
    var s1, status := Settle(s, x, ending, register), EndStatus(ending, s.meta[x].status.CANCELLED?);
    SettledTables(s, x, ending, register);
    EndStatusOk(ending, s.meta[x].status.CANCELLED?);
    TerminalsAppend(s.notices, Notice(x, status, true, x in s.cancelRequested), x);
    assert x !in s1.tasks && x !in s1.operations && x !in s1.cancelRequested;
    assert s1.meta[x].status == status && s1.meta[x].retrieved == s.meta[x].retrieved;
    var s' := MaybeReap(s1, x);
    assert x in s'.meta ==> s'.meta[x] == s1.meta[x] && (!s.meta[x].retrieved || IsPause(status));
  }

  lemma FinishOthers(s: State, x: TaskId, ending: Ending, register: bool, t: TaskId)
    requires TaskOk(s, t) && x in s.tasks && x in s.meta && t != x
    ensures TaskOk(Finish(s, x, ending, register), t)
  {
    var s1, s' := Settle(s, x, ending, register), Finish(s, x, ending, register);
    SettledTables(s, x, ending, register);
    TerminalsAppend(s.notices, s1.notices[|s.notices|], t);
    assert (t in s'.tasks <==> t in s.tasks) && (t in s'.operations <==> t in s.operations);
    assert (t in s'.meta <==> t in s.meta) && (t in s.meta ==> s'.meta[t] == s.meta[t]);
    assert t in s'.cancelRequested <==> t in s.cancelRequested;
  }

  lemma FinishOk(s: State, x: TaskId, ending: Ending, register: bool, t: TaskId)
    requires TaskOk(s, t) && TaskOk(s, x) && x in s.tasks
    ensures TaskOk(Finish(s, x, ending, register), t)
  {
    if t == x {
      FinishSelf(s, x, ending, register);
    } else {
      FinishOthers(s, x, ending, register, t);
    }
  }

  lemma FinishKeeps(s: State, x: TaskId, ending: Ending, register: bool)
    requires Inv(s) && x in s.tasks
    ensures Inv(Finish(s, x, ending, register))
  {
    assert TaskOk(s, x);
    var status := EndStatus(ending, s.meta[x].status.CANCELLED?);
    assert NoticeOk(Notice(x, status, true, x in s.cancelRequested));
    forall t: TaskId ensures TaskOk(Finish(s, x, ending, register), t) {
      FinishOk(s, x, ending, register, t);
    }
    ResolveAllDone(s.waiters);
  }

  lemma StatusKeeps(s: State, a: Action)
    requires Inv(s) && Enabled(s, a)
    requires a.AcquireSlot? || a.Cancel? || a.MarkRetrieved?
    ensures Inv(Step(s, a))
  {
    var s' := Step(s, a);
    forall t: TaskId ensures TaskOk(s', t) {
      assert TaskOk(s, t) && TaskOk(s, a.task);
    }
  }

  lemma ProgressKeeps(s: State, x: TaskId, atEnd: bool, status: BgStatus)
    requires Inv(s) && x in s.tasks
    ensures Inv(Step(s, Progress(x, atEnd, status)))
  {
    var s', notice := Step(s, Progress(x, atEnd, status)), Notice(x, status, false, x in s.cancelRequested);
    forall t: TaskId ensures TaskOk(s', t) {
      assert TaskOk(s, t);
      TerminalsAppend(s.notices, notice, t);
    }
  }

  lemma WaiterKeeps(s: State, a: Action)
    requires Inv(s) && (a.NextCompletion? || a.DiscardWaiter?)
    ensures Inv(Step(s, a))
  {
    var s' := Step(s, a);
    DiscardKeeps(s.waiters, a.token);
    forall t: TaskId ensures TaskOk(s', t) {
      assert TaskOk(s, t);
    }
  }

  lemma StepKeeps(s: State, a: Action)
    requires Inv(s) && Enabled(s, a)
    ensures Inv(Step(s, a))
  {
    match a {
      case Submit => NewTaskKeeps(s, PENDING, true);
      case Adopt => NewTaskKeeps(s, RUNNING, false);
      case AcquireSlot(t) => StatusKeeps(s, a);
      case Cancel(t) => StatusKeeps(s, a);
      case MarkRetrieved(t) => StatusKeeps(s, a);
      case Progress(t, atEnd, status) => ProgressKeeps(s, t, atEnd, status);
      case Done(t, ending, register) =>
        assert TaskOk(s, t);
        FinishKeeps(s, t, ending, register);
      case Resubmit(t) => ResubmitKeepsIff(s, t);
      case NextCompletion(_) => WaiterKeeps(s, a);
      case DiscardWaiter(_) => WaiterKeeps(s, a);
    }
  }

  // ------------------------------------------------------------------
  // Whole runs
  // ------------------------------------------------------------------

  lemma {:induction false} RunKeeps(s: State, acts: seq<Action>)
    requires Inv(s) && Legal(s, acts)
    ensures Inv(Exec(s, acts))
    ensures s.counter <= Exec(s, acts).counter
    decreases |acts|
  {
    if acts == [] {
    } else {
      StepKeeps(s, acts[0]);
      RunKeeps(Step(s, acts[0]), acts[1..]);
    }
  }

  lemma StartIsOk()
    ensures Inv(START)
  {
    forall t: TaskId ensures TaskOk(START, t) {}
  }

  /** In every reachable state: one terminal notice per finished run and none for
      a run still tracked; a consumed task that is retained is running or paused;
      and a run whose cancel was requested never ended in success or a pause. */
  lemma PoolIsConsistent(acts: seq<Action>, t: TaskId)
    requires Legal(START, acts)
    ensures var s := Exec(START, acts);
            && Inv(s)
            && Terminals(s.notices, t) + (if t in s.tasks then 1 else 0) == Starts(s.started, t)
            && (t in s.meta && s.meta[t].retrieved ==> t in s.tasks || IsPause(s.meta[t].status))
            && (forall n | n in s.notices && n.terminal && n.cancelled :: n.status in {CANCELLED, FAILED, TIMEOUT})
  {
    StartIsOk();
    RunKeeps(START, acts);
    assert TaskOk(Exec(START, acts), t);
  }

  /** A new task gets an id no run, table or notice has ever used. */
  lemma IdsAreNeverReused(acts: seq<Action>, newId: TaskId)
    requires Legal(START, acts) && newId == Exec(START, acts).counter + 1
    ensures var s := Exec(START, acts);
            && newId !in s.tasks && newId !in s.meta && newId !in s.operations
            && Starts(s.started, newId) == 0 && Terminals(s.notices, newId) == 0
  {
    StartIsOk();
    RunKeeps(START, acts);
    assert TaskOk(Exec(START, acts), newId);
  }

  /** A paused task's record survives, unchanged, everything short of its resume. */
  lemma {:induction false} PauseSurvives(s: State, acts: seq<Action>, t: TaskId)
    requires Inv(s) && Legal(s, acts)
    requires t in s.meta && IsPause(s.meta[t].status)
    requires Resubmit(t) !in acts
    ensures var s' := Exec(s, acts); t in s'.meta && s'.meta[t] == s.meta[t] && t !in s'.tasks
    decreases |acts|
  {
    assert TaskOk(s, t);
    if acts == [] {
    } else {
      var a := acts[0];
      assert a in acts;
      StepKeeps(s, a);
      var s1 := Step(s, a);
      assert t <= s.counter;
      assert t in s1.meta && s1.meta[t] == s.meta[t];
      PauseSurvives(s1, acts[1..], t);
    }
  }

  /** No wake-up is lost: a completion resolves every waiter registered so far,
      and a waiter still pending has seen no completion since it was created. */
  lemma WaitersSeeCompletions(acts: seq<Action>, t: TaskId, ending: Ending, register: bool)
    requires Legal(START, acts) && t in Exec(START, acts).tasks
    ensures var s := Exec(START, acts);
            && (forall w | w in s.waiters && !w.done :: w.token in s.since && s.since[w.token] == s.completions)
            && (forall w | w in Finish(s, t, ending, register).waiters :: w.done)
            && |Finish(s, t, ending, register).waiters| == |s.waiters|
  {
    StartIsOk();
    RunKeeps(START, acts);
    ResolveAllDone(Exec(START, acts).waiters);
  }

  /** The value behind what a coroutine returned: one success wrapper is opened. */
  function Value(r: Raw): Raw {
    if r.OpSucceeded? then r.output else r
  }

  /** When a run ends as what. A cancel overrides what was returned, but neither an
      exception nor a cancelled coroutine. */
  predicate EndsAs(e: Ending, cancelled: bool, status: BgStatus) {
    var returned := e.Returned? && !cancelled;
    match status
    case SUCCESS => returned && (Value(e.raw).Plain? || Value(e.raw).OpSucceeded?)
    case FAILED => e == Raised(false) || (returned && Value(e.raw).OpFailed?)
    case TIMEOUT => e == Raised(true) || (returned && Value(e.raw).OpTimedOut?)
    case STALLED => returned && Value(e.raw) == OpPaused(true)
    case WAITING_FOR_ROUTE => returned && Value(e.raw) == OpPaused(false)
    case CANCELLED => e.WasCancelled? || (e.Returned? && cancelled) || (returned && Value(e.raw).OpCancelled?)
    case _ => false
  }

  lemma EndsAsExactly(e: Ending, cancelled: bool, status: BgStatus)
    ensures EndsAs(e, cancelled, status) <==> status == EndStatus(e, cancelled)
  {
  }

  /** What each run ends as: exactly one terminal notice, whose status, like that of
      the record if it is retained, is decided by the ending and by whether a cancel
      was requested first; the record is dropped exactly if it was consumed and the
      task is not paused; no other task is touched. */
  lemma RunEndsOnce(acts: seq<Action>, t: TaskId, ending: Ending, register: bool)
    requires Legal(START, acts) && t in Exec(START, acts).tasks
    ensures var s := Exec(START, acts);
            var s' := Finish(s, t, ending, register);
            && |s'.notices| == |s.notices| + 1 && s'.notices[..|s.notices|] == s.notices
            && var n := s'.notices[|s.notices|];
               && n.task == t && n.terminal && n.cancelled == (t in s.cancelRequested)
               && EndsAs(ending, t in s.cancelRequested, n.status)
               && Terminals(s'.notices, t) == Terminals(s.notices, t) + 1 == Starts(s'.started, t)
               && t !in s'.tasks && t !in s'.operations && t in s.meta
               && (t in s'.meta <==> !s.meta[t].retrieved || IsPause(n.status))
               && (t in s'.meta ==>
                     && s'.meta[t].status == n.status && s'.meta[t].notified
                     && s'.meta[t].retrieved == s.meta[t].retrieved
                     && (s'.meta[t].registered <==> s.meta[t].registered || (register && !s.meta[t].retrieved)))
  {
    StartIsOk();
    RunKeeps(START, acts);
    var s := Exec(START, acts);
    assert TaskOk(s, t);
    var s' := Finish(s, t, ending, register);
    FinishKeeps(s, t, ending, register);
    assert TaskOk(s', t);
    EndsAsExactly(ending, t in s.cancelRequested, s'.notices[|s.notices|].status);
    TerminalsAppend(s.notices, s'.notices[|s.notices|], t);
  }

  /** The end of a run touches no other task. */
  lemma RunEndsAlone(s: State, t: TaskId, ending: Ending, register: bool, u: TaskId)
    requires t != u
    ensures var s' := Finish(s, t, ending, register);
            && SameTask(s, s', u) && Terminals(s'.notices, u) == Terminals(s.notices, u)
  {
    var s' := Finish(s, t, ending, register);
    TerminalsAppend(s.notices, s'.notices[|s.notices|], u);
  }

  /** Nothing about `u` differs between two states. */
  ghost predicate SameTask(s: State, s': State, u: TaskId) {
    && (u in s'.tasks <==> u in s.tasks) && (u in s'.operations <==> u in s.operations)
    && (u in s'.meta <==> u in s.meta) && (u in s.meta ==> s'.meta[u] == s.meta[u])
    && (u in s'.cancelRequested <==> u in s.cancelRequested)
  }

  // ------------------------------------------------------------------
  // What each operation does
  // ------------------------------------------------------------------

  /** A submission tracks a pending task with its operation under the next id; an
      adoption a running one without. */
  lemma StartEffect(acts: seq<Action>, adopt: bool, u: TaskId)
    requires Legal(START, acts)
    ensures var s := Exec(START, acts);
            var s', t := Step(s, if adopt then Adopt else Submit), s.counter + 1;
            && s'.counter == t && t in s'.tasks && (t in s'.operations <==> !adopt)
            && t in s'.meta && s'.meta[t].status == (if adopt then RUNNING else PENDING)
            && !s'.meta[t].retrieved && !s'.meta[t].registered && !s'.meta[t].notified
            && Starts(s'.started, t) == 1
            && (u != t ==> SameTask(s, s', u)) && s'.notices == s.notices && s'.waiters == s.waiters
  {
    IdsAreNeverReused(acts, Exec(START, acts).counter + 1);
    var s := Exec(START, acts);
    StartsAppend(s.started, s.counter + 1, s.counter + 1);
  }

  /** Getting a slot turns a pending task, and no other, into a running one. */
  lemma SlotEffect(s: State, t: TaskId, u: TaskId)
    requires Inv(s) && t in s.tasks
    ensures var s' := Step(s, AcquireSlot(t));
            && t in s.meta && t in s'.meta
            && s'.meta[t] == s.meta[t].(status := if s.meta[t].status.PENDING? then RUNNING else s.meta[t].status)
            && (u != t ==> SameTask(s, s', u)) && s'.notices == s.notices && s'.tasks == s.tasks
  {
    assert TaskOk(s, t);
  }

  /** A cancel marks a tracked task and is refused for any other. */
  lemma CancelEffect(s: State, t: TaskId, u: TaskId)
    requires Inv(s)
    ensures var s' := Step(s, Cancel(t));
            if t in s.tasks then
              && t in s.meta && t in s'.meta && s'.meta[t] == s.meta[t].(status := CANCELLED)
              && t in s'.tasks && t in s'.cancelRequested
              && (u != t ==> SameTask(s, s', u)) && s'.notices == s.notices
            else s' == s
  {
    assert TaskOk(s, t);
  }

  /** The progress writer delivers a node's failure and nothing else. */
  lemma ProgressEffect(s: State, t: TaskId, atEnd: bool, status: BgStatus)
    requires t in s.tasks
    ensures var s' := Step(s, Progress(t, atEnd, status));
            if status.FAILED? && !atEnd then
              s' == s.(notices := s.notices + [Notice(t, FAILED, false, t in s.cancelRequested)])
            else s' == s
  {
  }

  /** Consuming marks a running task, forgets a finished one, and leaves a paused or
      unknown one alone. */
  lemma RetrieveEffect(s: State, t: TaskId, u: TaskId)
    requires Inv(s)
    ensures var s' := Step(s, MarkRetrieved(t));
            && (t !in s.meta || IsPause(s.meta[t].status) ==> s' == s)
            && (t in s.tasks ==> t in s.meta && t in s'.meta && s'.meta[t] == s.meta[t].(retrieved := true))
            && (t in s.meta && t !in s.tasks && !IsPause(s.meta[t].status) ==> t !in s'.meta)
            && (u != t ==> SameTask(s, s', u)) && s'.tasks == s.tasks && s'.notices == s.notices
  {
    assert TaskOk(s, t);
  }

  /** Resuming a known task starts a clean run under its id. */
  lemma ResubmitEffect(s: State, t: TaskId, u: TaskId)
    requires Inv(s)
    ensures var s' := Resubmitted(s, t);
            if t in s.meta then
              && t in s'.tasks && t in s'.operations && t in s'.meta
              && s'.meta[t] == TaskMeta(RUNNING, false, false, false)
              && Starts(s'.started, t) == Starts(s.started, t) + 1
              && (u != t ==> SameTask(s, s', u)) && s'.counter == s.counter && s'.notices == s.notices
            else s' == s
  {
    StartsAppend(s.started, t, t);
  }

  lemma {:induction false} DiscardOne(ws: seq<Waiter>, token: nat, w: Waiter)
    ensures w.token != token ==> (w in Discard(ws, token) <==> w in ws)
    ensures |Discard(ws, token)| == |ws| - if exists x :: x in ws && x.token == token then 1 else 0
  {
    if ws == [] {
    } else {
      assert ws == [ws[0]] + ws[1..];
      DiscardOne(ws[1..], token, w);
    }
  }

  /** A new waiter is pending; discarding drops one waiter of the given identity. */
  lemma WaiterEffect(s: State, token: nat, w: Waiter)
    ensures var s' := Step(s, NextCompletion(token));
            |s'.waiters| == |s.waiters| + 1 && s'.waiters[|s.waiters|] == Waiter(token, false)
                && s.waiters <= s'.waiters
    ensures var s' := Step(s, DiscardWaiter(token));
            && (w.token != token ==> (w in s'.waiters <==> w in s.waiters))
            && |s'.waiters| == |s.waiters| - if exists x :: x in s.waiters && x.token == token then 1 else 0
  {
    DiscardOne(s.waiters, token, w);
  }

  /** A requested cancel shows until the run ends, whatever else happens. */
  lemma {:induction false} CancelStays(s: State, acts: seq<Action>, t: TaskId)
    requires Inv(s) && Legal(s, acts) && t in s.cancelRequested
    requires forall a | a in acts :: a.Done? ==> a.task != t
    ensures t in Exec(s, acts).cancelRequested && t in Exec(s, acts).tasks && Inv(Exec(s, acts))
    decreases |acts|
  {
    assert TaskOk(s, t);
    if acts == [] {
    } else {
      var a := acts[0];
      assert a in acts;
      StepKeeps(s, a);
      assert t in Step(s, a).cancelRequested;
      CancelStays(Step(s, a), acts[1..], t);
    }
  }

  /** A run whose cancel was requested ends as cancelled if it returns at all, however
      long it goes on and whatever it returns. */
  lemma CancelWins(acts: seq<Action>, more: seq<Action>, t: TaskId, raw: Raw, register: bool)
    requires Legal(START, acts) && t in Exec(START, acts).tasks
    requires Legal(Step(Exec(START, acts), Cancel(t)), more)
    requires forall a | a in more :: a.Done? ==> a.task != t
    ensures var s := Exec(Step(Exec(START, acts), Cancel(t)), more);
            var s' := Finish(s, t, Returned(raw), register);
            t in s.tasks && s'.notices[|s'.notices| - 1].status.CANCELLED? && s'.notices[|s'.notices| - 1].task == t
  {
    StartIsOk();
    RunKeeps(START, acts);
    var s0 := Exec(START, acts);
    CancelEffect(s0, t, t);
    StepKeeps(s0, Cancel(t));
    CancelStays(Step(s0, Cancel(t)), more, t);
    var s := Exec(Step(s0, Cancel(t)), more);
    assert TaskOk(s, t);
    EndsAsExactly(Returned(raw), true, CANCELLED);
  }

  /** A task that was consumed while running is forgotten when it ends, unless it
      pauses. */
  lemma ConsumedThenForgotten(s: State, t: TaskId, ending: Ending, register: bool)
    requires Inv(s) && t in s.tasks && t in s.meta
    ensures var s' := Finish(Step(s, MarkRetrieved(t)), t, ending, register);
            t in s'.meta <==> EndsAs(ending, t in s.cancelRequested, STALLED)
                              || EndsAs(ending, t in s.cancelRequested, WAITING_FOR_ROUTE)
  {
    RetrieveEffect(s, t, t);
    assert TaskOk(s, t);
    EndsAsExactly(ending, t in s.cancelRequested, STALLED);
    EndsAsExactly(ending, t in s.cancelRequested, WAITING_FOR_ROUTE);
  }

  // ------------------------------------------------------------------
  // The pool object, updated in place
  // ------------------------------------------------------------------

  class BackgroundTaskPool {
    var tasks: set<TaskId>
    var operations: set<TaskId>
    var meta: map<TaskId, TaskMeta>
    var counter: nat
    var waiters: seq<Waiter>
    ghost var delivered: seq<Notice>
    ghost var started: seq<TaskId>
    ghost var cancelRequested: set<TaskId>
    ghost var completions: nat
    ghost var since: map<nat, nat>

    ghost function View(): State
      reads this
    {
      State(tasks, operations, meta, counter, waiters, delivered, started, cancelRequested, completions, since)
    }

    constructor ()
      ensures View() == START && Inv(View())
    {
      tasks, operations, meta, counter := {}, {}, map[], 0;
      waiters, delivered, started, cancelRequested, completions, since := [], [], [], {}, 0, map[];
      new;
      StartIsOk();
    }

    method Submit() returns (t: TaskId)
      requires Inv(View())
      modifies this
      ensures View() == Step(old(View()), Action.Submit) && Inv(View())
      ensures t == old(counter) + 1 && t !in old(meta) && t in tasks
    {
      NewTaskKeeps(View(), PENDING, true);
      assert TaskOk(View(), counter + 1);
      counter := counter + 1;
      t := counter;
      meta := meta[t := TaskMeta(PENDING, false, false, false)];
      operations := operations + {t};
      tasks := tasks + {t};
      started := started + [t];
    }

    method Adopt() returns (t: TaskId)
      requires Inv(View())
      modifies this
      ensures View() == Step(old(View()), Action.Adopt) && Inv(View())
      ensures t == old(counter) + 1 && t !in old(meta) && t in tasks
    {
      NewTaskKeeps(View(), RUNNING, false);
      assert TaskOk(View(), counter + 1);
      counter := counter + 1;
      t := counter;
      meta := meta[t := TaskMeta(RUNNING, false, false, false)];
      tasks := tasks + {t};
      started := started + [t];
    }

    /** A queued task got its concurrency slot. */
    method AcquireSlot(t: TaskId)
      requires Inv(View()) && t in tasks
      modifies this
      ensures View() == Step(old(View()), Action.AcquireSlot(t)) && Inv(View())
    {
      StepKeeps(View(), Action.AcquireSlot(t));
      if t in meta && meta[t].status.PENDING? {
        meta := meta[t := meta[t].(status := RUNNING)];
      }
    }

    method Cancel(t: TaskId) returns (found: bool)
      requires Inv(View())
      modifies this
      ensures View() == Step(old(View()), Action.Cancel(t)) && Inv(View())
      ensures found <==> t in old(tasks)
    {
      StepKeeps(View(), Action.Cancel(t));
      if t !in tasks {
        return false;
      }
      if t in meta {
        meta := meta[t := meta[t].(status := CANCELLED)];
      }
      cancelRequested := cancelRequested + {t};
      found := true;
    }

    method MaybeReapMeta(t: TaskId)
      modifies this
      ensures View() == MaybeReap(old(View()), t)
    {
      if t !in meta || !meta[t].retrieved || t in tasks || IsPause(meta[t].status) {
        return;
      }
      meta := meta - {t};
    }

    method MarkRetrieved(t: TaskId)
      requires Inv(View())
      modifies this
      ensures View() == Step(old(View()), Action.MarkRetrieved(t)) && Inv(View())
    {
      StepKeeps(View(), Action.MarkRetrieved(t));
      if t !in meta || IsPause(meta[t].status) {
        return;
      }
      meta := meta[t := meta[t].(retrieved := true)];
      MaybeReapMeta(t);
    }

    /** False for an unknown id. */
    method Resubmit(t: TaskId) returns (known: bool)
      requires Inv(View())
      modifies this
      ensures View() == Resubmitted(old(View()), t)
      ensures Inv(View()) <==> t !in old(tasks)
      ensures known <==> t in old(meta)
    {
      ResubmitKeepsIff(View(), t);
      if t !in meta {
        return false;
      }
      meta := meta[t := TaskMeta(RUNNING, false, false, false)];
      tasks := tasks + {t};
      operations := operations + {t};
      started := started + [t];
      known := true;
    }

    method NextCompletion(token: nat)
      requires Inv(View())
      modifies this
      ensures View() == Step(old(View()), Action.NextCompletion(token)) && Inv(View())
    {
      StepKeeps(View(), Action.NextCompletion(token));
      waiters := waiters + [Waiter(token, false)];
      since := since[token := completions];
    }

    method SettleMeta(t: TaskId, status: BgStatus, register: bool)
      modifies this`meta
      ensures meta == if t in old(meta) then old(meta)[t := EndMeta(old(meta)[t], status, register)] else old(meta)
    {
      if t in meta {
        meta := meta[t := meta[t].(status := status, notified := true)];
        if register && !meta[t].registered && !meta[t].retrieved {
          meta := meta[t := meta[t].(registered := true)];
        }
      }
    }

    method ResolveWaiters()
      modifies this`waiters
      ensures waiters == ResolveAll(old(waiters))
    {
      var resolved: seq<Waiter> := [];
      for i := 0 to |waiters|
        invariant resolved == ResolveAll(waiters[..i])
      {
        assert waiters[..i + 1][..i] == waiters[..i];
        resolved := resolved + [waiters[i].(done := true)];
      }
      assert waiters[..|waiters|] == waiters;
      waiters := resolved;
    }

    /** The completion callback up to the last step: settle the record, notify, wake
        the waiters, and only then stop tracking the task. */
    method SettleRun(t: TaskId, ending: Ending, register: bool)
      modifies this
      ensures View() == Settle(old(View()), t, ending, register)
      ensures |delivered| == |old(delivered)| + 1 && delivered[|old(delivered)|].task == t
      ensures EndsAs(ending, t in old(meta) && old(meta)[t].status.CANCELLED?, delivered[|old(delivered)|].status)
      ensures t in old(meta) ==> t in meta && meta[t].status == delivered[|old(delivered)|].status
    {
      EndsAsExactly(ending, t in meta && meta[t].status.CANCELLED?,
                    EndStatus(ending, t in meta && meta[t].status.CANCELLED?));
      var status := EndStatus(ending, t in meta && meta[t].status.CANCELLED?);
      SettleMeta(t, status, register);
      delivered := delivered + [Notice(t, status, true, t in cancelRequested)];
      ResolveWaiters();
      Untrack(t);
    }

    method Untrack(t: TaskId)
      modifies this`tasks, this`operations, this`cancelRequested, this`completions
      ensures tasks == old(tasks) - {t} && operations == old(operations) - {t}
      ensures cancelRequested == old(cancelRequested) - {t} && completions == old(completions) + 1
    {
      tasks := tasks - {t};
      operations := operations - {t};
      cancelRequested := cancelRequested - {t};
      completions := completions + 1;
    }

    method OnDone(t: TaskId, ending: Ending, register: bool)
      requires Inv(View()) && t in tasks
      modifies this
      ensures View() == Step(old(View()), Action.Done(t, ending, register)) && Inv(View())
      ensures |delivered| == |old(delivered)| + 1 && delivered[|old(delivered)|].task == t
      ensures EndsAs(ending, t in old(cancelRequested), delivered[|old(delivered)|].status)
    {
      assert TaskOk(View(), t);
      StepKeeps(View(), Action.Done(t, ending, register));
      SettleRun(t, ending, register);
      MaybeReapMeta(t);
    }
  }
}
