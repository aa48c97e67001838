/** Durable receipts of inference attempts and sessions: the one-step validators,
    lifted to whole histories. */
module Receipts {
  import opened Options

  // ------------------------------------------------------------------
  // Attempt receipts
  // ------------------------------------------------------------------

  datatype ReceiptState =
    | Accepted
    | SendIntentDurable
    | SendCommitted
    | WireStartedObserved
    | ProviderAck
    | TerminalSucceeded
    | TerminalFailed
    | TerminalCancelled
    | InDoubt

  datatype AttemptReceipt = AttemptReceipt(
    attemptId: string,
    generationId: string,
    revision: int,
    state: ReceiptState,
    fencingToken: int,
    permitDigest: Option<string>,
    permitOrdinal: Option<int>)

  const TERMINAL: set<ReceiptState> := {TerminalSucceeded, TerminalFailed, TerminalCancelled, InDoubt}

  function Transitions(s: ReceiptState): set<ReceiptState> {
    match s
    case Accepted => {SendIntentDurable, TerminalFailed, TerminalCancelled}
    case SendIntentDurable => {SendCommitted, TerminalFailed, TerminalCancelled}
    case SendCommitted => {WireStartedObserved, TerminalFailed, TerminalCancelled, InDoubt}
    case WireStartedObserved => {ProviderAck, TerminalSucceeded, TerminalFailed, TerminalCancelled, InDoubt}
    case ProviderAck => TERMINAL
    case _ => {}
  }

  /** Field bounds, and the permit binding demanded once a receipt is committed. */
  predicate ValidReceipt(r: AttemptReceipt) {
    && r.attemptId != "" && r.generationId != "" && r.revision >= 1 && r.fencingToken >= 1
    && (r.permitOrdinal.Some? ==> r.permitOrdinal.value >= 1)
    && (r.state !in {Accepted, SendIntentDurable} ==> r.permitDigest.Some? && r.permitOrdinal.Some?)
  }

  predicate ValidTransition(previous: AttemptReceipt, current: AttemptReceipt) {
    && (previous.attemptId, previous.generationId) == (current.attemptId, current.generationId)
    && current.revision == previous.revision + 1
    && current.fencingToken >= previous.fencingToken
    && previous.state !in TERMINAL
    && current.state in Transitions(previous.state)
  }

  ghost predicate ValidHistory(h: seq<AttemptReceipt>) {
    && (forall i | 0 <= i < |h| :: ValidReceipt(h[i]))
    && (forall i | 0 <= i < |h| - 1 :: ValidTransition(h[i], h[i + 1]))
  }

  /** Distance already travelled; every transition moves strictly forward. */
  function Rank(s: ReceiptState): nat {
    match s
    case Accepted => 0
    case SendIntentDurable => 1
    case SendCommitted => 2
    case WireStartedObserved => 3
    case ProviderAck => 4
    case _ => 5
  }

  /** The regular course of an attempt. */
  const COURSE := [Accepted, SendIntentDurable, SendCommitted, WireStartedObserved, ProviderAck]

  /** The transition table by its rules: one step along the course; failure and
      cancellation at any time before the end; doubt once the send is committed;
      success once the wire was started. */
  predicate MayFollow(a: ReceiptState, b: ReceiptState) {
    && a !in TERMINAL
    && match b
       case TerminalFailed => true
       case TerminalCancelled => true
       case InDoubt => Rank(a) >= Rank(SendCommitted)
       case TerminalSucceeded => Rank(a) >= Rank(WireStartedObserved)
       case _ => Rank(b) == Rank(a) + 1
  }

  lemma TransitionsExact(a: ReceiptState, b: ReceiptState)
    ensures b in Transitions(a) <==> MayFollow(a, b)
  {
  }

  /** A valid receipt with a permit can be followed in every way the rules allow. */
  lemma EveryTransitionOccurs(r: AttemptReceipt, b: ReceiptState, token: int)
    requires ValidReceipt(r) && r.permitDigest.Some? && r.permitOrdinal.Some? && token >= r.fencingToken
    ensures var next := r.(state := b, revision := r.revision + 1, fencingToken := token);
            ValidReceipt(next) && (ValidTransition(r, next) <==> MayFollow(r.state, b))
  {
    TransitionsExact(r.state, b);
  }

  /** A receipt can do without a permit exactly in the two states before the send. */
  lemma PermitFreeIff(r: AttemptReceipt)
    requires ValidReceipt(r)
    ensures ValidReceipt(r.(permitDigest := None, permitOrdinal := None)) <==> r.state in {Accepted, SendIntentDurable}
  {
  }

  /** The bound of six is met: the whole course, ended by success, is a valid history. */
  lemma FullCourse(r: AttemptReceipt) returns (h: seq<AttemptReceipt>)
    requires ValidReceipt(r) && r.state == Accepted && r.permitDigest.Some? && r.permitOrdinal.Some?
    ensures |h| == 6 && h[0] == r && h[5].state == TerminalSucceeded && ValidHistory(h)
    ensures forall i | 0 <= i < 5 :: h[i].state == COURSE[i]
  {
    var n := r.revision;
    h := [r, r.(state := SendIntentDurable, revision := n + 1), r.(state := SendCommitted, revision := n + 2),
          r.(state := WireStartedObserved, revision := n + 3), r.(state := ProviderAck, revision := n + 4),
          r.(state := TerminalSucceeded, revision := n + 5)];
  }

  lemma {:induction false} HistoryAdvances(h: seq<AttemptReceipt>, i: nat, j: nat)
    requires ValidHistory(h) && i <= j < |h|
    ensures h[j].revision == h[i].revision + (j - i)
    ensures h[j].fencingToken >= h[i].fencingToken
    ensures h[j].attemptId == h[i].attemptId && h[j].generationId == h[i].generationId
    ensures Rank(h[j].state) >= Rank(h[i].state) + (j - i)
    ensures h[j].revision >= 1 + (j - i) && h[j].fencingToken >= 1 && h[j].attemptId != "" && h[j].generationId != ""
    decreases j - i
  {
    if i < j {
      HistoryAdvances(h, i, j - 1);
      assert ValidTransition(h[j - 1], h[j - 1 + 1]);
    }
  }

  /** A history has at most six entries, and at most the last one is terminal. */
  lemma HistoryIsShort(h: seq<AttemptReceipt>)
    requires ValidHistory(h)
    ensures |h| <= 6
    ensures forall i | 0 <= i < |h| - 1 :: h[i].state !in TERMINAL
  {
    if h != [] {
      HistoryAdvances(h, 0, |h| - 1);
    }
    forall i | 0 <= i < |h| - 1 ensures h[i].state !in TERMINAL {
      assert ValidTransition(h[i], h[i + 1]);
    }
  }

  /** A history that starts at ACCEPTED is at SEND_COMMITTED in its third entry
      before it can succeed, be in doubt, or be acknowledged; a failure or a
      cancellation may come earlier. */
  lemma {:induction false} CommittedBeforeOutcome(h: seq<AttemptReceipt>, j: nat)
    requires ValidHistory(h) && j < |h| && h[0].state == Accepted
    requires h[j].state in {TerminalSucceeded, InDoubt, WireStartedObserved, ProviderAck}
    ensures 2 < j && h[1].state == SendIntentDurable && h[2].state == SendCommitted
    ensures h[j].state != InDoubt ==> h[3].state == WireStartedObserved
    decreases j
  {
    assert j > 0;
    assert ValidTransition(h[j - 1], h[j - 1 + 1]);
    if h[j - 1].state in {WireStartedObserved, ProviderAck} {
      CommittedBeforeOutcome(h, j - 1);
    } else {
      assert h[j - 1].state == SendCommitted;
      assert ValidTransition(h[j - 2], h[j - 2 + 1]);
      assert h[j - 2].state == SendIntentDurable;
      assert ValidTransition(h[j - 3], h[j - 3 + 1]);
      assert h[j - 3].state == Accepted;
      HistoryAdvances(h, 0, j - 3);
    }
  }

  /** A permit is bound to every entry after the first two states, whatever the outcome. */
  lemma OutcomeHasPermit(h: seq<AttemptReceipt>, j: nat)
    requires ValidHistory(h) && j < |h| && (j >= 2 || h[j].state in TERMINAL)
    ensures h[j].permitDigest.Some? && h[j].permitOrdinal.Some?
  {
    if j >= 2 {
      HistoryAdvances(h, 0, j);
    }
  }

  // ------------------------------------------------------------------
  // Session receipts
  // ------------------------------------------------------------------

  datatype SessionState =
    | SessionAccepted
    | OpenSendCommitted
    | Open
    | Closing
    | Closed
    | SessionFailed
    | SessionInDoubt

  datatype SessionReceipt = SessionReceipt(
    sessionId: string,
    generationId: string,
    revision: int,
    fencingToken: int,
    state: SessionState,
    nextOutbound: int,
    lastInbound: int)

  const SESSION_TERMINAL: set<SessionState> := {Closed, SessionFailed, SessionInDoubt}

  function SessionTransitions(s: SessionState): set<SessionState> {
    match s
    case SessionAccepted => {OpenSendCommitted, SessionFailed, Closed, SessionInDoubt}
    case OpenSendCommitted => {Open, SessionInDoubt}
    case Open => {Open, Closing, SessionInDoubt}
    case Closing => {Closed, SessionInDoubt}
    case _ => {}
  }

  /** Field bounds. */
  predicate ValidSessionReceipt(r: SessionReceipt) {
    && r.sessionId != "" && r.generationId != "" && r.revision >= 1 && r.fencingToken >= 1
    && r.nextOutbound >= 1 && r.lastInbound >= 0
  }

  predicate ValidSessionTransition(previous: SessionReceipt, current: SessionReceipt) {
    && (previous.sessionId, previous.generationId) == (current.sessionId, current.generationId)
    && current.revision == previous.revision + 1
    && current.fencingToken >= previous.fencingToken
    && previous.state !in SESSION_TERMINAL
    && current.state in SessionTransitions(previous.state)
    && current.nextOutbound >= previous.nextOutbound
    && current.lastInbound >= previous.lastInbound
  }

  ghost predicate ValidSession(h: seq<SessionReceipt>) {
    && (forall i | 0 <= i < |h| :: ValidSessionReceipt(h[i]))
    && (forall i | 0 <= i < |h| - 1 :: ValidSessionTransition(h[i], h[i + 1]))
  }

  /** The session table by its rules: doubt at any time before the end; open after the
      open was sent, and any number of times; closing when open, closed when closing;
      an accepted session may also fail or be closed before anything was sent. */
  predicate MayFollowSession(a: SessionState, b: SessionState) {
    && a !in SESSION_TERMINAL
    && match b
       case SessionAccepted => false
       case OpenSendCommitted => a == SessionAccepted
       case SessionFailed => a == SessionAccepted
       case Open => a == OpenSendCommitted || a == Open
       case Closing => a == Open
       case Closed => a == Closing || a == SessionAccepted
       case SessionInDoubt => true
  }

  /** A session receipt can be followed in every way the rules allow, and in no other. */
  lemma EverySessionTransitionOccurs(r: SessionReceipt, b: SessionState, token: int, out: int, inbound: int)
    requires ValidSessionReceipt(r) && token >= r.fencingToken && out >= r.nextOutbound && inbound >= r.lastInbound
    ensures var next := r.(state := b, revision := r.revision + 1, fencingToken := token, nextOutbound := out,
                           lastInbound := inbound);
            ValidSessionReceipt(next) && (ValidSessionTransition(r, next) <==> MayFollowSession(r.state, b))
  {
  }

  /** Between any two positions of a session history nothing regresses. */
  lemma {:induction false} SessionNeverRegresses(h: seq<SessionReceipt>, i: nat, j: nat)
    requires ValidSession(h) && i <= j < |h|
    ensures h[j].revision == h[i].revision + (j - i)
    ensures h[j].fencingToken >= h[i].fencingToken
    ensures h[j].nextOutbound >= h[i].nextOutbound && h[j].lastInbound >= h[i].lastInbound
    ensures h[j].sessionId == h[i].sessionId && h[j].generationId == h[i].generationId
    ensures h[j].revision >= 1 + (j - i) && h[j].nextOutbound >= 1 && h[j].lastInbound >= 0
    decreases j - i
  {
    if i < j {
      SessionNeverRegresses(h, i, j - 1);
      assert ValidSessionTransition(h[j - 1], h[j - 1 + 1]);
    }
  }

  /** Once the open was sent the session can no longer be reported as failed; a
      FAILED receipt is only ever the immediate successor of ACCEPTED. */
  lemma {:induction false} NoFailureAfterOpenSent(h: seq<SessionReceipt>, i: nat, j: nat)
    requires ValidSession(h) && i < j < |h|
    requires h[i].state in {OpenSendCommitted, Open, Closing}
    ensures h[j].state in {Open, Closing, Closed, SessionInDoubt}
    ensures h[j].state in SESSION_TERMINAL ==> j == |h| - 1
    decreases j - i
  {
    assert ValidSessionTransition(h[j - 1], h[j - 1 + 1]);
    if i < j - 1 {
      NoFailureAfterOpenSent(h, i, j - 1);
    }
    if j < |h| - 1 {
      assert ValidSessionTransition(h[j], h[j + 1]);
    }
  }

  /** Unlike attempts, valid session histories exist at every length. */
  lemma {:induction false} SessionsAreUnbounded(n: nat, first: SessionReceipt) returns (h: seq<SessionReceipt>)
    requires first.state == Open && ValidSessionReceipt(first)
    ensures |h| == n + 1 && h[0] == first && ValidSession(h)
    ensures forall i | 0 <= i <= n :: h[i] == first.(revision := first.revision + i)
  {
    if n == 0 {
      h := [first];
    } else {
      h := SessionsAreUnbounded(n - 1, first);
      h := h + [first.(revision := first.revision + n)];
    }
  }
}
