/**
 * The MongoDB connection supervisor (`backend/src/mongoConnection.ts`) as a state machine.
 *
 * Every stretch of code between two awaits is one step; opening, the retry timer, the driver's
 * topology events and shutdown interleave in any order. Sessions are numbered in the order they
 * were opened. `closed` holds the sessions whose `close()` has been called.
 */
module MongoSteps {
  import opened Wrappers

  datatype Backoff = Backoff(initialMs: nat, maxMs: nat, factor: nat)

  const DEFAULT_MONGO_BACKOFF := Backoff(2000, 30000, 2)

  function Pow(factor: nat, exponent: nat): nat {
    if exponent == 0 then 1 else factor * Pow(factor, exponent - 1)
  }

  /** Delay before retry number `attempt`, counted from 1. */
  function BackoffDelayMs(attempt: int, options: Backoff): int {
    var exponent := Max(0, attempt - 1);
    Min(Max(options.initialMs, options.initialMs * Pow(options.factor, exponent)), options.maxMs)
  }

  datatype DownEvent = ServerHeartbeatFailed | ServerClosed | TopologyClosed

  /** The supervisor's fields, then what it did to the driver. */
  datatype Supervisor = Supervisor(
    session: Option<nat>,
    connected: bool,
    retryDelay: Option<int>,
    opening: bool,
    stopped: bool,
    everConnected: bool,
    failedAttempts: nat,
    started: bool,
    closingLate: bool,
    openedCount: nat,
    closed: set<nat>)

  const INITIAL := Supervisor(None, false, None, false, false, false, 0, false, false, 0, {})

  function AttemptOpen(s: Supervisor): Supervisor {
    if s.stopped || s.session.Some? || s.opening then s else s.(opening := true)
  }

  function ScheduleReopen(s: Supervisor, options: Backoff): Supervisor {
    if s.stopped || s.retryDelay.Some? then s
    else s.(retryDelay := Some(BackoffDelayMs(Max(1, s.failedAttempts), options)))
  }

  /** `open()` resolved: adopt the session, or, shut down meanwhile, close what was just opened. */
  function OpenResolved(s: Supervisor): Supervisor {
    if s.stopped then s.(openedCount := s.openedCount + 1, closed := s.closed + {s.openedCount}, closingLate := true)
    else
      s.(openedCount := s.openedCount + 1, session := Some(s.openedCount), connected := true, everConnected := true,
         failedAttempts := 0, opening := false)
  }

  function OpenRejected(s: Supervisor, options: Backoff): Supervisor {
    ScheduleReopen(s.(connected := false, session := None, failedAttempts := s.failedAttempts + 1), options)
      .(opening := false)
  }

  function HandleUp(s: Supervisor, session: nat): Supervisor {
    if s.stopped || s.session != Some(session) || s.connected then s else s.(connected := true)
  }

  function RecycleSession(s: Supervisor, session: nat, options: Backoff): Supervisor {
    ScheduleReopen(
      s.(session := None, connected := false, failedAttempts := s.failedAttempts + 1, closed := s.closed + {session}),
      options)
  }

  function HandleDown(s: Supervisor, session: nat, event: DownEvent, options: Backoff): Supervisor {
    if s.stopped || s.session != Some(session) then s
    else if event == TopologyClosed then RecycleSession(s.(connected := false), session, options)
    else s.(connected := false)
  }

  function Stop(s: Supervisor): Supervisor {
    s.(stopped := true, retryDelay := None, session := None, connected := false,
       closed := if s.session.Some? then s.closed + {s.session.value} else s.closed)
  }

  datatype Step =
    | Started
    | Resolved
    | Rejected
    | LateCloseDone
    | RetryFired
    | WentUp(session: nat)
    | WentDown(session: nat, event: DownEvent)
    | Stopped

  /** Whether the world can take the step now: promises settle once, timers fire while pending. */
  predicate Enabled(s: Supervisor, step: Step) {
    match step
    case Started => !s.started
    case Resolved => s.opening && !s.closingLate
    case Rejected => s.opening && !s.closingLate
    case LateCloseDone => s.closingLate
    case RetryFired => s.retryDelay.Some?
    case WentUp(session) => session < s.openedCount
    case WentDown(session, _) => session < s.openedCount
    case Stopped => true
  }

  function Apply(s: Supervisor, step: Step, options: Backoff): Supervisor {
    if !Enabled(s, step) then s
    else
      match step
      case Started => AttemptOpen(s.(started := true, stopped := false))
      case Resolved => OpenResolved(s)
      case Rejected => OpenRejected(s, options)
      case LateCloseDone => s.(closingLate := false, opening := false)
      case RetryFired => AttemptOpen(s.(retryDelay := None))
      case WentUp(session) => HandleUp(s, session)
      case WentDown(session, event) => HandleDown(s, session, event, options)
      case Stopped => Stop(s)
  }

  function Run(s: Supervisor, steps: seq<Step>, options: Backoff): Supervisor {
    if steps == [] then s else Apply(Run(s, steps[..|steps| - 1], options), steps[|steps| - 1], options)
  }
}
