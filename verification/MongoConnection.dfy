/** The `MongoConnectionSupervisor` class: its fields, and the stretches of code between its awaits. */
module MongoConnection {
  import opened Wrappers
  import opened MongoSteps

  class MongoConnectionSupervisor {
    const backoff: Backoff
    var session: Option<nat>
    var connected: bool
    /** The pending retry's delay; None when no retry is scheduled. */
    var retryDelay: Option<int>
    var opening: bool
    var stopped: bool
    var everConnected: bool
    var failedAttempts: nat
    // What the supervisor did to the driver.
    var started: bool
    var closingLate: bool
    var openedCount: nat
    var closed: set<nat>

    function State(): Supervisor
      reads this
    {
      Supervisor(session, connected, retryDelay, opening, stopped, everConnected, failedAttempts,
                 started, closingLate, openedCount, closed)
    }

    constructor (backoff: Backoff)
      ensures this.backoff == backoff && State() == INITIAL
    {
      this.backoff := backoff;
      session, connected, retryDelay, opening, stopped := None, false, None, false, false;
      everConnected, failedAttempts, started, closingLate, openedCount, closed := false, 0, false, false, 0, {};
    }

    function IsConnected(): (up: bool)
      reads this
    {
      session.Some? && connected
    }

    method Start()
      requires Enabled(State(), Started)
      modifies this
      ensures State() == Apply(old(State()), Started, backoff)
    {
      started, stopped := true, false;
      BeginOpen();
    }

    /** `attemptOpen` up to its await. */
    method BeginOpen()
      modifies this
      ensures State() == AttemptOpen(old(State()))
    {
      if stopped || session.Some? || opening {
        return;
      }
      opening := true;
    }

    /** `attemptOpen` after `open()` resolved with a fresh session. */
    method FinishOpen()
      requires Enabled(State(), Resolved)
      modifies this
      ensures State() == Apply(old(State()), Resolved, backoff)
    {
      var latest := openedCount;
      openedCount := openedCount + 1;
      if stopped {
        closed, closingLate := closed + {latest}, true;
        return;
      }
      session, connected, everConnected, failedAttempts := Some(latest), true, true, 0;
      opening := false;
    }

    /** `attemptOpen` after the late session it had to drop has closed. */
    method FinishLateClose()
      requires Enabled(State(), LateCloseDone)
      modifies this
      ensures State() == Apply(old(State()), LateCloseDone, backoff)
    {
      closingLate, opening := false, false;
    }

    /** `attemptOpen` after `open()` rejected. */
    method FailOpen()
      requires Enabled(State(), Rejected)
      modifies this
      ensures State() == Apply(old(State()), Rejected, backoff)
    {
      connected, session := false, None;
      failedAttempts := failedAttempts + 1;
      ScheduleReopenNow();
      opening := false;
    }

    method ScheduleReopenNow()
      modifies this
      ensures State() == ScheduleReopen(old(State()), backoff)
    {
      if stopped || retryDelay.Some? {
        return;
      }
      retryDelay := Some(BackoffDelayMs(Max(1, failedAttempts), backoff));
    }

    /** The retry timer's callback. */
    method RunRetry()
      requires Enabled(State(), RetryFired)
      modifies this
      ensures State() == Apply(old(State()), RetryFired, backoff)
    {
      retryDelay := None;
      BeginOpen();
    }

    method HandleUpEvent(source: nat)
      requires Enabled(State(), WentUp(source))
      modifies this
      ensures State() == Apply(old(State()), WentUp(source), backoff)
    {
      if stopped || session != Some(source) || connected {
        return;
      }
      connected := true;
    }

    method HandleDownEvent(source: nat, event: DownEvent)
      requires Enabled(State(), WentDown(source, event))
      modifies this
      ensures State() == Apply(old(State()), WentDown(source, event), backoff)
    {
      if stopped || session != Some(source) {
        return;
      }
      if connected {
        connected := false;
      }
      if event == TopologyClosed {
        Recycle(source);
      }
    }

    /** Drop a session whose topology closed, and reopen. */
    method Recycle(source: nat)
      modifies this
      ensures State() == RecycleSession(old(State()), source, backoff)
    {
      session, connected := None, false;
      failedAttempts := failedAttempts + 1;
      closed := closed + {source};
      ScheduleReopenNow();
    }

    method StopNow()
      modifies this
      ensures State() == Apply(old(State()), Stopped, backoff)
    {
      stopped := true;
      retryDelay := None;
      var current := session;
      session, connected := None, false;
      if current.Some? {
        closed := closed + {current.value};
      }
    }
  }
}
