/** What the connection supervisor keeps over every interleaving. */
module MongoProofs {
  import opened Wrappers
  import opened MongoSteps

  /** Exactly one of: a session is held, one is being opened, a retry is pending. */
  predicate InOneState(s: Supervisor) {
    || (s.session.Some? && !s.opening && s.retryDelay.None?)
    || (s.session.None? && s.opening && s.retryDelay.None?)
    || (s.session.None? && !s.opening && s.retryDelay.Some?)
  }

  /** Every session ever opened is the current one or has been closed, and the current one has not. */
  predicate NoSessionLeaks(s: Supervisor) {
    && (forall id: nat | id < s.openedCount :: id in s.closed || s.session == Some(id))
    && (s.session.Some? ==> s.session.value < s.openedCount && s.session.value !in s.closed)
    && (forall id | id in s.closed :: id < s.openedCount)
  }

  ghost predicate Sound(s: Supervisor, options: Backoff) {
    && NoSessionLeaks(s)
    && (s.connected ==> s.session.Some?)
    && (s.started && !s.stopped ==> InOneState(s))
    && (!s.started ==> s.session.None? && !s.opening && s.retryDelay.None?)
    && (s.stopped ==> s.session.None? && s.retryDelay.None?)
    && (s.closingLate ==> s.stopped && s.opening)
    && (s.retryDelay.Some? ==>
          s.failedAttempts >= 1 && s.retryDelay.value == BackoffDelayMs(s.failedAttempts, options))
  }

  lemma StepKeepsSound(s: Supervisor, step: Step, options: Backoff)
    requires Sound(s, options)
    ensures Sound(Apply(s, step, options), options)
  {
  }

  /**
   * Over every interleaving: a started, running supervisor is in exactly one of its three states, no
   * session leaks, and after a stop no session is adopted and no retry is scheduled.
   */
  lemma {:induction false} RunsStaySound(steps: seq<Step>, options: Backoff)
    ensures Sound(Run(INITIAL, steps, options), options)
  {
    if steps != [] {
      RunsStaySound(steps[..|steps| - 1], options);
      StepKeepsSound(Run(INITIAL, steps[..|steps| - 1], options), steps[|steps| - 1], options);
    }
  }

  predicate Concerns(step: Step, session: nat) {
    (step.WentUp? || step.WentDown?) && step.session == session
  }

  /** The steps with one session's events left out. */
  function Without(steps: seq<Step>, session: nat): seq<Step> {
    if steps == [] then []
    else
      var rest, last := Without(steps[..|steps| - 1], session), steps[|steps| - 1];
      if Concerns(last, session) then rest else rest + [last]
  }

  predicate Abandoned(s: Supervisor, session: nat) {
    session < s.openedCount && s.session != Some(session)
  }

  lemma StepKeepsAbandoned(s: Supervisor, session: nat, step: Step, options: Backoff)
    requires Abandoned(s, session)
    ensures Abandoned(Apply(s, step, options), session)
    ensures Concerns(step, session) ==> Apply(s, step, options) == s
  {}

  lemma RunsOn(s: Supervisor, steps: seq<Step>, step: Step, options: Backoff)
    ensures Run(s, steps + [step], options) == Apply(Run(s, steps, options), step, options)
  {
    assert (steps + [step])[..|steps|] == steps;
  }

  /**
   * A session once abandoned is so for good: it is never current again, and whatever run follows ends as
   * it would without that session's events.
   */
  lemma {:induction false} AbandonedEventsChangeNothing(s: Supervisor, session: nat, steps: seq<Step>, options: Backoff)
    requires Abandoned(s, session)
    ensures Abandoned(Run(s, steps, options), session)
    ensures Run(s, steps, options) == Run(s, Without(steps, session), options)
  {
    if steps != [] {
      var init, last := steps[..|steps| - 1], steps[|steps| - 1];
      AbandonedEventsChangeNothing(s, session, init, options);
      StepKeepsAbandoned(Run(s, init, options), session, last, options);
      RunsOn(s, Without(init, session), last, options);
    }
  }

  /** From the stop on, a started supervisor stays disconnected, with every session it opened closed. */
  lemma StopIsFinal(s: Supervisor, steps: seq<Step>, options: Backoff)
    requires Sound(s, options) && s.started
    ensures var end := Run(Apply(s, Stopped, options), steps, options);
            && end.stopped && end.session.None? && !end.connected && end.retryDelay.None?
            && forall id: nat | id < end.openedCount :: id in end.closed
  {
    StepKeepsSound(s, Stopped, options);
    StoppedRun(Apply(s, Stopped, options), steps, options);
  }

  /** An open that resolves after the stop is closed at once, and the supervisor is at rest when that is done. */
  lemma LateOpenIsClosed(s: Supervisor, options: Backoff)
    requires Sound(s, options) && s.stopped && s.opening && !s.closingLate
    ensures var late := Apply(s, Resolved, options);
            var done := Apply(late, LateCloseDone, options);
            && late.session.None? && !late.connected && late.closed == s.closed + {s.openedCount} && late.opening
            && done.session.None? && !done.opening && done.closed == late.closed
            && Apply(late, Resolved, options) == late
  {}

  lemma {:induction false} StoppedRun(s: Supervisor, steps: seq<Step>, options: Backoff)
    requires Sound(s, options) && s.started && s.stopped
    ensures Sound(Run(s, steps, options), options)
    ensures Run(s, steps, options).started && Run(s, steps, options).stopped
  {
    if steps != [] {
      StoppedRun(s, steps[..|steps| - 1], options);
      StepKeepsSound(Run(s, steps[..|steps| - 1], options), steps[|steps| - 1], options);
    }
  }

  /** A running supervisor never gets stuck: the retry fires, the open resolves, and it is connected. */
  lemma RunningCanReconnect(s: Supervisor, options: Backoff) returns (steps: seq<Step>)
    requires Sound(s, options) && s.started && !s.stopped && s.session.None?
    ensures |steps| <= 2 && forall step | step in steps :: step == RetryFired || step == Resolved
    ensures Run(s, steps, options).session.Some? && Run(s, steps, options).connected
  {
    if s.opening {
      steps := [Resolved];
      assert Run(s, [], options) == s;
    } else {
      steps := [RetryFired, Resolved];
      assert steps[..1] == [RetryFired] && [RetryFired][..0] == [];
      assert Run(s, [RetryFired], options) == Apply(s, RetryFired, options);
    }
  }

  // What an event does.

  /** An opened session is adopted as connected, and the next failure starts over with the first delay. */
  lemma ResolvedIsAdopted(s: Supervisor, options: Backoff)
    requires Sound(s, options) && s.opening && !s.stopped
    ensures var next := Apply(s, Resolved, options);
            && next.session == Some(s.openedCount) && next.connected && !next.opening && next.failedAttempts == 0
            && next.openedCount == s.openedCount + 1 && next.closed == s.closed && next.everConnected
  {}

  /** A closed topology costs the session, which is closed and reopened after one failure's delay more. */
  lemma ClosedTopologyRecycles(s: Supervisor, session: nat, options: Backoff)
    requires Sound(s, options) && s.started && !s.stopped && s.session == Some(session)
    ensures var next := Apply(s, WentDown(session, TopologyClosed), options);
            && next.session.None? && !next.connected && !next.opening && next.closed == s.closed + {session}
            && next.failedAttempts == s.failedAttempts + 1
            && next.retryDelay == Some(BackoffDelayMs(s.failedAttempts + 1, options))
  {}

  /** The last event of this session says whether it is up; without one it is as before. */
  function LastWord(steps: seq<Step>, session: nat, before: bool): bool {
    if steps == [] then before
    else if Concerns(steps[|steps| - 1], session) then steps[|steps| - 1].WentUp?
    else LastWord(steps[..|steps| - 1], session, before)
  }

  /** Whatever else happens, while a session is not closed or stopped it is connected as its last event said. */
  lemma {:induction false} ConnectedAsLastHeard(s: Supervisor, session: nat, steps: seq<Step>, options: Backoff)
    requires Sound(s, options) && s.started && !s.stopped && s.session == Some(session)
    requires forall step <- steps :: step != WentDown(session, TopologyClosed) && step != Stopped
    ensures var end := Run(s, steps, options);
            && Sound(end, options) && end.started && !end.stopped && end.session == Some(session)
            && (end.connected <==> LastWord(steps, session, s.connected))
  {
    if steps != [] {
      var front, last := steps[..|steps| - 1], steps[|steps| - 1];
      assert last in steps && forall step <- front :: step in steps;
      ConnectedAsLastHeard(s, session, front, options);
      StepKeepsSound(Run(s, front, options), last, options);
    }
  }

  // ---------------------------------------------------------------------------
  // Backoff
  // ---------------------------------------------------------------------------

  /** `n` failed opens in a row, the retry firing after each. */
  function Failures(s: Supervisor, n: nat, options: Backoff): Supervisor {
    if n == 0 then s
    else
      var before := Failures(s, n - 1, options);
      Apply(if before.opening then before else Apply(before, RetryFired, options), Rejected, options)
  }

  /** The n-th failed open in a row waits `initialMs * factor^(n-1)`, up to the cap. */
  lemma {:induction false} FailuresBackOff(n: nat, options: Backoff)
    requires n >= 1
    ensures var end := Failures(Apply(INITIAL, Started, options), n, options);
            && end.failedAttempts == n && end.session.None? && !end.opening && !end.stopped
            && !end.closingLate && end.retryDelay == Some(BackoffDelayMs(n, options))
  {
    if n > 1 {
      FailuresBackOff(n - 1, options);
    } else {
      assert Failures(Apply(INITIAL, Started, options), 0, options).opening;
    }
  }

  lemma {:induction false} PowGrows(factor: nat, exponent: nat)
    requires factor >= 1
    ensures 1 <= Pow(factor, exponent) <= Pow(factor, exponent + 1)
  {
    if exponent > 0 {
      PowGrows(factor, exponent - 1);
      assert factor * Pow(factor, exponent - 1) <= factor * Pow(factor, exponent);
    }
  }

  /** Delays never shrink from one failure to the next and stay between the first delay and the cap. */
  lemma DelaysGrowToTheCap(attempt: nat, options: Backoff)
    requires options.factor >= 1 && options.initialMs <= options.maxMs
    ensures options.initialMs <= BackoffDelayMs(attempt, options)
         <= BackoffDelayMs(attempt + 1, options) <= options.maxMs
  {
    if attempt >= 1 {
      PowGrows(options.factor, attempt - 1);
      var low, high := Pow(options.factor, attempt - 1), Pow(options.factor, attempt);
      assert options.initialMs * low <= options.initialMs * high;
      assert options.initialMs <= options.initialMs * low;
    }
  }

  lemma CappedDelays(attempt: nat, options: Backoff)
    requires options.factor >= 1 && options.initialMs <= options.maxMs
    requires attempt >= 1 && BackoffDelayMs(attempt, options) == options.maxMs
    ensures forall later | later >= attempt :: BackoffDelayMs(later, options) == options.maxMs
  {
    forall later | later >= attempt ensures BackoffDelayMs(later, options) == options.maxMs {
      var n := attempt;
      while n < later
        invariant attempt <= n <= later && BackoffDelayMs(n, options) == options.maxMs
      {
        DelaysGrowToTheCap(n, options);
        n := n + 1;
      }
    }
  }

  /** As configured, the retries wait 2, 4, 8 and 16 seconds, and half a minute from the fifth on. */
  lemma DefaultDelays(attempt: nat)
    requires attempt >= 1
    ensures BackoffDelayMs(attempt, DEFAULT_MONGO_BACKOFF)
         == if attempt == 1 then 2000 else if attempt == 2 then 4000
            else if attempt == 3 then 8000 else if attempt == 4 then 16000 else 30000
  {
    var options := DEFAULT_MONGO_BACKOFF;
    assert Pow(2, 0) == 1 && Pow(2, 1) == 2 && Pow(2, 2) == 4 && Pow(2, 3) == 8 && Pow(2, 4) == 16;
    if attempt >= 5 {
      CappedDelays(5, options);
    }
  }
}
