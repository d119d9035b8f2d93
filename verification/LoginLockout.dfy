/** The lockout as the stored record and the calls that update it (`backend/src/auth/service.ts`, `backend/src/persistence.ts`). */
module LoginLockout {
  import opened Wrappers
  import opened LockoutSteps

  class AuthService {
    const policy: Policy
    var failedAttempts: nat
    var lockedUntil: Option<int>

    function State(): Account
      reads this
    {
      Account(failedAttempts, lockedUntil)
    }

    constructor (policy: Policy)
      ensures State() == FRESH && this.policy == policy
    {
      this.policy, failedAttempts, lockedUntil := policy, 0, None;
    }

    method IncrementLoginFailures(now: int) returns (count: nat)
      modifies `failedAttempts, `lockedUntil
      ensures State() == Increment(old(State()), now) && count == State().failed
    {
      if lockedUntil.Some? && lockedUntil.value <= now {
        failedAttempts, lockedUntil := 1, None;
      } else {
        failedAttempts := failedAttempts + 1;
      }
      count := failedAttempts;
    }

    method Authenticate(now: int, correct: bool) returns (ok: bool, lockedJustNow: bool)
      modifies this
      ensures var verdict := LockoutSteps.Authenticate(old(State()), Attempt(now, correct), policy);
              State() == verdict.account && ok == verdict.ok && lockedJustNow == verdict.reports
      ensures ok <==> correct && (old(lockedUntil).None? || old(lockedUntil).value <= now)
    {
      if lockedUntil.Some? && lockedUntil.value > now { return false, false; }
      if correct {
        if failedAttempts > 0 || lockedUntil.Some? { failedAttempts, lockedUntil := 0, None; }
        return true, false;
      }
      var count := IncrementLoginFailures(now);
      if count >= policy.threshold {
        lockedUntil := Some(now + policy.window);
        return false, count == policy.threshold;
      }
      return false, false;
    }
  }
}
