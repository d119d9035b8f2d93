/**
 * Account lockout (`backend/src/auth/service.ts`, `authenticate`; `backend/src/persistence.ts`,
 * `incrementLoginFailures`, `lockLogin`, `clearLoginFailures`), for an enabled account.
 */
module LockoutSteps {
  import opened Wrappers

  datatype Account = Account(failed: nat, lockedUntil: Option<int>)

  const FRESH := Account(0, None)

  predicate Locked(account: Account, now: int) {
    account.lockedUntil.Some? && account.lockedUntil.value > now
  }

  /** The atomic update: an expired lock starts the count afresh. */
  function Increment(account: Account, now: int): Account {
    if account.lockedUntil.Some? && account.lockedUntil.value <= now then Account(1, None)
    else account.(failed := account.failed + 1)
  }

  function LockLogin(account: Account, until: int): Account {
    account.(lockedUntil := Some(until))
  }

  datatype Policy = Policy(threshold: nat, window: int)

  /** What the configuration schema guarantees. */
  predicate Valid(policy: Policy) {
    policy.threshold >= 1 && policy.window >= 1000
  }

  datatype Attempt = Attempt(now: int, correct: bool)

  /** `checked`: the password was compared; `locks`: a lock deadline was written; `reports`: `lockedJustNow`. */
  datatype Verdict = Verdict(account: Account, ok: bool, checked: bool, locks: bool, reports: bool)

  function Authenticate(account: Account, attempt: Attempt, policy: Policy): Verdict {
    if Locked(account, attempt.now) then Verdict(account, false, false, false, false)
    else if attempt.correct then Verdict(FRESH, true, true, false, false)
    else
      var counted := Increment(account, attempt.now);
      if counted.failed >= policy.threshold then
        Verdict(LockLogin(counted, attempt.now + policy.window), false, true, true, counted.failed == policy.threshold)
      else Verdict(counted, false, true, false, false)
  }

  /** `answers`: who was let in, attempt by attempt. */
  datatype Tally = Tally(account: Account, checks: nat, locks: nat, reports: nat, answers: seq<bool>)

  function Run(account: Account, attempts: seq<Attempt>, policy: Policy): Tally {
    if attempts == [] then Tally(account, 0, 0, 0, [])
    else
      var before := Run(account, attempts[..|attempts| - 1], policy);
      var verdict := Authenticate(before.account, attempts[|attempts| - 1], policy);
      Tally(verdict.account,
            before.checks + if verdict.checked then 1 else 0,
            before.locks + if verdict.locks then 1 else 0,
            before.reports + (if verdict.reports then 1 else 0),
            before.answers + [verdict.ok])
  }

  // Attempts that overlap: each counts in one update, its lock may be written later, and a correct
  // password clears both.

  datatype Write = Count(now: int) | Lock(until: int) | Clear

  function After(account: Account, writes: seq<Write>): Account {
    if writes == [] then account
    else
      var before := After(account, writes[..|writes| - 1]);
      match writes[|writes| - 1]
      case Count(now) => Increment(before, now)
      case Lock(until) => LockLogin(before, until)
      case Clear => FRESH
  }

  // The same, move by move.

  /**
   * Wrong attempts in flight. Password checks are numbered in the order they begin, and `checks` has the
   * time of each; `checking` have not counted their failure yet, `locking` have still to write their lock.
   */
  datatype Traffic = Traffic(account: Account, checking: set<nat>, locking: set<nat>, checks: seq<int>)

  datatype Move = Begin(now: int) | Fail(ticket: nat) | WriteLock(ticket: nat)

  /** An attempt that failed counts with the time it began at; at the threshold it goes on to lock. */
  function Failed(s: Traffic, ticket: nat, policy: Policy): Traffic
    requires ticket < |s.checks|
  {
    var counted := Increment(s.account, s.checks[ticket]);
    s.(account := counted, checking := s.checking - {ticket},
       locking := if counted.failed >= policy.threshold then s.locking + {ticket} else s.locking)
  }

  function Moved(s: Traffic, move: Move, policy: Policy): Traffic {
    match move
    case Begin(now) =>
      if Locked(s.account, now) then s else s.(checking := s.checking + {|s.checks|}, checks := s.checks + [now])
    case Fail(ticket) =>
      if ticket !in s.checking || ticket >= |s.checks| then s else Failed(s, ticket, policy)
    case WriteLock(ticket) =>
      if ticket !in s.locking || ticket >= |s.checks| then s
      else s.(account := LockLogin(s.account, s.checks[ticket] + policy.window), locking := s.locking - {ticket})
  }

  /** A check begins no earlier than the one before it, and while fewer than `most` are in flight. */
  predicate Allows(s: Traffic, move: Move, most: nat) {
    move.Begin? && !Locked(s.account, move.now) ==>
      && |s.checking| + |s.locking| < most
      && (s.checks != [] ==> s.checks[|s.checks| - 1] <= move.now)
  }

  function AllMoved(account: Account, moves: seq<Move>, policy: Policy): Traffic {
    if moves == [] then Traffic(account, {}, {}, [])
    else Moved(AllMoved(account, moves[..|moves| - 1], policy), moves[|moves| - 1], policy)
  }

  predicate AllowsAll(account: Account, moves: seq<Move>, policy: Policy, most: nat) {
    moves == [] ||
    (AllowsAll(account, moves[..|moves| - 1], policy, most)
     && Allows(AllMoved(account, moves[..|moves| - 1], policy), moves[|moves| - 1], most))
  }
}
