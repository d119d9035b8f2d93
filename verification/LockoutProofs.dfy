/** How many passwords a lockout lets through, and how often it is reported (`backend/src/auth/service.ts`). */
module LockoutProofs {
  import opened Wrappers
  import opened LockoutSteps

  predicate Forward(attempts: seq<Attempt>) {
    forall i, j | 0 <= i < j < |attempts| :: attempts[i].now <= attempts[j].now
  }

  predicate AllWrong(attempts: seq<Attempt>) {
    forall i | 0 <= i < |attempts| :: !attempts[i].correct
  }

  /**
   * After `tally.locks` locks: under a lock every check so far is paid for by one, and its deadline is
   * that many windows from the start; otherwise the last lock's window is over, and the checks since
   * then are counted on the account.
   */
  predicate Paced(tally: Tally, policy: Policy, start: int, now: int) {
    var paid, waited := policy.threshold * tally.locks, policy.window * tally.locks;
    if tally.account.lockedUntil.Some? then
      tally.checks <= paid && (tally.locks == 0 || (tally.account.lockedUntil.value >= start + waited && now >= start + waited - policy.window))
    else
      tally.checks <= paid + tally.account.failed && tally.checks < paid + policy.threshold && now >= start + waited
  }

  lemma Times(factor: int, count: nat)
    ensures factor * (count + 1) == factor * count + factor
  {}

  lemma WrongAttemptIsPaced(before: Tally, attempt: Attempt, policy: Policy, start: int, now: int)
    requires Valid(policy) && !attempt.correct && now <= attempt.now && Paced(before, policy, start, now) && start <= now
    ensures var verdict := Authenticate(before.account, attempt, policy);
            var after := before.(account := verdict.account,
                                 checks := before.checks + (if verdict.checked then 1 else 0),
                                 locks := before.locks + (if verdict.locks then 1 else 0));
            Paced(after, policy, start, attempt.now)
  {
    Times(policy.threshold, before.locks);
    Times(policy.window, before.locks);
  }

  lemma {:induction false} WrongRunsArePaced(account: Account, attempts: seq<Attempt>, policy: Policy)
    requires Valid(policy) && attempts != [] && Forward(attempts) && AllWrong(attempts)
    ensures Paced(Run(account, attempts, policy), policy, attempts[0].now, attempts[|attempts| - 1].now)
    decreases |attempts|
  {
    var front, last := attempts[..|attempts| - 1], attempts[|attempts| - 1];
    var start := attempts[0].now;
    if front == [] {
      WrongAttemptIsPaced(Run(account, [], policy), last, policy, start, start);
    } else {
      WrongRunsArePaced(account, front, policy);
      assert front[0] == attempts[0] && front[|front| - 1] == attempts[|attempts| - 2];
      WrongAttemptIsPaced(Run(account, front, policy), last, policy, start, front[|front| - 1].now);
    }
  }

  lemma WindowsPassed(elapsed: int, window: int, count: int)
    requires window > 0 && elapsed >= window * count
    ensures elapsed / window >= count
  {
    var q := elapsed / window;
    assert elapsed < window * (q + 1);
    if q < count { MoreTimes(window, q + 1, count); }
  }

  lemma MoreTimes(factor: int, a: int, b: int)
    requires factor >= 0 && a <= b
    ensures factor * a <= factor * b
  {}

  /**
   * Wrong passwords tried one after another over a time D, on an account in any state, cost at most
   * threshold checks per started window: threshold times (D / window, rounded down, plus one).
   */
  lemma GuessesAreRateLimited(account: Account, attempts: seq<Attempt>, policy: Policy)
    requires Valid(policy) && attempts != [] && Forward(attempts) && AllWrong(attempts)
    ensures var elapsed := attempts[|attempts| - 1].now - attempts[0].now;
            Run(account, attempts, policy).checks <= policy.threshold * (elapsed / policy.window + 1)
  {
    WrongRunsArePaced(account, attempts, policy);
    PacedIsLimited(Run(account, attempts, policy), policy, attempts[0].now, attempts[|attempts| - 1].now);
  }

  lemma PaidWindows(threshold: nat, window: int, locks: nat, elapsed: int)
    requires window > 0 && elapsed >= 0 && elapsed >= window * (locks - 1)
    ensures threshold * locks <= threshold * (elapsed / window + 1)
  {
    WindowsPassed(elapsed, window, locks - 1);
    MoreTimes(threshold, locks, elapsed / window + 1);
  }

  lemma PacedIsLimited(tally: Tally, policy: Policy, start: int, now: int)
    requires Valid(policy) && start <= now && Paced(tally, policy, start, now)
    ensures tally.checks <= policy.threshold * ((now - start) / policy.window + 1)
  {
    if tally.account.lockedUntil.None? {
      Times(policy.threshold, tally.locks);
      PaidWindows(policy.threshold, policy.window, tally.locks + 1, now - start);
    } else if tally.locks > 0 {
      Times(policy.window, tally.locks - 1);
      PaidWindows(policy.threshold, policy.window, tally.locks, now - start);
    } else {
      MoreTimes(policy.threshold, 0, (now - start) / policy.window + 1);
    }
  }

  /** A lock refuses everyone, the right password included, until its deadline, and looks at no password. */
  lemma LockedUntilTheDeadline(account: Account, attempts: seq<Attempt>, policy: Policy)
    requires account.lockedUntil.Some?
    requires forall i | 0 <= i < |attempts| :: attempts[i].now < account.lockedUntil.value
    ensures var tally := Run(account, attempts, policy);
            && tally.account == account && tally.checks == tally.locks == tally.reports == 0
            && forall i | 0 <= i < |tally.answers| :: !tally.answers[i]
  {
    if attempts != [] {
      assert attempts[|attempts| - 1].now < account.lockedUntil.value;
      LockedUntilTheDeadline(account, attempts[..|attempts| - 1], policy);
    }
  }

  // Who is let in.

  /**
   * One attempt, told by the fields. It is let in if and only if its password is right and no deadline lies
   * ahead, and then nothing of the lockout is left; before a deadline nothing changes; a wrong password counts
   * one, afresh where a lock had expired, and at the threshold locks for a window from now.
   */
  lemma AttemptIsAnswered(account: Account, attempt: Attempt, policy: Policy)
    ensures var verdict := Authenticate(account, attempt, policy);
            var ahead := account.lockedUntil.Some? && attempt.now < account.lockedUntil.value;
            var count := if account.lockedUntil.Some? then 1 else account.failed + 1;
            && (verdict.ok <==> attempt.correct && !ahead)
            && (verdict.checked <==> !ahead)
            && (verdict.ok ==> verdict.account.failed == 0 && verdict.account.lockedUntil.None?)
            && (ahead ==> verdict.account == account && !verdict.locks && !verdict.reports)
            && (!ahead && !attempt.correct ==>
                  && verdict.account.failed == count
                  && verdict.account.lockedUntil
                     == (if count >= policy.threshold then Some(attempt.now + policy.window) else None)
                  && (verdict.reports <==> count == policy.threshold))
            && (verdict.locks <==> !ahead && !attempt.correct && count >= policy.threshold)
  {}

  /** The i-th attempt of a run wrote a lock. */
  predicate Locks(account: Account, attempts: seq<Attempt>, policy: Policy, i: nat)
    requires i < |attempts|
  {
    Run(account, attempts[..i + 1], policy).locks > Run(account, attempts[..i], policy).locks
  }

  /** A deadline given before the i-th attempt: the account's own, or one an attempt wrote. */
  predicate Given(account: Account, attempts: seq<Attempt>, policy: Policy, i: nat, deadline: int)
    requires i <= |attempts|
  {
    account.lockedUntil == Some(deadline)
    || exists j | 0 <= j < i :: Locks(account, attempts, policy, j) && deadline == attempts[j].now + policy.window
  }

  ghost predicate DeadlineAhead(account: Account, attempts: seq<Attempt>, policy: Policy, i: nat)
    requires i < |attempts|
  {
    exists deadline :: Given(account, attempts, policy, i, deadline) && attempts[i].now < deadline
  }

  /** The lock in force is a deadline given, and every other one is over. */
  ghost predicate Holds(given: iset<int>, lock: Option<int>, past: Option<int>) {
    && (lock.Some? ==> lock.value in given)
    && (forall deadline | deadline in given :: lock == Some(deadline) || (past.Some? && deadline <= past.value))
  }

  ghost function Deadlines(account: Account, attempts: seq<Attempt>, policy: Policy, i: nat): iset<int>
    requires i <= |attempts|
  {
    iset deadline | Given(account, attempts, policy, i, deadline)
  }

  function LockBefore(account: Account, attempts: seq<Attempt>, policy: Policy, i: nat): Option<int>
    requires i <= |attempts|
  {
    Run(account, attempts[..i], policy).account.lockedUntil
  }

  lemma HoldsNext(given: iset<int>, lock: Option<int>, past: Option<int>, locks: bool, now: int, window: int)
    requires Holds(given, lock, past) && (past.Some? ==> past.value <= now)
    requires locks ==> lock.None? || lock.value <= now
    ensures Holds(if locks then given + iset{now + window} else given,
                  if lock.Some? && now < lock.value then lock else if locks then Some(now + window) else None, Some(now))
  {}

  lemma LockAfter(account: Account, attempts: seq<Attempt>, policy: Policy, i: nat)
    requires i < |attempts|
    ensures var lock, now := LockBefore(account, attempts, policy, i), attempts[i].now;
            && LockBefore(account, attempts, policy, i + 1)
               == (if lock.Some? && now < lock.value then lock
                   else if Locks(account, attempts, policy, i) then Some(now + policy.window) else None)
            && (Locks(account, attempts, policy, i) ==> lock.None? || lock.value <= now)
  {
    assert attempts[..i + 1][..i] == attempts[..i];
    AttemptIsAnswered(Run(account, attempts[..i], policy).account, attempts[i], policy);
  }

  lemma GivenBefore(account: Account, attempts: seq<Attempt>, policy: Policy, i: nat, deadline: int)
    requires i < |attempts|
    ensures Given(account, attempts, policy, i + 1, deadline)
       <==> Given(account, attempts, policy, i, deadline)
            || (Locks(account, attempts, policy, i) && deadline == attempts[i].now + policy.window)
  {}

  lemma DeadlinesAfter(account: Account, attempts: seq<Attempt>, policy: Policy, i: nat)
    requires i < |attempts|
    ensures var given := Deadlines(account, attempts, policy, i);
            Deadlines(account, attempts, policy, i + 1)
            == if Locks(account, attempts, policy, i) then given + iset{attempts[i].now + policy.window} else given
  {
    forall deadline
      ensures Given(account, attempts, policy, i + 1, deadline)
         <==> Given(account, attempts, policy, i, deadline)
              || (Locks(account, attempts, policy, i) && deadline == attempts[i].now + policy.window)
    {
      GivenBefore(account, attempts, policy, i, deadline);
    }
  }

  /** The time of the attempt before the i-th. */
  function Past(attempts: seq<Attempt>, i: nat): Option<int>
    requires i <= |attempts|
  {
    if i == 0 then None else Some(attempts[i - 1].now)
  }

  lemma StepHoldsDeadlines(account: Account, attempts: seq<Attempt>, policy: Policy, i: nat)
    requires i < |attempts| && Forward(attempts)
    requires Holds(Deadlines(account, attempts, policy, i), LockBefore(account, attempts, policy, i), Past(attempts, i))
    ensures Holds(Deadlines(account, attempts, policy, i + 1), LockBefore(account, attempts, policy, i + 1), Past(attempts, i + 1))
  {
    var given, lock := Deadlines(account, attempts, policy, i), LockBefore(account, attempts, policy, i);
    DeadlinesAfter(account, attempts, policy, i);
    LockAfter(account, attempts, policy, i);
    HoldsNext(given, lock, Past(attempts, i), Locks(account, attempts, policy, i), attempts[i].now, policy.window);
  }

  lemma {:induction false} RunsHoldDeadlines(account: Account, attempts: seq<Attempt>, policy: Policy, i: nat)
    requires i <= |attempts| && Forward(attempts)
    ensures Holds(Deadlines(account, attempts, policy, i), LockBefore(account, attempts, policy, i), Past(attempts, i))
  {
    if i == 0 {
      assert attempts[..0] == [];
    } else {
      RunsHoldDeadlines(account, attempts, policy, i - 1);
      StepHoldsDeadlines(account, attempts, policy, i - 1);
    }
  }

  /** A deadline lies ahead exactly when the lock's does. */
  lemma AheadIffLocked(account: Account, attempts: seq<Attempt>, policy: Policy, i: nat)
    requires i < |attempts| && Forward(attempts)
    ensures var lock := LockBefore(account, attempts, policy, i);
            DeadlineAhead(account, attempts, policy, i) <==> lock.Some? && attempts[i].now < lock.value
  {
    RunsHoldDeadlines(account, attempts, policy, i);
    var lock := LockBefore(account, attempts, policy, i);
    if DeadlineAhead(account, attempts, policy, i) {
      var deadline :| Given(account, attempts, policy, i, deadline) && attempts[i].now < deadline;
      assert deadline in Deadlines(account, attempts, policy, i);
    }
    if lock.Some? && attempts[i].now < lock.value {
      assert lock.value in Deadlines(account, attempts, policy, i);
    }
  }

  lemma {:induction false} AnswersAreVerdicts(account: Account, attempts: seq<Attempt>, policy: Policy, i: nat)
    requires i < |attempts|
    ensures var answers := Run(account, attempts, policy).answers;
            && |answers| == |attempts|
            && answers[i] == Authenticate(Run(account, attempts[..i], policy).account, attempts[i], policy).ok
    decreases |attempts|
  {
    var front := attempts[..|attempts| - 1];
    if front != [] { AnswersAreVerdicts(account, front, policy, if i < |front| then i else 0); }
    if i < |front| { assert front[..i] == attempts[..i]; }
  }

  /**
   * Along any run of attempts one after another, on an account in any state, an attempt is let in if and only
   * if its password is right and no deadline given before it lies ahead; what it leaves has no failure counted
   * and no lock.
   */
  lemma LetInIff(account: Account, attempts: seq<Attempt>, policy: Policy, i: nat)
    requires i < |attempts| && Forward(attempts)
    ensures var tally := Run(account, attempts, policy);
            && |tally.answers| == |attempts|
            && (tally.answers[i] <==> attempts[i].correct && !DeadlineAhead(account, attempts, policy, i))
            && (tally.answers[i] ==>
                  var after := Run(account, attempts[..i + 1], policy).account;
                  after.failed == 0 && after.lockedUntil.None?)
  {
    AnswersAreVerdicts(account, attempts, policy, i);
    AheadIffLocked(account, attempts, policy, i);
    AttemptIsAnswered(Run(account, attempts[..i], policy).account, attempts[i], policy);
    assert attempts[..i + 1][..i] == attempts[..i];
  }

  // The report.

  lemma {:induction false} EveryLockIsReportedOnce(account: Account, attempts: seq<Attempt>, policy: Policy)
    requires Valid(policy) && (account.failed < policy.threshold || account.lockedUntil.Some?)
    ensures var tally := Run(account, attempts, policy);
            tally.reports == tally.locks && (tally.account.failed < policy.threshold || tally.account.lockedUntil.Some?)
  {
    if attempts != [] {
      EveryLockIsReportedOnce(account, attempts[..|attempts| - 1], policy);
    }
  }

  /** What an overlapping attempt is told: the count after its own update. */
  function CountAt(account: Account, writes: seq<Write>, i: nat): nat
    requires i < |writes|
  {
    After(account, writes[..i + 1]).failed
  }

  lemma CountStep(account: Account, writes: seq<Write>, i: nat)
    requires i < |writes|
    ensures CountAt(account, writes, i)
            == if writes[i].Clear? then 0
               else if writes[i].Lock? then After(account, writes[..i]).failed
               else if CountAt(account, writes, i) == 1 then 1
               else After(account, writes[..i]).failed + 1
  {
    assert writes[..i + 1][..i] == writes[..i];
  }

  /** The count restarts, after an expired lock or a correct password. */
  predicate Restarts(account: Account, writes: seq<Write>, k: nat)
    requires k < |writes|
  {
    writes[k].Clear? || (writes[k].Count? && CountAt(account, writes, k) == 1)
  }

  lemma {:induction false} CountsGrow(account: Account, writes: seq<Write>, i: nat, j: nat)
    requires i <= j < |writes|
    requires forall k: nat | i < k <= j :: !Restarts(account, writes, k)
    ensures CountAt(account, writes, i) <= CountAt(account, writes, j)
    ensures i < j && writes[j].Count? ==> CountAt(account, writes, i) < CountAt(account, writes, j)
    decreases j - i
  {
    if i < j {
      CountsGrow(account, writes, i, j - 1);
      CountStep(account, writes, j);
      assert !Restarts(account, writes, j);
    }
  }

  /**
   * Overlapping attempts, whose locks and resets may be written late and in any order, still report a lock once:
   * between two attempts that are told the same count, the count has restarted.
   */
  lemma OverlappingReportsNeedARestart(account: Account, writes: seq<Write>, i: nat, j: nat)
    requires i < j < |writes| && writes[i].Count? && writes[j].Count?
    requires CountAt(account, writes, i) == CountAt(account, writes, j)
    ensures exists k: nat :: i < k <= j && Restarts(account, writes, k)
  {
    if forall k: nat | i < k <= j :: !Restarts(account, writes, k) {
      CountsGrow(account, writes, i, j);
    }
  }
}
