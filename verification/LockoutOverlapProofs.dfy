/**
 * How many passwords overlapping attempts get checked (`backend/src/auth/service.ts`). An attempt that has
 * passed the lock check counts its failure and writes its lock later, in any order with the others, and a
 * lock written late may end an earlier one's.
 */
module LockoutOverlapProofs {
  import opened Wrappers
  import opened LockoutSteps
  import opened LockoutProofs

  function Old(tickets: set<nat>, first: nat): set<nat> {
    set ticket | ticket in tickets && ticket < first
  }

  function New(tickets: set<nat>, first: nat): set<nat> {
    set ticket | ticket in tickets && ticket >= first
  }

  lemma OldAndNew(tickets: set<nat>, first: nat)
    ensures |Old(tickets, first)| + |New(tickets, first)| == |tickets|
  {
    assert Old(tickets, first) + New(tickets, first) == tickets;
  }

  lemma Leaves(tickets: set<nat>, ticket: nat, first: nat)
    requires ticket in tickets
    ensures |Old(tickets - {ticket}, first)| == |Old(tickets, first)| - if ticket < first then 1 else 0
    ensures |New(tickets - {ticket}, first)| == |New(tickets, first)| - if ticket < first then 0 else 1
  {
    if ticket < first {
      assert Old(tickets - {ticket}, first) == Old(tickets, first) - {ticket};
      assert New(tickets - {ticket}, first) == New(tickets, first);
    } else {
      assert Old(tickets - {ticket}, first) == Old(tickets, first);
      assert New(tickets - {ticket}, first) == New(tickets, first) - {ticket};
    }
  }

  lemma Joins(tickets: set<nat>, ticket: nat, first: nat)
    requires ticket !in tickets
    ensures |Old(tickets + {ticket}, first)| == |Old(tickets, first)| + if ticket < first then 1 else 0
    ensures |New(tickets + {ticket}, first)| == |New(tickets, first)| + if ticket < first then 0 else 1
  {
    Leaves(tickets + {ticket}, ticket, first);
    assert tickets + {ticket} - {ticket} == tickets;
  }

  /** In flight since before this check. */
  function Before(s: Traffic, first: nat): nat {
    |Old(s.checking, first)| + |Old(s.locking, first)|
  }

  /** In flight, begun with this check or later. */
  function Since(s: Traffic, first: nat): nat {
    |New(s.checking, first)| + |New(s.locking, first)|
  }

  /** Not counted yet, begun with this check or later and after this time: they find a lock until then expired. */
  function Late(s: Traffic, first: nat, deadline: int): set<nat> {
    set ticket | ticket in s.checking && first <= ticket < |s.checks| && s.checks[ticket] >= deadline
  }

  lemma LateAreNew(s: Traffic, first: nat, deadline: int)
    ensures |Late(s, first, deadline)| <= |New(s.checking, first)|
  {
    Fewer(Late(s, first, deadline), New(s.checking, first));
  }

  lemma {:induction false} Fewer(small: set<nat>, large: set<nat>)
    requires small <= large
    ensures |small| <= |large|
  {
    if small != {} {
      var x :| x in small;
      Fewer(small - {x}, large - {x});
    }
  }

  /**
   * The checks there can be in one window while attempts from before it go on: one batch for each of them
   * that may still end a lock, and one more. A batch is the failures below the threshold and those in flight.
   */
  function Batches(threshold: nat, most: nat, before: nat): nat
    requires threshold >= 1
    decreases most - before
  {
    if before >= most then 0 else threshold - 1 + (most - before) + Batches(threshold, most, before + 1)
  }

  /** What holds of the tickets and times. */
  predicate Ticketed(s: Traffic, most: nat) {
    && (forall ticket | ticket in s.checking + s.locking :: ticket < |s.checks|)
    && s.checking !! s.locking
    && |s.checking| + |s.locking| <= most
    && forall i, j | 0 <= i < j < |s.checks| :: s.checks[i] <= s.checks[j]
  }

  /** The window that starts with this check is not over yet. */
  predicate Running(s: Traffic, first: nat, policy: Policy) {
    first < |s.checks| && s.checks[|s.checks| - 1] < s.checks[first] + policy.window
  }

  /**
   * How many checks a window has had at most: with a lock of its own in force every batch but those still
   * to come; with no lock the failures counted and those in flight on top; with an older lock those that
   * will find it expired.
   */
  predicate Fits(
    policy: Policy, most: nat, before: nat, since: nat, late: nat, account: Account, end: int, count: int)
    requires policy.threshold >= 1
  {
    var rest := Batches(policy.threshold, most, before + 1);
    && before + since <= most && before < most && late <= since
    && match account.lockedUntil
       case None => count <= rest + Min(account.failed, policy.threshold - 1) + since
       case Some(deadline) =>
         if deadline >= end then count <= Batches(policy.threshold, most, before) else count <= rest + late
  }

  function LateNow(s: Traffic, first: nat): nat {
    if s.account.lockedUntil.Some? then |Late(s, first, s.account.lockedUntil.value)| else 0
  }

  /** What the window that starts with this check has had. */
  predicate Bounded(s: Traffic, first: nat, policy: Policy, most: nat)
    requires policy.threshold >= 1 && first < |s.checks|
  {
    Fits(policy, most, Before(s, first), Since(s, first), LateNow(s, first), s.account,
         s.checks[first] + policy.window, |s.checks| - first)
  }

  /** No window has more checks than its batches hold. */
  predicate Dense(checks: seq<int>, window: int, most: nat) {
    forall i, j | 0 <= i <= j < |checks| && checks[j] < checks[i] + window :: j - i + 1 <= most
  }

  ghost predicate Sound(s: Traffic, policy: Policy, most: nat)
    requires policy.threshold >= 1
  {
    && Ticketed(s, most)
    && (forall first | Running(s, first, policy) :: Bounded(s, first, policy, most))
    && Dense(s.checks, policy.window, Batches(policy.threshold, most, 0))
  }

  lemma {:induction false} BatchesShrink(threshold: nat, most: nat, before: nat)
    requires threshold >= 1
    ensures Batches(threshold, most, before) <= Batches(threshold, most, 0)
    decreases before
  {
    if before > 0 { BatchesShrink(threshold, most, before - 1); }
  }

  // Moves.

  lemma BatchesStep(threshold: nat, most: nat, before: nat)
    requires threshold >= 1 && before < most
    ensures Batches(threshold, most, before) == threshold - 1 + (most - before) + Batches(threshold, most, before + 1)
  {}

  lemma FitsABatch(policy: Policy, most: nat, before: nat, since: nat, late: nat, account: Account, end: int, count: int)
    requires policy.threshold >= 1 && Fits(policy, most, before, since, late, account, end, count)
    ensures count <= Batches(policy.threshold, most, before)
  {
    BatchesStep(policy.threshold, most, before);
  }

  lemma AtMostABatch(s: Traffic, first: nat, policy: Policy, most: nat)
    requires policy.threshold >= 1 && first < |s.checks| && Bounded(s, first, policy, most)
    ensures |s.checks| - first <= Batches(policy.threshold, most, Before(s, first))
  {
    FitsABatch(policy, most, Before(s, first), Since(s, first), LateNow(s, first), s.account,
               s.checks[first] + policy.window, |s.checks| - first);
  }

  /** What the first check of a window finds in flight. */
  lemma AllAreOld(tickets: set<nat>, first: nat)
    requires forall ticket | ticket in tickets :: ticket < first
    ensures Old(tickets, first) == tickets && New(tickets, first) == {}
    ensures Old(tickets + {first}, first) == tickets && New(tickets + {first}, first) == {first}
  {}

  lemma FirstIsLate(s: Traffic, now: int, policy: Policy, most: nat)
    requires Ticketed(s, most) && !Locked(s.account, now)
    ensures LateNow(Moved(s, Begin(now), policy), |s.checks|) == if s.account.lockedUntil.Some? then 1 else 0
  {
    if s.account.lockedUntil.Some? {
      assert Late(Moved(s, Begin(now), policy), |s.checks|, s.account.lockedUntil.value) == {|s.checks|};
    }
  }

  lemma FirstCounts(s: Traffic, now: int, policy: Policy, most: nat)
    requires Ticketed(s, most) && !Locked(s.account, now)
    ensures var first, next := |s.checks|, Moved(s, Begin(now), policy);
            && Before(next, first) == |s.checking| + |s.locking| && Since(next, first) == 1
            && LateNow(next, first) == if s.account.lockedUntil.Some? then 1 else 0
  {
    AllAreOld(s.checking, |s.checks|);
    AllAreOld(s.locking, |s.checks|);
    FirstIsLate(s, now, policy, most);
  }

  lemma FirstOfWindow(s: Traffic, now: int, policy: Policy, most: nat)
    requires Valid(policy) && Ticketed(s, most) && !Locked(s.account, now) && Allows(s, Begin(now), most)
    ensures Bounded(Moved(s, Begin(now), policy), |s.checks|, policy, most)
  {
    FirstCounts(s, now, policy, most);
  }

  /** One check more in flight; a lock it was let through by, it will find expired. */
  lemma NextCounts(s: Traffic, now: int, first: nat, policy: Policy, most: nat)
    requires Ticketed(s, most) && !Locked(s.account, now) && first < |s.checks|
    ensures var next := Moved(s, Begin(now), policy);
            && Before(next, first) == Before(s, first) && Since(next, first) == Since(s, first) + 1
            && LateNow(next, first) == LateNow(s, first) + if s.account.lockedUntil.Some? then 1 else 0
  {
    var ticket, next := |s.checks|, Moved(s, Begin(now), policy);
    Joins(s.checking, ticket, first);
    if s.account.lockedUntil.Some? {
      var deadline := s.account.lockedUntil.value;
      assert Late(next, first, deadline) == Late(s, first, deadline) + {ticket};
    }
  }

  lemma InFlight(s: Traffic, first: nat)
    ensures Before(s, first) + Since(s, first) == |s.checking| + |s.locking|
  {
    OldAndNew(s.checking, first);
    OldAndNew(s.locking, first);
  }

  lemma NextFits(policy: Policy, most: nat, before: nat, since: nat, late: nat, account: Account, end: int, count: int, now: int)
    requires Valid(policy) && Fits(policy, most, before, since, late, account, end, count)
    requires before + since < most && !Locked(account, now) && now < end
    ensures Fits(policy, most, before, since + 1, late + if account.lockedUntil.Some? then 1 else 0, account, end, count + 1)
  {}

  lemma NextOfWindow(s: Traffic, now: int, first: nat, policy: Policy, most: nat)
    requires Valid(policy) && Ticketed(s, most) && !Locked(s.account, now) && Allows(s, Begin(now), most)
    requires first < |s.checks| && Bounded(s, first, policy, most) && now < s.checks[first] + policy.window
    ensures Bounded(Moved(s, Begin(now), policy), first, policy, most)
  {
    NextCounts(s, now, first, policy, most);
    InFlight(s, first);
    NextFits(policy, most, Before(s, first), Since(s, first), LateNow(s, first), s.account,
             s.checks[first] + policy.window, |s.checks| - first, now);
  }

  lemma FailLeaves(s: Traffic, ticket: nat, first: nat, policy: Policy, most: nat)
    requires Ticketed(s, most) && ticket in s.checking
    ensures var next := Failed(s, ticket, policy);
            var stays := next.account.failed >= policy.threshold;
            && Before(next, first) == Before(s, first) - (if ticket < first && !stays then 1 else 0)
            && Since(next, first) == Since(s, first) - (if ticket >= first && !stays then 1 else 0)
  {
    Leaves(s.checking, ticket, first);
    Joins(s.locking, ticket, first);
  }

  lemma FailIsTicketed(s: Traffic, ticket: nat, policy: Policy, most: nat)
    requires Ticketed(s, most) && ticket in s.checking
    ensures Ticketed(Failed(s, ticket, policy), most)
  {
    Leaves(s.checking, ticket, 0);
    Joins(s.locking, ticket, 0);
  }

  /** A failure that finds the lock expired starts the count afresh; it was late, or from before. */
  lemma UnlockingFits(
    policy: Policy, most: nat, before: nat, since: nat, late: nat, account: Account, end: int, count: int, stale: bool, start: int)
    requires Valid(policy) && Fits(policy, most, before, since, late, account, end, count)
    requires account.lockedUntil.Some? && account.lockedUntil.value <= start < end
    requires if stale then before > 0 else since > 0
    ensures var stays := policy.threshold == 1;
            Fits(policy, most, before - (if stale && !stays then 1 else 0), since - (if !stale && !stays then 1 else 0), 0,
                 Increment(account, start), end, count)
  {
    BatchesStep(policy.threshold, most, before);
  }

  lemma InWindow(s: Traffic, ticket: nat, first: nat, policy: Policy, most: nat)
    requires Ticketed(s, most) && ticket in s.checking + s.locking && Running(s, first, policy)
    ensures s.checks[ticket] < s.checks[first] + policy.window && (ticket >= first ==> s.checks[first] <= s.checks[ticket])
    ensures ticket in s.checking ==> if ticket < first then Before(s, first) > 0 else Since(s, first) > 0
  {
    assert s.checks[ticket] <= s.checks[|s.checks| - 1];
    if ticket in s.checking { Leaves(s.checking, ticket, first); }
  }

  lemma FailUnlocks(s: Traffic, ticket: nat, first: nat, policy: Policy, most: nat)
    requires Valid(policy) && Ticketed(s, most) && ticket in s.checking
    requires Running(s, first, policy) && Bounded(s, first, policy, most)
    requires s.account.lockedUntil.Some? && s.account.lockedUntil.value <= s.checks[ticket]
    ensures Bounded(Failed(s, ticket, policy), first, policy, most)
  {
    InWindow(s, ticket, first, policy, most);
    FailLeaves(s, ticket, first, policy, most);
    UnlockingFits(policy, most, Before(s, first), Since(s, first), LateNow(s, first), s.account,
                  s.checks[first] + policy.window, |s.checks| - first, ticket < first, s.checks[ticket]);
  }

  /** Any other failure is counted; it was not late. */
  lemma CountingFits(
    policy: Policy, most: nat, before: nat, since: nat, late: nat, account: Account, end: int, count: int, stale: bool, start: int)
    requires Valid(policy) && Fits(policy, most, before, since, late, account, end, count)
    requires account.lockedUntil.Some? ==> account.lockedUntil.value > start
    requires if stale then before > 0 else since > 0
    requires if account.lockedUntil.None? then late == 0 else !stale ==> late < since
    ensures var stays := account.failed + 1 >= policy.threshold;
            Fits(policy, most, before - (if stale && !stays then 1 else 0), since - (if !stale && !stays then 1 else 0), late,
                 Increment(account, start), end, count)
  {
    BatchesStep(policy.threshold, most, before);
    if stale { BatchesStep(policy.threshold, most, before - 1); }
  }

  lemma NotLate(s: Traffic, ticket: nat, first: nat, policy: Policy)
    requires ticket in s.checking && ticket < |s.checks|
    requires s.account.lockedUntil.Some? ==> s.account.lockedUntil.value > s.checks[ticket]
    ensures LateNow(Failed(s, ticket, policy), first) == LateNow(s, first)
    ensures s.account.lockedUntil.Some? && ticket >= first ==> LateNow(s, first) < Since(s, first)
  {
    if s.account.lockedUntil.Some? {
      var deadline := s.account.lockedUntil.value;
      assert Late(Failed(s, ticket, policy), first, deadline) == Late(s, first, deadline);
      if ticket >= first {
        Fewer(Late(s, first, deadline), New(s.checking, first) - {ticket});
      }
    }
  }

  lemma FailsInTurn(s: Traffic, ticket: nat, first: nat, policy: Policy, most: nat)
    requires Ticketed(s, most) && ticket in s.checking && Running(s, first, policy)
    requires s.account.lockedUntil.Some? ==> s.account.lockedUntil.value > s.checks[ticket]
    ensures if ticket < first then Before(s, first) > 0 else Since(s, first) > 0
    ensures if s.account.lockedUntil.None? then LateNow(s, first) == 0
            else ticket >= first ==> LateNow(s, first) < Since(s, first)
  {
    InWindow(s, ticket, first, policy, most);
    NotLate(s, ticket, first, policy);
  }

  lemma FailCounts(s: Traffic, ticket: nat, first: nat, policy: Policy, most: nat)
    requires Valid(policy) && Ticketed(s, most) && ticket in s.checking
    requires Running(s, first, policy) && Bounded(s, first, policy, most)
    requires s.account.lockedUntil.Some? ==> s.account.lockedUntil.value > s.checks[ticket]
    ensures Bounded(Failed(s, ticket, policy), first, policy, most)
  {
    FailsInTurn(s, ticket, first, policy, most);
    CountingFits(policy, most, Before(s, first), Since(s, first), LateNow(s, first), s.account,
                 s.checks[first] + policy.window, |s.checks| - first, ticket < first, s.checks[ticket]);
    FailLeaves(s, ticket, first, policy, most);
    assert LateNow(Failed(s, ticket, policy), first) == LateNow(s, first) by { NotLate(s, ticket, first, policy); }
  }

  /** A lock written by an attempt of the window holds for the rest of it; one from before ends a batch. */
  lemma LockFits(
    policy: Policy, most: nat, before: nat, since: nat, late: nat, account: Account, end: int, count: int,
    stale: bool, deadline: int, found: nat)
    requires Valid(policy) && Fits(policy, most, before, since, late, account, end, count)
    requires if stale then before > 0 else since > 0 && deadline >= end
    requires found <= since - if stale then 0 else 1
    ensures Fits(policy, most, before - (if stale then 1 else 0), since - (if stale then 0 else 1), found,
                 LockLogin(account, deadline), end, count)
  {
    FitsABatch(policy, most, before, since, late, account, end, count);
    if stale { BatchesStep(policy.threshold, most, before - 1); }
  }

  lemma LockLeaves(s: Traffic, ticket: nat, first: nat, policy: Policy, most: nat)
    requires Ticketed(s, most) && ticket in s.locking
    ensures var next := Moved(s, WriteLock(ticket), policy);
            && Before(next, first) == Before(s, first) - (if ticket < first then 1 else 0)
            && Since(next, first) == Since(s, first) - (if ticket < first then 0 else 1)
            && LateNow(next, first) <= Since(next, first)
            && (if ticket < first then Before(s, first) > 0 else Since(s, first) > 0)
  {
    var next := Moved(s, WriteLock(ticket), policy);
    Leaves(s.locking, ticket, first);
    LateAreNew(next, first, next.account.lockedUntil.value);
  }

  lemma LockHolds(s: Traffic, ticket: nat, first: nat, policy: Policy, most: nat)
    requires Ticketed(s, most) && ticket in s.locking && Running(s, first, policy)
    ensures if ticket < first then Before(s, first) > 0
            else Since(s, first) > 0 && s.checks[ticket] + policy.window >= s.checks[first] + policy.window
  {
    InWindow(s, ticket, first, policy, most);
    LockLeaves(s, ticket, first, policy, most);
  }

  lemma LockBounds(s: Traffic, ticket: nat, first: nat, policy: Policy, most: nat)
    requires Valid(policy) && Ticketed(s, most) && ticket in s.locking
    requires Running(s, first, policy) && Bounded(s, first, policy, most)
    ensures Bounded(Moved(s, WriteLock(ticket), policy), first, policy, most)
  {
    var next, deadline := Moved(s, WriteLock(ticket), policy), s.checks[ticket] + policy.window;
    LockHolds(s, ticket, first, policy, most);
    LockLeaves(s, ticket, first, policy, most);
    LockFits(policy, most, Before(s, first), Since(s, first), LateNow(s, first), s.account,
             s.checks[first] + policy.window, |s.checks| - first, ticket < first, deadline, LateNow(next, first));
  }

  lemma BeginIsTicketed(s: Traffic, now: int, policy: Policy, most: nat)
    requires Ticketed(s, most) && !Locked(s.account, now) && Allows(s, Begin(now), most)
    ensures Ticketed(Moved(s, Begin(now), policy), most)
  {}

  lemma BeginKeepsSound(s: Traffic, now: int, policy: Policy, most: nat)
    requires Valid(policy) && Sound(s, policy, most) && !Locked(s.account, now) && Allows(s, Begin(now), most)
    ensures Sound(Moved(s, Begin(now), policy), policy, most)
  {
    var next, last := Moved(s, Begin(now), policy), |s.checks|;
    BeginIsTicketed(s, now, policy, most);
    forall first | Running(next, first, policy) ensures Bounded(next, first, policy, most) {
      if first == last {
        FirstOfWindow(s, now, policy, most);
      } else {
        assert Running(s, first, policy);
        NextOfWindow(s, now, first, policy, most);
      }
    }
    forall i | 0 <= i <= last && now < next.checks[i] + policy.window
      ensures last - i + 1 <= Batches(policy.threshold, most, 0)
    {
      assert Running(next, i, policy);
      AtMostABatch(next, i, policy, most);
      BatchesShrink(policy.threshold, most, Before(next, i));
    }
  }

  lemma FailKeepsSound(s: Traffic, ticket: nat, policy: Policy, most: nat)
    requires Valid(policy) && Sound(s, policy, most) && ticket in s.checking
    ensures Sound(Failed(s, ticket, policy), policy, most)
  {
    var next := Failed(s, ticket, policy);
    FailIsTicketed(s, ticket, policy, most);
    forall first | Running(next, first, policy) ensures Bounded(next, first, policy, most) {
      assert Running(s, first, policy);
      if s.account.lockedUntil.Some? && s.account.lockedUntil.value <= s.checks[ticket] {
        FailUnlocks(s, ticket, first, policy, most);
      } else {
        FailCounts(s, ticket, first, policy, most);
      }
    }
  }

  lemma LockKeepsSound(s: Traffic, ticket: nat, policy: Policy, most: nat)
    requires Valid(policy) && Sound(s, policy, most) && ticket in s.locking
    ensures Sound(Moved(s, WriteLock(ticket), policy), policy, most)
  {
    var next := Moved(s, WriteLock(ticket), policy);
    Leaves(s.locking, ticket, 0);
    OldAndNew(s.locking, 0);
    OldAndNew(next.locking, 0);
    forall first | Running(next, first, policy) ensures Bounded(next, first, policy, most) {
      assert Running(s, first, policy);
      LockBounds(s, ticket, first, policy, most);
    }
  }

  lemma {:induction false} MovesKeepSound(account: Account, moves: seq<Move>, policy: Policy, most: nat)
    requires Valid(policy) && AllowsAll(account, moves, policy, most)
    ensures Sound(AllMoved(account, moves, policy), policy, most)
  {
    if moves != [] {
      var front, last := moves[..|moves| - 1], moves[|moves| - 1];
      var before := AllMoved(account, front, policy);
      MovesKeepSound(account, front, policy, most);
      match last
      case Begin(now) => if !Locked(before.account, now) { BeginKeepsSound(before, now, policy, most); }
      case Fail(ticket) => if ticket in before.checking { FailKeepsSound(before, ticket, policy, most); }
      case WriteLock(ticket) => if ticket in before.locking { LockKeepsSound(before, ticket, policy, most); }
    }
  }

  // Counting.

  lemma {:induction false} WindowHolds(checks: seq<int>, window: int, most: nat, n: nat) returns (m: nat)
    requires Dense(checks, window, most) && 0 < n <= |checks| && window > 0
    requires forall i, j | 0 <= i < j < |checks| :: checks[i] <= checks[j]
    requires forall i | 0 <= i < n :: checks[i] < checks[0] + window
    ensures n <= m <= |checks| && m <= most && (m < |checks| ==> checks[m] >= checks[0] + window)
    decreases |checks| - n
  {
    if n == |checks| || checks[n] >= checks[0] + window {
      m := n;
      assert checks[n - 1] < checks[0] + window;
    } else {
      m := WindowHolds(checks, window, most, n + 1);
    }
  }

  /** That many checks per started window: times the time from the first to the last over the window, plus one. */
  predicate Limited(checks: seq<int>, window: int, most: nat)
    requires window > 0
  {
    checks != [] ==> |checks| <= most * ((checks[|checks| - 1] - checks[0]) / window + 1)
  }

  /** Where no window holds more than so many checks, all of them are that many per started window. */
  lemma {:induction false} DenseIsLimited(checks: seq<int>, window: int, most: nat)
    requires checks != [] && window > 0 && Dense(checks, window, most)
    requires forall i, j | 0 <= i < j < |checks| :: checks[i] <= checks[j]
    ensures Limited(checks, window, most)
    decreases |checks|
  {
    var elapsed := checks[|checks| - 1] - checks[0];
    var m := WindowHolds(checks, window, most, 1);
    if m == |checks| {
      MoreTimes(most, 1, elapsed / window + 1);
    } else {
      var rest := checks[m..];
      var later := elapsed - (rest[0] - checks[0]);
      DenseIsLimited(rest, window, most);
      OneWindowMore(most, m, |rest|, elapsed, later, window);
    }
  }

  lemma OneWindowMore(most: nat, first: nat, rest: nat, elapsed: int, later: int, window: int)
    requires window > 0 && first <= most && later <= elapsed - window && rest <= most * (later / window + 1)
    ensures first + rest <= most * (elapsed / window + 1)
  {
    OneWindowLess(elapsed, later, window);
    MoreTimes(most, later / window + 1, elapsed / window);
    TimesOneMore(most, elapsed / window);
  }

  lemma TimesOneMore(factor: int, count: int)
    ensures factor * (count + 1) == factor * count + factor
  {}

  lemma OneWindowLess(elapsed: int, later: int, window: int)
    requires window > 0 && later <= elapsed - window
    ensures later / window + 1 <= elapsed / window
  {
    var q := later / window;
    assert window * q <= later;
    assert window * (q + 1) == window * q + window;
    WindowsPassed(elapsed, window, q + 1);
  }

  /**
   * Wrong passwords over a time D with at most `most` attempts in flight at any moment, settling in any
   * order and as late as they like: a started window costs at most `Batches` checks.
   */
  lemma OverlappingGuessesAreLimited(account: Account, moves: seq<Move>, policy: Policy, most: nat)
    requires Valid(policy) && AllowsAll(account, moves, policy, most)
    ensures Limited(AllMoved(account, moves, policy).checks, policy.window, Batches(policy.threshold, most, 0))
  {
    var checks := AllMoved(account, moves, policy).checks;
    MovesKeepSound(account, moves, policy, most);
    SoundIsLimited(AllMoved(account, moves, policy), policy, most);
  }

  lemma SoundIsLimited(s: Traffic, policy: Policy, most: nat)
    requires Valid(policy) && Sound(s, policy, most)
    ensures Limited(s.checks, policy.window, Batches(policy.threshold, most, 0))
  {
    if s.checks != [] { DenseIsLimited(s.checks, policy.window, Batches(policy.threshold, most, 0)); }
  }

  /** A batch below the threshold for each that may be in flight, and the pairs of them; alone, the threshold. */
  lemma {:induction false} BatchesAdd(threshold: nat, most: nat, before: nat)
    requires threshold >= 1 && before <= most
    ensures var left := most - before;
            2 * Batches(threshold, most, before) == 2 * (threshold - 1) * left + left * (left + 1)
    decreases most - before
  {
    if before < most {
      BatchesAdd(threshold, most, before + 1);
    }
  }

  // The bound is reached.

  const PAIR := Policy(2, 1000)

  /** A run that is allowed with two in flight, and where it ends. */
  predicate Reaches(moves: seq<Move>, s: Traffic) {
    AllowsAll(Account(1, None), moves, PAIR, 2) && AllMoved(Account(1, None), moves, PAIR) == s
  }

  lemma ReachesNext(moves: seq<Move>, s: Traffic, move: Move, next: Traffic)
    requires Reaches(moves, s) && Allows(s, move, 2) && Moved(s, move, PAIR) == next
    ensures Reaches(moves + [move], next)
  {
    assert (moves + [move])[..|moves|] == moves;
  }

  /** One attempt passes the check, fails, and is done. */
  lemma Strikes(moves: seq<Move>, s: Traffic, now: int, next: Traffic) returns (more: seq<Move>)
    requires Reaches(moves, s) && Allows(s, Begin(now), 2) && !Locked(s.account, now)
    requires next == Failed(Moved(s, Begin(now), PAIR), |s.checks|, PAIR)
    ensures Reaches(more, next)
  {
    var ticket, begun := |s.checks|, Moved(s, Begin(now), PAIR);
    ReachesNext(moves, s, Begin(now), begun);
    ReachesNext(moves + [Begin(now)], begun, Fail(ticket), next);
    more := moves + [Begin(now)] + [Fail(ticket)];
  }

  lemma Locks(moves: seq<Move>, s: Traffic, ticket: nat, next: Traffic) returns (more: seq<Move>)
    requires Reaches(moves, s) && next == Moved(s, WriteLock(ticket), PAIR)
    ensures Reaches(more, next)
  {
    ReachesNext(moves, s, WriteLock(ticket), next);
    more := moves + [WriteLock(ticket)];
  }

  lemma TwoReachTheThreshold() returns (moves: seq<Move>)
    ensures Reaches(moves, Traffic(Account(3, None), {}, {0, 1}, [0, 0]))
  {
    var s0 := Traffic(Account(1, None), {}, {}, []);
    var s1 := Traffic(Account(2, None), {}, {0}, [0]);
    moves := Strikes([], s0, 0, s1);
    assert {0} + {1} == {0, 1};
    moves := Strikes(moves, s1, 0, Traffic(Account(3, None), {}, {0, 1}, [0, 0]));
  }

  /** Two attempts at once reach the threshold; one locks, the other has still to write its lock. */
  lemma OneLockIsLate() returns (moves: seq<Move>)
    ensures Reaches(moves, Traffic(Account(3, Some(1000)), {}, {0}, [0, 0]))
  {
    var s2 := Traffic(Account(3, None), {}, {0, 1}, [0, 0]);
    moves := TwoReachTheThreshold();
    assert s2.locking - {1} == {0};
    moves := Locks(moves, s2, 1, Traffic(Account(3, Some(1000)), {}, {0}, [0, 0]));
  }

  lemma TwoMoreReachTheThreshold() returns (moves: seq<Move>)
    ensures Reaches(moves, Traffic(Account(2, None), {}, {0, 3}, [0, 0, 1000, 1000]))
  {
    var s3 := Traffic(Account(3, Some(1000)), {}, {0}, [0, 0]);
    var s4 := Traffic(Account(1, None), {}, {0}, [0, 0, 1000]);
    moves := OneLockIsLate();
    moves := Strikes(moves, s3, 1000, s4);
    assert {0} + {3} == {0, 3};
    moves := Strikes(moves, s4, 1000, Traffic(Account(2, None), {}, {0, 3}, [0, 0, 1000, 1000]));
  }

  /** A window later a batch goes through and locks again, and then the late lock ends that one. */
  lemma TheLateLockUnlocks() returns (moves: seq<Move>)
    ensures Reaches(moves, Traffic(Account(2, Some(1000)), {}, {}, [0, 0, 1000, 1000]))
  {
    var s5 := Traffic(Account(2, None), {}, {0, 3}, [0, 0, 1000, 1000]);
    var s6 := Traffic(Account(2, Some(2000)), {}, {0}, [0, 0, 1000, 1000]);
    moves := TwoMoreReachTheThreshold();
    assert s5.locking - {3} == {0};
    moves := Locks(moves, s5, 3, s6);
    moves := Locks(moves, s6, 0, Traffic(Account(2, Some(1000)), {}, {}, [0, 0, 1000, 1000]));
  }

  /**
   * With a threshold of two and two attempts in flight a window can hold all five: a lock written a window
   * late ends the current one, and a second batch goes through at the same moment.
   */
  lemma LateLocksLetABatchThrough() returns (moves: seq<Move>)
    ensures AllowsAll(Account(1, None), moves, PAIR, 2)
    ensures AllMoved(Account(1, None), moves, PAIR).checks == [0, 0, 1000, 1000, 1000, 1000, 1000]
    ensures Batches(PAIR.threshold, 2, 0) == 5
  {
    var s7 := Traffic(Account(2, Some(1000)), {}, {}, [0, 0, 1000, 1000]);
    var s8 := Traffic(Account(1, None), {}, {}, [0, 0, 1000, 1000, 1000]);
    var s9 := Traffic(Account(1, None), {5}, {}, [0, 0, 1000, 1000, 1000, 1000]);
    var s10 := Traffic(Account(1, None), {5, 6}, {}, [0, 0, 1000, 1000, 1000, 1000, 1000]);
    moves := TheLateLockUnlocks();
    moves := Strikes(moves, s7, 1000, s8);
    ReachesNext(moves, s8, Begin(1000), s9);
    ReachesNext(moves + [Begin(1000)], s9, Begin(1000), s10);
    moves := moves + [Begin(1000)] + [Begin(1000)];
    BatchesAdd(2, 2, 0);
  }
}
