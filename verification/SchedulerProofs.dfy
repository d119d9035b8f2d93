/** When a scheduled report is sent, over any run of polls and configuration changes (`backend/src/reports/scheduler.ts`). */
module SchedulerProofs {
  import opened Wrappers
  import opened SchedulerSteps

  function Count(fired: seq<Firing>, firing: Firing): nat {
    multiset(fired)[firing]
  }

  // At most once a day.

  /** What was sent is remembered: never after today, and nothing later than the date last handled. */
  ghost predicate Remembers(s: Scheduler, today: int) {
    && (forall id | id in s.lastFired :: s.lastFired[id] <= today)
    && (forall firing | Count(s.fired, firing) > 0 ::
          Count(s.fired, firing) == 1 && firing.id in s.lastFired && firing.date <= s.lastFired[firing.id])
  }

  lemma ConsiderRemembers(s: Scheduler, schedule: Schedule, local: Local)
    requires Remembers(s, local.date)
    ensures Remembers(Consider(s, schedule, local), local.date)
  {
    var after := Consider(s, schedule, local);
    var sent := Firing(schedule.id, local.date);
    forall firing | Count(after.fired, firing) > 0
      ensures Count(after.fired, firing) == 1 && firing.id in after.lastFired && firing.date <= after.lastFired[firing.id]
    {
      if after.fired != s.fired {
        assert Count(after.fired, firing) == Count(s.fired, firing) + if firing == sent then 1 else 0;
      }
    }
  }

  lemma {:induction false} ConsiderAllRemembers(s: Scheduler, schedules: seq<Schedule>, local: Local)
    requires Remembers(s, local.date)
    ensures Remembers(ConsiderAll(s, schedules, local), local.date)
  {
    if schedules != [] {
      ConsiderAllRemembers(s, schedules[..|schedules| - 1], local);
      ConsiderRemembers(ConsiderAll(s, schedules[..|schedules| - 1], local), schedules[|schedules| - 1], local);
    }
  }

  /** Local dates never go back from one poll to the next. */
  predicate Forward(ticks: seq<Tick>, zone: Zone) {
    forall i, j | 0 <= i < j < |ticks| :: zone(ticks[i].now).date <= zone(ticks[j].now).date
  }

  lemma {:induction false} RunsRemember(ticks: seq<Tick>, zone: Zone)
    requires ticks != [] && Forward(ticks, zone)
    ensures Remembers(Run(FRESH, ticks, zone), zone(ticks[|ticks| - 1].now).date)
    decreases |ticks|
  {
    var front, last := ticks[..|ticks| - 1], ticks[|ticks| - 1];
    if front != [] {
      assert ticks[|front| - 1] == front[|front| - 1];
      RunsRemember(front, zone);
    }
    ConsiderAllRemembers(Run(FRESH, front, zone), last.schedules, zone(last.now));
  }

  /** However the schedules are edited between polls, no report is sent twice on one local date. */
  lemma SentAtMostOnceADay(ticks: seq<Tick>, zone: Zone, id: string, date: int)
    requires Forward(ticks, zone)
    ensures Count(Run(FRESH, ticks, zone).fired, Firing(id, date)) <= 1
  {
    if ticks != [] { RunsRemember(ticks, zone); }
  }

  // Never at first sight.

  predicate DistinctIds(schedules: seq<Schedule>) {
    forall i, j | 0 <= i < j < |schedules| :: schedules[i].id != schedules[j].id
  }

  predicate Lists(schedules: seq<Schedule>, id: string) {
    exists schedule <- schedules :: schedule.id == id
  }

  /** The part of the state one id depends on. */
  predicate SameFor(a: Scheduler, b: Scheduler, id: string, date: int) {
    && (id in a.seenTiming <==> id in b.seenTiming)
    && (id in a.seenTiming ==> a.seenTiming[id] == b.seenTiming[id])
    && (Handled(a, id, date) <==> Handled(b, id, date))
    && Count(a.fired, Firing(id, date)) == Count(b.fired, Firing(id, date))
  }

  lemma OthersAreUntouched(s: Scheduler, schedule: Schedule, local: Local, id: string, date: int)
    requires id != schedule.id
    ensures SameFor(Consider(s, schedule, local), s, id, date)
  {}

  lemma SameInSameOut(a: Scheduler, b: Scheduler, schedule: Schedule, local: Local)
    requires SameFor(a, b, schedule.id, local.date)
    ensures SameFor(Consider(a, schedule, local), Consider(b, schedule, local), schedule.id, local.date)
  {
    assert Knows(a, schedule) == Knows(b, schedule);
    SentAlike(a, b, schedule, local);
  }

  /** Whether a poll sends is up to what is remembered of the schedule. */
  lemma SentAlike(a: Scheduler, b: Scheduler, schedule: Schedule, local: Local)
    requires Knows(a, schedule) == Knows(b, schedule)
    requires Handled(a, schedule.id, local.date) == Handled(b, schedule.id, local.date)
    ensures |Consider(a, schedule, local).fired| - |a.fired| == |Consider(b, schedule, local).fired| - |b.fired|
    ensures Handled(Consider(a, schedule, local), schedule.id, local.date)
         == Handled(Consider(b, schedule, local), schedule.id, local.date)
  {}

  lemma {:induction false} UnlistedIsUntouched(s: Scheduler, schedules: seq<Schedule>, local: Local, id: string, date: int)
    requires !Lists(schedules, id)
    ensures SameFor(ConsiderAll(s, schedules, local), s, id, date)
  {
    if schedules != [] {
      var front, last := schedules[..|schedules| - 1], schedules[|schedules| - 1];
      assert last in schedules && forall schedule <- front :: schedule in schedules;
      UnlistedIsUntouched(s, front, local, id, date);
      OthersAreUntouched(ConsiderAll(s, front, local), last, local, id, date);
    }
  }

  /** With distinct ids a poll treats each schedule as if it were the only one. */
  lemma {:induction false} PollIsPerSchedule(s: Scheduler, schedules: seq<Schedule>, local: Local, k: nat)
    requires DistinctIds(schedules) && k < |schedules|
    ensures SameFor(ConsiderAll(s, schedules, local), Consider(s, schedules[k], local), schedules[k].id, local.date)
  {
    var front, last := schedules[..|schedules| - 1], schedules[|schedules| - 1];
    var before := ConsiderAll(s, front, local);
    if k == |schedules| - 1 {
      UnlistedIsUntouched(s, front, local, last.id, local.date);
      SameInSameOut(before, s, last, local);
    } else {
      PollIsPerSchedule(s, front, local, k);
      OthersAreUntouched(before, last, local, schedules[k].id, local.date);
    }
  }

  /**
   * A poll sends a report for a schedule it is given if and only if the schedule is enabled, is for every day
   * or for this weekday, its minute has come, its timing was seen before, and the date is not handled yet.
   */
  lemma PollSendsIff(s: Scheduler, schedules: seq<Schedule>, local: Local, k: nat)
    requires DistinctIds(schedules) && k < |schedules|
    ensures var schedule := schedules[k];
            var id, timing, firing := schedule.id, schedule.timing, Firing(schedule.id, local.date);
            Count(ConsiderAll(s, schedules, local).fired, firing)
            == Count(s.fired, firing)
               + if && schedule.enabled
                    && (timing.weekday.None? || timing.weekday.value == local.weekday)
                    && timing.minute <= local.minute
                    && id in s.seenTiming && s.seenTiming[id] == timing
                    && !(id in s.lastFired && s.lastFired[id] == local.date)
                 then 1 else 0
  {
    PollIsPerSchedule(s, schedules, local, k);
  }

  predicate Holds(schedules: seq<Schedule>, id: string, timing: Timing) {
    exists schedule <- schedules :: schedule.id == id && schedule.enabled && schedule.timing == timing
  }

  /** Since some earlier poll that had it enabled with this timing, every poll had it so or did not have it at all. */
  predicate SeenBefore(ticks: seq<Tick>, id: string, timing: Timing) {
    ticks != [] &&
    var front, last := ticks[..|ticks| - 1], ticks[|ticks| - 1];
    if Lists(last.schedules, id) then Holds(last.schedules, id, timing) else SeenBefore(front, id, timing)
  }

  predicate DistinctThroughout(ticks: seq<Tick>) {
    forall i | 0 <= i < |ticks| :: DistinctIds(ticks[i].schedules)
  }

  /** A poll that lists the id remembers its timing exactly if it was enabled there. */
  lemma ListedIsRemembered(s: Scheduler, schedules: seq<Schedule>, local: Local, schedule: Schedule)
    requires DistinctIds(schedules) && Lists(schedules, schedule.id)
    ensures var seen := ConsiderAll(s, schedules, local).seenTiming;
            schedule.id in seen && seen[schedule.id] == schedule.timing
            <==> Holds(schedules, schedule.id, schedule.timing)
  {
    var k :| 0 <= k < |schedules| && schedules[k].id == schedule.id;
    PollIsPerSchedule(s, schedules, local, k);
    assert schedules[k] in schedules;
    forall other | other in schedules && other.id == schedule.id ensures other == schedules[k] {
      var j :| 0 <= j < |schedules| && schedules[j] == other;
    }
  }

  /** The remembered timing is the one of the last poll that listed the id, if it was enabled there. */
  lemma {:induction false} KnownMeansSeenBefore(ticks: seq<Tick>, zone: Zone, schedule: Schedule)
    requires DistinctThroughout(ticks)
    ensures var seen := Run(FRESH, ticks, zone).seenTiming;
            schedule.id in seen && seen[schedule.id] == schedule.timing
            <==> SeenBefore(ticks, schedule.id, schedule.timing)
    decreases |ticks|
  {
    if ticks != [] {
      var front, last := ticks[..|ticks| - 1], ticks[|ticks| - 1];
      var before, local := Run(FRESH, front, zone), zone(last.now);
      KnownMeansSeenBefore(front, zone, schedule);
      if Lists(last.schedules, schedule.id) {
        ListedIsRemembered(before, last.schedules, local, schedule);
      } else {
        UnlistedIsUntouched(before, last.schedules, local, schedule.id, local.date);
      }
    }
  }

  /** A report is sent only for a timing an earlier poll had already seen enabled, unchanged since: never at first sight. */
  lemma NeverSentAtFirstSight(ticks: seq<Tick>, tick: Tick, zone: Zone, k: nat)
    requires DistinctThroughout(ticks) && DistinctIds(tick.schedules) && k < |tick.schedules|
    requires var firing := Firing(tick.schedules[k].id, zone(tick.now).date);
             Count(Run(FRESH, ticks + [tick], zone).fired, firing) > Count(Run(FRESH, ticks, zone).fired, firing)
    ensures SeenBefore(ticks, tick.schedules[k].id, tick.schedules[k].timing)
  {
    assert (ticks + [tick])[..|ticks|] == ticks;
    PollSendsIff(Run(FRESH, ticks, zone), tick.schedules, zone(tick.now), k);
    KnownMeansSeenBefore(ticks, zone, tick.schedules[k]);
  }

  // Sent when due.

  /** The scheduler remembers this timing as seen. */
  predicate Remembered(s: Scheduler, schedule: Schedule) {
    schedule.id in s.seenTiming && s.seenTiming[schedule.id] == schedule.timing
  }

  /** The scheduler has dealt with this id on this date. */
  predicate Done(s: Scheduler, id: string, date: int) {
    id in s.lastFired && s.lastFired[id] == date
  }

  /** A poll on this date that lists the schedule unchanged or not at all. */
  predicate Keeps(tick: Tick, schedule: Schedule, zone: Zone, date: int) {
    && zone(tick.now).date == date && DistinctIds(tick.schedules)
    && (schedule.timing.weekday.None? || schedule.timing.weekday.value == zone(tick.now).weekday)
    && forall other <- tick.schedules :: other.id == schedule.id ==> other == schedule
  }

  predicate IsDue(tick: Tick, schedule: Schedule, zone: Zone) {
    schedule in tick.schedules && schedule.timing.minute <= zone(tick.now).minute
  }

  lemma KeptPoll(s: Scheduler, tick: Tick, schedule: Schedule, zone: Zone, date: int)
    requires schedule.enabled && Keeps(tick, schedule, zone, date) && Remembered(s, schedule)
    ensures var after := ConsiderAll(s, tick.schedules, zone(tick.now));
            && Remembered(after, schedule)
            && (Done(after, schedule.id, date) <==> Done(s, schedule.id, date) || IsDue(tick, schedule, zone))
            && Count(after.fired, Firing(schedule.id, date))
               == Count(s.fired, Firing(schedule.id, date))
                  + if IsDue(tick, schedule, zone) && !Done(s, schedule.id, date) then 1 else 0
  {
    if schedule in tick.schedules {
      var k :| 0 <= k < |tick.schedules| && tick.schedules[k] == schedule;
      PollIsPerSchedule(s, tick.schedules, zone(tick.now), k);
    } else {
      UnlistedIsUntouched(s, tick.schedules, zone(tick.now), schedule.id, date);
    }
  }

  /**
   * A schedule already known on a matching day and kept unchanged through that day's polls is sent that
   * day, once, exactly when some poll finds its time past and the date was not handled before.
   */
  lemma {:induction false} SentTheDayItIsDue(s: Scheduler, ticks: seq<Tick>, schedule: Schedule, zone: Zone, date: int)
    requires schedule.enabled && Remembered(s, schedule)
    requires forall tick <- ticks :: Keeps(tick, schedule, zone, date)
    ensures var after := Run(s, ticks, zone);
            var due := exists tick <- ticks :: IsDue(tick, schedule, zone);
            && Remembered(after, schedule)
            && (Done(after, schedule.id, date) <==> Done(s, schedule.id, date) || due)
            && Count(after.fired, Firing(schedule.id, date))
               == Count(s.fired, Firing(schedule.id, date)) + if due && !Done(s, schedule.id, date) then 1 else 0
    decreases |ticks|
  {
    if ticks != [] {
      var front, last := ticks[..|ticks| - 1], ticks[|ticks| - 1];
      assert last in ticks && forall tick <- front :: tick in ticks;
      assert forall tick <- ticks :: tick == last || tick in front;
      SentTheDayItIsDue(s, front, schedule, zone, date);
      KeptPoll(Run(s, front, zone), last, schedule, zone, date);
    }
  }

  // Never on another day.

  /** A poll that lists this id enabled, on its weekday if it has one, with its minute come, and seen by an earlier poll. */
  ghost predicate Triggers(ticks: seq<Tick>, zone: Zone, n: nat, k: nat, firing: Firing) {
    && n < |ticks| && k < |ticks[n].schedules|
    && var schedule, local := ticks[n].schedules[k], zone(ticks[n].now);
       && schedule.id == firing.id && schedule.enabled && local.date == firing.date
       && (schedule.timing.weekday.None? || schedule.timing.weekday.value == local.weekday)
       && schedule.timing.minute <= local.minute
       && SeenBefore(ticks[..n], schedule.id, schedule.timing)
  }

  lemma {:induction false} UnlistedIsNotSent(s: Scheduler, schedules: seq<Schedule>, local: Local, firing: Firing)
    requires firing.date != local.date || !Lists(schedules, firing.id)
    ensures Count(ConsiderAll(s, schedules, local).fired, firing) == Count(s.fired, firing)
  {
    if schedules != [] {
      var front, last := schedules[..|schedules| - 1], schedules[|schedules| - 1];
      assert last in schedules && forall schedule <- front :: schedule in schedules;
      UnlistedIsNotSent(s, front, local, firing);
    }
  }

  lemma {:induction false} PollTriggers(ticks: seq<Tick>, zone: Zone, firing: Firing) returns (k: nat)
    requires ticks != [] && DistinctThroughout(ticks)
    requires Count(Run(FRESH, ticks, zone).fired, firing) > Count(Run(FRESH, ticks[..|ticks| - 1], zone).fired, firing)
    ensures Triggers(ticks, zone, |ticks| - 1, k, firing)
  {
    var front, last := ticks[..|ticks| - 1], ticks[|ticks| - 1];
    var before, local := Run(FRESH, front, zone), zone(last.now);
    if firing.date != local.date || !Lists(last.schedules, firing.id) {
      UnlistedIsNotSent(before, last.schedules, local, firing);
      assert false;
    } else {
      k :| 0 <= k < |last.schedules| && last.schedules[k].id == firing.id;
      PollSendsIff(before, last.schedules, local, k);
      KnownMeansSeenBefore(front, zone, last.schedules[k]);
    }
  }

  /** Over any run, every report sent was triggered by a poll that found its schedule due. */
  lemma {:induction false} SentOnlyWhenDue(ticks: seq<Tick>, zone: Zone, firing: Firing) returns (n: nat, k: nat)
    requires DistinctThroughout(ticks) && Count(Run(FRESH, ticks, zone).fired, firing) > 0
    ensures Triggers(ticks, zone, n, k, firing)
    decreases |ticks|
  {
    var front := ticks[..|ticks| - 1];
    if Count(Run(FRESH, front, zone).fired, firing) > 0 {
      n, k := SentOnlyWhenDue(front, zone, firing);
      assert front[..n] == ticks[..n];
    } else {
      n := |front|;
      k := PollTriggers(ticks, zone, firing);
    }
  }

  /** Whenever this id is listed it is for this weekday. */
  predicate WeeklyOn(ticks: seq<Tick>, id: string, weekday: int) {
    forall i, k | 0 <= i < |ticks| && 0 <= k < |ticks[i].schedules| && ticks[i].schedules[k].id == id ::
      ticks[i].schedules[k].timing.weekday == Some(weekday)
  }

  /** A weekly schedule is sent only on dates of its weekday. */
  lemma WeeklyIsSentOnItsWeekday(ticks: seq<Tick>, zone: Zone, id: string, weekday: int, weekdayOf: int -> int, date: int)
    requires DistinctThroughout(ticks) && WeeklyOn(ticks, id, weekday)
    requires forall i | 0 <= i < |ticks| :: zone(ticks[i].now).weekday == weekdayOf(zone(ticks[i].now).date)
    requires Count(Run(FRESH, ticks, zone).fired, Firing(id, date)) > 0
    ensures weekdayOf(date) == weekday
  {
    var n, k := SentOnlyWhenDue(ticks, zone, Firing(id, date));
  }

  /** A schedule deleted and created again with its old time is not new to the scheduler: past its time it is sent at once. */
  lemma RecreatedScheduleIsSentAtOnce(id: string, minute: int, day: int)
    ensures var schedule := Schedule(id, true, Timing(minute, None));
            var zone: Zone := now => Local(day, minute - 1 + now, 0);
            var ticks := [Tick(0, [schedule]), Tick(1, []), Tick(2, [schedule])];
            Run(FRESH, ticks, zone).fired == [Firing(id, day)]
  {
    var schedule := Schedule(id, true, Timing(minute, None));
    var zone: Zone := now => Local(day, minute - 1 + now, 0);
    var a, b, c := Tick(0, [schedule]), Tick(1, []), Tick(2, [schedule]);
    var ticks := [a, b, c];
    assert ticks[..2] == [a, b] && [a, b][..1] == [a] && [a][..0] == [];
    assert [schedule][..0] == [];
    var one := Scheduler(map[], map[id := schedule.timing], []);
    assert ConsiderAll(FRESH, [schedule], zone(0)) == one;
    assert Run(FRESH, [a], zone) == one;
    assert Run(FRESH, [a, b], zone) == one;
    assert ConsiderAll(one, [schedule], zone(2)).fired == [Firing(id, day)];
  }
}
