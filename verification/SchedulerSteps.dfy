/**
 * The scheduled reports (`backend/src/reports/scheduler.ts`, `tick`). A local instant has a date (a
 * day number), a minute of the day and a weekday; the time zone is behind `Zone`.
 */
module SchedulerSteps {
  import opened Wrappers

  datatype Local = Local(date: int, minute: int, weekday: int)

  type Zone = int -> Local

  datatype Timing = Timing(minute: int, weekday: Option<int>)

  datatype Schedule = Schedule(id: string, enabled: bool, timing: Timing)

  datatype Firing = Firing(id: string, date: int)

  /** `fired` is the history of reports sent off. */
  datatype Scheduler = Scheduler(lastFired: map<string, int>, seenTiming: map<string, Timing>, fired: seq<Firing>)

  const FRESH := Scheduler(map[], map[], [])

  predicate Matches(timing: Timing, local: Local) {
    timing.weekday.Some? ==> timing.weekday.value == local.weekday
  }

  predicate Past(timing: Timing, local: Local) {
    local.minute >= timing.minute
  }

  predicate Handled(s: Scheduler, id: string, date: int) {
    id in s.lastFired && s.lastFired[id] == date
  }

  predicate Knows(s: Scheduler, schedule: Schedule) {
    schedule.id in s.seenTiming && s.seenTiming[schedule.id] == schedule.timing
  }

  function Consider(s: Scheduler, schedule: Schedule, local: Local): Scheduler {
    if !schedule.enabled then s.(seenTiming := s.seenTiming - {schedule.id})
    else
      var firstSight := !Knows(s, schedule);
      var seen := s.(seenTiming := s.seenTiming[schedule.id := schedule.timing]);
      if !Matches(schedule.timing, local) then seen
      else if !Past(schedule.timing, local) || Handled(s, schedule.id, local.date) then seen
      else
        var handled := seen.(lastFired := s.lastFired[schedule.id := local.date]);
        if firstSight then handled else handled.(fired := s.fired + [Firing(schedule.id, local.date)])
  }

  function ConsiderAll(s: Scheduler, schedules: seq<Schedule>, local: Local): Scheduler {
    if schedules == [] then s
    else Consider(ConsiderAll(s, schedules[..|schedules| - 1], local), schedules[|schedules| - 1], local)
  }

  /** One poll, with the configuration then in effect. */
  datatype Tick = Tick(now: int, schedules: seq<Schedule>)

  function Run(s: Scheduler, ticks: seq<Tick>, zone: Zone): Scheduler {
    if ticks == [] then s
    else
      var last := ticks[|ticks| - 1];
      ConsiderAll(Run(s, ticks[..|ticks| - 1], zone), last.schedules, zone(last.now))
  }
}
