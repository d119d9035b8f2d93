/** The scheduler as the object `index.ts` polls (`backend/src/reports/scheduler.ts`). */
module ReportScheduler {
  import opened Wrappers
  import opened SchedulerSteps

  class ReportScheduler {
    const zone: Zone
    var lastFired: map<string, int>
    var seenTiming: map<string, Timing>
    /** What was handed to `fire`, in order. */
    var fired: seq<Firing>

    function State(): Scheduler
      reads this
    {
      Scheduler(lastFired, seenTiming, fired)
    }

    constructor (zone: Zone)
      ensures State() == FRESH && this.zone == zone
    {
      this.zone, lastFired, seenTiming, fired := zone, map[], map[], [];
    }

    method Tick(nowMs: int, schedules: seq<Schedule>)
      modifies this
      ensures State() == ConsiderAll(old(State()), schedules, zone(nowMs))
    {
      for i := 0 to |schedules|
        invariant State() == ConsiderAll(old(State()), schedules[..i], zone(nowMs))
      {
        assert schedules[..i + 1][..i] == schedules[..i];
        var schedule := schedules[i];
        if !schedule.enabled {
          seenTiming := seenTiming - {schedule.id};
          continue;
        }
        var firstSight := !(schedule.id in seenTiming && seenTiming[schedule.id] == schedule.timing);
        seenTiming := seenTiming[schedule.id := schedule.timing];
        var local := zone(nowMs);
        if schedule.timing.weekday.Some? && schedule.timing.weekday.value != local.weekday { continue; }
        var due := local.minute >= schedule.timing.minute
                   && !(schedule.id in lastFired && lastFired[schedule.id] == local.date);
        if !due { continue; }
        lastFired := lastFired[schedule.id := local.date];
        if firstSight { continue; }
        fired := fired + [Firing(schedule.id, local.date)];
      }
      assert schedules[..|schedules|] == schedules;
    }
  }
}
