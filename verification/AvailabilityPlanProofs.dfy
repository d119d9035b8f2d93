/**
 * What the planner leaves to the rollup and what it reads from raw frames
 * (`backend/src/reports/telemetryRollup.ts`, `planAvailabilityWindow`), and the report made of the two.
 */
module AvailabilityPlanProofs {
  import opened Wrappers
  import opened AvailabilitySteps
  import opened AvailabilityProofs

  predicate InRaw(raw: seq<Stretch>, ts: int) {
    exists i :: 0 <= i < |raw| && raw[i].from <= ts < raw[i].end
  }

  predicate InHours(hours: seq<int>, ts: int) {
    exists i :: 0 <= i < |hours| && hours[i] <= ts < hours[i] + HOUR
  }

  /** Up to the cursor: stretches in order, summarised hours inside, and each time in exactly one of them. */
  ghost predicate PlannedTo(plan: Plan, cursor: int, from: int, horizon: int, covered: set<int>) {
    && (forall i | 0 <= i < |plan.raw| :: from <= plan.raw[i].from < plan.raw[i].end <= cursor)
    && (forall i, j | 0 <= i < j < |plan.raw| :: plan.raw[i].end < plan.raw[j].from)
    && (forall i | 0 <= i < |plan.hours| ::
          from <= plan.hours[i] && plan.hours[i] + HOUR <= cursor && plan.hours[i] + HOUR < horizon
          && plan.hours[i] in covered)
    && (forall ts | from <= ts < cursor :: InRaw(plan.raw, ts) != InHours(plan.hours, ts))
    && (from < cursor == horizon ==> plan.raw != [] && plan.raw[|plan.raw| - 1].end == horizon)
  }

  lemma PushedRaw(raw: seq<Stretch>, stretch: Stretch, ts: int)
    requires stretch.from < stretch.end && forall i | 0 <= i < |raw| :: raw[i].from < raw[i].end
    ensures InRaw(PushRaw(raw, stretch), ts) <==> InRaw(raw, ts) || stretch.from <= ts < stretch.end
  {
    var after, last := PushRaw(raw, stretch), |raw| - 1;
    if i :| 0 <= i < |after| && after[i].from <= ts < after[i].end {
      if i <= last && !(stretch.from <= ts < stretch.end) { assert raw[i].from <= ts < raw[i].end; }
    }
    if i :| 0 <= i < |raw| && raw[i].from <= ts < raw[i].end {
      assert after[i].from <= ts < after[i].end;
    }
    if stretch.from <= ts < stretch.end {
      assert after[|after| - 1].from <= ts < after[|after| - 1].end;
    }
  }

  lemma PushedHour(hours: seq<int>, hour: int, ts: int)
    ensures InHours(hours + [hour], ts) <==> InHours(hours, ts) || hour <= ts < hour + HOUR
  {
    var after := hours + [hour];
    if i :| 0 <= i < |hours| && hours[i] <= ts < hours[i] + HOUR { assert after[i] <= ts < after[i] + HOUR; }
    if hour <= ts < hour + HOUR { assert after[|hours|] <= ts < after[|hours|] + HOUR; }
    if i :| 0 <= i < |after| && after[i] <= ts < after[i] + HOUR {
      if i < |hours| { assert hours[i] <= ts < hours[i] + HOUR; }
    }
  }

  lemma NothingPast(plan: Plan, cursor: int, from: int, horizon: int, covered: set<int>, ts: int)
    requires PlannedTo(plan, cursor, from, horizon, covered) && ts >= cursor
    ensures !InRaw(plan.raw, ts) && !InHours(plan.hours, ts)
  {}

  /** The cursor is at the window's start, inside the hour, or at the hour's. */
  predicate AtHour(cursor: int, hour: int, from: int, horizon: int) {
    from <= cursor < horizon && cursor < hour + HOUR && (hour == cursor || (hour < from && cursor == from))
  }

  lemma RawHour(plan: Plan, cursor: int, end: int, from: int, horizon: int, covered: set<int>)
    requires PlannedTo(plan, cursor, from, horizon, covered) && from <= cursor < end <= horizon
    ensures PlannedTo(plan.(raw := PushRaw(plan.raw, Stretch(cursor, end))), end, from, horizon, covered)
  {
    var stretch := Stretch(cursor, end);
    var after := PushRaw(plan.raw, stretch);
    forall ts | from <= ts < end ensures InRaw(after, ts) != InHours(plan.hours, ts) {
      PushedRaw(plan.raw, stretch, ts);
      if ts >= cursor { NothingPast(plan, cursor, from, horizon, covered, ts); }
    }
  }

  lemma SummarisedHour(plan: Plan, hour: int, from: int, horizon: int, covered: set<int>)
    requires PlannedTo(plan, hour, from, horizon, covered) && from <= hour && hour + HOUR < horizon && hour in covered
    ensures PlannedTo(plan.(hours := plan.hours + [hour]), hour + HOUR, from, horizon, covered)
  {
    forall ts | from <= ts < hour + HOUR ensures InRaw(plan.raw, ts) != InHours(plan.hours + [hour], ts) {
      PushedHour(plan.hours, hour, ts);
      if ts >= hour { NothingPast(plan, hour, from, horizon, covered, ts); }
    }
  }

  lemma {:induction false} PlansOn(plan: Plan, cursor: int, hour: int, from: int, horizon: int, covered: set<int>)
    requires PlannedTo(plan, cursor, from, horizon, covered)
    requires cursor < hour + HOUR && (cursor == horizon || AtHour(cursor, hour, from, horizon))
    ensures PlannedTo(PlanFrom(plan, cursor, hour, from, horizon, covered), horizon, from, horizon, covered)
    decreases horizon - cursor
  {
    if cursor < horizon {
      if hour >= from && hour + HOUR < horizon && hour in covered {
        SummarisedHour(plan, hour, from, horizon, covered);
      } else {
        RawHour(plan, cursor, Min(hour + HOUR, horizon), from, horizon, covered);
      }
      PlansOn(PlanHour(plan, cursor, hour, from, horizon, covered), Min(hour + HOUR, horizon), hour + HOUR,
              from, horizon, covered);
    }
  }

  /** The plan of a window that starts before the horizon; `first` is the hour its start falls into. */
  function Planning(first: int, from: int, horizon: int, covered: set<int>): Plan
    requires first <= from < first + HOUR
  {
    PlanFrom(Plan([], []), from, first, from, horizon, covered)
  }

  /**
   * The planner splits the window: its stretches are in order with gaps between them and end with the horizon,
   * its hours are summarised, lie in the window and end before the horizon, and each time of the window is in
   * exactly one stretch or hour.
   */
  lemma PlanSplitsTheWindow(first: int, from: int, horizon: int, covered: set<int>)
    requires first <= from < first + HOUR && from < horizon
    ensures PlannedTo(Planning(first, from, horizon, covered), horizon, from, horizon, covered)
  {
    PlansOn(Plan([], []), from, first, from, horizon, covered);
  }

  /** The hours of the window in which the plan advances. */
  predicate OnTheHour(first: int, hour: int) {
    hour >= first && (hour - first) % HOUR == 0
  }

  /** An hour the rollup can serve. */
  predicate Servable(hour: int, from: int, horizon: int, covered: set<int>) {
    hour >= from && hour + HOUR < horizon && hour in covered
  }

  lemma {:induction false} ServesTheRest(
    plan: Plan, cursor: int, hour: int, from: int, horizon: int, covered: set<int>, wanted: int)
    requires cursor < hour + HOUR
    ensures wanted in PlanFrom(plan, cursor, hour, from, horizon, covered).hours
       <==> wanted in plan.hours || (cursor < horizon && OnTheHour(hour, wanted) && Servable(wanted, from, horizon, covered))
    decreases horizon - cursor
  {
    if cursor < horizon {
      ServesTheRest(PlanHour(plan, cursor, hour, from, horizon, covered), Min(hour + HOUR, horizon), hour + HOUR,
                    from, horizon, covered, wanted);
      NextOnTheHour(hour, wanted);
    }
  }

  lemma NextOnTheHour(hour: int, wanted: int)
    ensures OnTheHour(hour, wanted) <==> wanted == hour || OnTheHour(hour + HOUR, wanted)
  {
    assert (wanted - hour - HOUR) % HOUR == (wanted - hour) % HOUR;
  }

  /** An hour goes to the rollup exactly when it can: summarised, inside the window, and ending before the horizon. */
  lemma PlanServesWhatItCan(first: int, from: int, horizon: int, covered: set<int>, hour: int)
    requires first <= from < first + HOUR && from < horizon
    ensures hour in Planning(first, from, horizon, covered).hours
       <==> OnTheHour(first, hour) && from <= hour && hour + HOUR < horizon && hour in covered
  {
    ServesTheRest(Plan([], []), from, first, from, horizon, covered, hour);
  }

  /** The single pass, restricted to the frames of these hours. */
  function OfHours(frames: seq<Frame>, report: Report, hours: seq<int>, from: int, to: Option<int>): seq<Row> {
    if frames == [] then []
    else
      (if InHours(hours, frames[0].ts)
       then SingleOf(report, from, to, frames[0], NextTs(frames[1..], frames[0].deviceId)) else [])
      + OfHours(frames[1..], report, hours, from, to)
  }

  ghost predicate PlansReport(plan: Plan, report: Report, from: int, to: Option<int>, covered: set<int>) {
    PlannedTo(plan, report.horizon, from, report.horizon, covered) && from < report.horizon
    && (to.Some? ==> report.horizon <= to.value)
  }

  /** A time of the window is in no stretch exactly when it is in an hour. */
  lemma HomelessAreSummarised(plan: Plan, report: Report, from: int, to: Option<int>, covered: set<int>, ts: int)
    requires PlansReport(plan, report, from, to, covered) && from <= ts && (to.Some? ==> ts <= to.value)
    ensures Home(report, plan.raw, to, ts).None? <==> InHours(plan.hours, ts)
  {
    HomeIsAStretch(report, plan.raw, to, ts);
    if ts < report.horizon {
      if i :| 0 <= i < |plan.raw| && plan.raw[i].from <= ts < plan.raw[i].end {
        assert InStretch(report, plan.raw[i], to, ts);
      }
      if i :| 0 <= i < |plan.raw| && InStretch(report, plan.raw[i], to, ts) {
        assert plan.raw[i].from <= ts < plan.raw[i].end;
      }
    } else {
      NothingPast(plan, report.horizon, from, report.horizon, covered, ts);
      assert InStretch(report, plan.raw[|plan.raw| - 1], to, ts);
    }
  }

  lemma {:induction false} OutsideAreHours(
    frames: seq<Frame>, plan: Plan, report: Report, from: int, to: Option<int>, covered: set<int>)
    requires PlansReport(plan, report, from, to, covered)
    ensures Restricted(frames, report, plan.raw, from, to, false) == OfHours(frames, report, plan.hours, from, to)
  {
    if frames != [] {
      OutsideAreHours(frames[1..], plan, report, from, to, covered);
      if Selects(report, Whole(from, to), frames[0]) {
        HomelessAreSummarised(plan, report, from, to, covered, frames[0].ts);
      }
    }
  }

  lemma PlanIsPlanned(plan: Plan, report: Report, from: int, to: Option<int>, covered: set<int>)
    requires PlansReport(plan, report, from, to, covered)
    ensures Planned(report, plan.raw, from, to)
  {
    forall i | 0 <= i < |plan.raw| ensures plan.raw[i].from < report.horizon {
      assert plan.raw[i].from < plan.raw[i].end;
    }
  }

  /**
   * The report as it is served: if the rollup's rows stand for the frames of the hours planned for it, a
   * vehicle and bucket gets the row of one query over raw frames, whichever hours are summarised, if and
   * only if no frame of theirs disturbs.
   */
  lemma PlannedReportIff(
    hours: seq<Row>, frames: seq<Frame>, report: Report, first: int, from: int, to: Option<int>, covered: set<int>, key: Key)
    requires Sorted(frames) && first <= from < first + HOUR && from < report.horizon
    requires to.Some? ==> report.horizon <= to.value
    requires var plan := Planning(first, from, report.horizon, covered);
             Alike(hours, OfHours(frames, report, plan.hours, from, to), key)
    ensures var plan := Planning(first, from, report.horizon, covered);
            RowsAgree(hours, frames, report, plan.raw, from, to, key)
            <==> !exists i: nat :: DisturbedAt(frames, report, plan.raw, to, key, i)
  {
    var plan := Planning(first, from, report.horizon, covered);
    PlanSplitsTheWindow(first, from, report.horizon, covered);
    OutsideAreHours(frames, plan, report, from, to, covered);
    PlanIsPlanned(plan, report, from, to, covered);
    SlicedAgreesIff(hours, frames, report, plan.raw, from, to, key);
  }
}
