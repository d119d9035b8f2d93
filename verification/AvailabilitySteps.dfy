/**
 * The availability aggregation (`backend/src/reports/availabilityPipeline.ts`) and its slicing
 * (`backend/src/persistence.ts`, `aggregateAvailability`).
 *
 * The collection is a sequence of frames sorted by time; `bucketOf` stands for `$dateTrunc` in the
 * report's time zone. State of charge is a real number, so sums are exact.
 */
module AvailabilitySteps {
  import opened Wrappers

  datatype Frame = Frame(deviceId: string, ts: int, online: bool, soc: Option<real>)

  datatype Key = Key(deviceId: string, bucket: int)

  datatype Agg = Agg(
    onlineSamples: nat, totalSamples: nat, onlineMs: int, socSum: real, socCount: nat, socMin: Option<real>)

  datatype Row = Row(key: Key, agg: Agg)

  type Buckets = int -> int

  /** What every query of one report shares. */
  datatype Report = Report(devices: Option<set<string>>, maxGap: int, horizon: int, bucketOf: Buckets)

  /** One query: `from` and `to` are inclusive; `lookahead` reads on to learn successors. */
  datatype Slice = Slice(from: Option<int>, to: Option<int>, lookahead: int)

  const ZERO := Agg(0, 0, 0, 0.0, 0, None)

  function Least(a: Option<real>, b: Option<real>): Option<real> {
    if a.None? then b else if b.None? then a else if a.value <= b.value then a else b
  }

  function Add(a: Agg, b: Agg): Agg {
    Agg(a.onlineSamples + b.onlineSamples, a.totalSamples + b.totalSamples, a.onlineMs + b.onlineMs,
        a.socSum + b.socSum, a.socCount + b.socCount, Least(a.socMin, b.socMin))
  }

  // The stages.

  function Lookahead(slice: Slice): int {
    if slice.to.None? then 0 else Max(0, slice.lookahead)
  }

  /** The first `$match`. */
  predicate Reads(report: Report, slice: Slice, frame: Frame) {
    && (report.devices.Some? ==> frame.deviceId in report.devices.value)
    && (slice.from.Some? ==> frame.ts >= slice.from.value)
    && (slice.to.Some? ==> frame.ts <= slice.to.value + Lookahead(slice))
  }

  function Read(frames: seq<Frame>, report: Report, slice: Slice): seq<Frame> {
    if frames == [] then []
    else if Reads(report, slice, frames[0]) then [frames[0]] + Read(frames[1..], report, slice)
    else Read(frames[1..], report, slice)
  }

  /** `$setWindowFields`: the time of the vehicle's next frame among those read. */
  function NextTs(frames: seq<Frame>, deviceId: string): Option<int> {
    if frames == [] then None
    else if frames[0].deviceId == deviceId then Some(frames[0].ts)
    else NextTs(frames[1..], deviceId)
  }

  /** The second `$match` drops what was read only to be a successor. */
  predicate Counts(slice: Slice, frame: Frame) {
    slice.to.Some? ==> frame.ts <= slice.to.value
  }

  function Covered(report: Report, ts: int, next: Option<int>): int {
    Max(0, Min(report.maxGap, (if next.Some? then next.value else report.horizon) - ts))
  }

  /** What one frame adds to its vehicle's bucket. */
  function Part(report: Report, frame: Frame, next: Option<int>): Row {
    Row(
      Key(frame.deviceId, report.bucketOf(frame.ts)),
      Agg(if frame.online then 1 else 0, 1, if frame.online then Covered(report, frame.ts, next) else 0,
          if frame.soc.Some? then frame.soc.value else 0.0, if frame.soc.Some? then 1 else 0, frame.soc))
  }

  function Parts(read: seq<Frame>, report: Report, slice: Slice): seq<Row> {
    if read == [] then []
    else
      (if Counts(slice, read[0]) then [Part(report, read[0], NextTs(read[1..], read[0].deviceId))] else [])
      + Parts(read[1..], report, slice)
  }

  // Grouping, by the pipeline's `$group` and by `mergeAvailabilityRows`.

  function Keys(rows: seq<Row>): seq<Key> {
    if rows == [] then []
    else
      var keys := Keys(rows[..|rows| - 1]);
      if rows[|rows| - 1].key in keys then keys else keys + [rows[|rows| - 1].key]
  }

  function Total(rows: seq<Row>, key: Key): Agg {
    if rows == [] then ZERO
    else
      var front := Total(rows[..|rows| - 1], key);
      if rows[|rows| - 1].key == key then Add(front, rows[|rows| - 1].agg) else front
  }

  /** One row per key, in order of first appearance. */
  function Grouped(rows: seq<Row>): (r: seq<Row>)
    ensures |r| == |Keys(rows)|
  {
    seq(|Keys(rows)|, i requires 0 <= i < |Keys(rows)| => Row(Keys(rows)[i], Total(rows, Keys(rows)[i])))
  }

  function Query(frames: seq<Frame>, report: Report, slice: Slice): seq<Row> {
    Grouped(Parts(Read(frames, report, slice), report, slice))
  }

  // Slicing the window.

  /** A stretch `[from, end)` of the window that is read from raw frames. */
  datatype Stretch = Stretch(from: int, end: int)

  /** The window's right edge runs to the window's end; an inner stretch stops at its own and reads on for `maxGap + 1`. */
  function SliceFor(report: Report, stretch: Stretch, to: Option<int>): Slice {
    if stretch.end >= report.horizon then Slice(Some(stretch.from), to, 0)
    else Slice(Some(stretch.from), Some(stretch.end - 1), report.maxGap + 1)
  }

  function Flat(frames: seq<Frame>, report: Report, raw: seq<Stretch>, to: Option<int>): seq<Row> {
    if raw == [] then []
    else Query(frames, report, SliceFor(report, raw[0], to)) + Flat(frames, report, raw[1..], to)
  }

  /** The summarised hours' rows merged with those of every stretch. */
  function SlicedRows(hours: seq<Row>, frames: seq<Frame>, report: Report, raw: seq<Stretch>, to: Option<int>): seq<Row> {
    Grouped(hours + Flat(frames, report, raw, to))
  }

  // Planning (`backend/src/reports/telemetryRollup.ts`, `planAvailabilityWindow`).

  const HOUR := 3600000

  datatype Plan = Plan(hours: seq<int>, raw: seq<Stretch>)

  function PushRaw(raw: seq<Stretch>, stretch: Stretch): seq<Stretch> {
    if stretch.end <= stretch.from then raw
    else if raw != [] && raw[|raw| - 1].end == stretch.from then
      raw[..|raw| - 1] + [Stretch(raw[|raw| - 1].from, stretch.end)]
    else raw + [stretch]
  }

  /** The hour goes to the rollup when it is summarised, lies in the window and ends before the horizon. */
  function PlanHour(plan: Plan, cursor: int, hour: int, from: int, horizon: int, covered: set<int>): Plan {
    if hour >= from && hour + HOUR < horizon && hour in covered then plan.(hours := plan.hours + [hour])
    else plan.(raw := PushRaw(plan.raw, Stretch(cursor, Min(hour + HOUR, horizon))))
  }

  function PlanFrom(plan: Plan, cursor: int, hour: int, from: int, horizon: int, covered: set<int>): Plan
    requires cursor < hour + HOUR
    decreases horizon - cursor
  {
    if cursor >= horizon then plan
    else
      PlanFrom(PlanHour(plan, cursor, hour, from, horizon, covered), Min(hour + HOUR, horizon), hour + HOUR,
               from, horizon, covered)
  }
}
