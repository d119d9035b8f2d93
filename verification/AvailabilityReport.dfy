/** `mergeAvailabilityRows` and the sliced read as the loops the source runs. */
module AvailabilityReport {
  import opened Wrappers
  import opened AvailabilitySteps
  import opened AvailabilityProofs
  import opened AvailabilityPlanProofs

  function OfKey(rows: seq<Row>, key: Key): seq<Row> {
    if rows == [] then []
    else
      var front := OfKey(rows[..|rows| - 1], key);
      if rows[|rows| - 1].key == key then front + [rows[|rows| - 1]] else front
  }

  lemma {:induction false} OfKeyTotal(rows: seq<Row>, key: Key)
    ensures Total(OfKey(rows, key), key) == Total(rows, key)
  {
    if rows != [] {
      var front, last := rows[..|rows| - 1], rows[|rows| - 1];
      OfKeyTotal(front, key);
      if last.key == key { assert OfKey(rows, key)[..|OfKey(front, key)|] == OfKey(front, key); }
    }
  }

  lemma {:induction false} OfKeyHolds(rows: seq<Row>, key: Key)
    ensures forall i | 0 <= i < |OfKey(rows, key)| :: OfKey(rows, key)[i].key == key
    ensures OfKey(rows, key) == [] <==> key !in Keys(rows)
  {
    if rows != [] { OfKeyHolds(rows[..|rows| - 1], key); }
  }

  /** The rows of one bucket folded into one; a single row passes through untouched. */
  method FoldGroup(group: seq<Row>) returns (row: Row)
    requires group != [] && forall i | 0 <= i < |group| :: group[i].key == group[0].key
    ensures row == Row(group[0].key, Total(group, group[0].key))
  {
    if |group| == 1 {
      assert group[..0] == [];
      AddIsAssociative(group[0].agg, ZERO, ZERO);
      return group[0];
    }
    var onlineSamples: nat, totalSamples: nat, onlineMs, socSum, socCount: nat := 0, 0, 0, 0.0, 0;
    var socMin: Option<real> := None;
    for i := 0 to |group|
      invariant Agg(onlineSamples, totalSamples, onlineMs, socSum, socCount, socMin) == Total(group[..i], group[0].key)
    {
      assert group[..i + 1][..i] == group[..i];
      var agg := group[i].agg;
      onlineSamples, totalSamples := onlineSamples + agg.onlineSamples, totalSamples + agg.totalSamples;
      onlineMs, socSum, socCount := onlineMs + agg.onlineMs, socSum + agg.socSum, socCount + agg.socCount;
      if agg.socMin.Some? && (socMin.None? || agg.socMin.value < socMin.value) { socMin := agg.socMin; }
    }
    assert group[..|group|] == group;
    row := Row(group[0].key, Agg(onlineSamples, totalSamples, onlineMs, socSum, socCount, socMin));
  }

  method MergeAvailabilityRows(rows: seq<Row>) returns (merged: seq<Row>)
    ensures merged == Grouped(rows)
  {
    var groups: map<Key, seq<Row>> := map[];
    var order: seq<Key> := [];
    for i := 0 to |rows|
      invariant order == Keys(rows[..i])
      invariant forall key :: key in groups <==> key in order
      invariant forall key | key in groups :: groups[key] == OfKey(rows[..i], key)
    {
      assert rows[..i + 1][..i] == rows[..i];
      var row := rows[i];
      OfKeyHolds(rows[..i], row.key);
      if row.key in groups {
        groups := groups[row.key := groups[row.key] + [row]];
      } else {
        groups, order := groups[row.key := [row]], order + [row.key];
      }
    }
    assert rows[..|rows|] == rows;
    merged := [];
    for i := 0 to |order|
      invariant merged == Grouped(rows)[..i]
    {
      var key := order[i];
      OfKeyHolds(rows, key);
      OfKeyTotal(rows, key);
      var row := FoldGroup(groups[key]);
      merged := merged + [row];
    }
    assert Grouped(rows)[..|order|] == Grouped(rows);
  }

  /** The planner's loop over the hours of the window; `first` is the hour its start falls into. */
  method PlanAvailabilityWindow(first: int, from: int, horizon: int, covered: set<int>) returns (plan: Plan)
    requires first <= from < first + HOUR
    ensures plan == Planning(first, from, horizon, covered)
  {
    plan := Plan([], []);
    var cursor, hour := from, first;
    while cursor < horizon
      invariant cursor < hour + HOUR
      invariant PlanFrom(plan, cursor, hour, from, horizon, covered) == Planning(first, from, horizon, covered)
    {
      var end := hour + HOUR;
      if hour >= from && end < horizon && hour in covered {
        plan := plan.(hours := plan.hours + [hour]);
      } else {
        plan := plan.(raw := PushRaw(plan.raw, Stretch(cursor, Min(end, horizon))));
      }
      cursor, hour := Min(end, horizon), end;
    }
  }

  /** The summarised hours' rows, then those of every stretch, one after another, merged. */
  method AggregateSlices(hours: seq<Row>, frames: seq<Frame>, report: Report, raw: seq<Stretch>, to: Option<int>)
    returns (merged: seq<Row>)
    ensures merged == SlicedRows(hours, frames, report, raw, to)
  {
    var rows := hours;
    for i := 0 to |raw|
      invariant rows + Flat(frames, report, raw[i..], to) == hours + Flat(frames, report, raw, to)
    {
      assert raw[i..][1..] == raw[i + 1..];
      rows := rows + Query(frames, report, SliceFor(report, raw[i], to));
    }
    assert raw[|raw|..] == [] && rows + [] == rows;
    merged := MergeAvailabilityRows(rows);
  }
}
