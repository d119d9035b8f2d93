/** Sliced availability equals the single pass (`backend/src/reports/availabilityPipeline.ts`, `backend/src/persistence.ts`). */
module AvailabilityProofs {
  import opened Wrappers
  import opened AvailabilitySteps

  // Grouping.

  lemma AddIsAssociative(a: Agg, b: Agg, c: Agg)
    ensures Add(Add(a, b), c) == Add(a, Add(b, c)) && Add(ZERO, a) == a == Add(a, ZERO)
  {}

  lemma {:induction false} TotalAppend(a: seq<Row>, b: seq<Row>, key: Key)
    ensures Total(a + b, key) == Add(Total(a, key), Total(b, key))
  {
    if b == [] {
      assert a + b == a;
      AddIsAssociative(Total(a, key), ZERO, ZERO);
    } else {
      assert (a + b)[..|a + b| - 1] == a + b[..|b| - 1];
      TotalAppend(a, b[..|b| - 1], key);
      AddIsAssociative(Total(a, key), Total(b[..|b| - 1], key), b[|b| - 1].agg);
    }
  }

  predicate Holds(rows: seq<Row>, key: Key) {
    exists row <- rows :: row.key == key
  }

  lemma {:induction false} KeysAreThoseHeld(rows: seq<Row>)
    ensures forall i, j | 0 <= i < j < |Keys(rows)| :: Keys(rows)[i] != Keys(rows)[j]
    ensures forall key :: key in Keys(rows) <==> Holds(rows, key)
  {
    if rows != [] {
      var front, last := rows[..|rows| - 1], rows[|rows| - 1];
      KeysAreThoseHeld(front);
      assert rows == front + [last];
      forall key ensures key in Keys(rows) <==> Holds(rows, key) {
        if key == last.key { assert last in rows; }
        if Holds(front, key) {
          var row :| row in front && row.key == key;
          assert row in rows;
        }
      }
    }
  }

  lemma {:induction false} UnheldTotal(rows: seq<Row>, key: Key)
    requires !Holds(rows, key)
    ensures Total(rows, key) == ZERO
  {
    if rows != [] {
      assert rows[|rows| - 1] in rows;
      assert forall row <- rows[..|rows| - 1] :: row in rows;
      UnheldTotal(rows[..|rows| - 1], key);
    }
  }

  lemma {:induction false} DistinctTotal(rows: seq<Row>, i: nat)
    requires i < |rows| && forall j, k | 0 <= j < k < |rows| :: rows[j].key != rows[k].key
    ensures Total(rows, rows[i].key) == rows[i].agg
  {
    var front := rows[..|rows| - 1];
    if i == |rows| - 1 {
      UnheldTotal(front, rows[i].key);
      AddIsAssociative(rows[i].agg, ZERO, ZERO);
    } else {
      DistinctTotal(front, i);
    }
  }

  /** Grouping changes no key's total and no key's presence. */
  lemma GroupingKeepsTotals(rows: seq<Row>, key: Key)
    ensures Total(Grouped(rows), key) == Total(rows, key)
    ensures Holds(Grouped(rows), key) <==> Holds(rows, key)
  {
    var grouped := Grouped(rows);
    KeysAreThoseHeld(rows);
    if Holds(rows, key) {
      var i :| 0 <= i < |Keys(rows)| && Keys(rows)[i] == key;
      assert grouped[i] in grouped && grouped[i].key == key;
      DistinctTotal(grouped, i);
    } else {
      forall row | row in grouped ensures row.key != key {
        var i :| 0 <= i < |grouped| && grouped[i] == row;
        assert Keys(rows)[i] in Keys(rows);
      }
      UnheldTotal(grouped, key);
      UnheldTotal(rows, key);
    }
  }

  // A query, frame by frame.

  predicate Sorted(frames: seq<Frame>) {
    forall i, j | 0 <= i < j < |frames| :: frames[i].ts <= frames[j].ts
  }

  /** The vehicle's next frame, if the query reads that far. */
  function Seen(next: Option<int>, slice: Slice): Option<int> {
    if next.Some? && slice.to.Some? && next.value > slice.to.value + Lookahead(slice) then None else next
  }

  predicate Selects(report: Report, slice: Slice, frame: Frame) {
    Reads(report, slice, frame) && Counts(slice, frame)
  }

  /** What each selected frame adds, its successor looked up in the whole collection. */
  function Direct(frames: seq<Frame>, report: Report, slice: Slice): seq<Row> {
    if frames == [] then []
    else
      (if Selects(report, slice, frames[0])
       then [Part(report, frames[0], Seen(NextTs(frames[1..], frames[0].deviceId), slice))] else [])
      + Direct(frames[1..], report, slice)
  }

  lemma {:induction false} NextAmongRead(frames: seq<Frame>, report: Report, slice: Slice, deviceId: string, since: int)
    requires Sorted(frames) && forall i | 0 <= i < |frames| :: since <= frames[i].ts
    requires (slice.from.Some? ==> since >= slice.from.value) && (report.devices.Some? ==> deviceId in report.devices.value)
    ensures NextTs(Read(frames, report, slice), deviceId) == Seen(NextTs(frames, deviceId), slice)
  {
    if frames != [] {
      NextAmongRead(frames[1..], report, slice, deviceId, since);
      if frames[0].deviceId == deviceId {
        if Reads(report, slice, frames[0]) {
          assert Read(frames, report, slice)[0] == frames[0];
        } else {
          NoneLater(frames[1..], report, slice, frames[0].ts);
        }
      } else if Reads(report, slice, frames[0]) {
        assert Read(frames, report, slice)[1..] == Read(frames[1..], report, slice);
      }
    }
  }

  lemma {:induction false} NoneLater(frames: seq<Frame>, report: Report, slice: Slice, since: int)
    requires slice.to.Some? && since > slice.to.value + Lookahead(slice)
    requires forall i | 0 <= i < |frames| :: since <= frames[i].ts
    ensures Read(frames, report, slice) == []
  {
    if frames != [] { NoneLater(frames[1..], report, slice, since); }
  }

  lemma {:induction false} QueryIsDirect(frames: seq<Frame>, report: Report, slice: Slice)
    requires Sorted(frames)
    ensures Parts(Read(frames, report, slice), report, slice) == Direct(frames, report, slice)
  {
    if frames != [] {
      QueryIsDirect(frames[1..], report, slice);
      if Reads(report, slice, frames[0]) {
        assert Read(frames, report, slice)[1..] == Read(frames[1..], report, slice);
        NextAmongRead(frames[1..], report, slice, frames[0].deviceId, frames[0].ts);
      }
    }
  }

  // Slicing.

  lemma {:induction false} NextIsLater(frames: seq<Frame>, deviceId: string, since: int)
    requires forall i | 0 <= i < |frames| :: since <= frames[i].ts
    ensures var next := NextTs(frames, deviceId);
            next.Some? ==> since <= next.value && exists i :: 0 <= i < |frames| && frames[i].ts == next.value
  {
    if frames != [] && frames[0].deviceId != deviceId {
      NextIsLater(frames[1..], deviceId, since);
      var next := NextTs(frames[1..], deviceId);
      if next.Some? {
        var i :| 0 <= i < |frames[1..]| && frames[1..][i].ts == next.value;
        assert frames[i + 1].ts == next.value;
      }
    } else if frames != [] {
      assert frames[0].ts == NextTs(frames, deviceId).value;
    }
  }

  /** Disjoint stretches in order, in a window that does not end before the horizon. */
  predicate Planned(report: Report, raw: seq<Stretch>, from: int, to: Option<int>) {
    && (forall i | 0 <= i < |raw| :: from <= raw[i].from <= raw[i].end && raw[i].from < report.horizon)
    && (forall i, j | 0 <= i < j < |raw| :: raw[i].end <= raw[j].from)
    && (to.Some? ==> report.horizon <= to.value)
  }

  lemma PlannedRest(report: Report, raw: seq<Stretch>, from: int, to: Option<int>)
    requires Planned(report, raw, from, to) && raw != []
    ensures Planned(report, raw[1..], from, to)
    ensures raw[0].end >= report.horizon ==> raw[1..] == []
    ensures forall i | 0 <= i < |raw[1..]| :: raw[0].end <= raw[1..][i].from
  {
    assert forall i | 0 <= i < |raw[1..]| :: raw[1..][i] == raw[i + 1];
    if |raw| > 1 { assert raw[0].end <= raw[1].from; }
  }

  predicate InStretch(report: Report, stretch: Stretch, to: Option<int>, ts: int) {
    ts >= stretch.from && if stretch.end >= report.horizon then to.Some? ==> ts <= to.value else ts < stretch.end
  }

  /** The stretch a time falls into, if any. */
  function Home(report: Report, raw: seq<Stretch>, to: Option<int>, ts: int): Option<Stretch> {
    if raw == [] then None
    else if InStretch(report, raw[0], to, ts) then Some(raw[0])
    else Home(report, raw[1..], to, ts)
  }

  lemma {:induction false} HomeIsAStretch(report: Report, raw: seq<Stretch>, to: Option<int>, ts: int)
    ensures Home(report, raw, to, ts).Some? <==> exists i :: 0 <= i < |raw| && InStretch(report, raw[i], to, ts)
    ensures var home := Home(report, raw, to, ts);
            home.Some? ==> InStretch(report, home.value, to, ts) && home.value in raw
  {
    if raw != [] {
      HomeIsAStretch(report, raw[1..], to, ts);
      assert forall i | 0 <= i < |raw[1..]| :: raw[1..][i] == raw[i + 1];
      if i :| 0 <= i < |raw| && InStretch(report, raw[i], to, ts) && i > 0 {
        assert InStretch(report, raw[1..][i - 1], to, ts);
      }
    }
  }

  predicate OfReport(report: Report, frame: Frame) {
    report.devices.Some? ==> frame.deviceId in report.devices.value
  }

  lemma StretchSelects(report: Report, stretch: Stretch, to: Option<int>, frame: Frame)
    ensures Selects(report, SliceFor(report, stretch, to), frame)
       <==> OfReport(report, frame) && InStretch(report, stretch, to, frame.ts)
  {}

  /** What a frame adds in its own stretch. */
  function PieceOf(report: Report, raw: seq<Stretch>, to: Option<int>, frame: Frame, next: Option<int>): seq<Row> {
    var home := Home(report, raw, to, frame.ts);
    if OfReport(report, frame) && home.Some?
    then [Part(report, frame, Seen(next, SliceFor(report, home.value, to)))] else []
  }

  function Piecewise(frames: seq<Frame>, report: Report, raw: seq<Stretch>, to: Option<int>): seq<Row> {
    if frames == [] then []
    else
      PieceOf(report, raw, to, frames[0], NextTs(frames[1..], frames[0].deviceId)) + Piecewise(frames[1..], report, raw, to)
  }

  /** The stretch ends before all these times, or starts after them. */
  lemma {:induction false} StretchAway(frames: seq<Frame>, report: Report, stretch: Stretch, to: Option<int>)
    requires forall i | 0 <= i < |frames| :: !InStretch(report, stretch, to, frames[i].ts)
    ensures Direct(frames, report, SliceFor(report, stretch, to)) == []
  {
    if frames != [] {
      StretchSelects(report, stretch, to, frames[0]);
      StretchAway(frames[1..], report, stretch, to);
    }
  }

  lemma {:induction false} PiecewiseAway(frames: seq<Frame>, report: Report, raw: seq<Stretch>, to: Option<int>)
    requires raw != [] && forall i | 0 <= i < |frames| :: !InStretch(report, raw[0], to, frames[i].ts)
    ensures Piecewise(frames, report, raw, to) == Piecewise(frames, report, raw[1..], to)
  {
    if frames != [] { PiecewiseAway(frames[1..], report, raw, to); }
  }

  /** No frame lies in any of these stretches. */
  lemma {:induction false} NothingPlanned(frames: seq<Frame>, report: Report, to: Option<int>)
    ensures Piecewise(frames, report, [], to) == []
  {
    if frames != [] { NothingPlanned(frames[1..], report, to); }
  }

  /** A frame before all later stretches adds in the first one, as that one's query counts it, or nowhere. */
  lemma {:induction false} FirstStretchTakes(
    frames: seq<Frame>, report: Report, raw: seq<Stretch>, from: int, to: Option<int>, next: Option<int>)
    requires frames != [] && raw != [] && Planned(report, raw, from, to)
    requires InStretch(report, raw[0], to, frames[0].ts) || Home(report, raw[1..], to, frames[0].ts).None?
    requires next == NextTs(frames[1..], frames[0].deviceId)
    ensures var slice := SliceFor(report, raw[0], to);
            && PieceOf(report, raw[1..], to, frames[0], next) == []
            && Direct(frames, report, slice) == PieceOf(report, raw, to, frames[0], next) + Direct(frames[1..], report, slice)
  {
    LaterStretchesMiss(report, raw, from, to, frames[0].ts);
    StretchSelects(report, raw[0], to, frames[0]);
  }

  /** A time in the first stretch is in no later one. */
  lemma {:induction false} LaterStretchesMiss(report: Report, raw: seq<Stretch>, from: int, to: Option<int>, ts: int)
    requires raw != [] && Planned(report, raw, from, to)
    requires InStretch(report, raw[0], to, ts) || Home(report, raw[1..], to, ts).None?
    ensures Home(report, raw[1..], to, ts).None?
  {
    PlannedRest(report, raw, from, to);
    HomeIsAStretch(report, raw[1..], to, ts);
  }

  /** The stretches' frames are the first one's, then the later ones'. */
  predicate Splits(frames: seq<Frame>, report: Report, raw: seq<Stretch>, to: Option<int>)
    requires raw != []
  {
    Piecewise(frames, report, raw, to)
    == Direct(frames, report, SliceFor(report, raw[0], to)) + Piecewise(frames, report, raw[1..], to)
  }

  lemma {:induction false} PiecewiseSplits(frames: seq<Frame>, report: Report, raw: seq<Stretch>, from: int, to: Option<int>)
    requires raw != [] && Sorted(frames) && Planned(report, raw, from, to)
    ensures Splits(frames, report, raw, to)
  {
    if frames != [] {
      if InStretch(report, raw[0], to, frames[0].ts) || Home(report, raw[1..], to, frames[0].ts).None? {
        PiecewiseSplits(frames[1..], report, raw, from, to);
        FirstSplitsOff(frames, report, raw, from, to);
      } else {
        PastFirstStretch(frames, report, raw, from, to);
        StretchAway(frames, report, raw[0], to);
        PiecewiseAway(frames, report, raw, to);
      }
    }
  }

  lemma FirstSplitsOff(frames: seq<Frame>, report: Report, raw: seq<Stretch>, from: int, to: Option<int>)
    requires frames != [] && raw != [] && Planned(report, raw, from, to)
    requires InStretch(report, raw[0], to, frames[0].ts) || Home(report, raw[1..], to, frames[0].ts).None?
    requires Splits(frames[1..], report, raw, to)
    ensures Splits(frames, report, raw, to)
  {
    var next, slice := NextTs(frames[1..], frames[0].deviceId), SliceFor(report, raw[0], to);
    FirstStretchTakes(frames, report, raw, from, to, next);
    var piece := PieceOf(report, raw, to, frames[0], next);
    assert Piecewise(frames, report, raw, to) == piece + Piecewise(frames[1..], report, raw, to);
    assert Piecewise(frames, report, raw[1..], to) == [] + Piecewise(frames[1..], report, raw[1..], to);
  }

  lemma PastFirstStretch(frames: seq<Frame>, report: Report, raw: seq<Stretch>, from: int, to: Option<int>)
    requires frames != [] && raw != [] && Sorted(frames) && Planned(report, raw, from, to)
    requires Home(report, raw[1..], to, frames[0].ts).Some?
    ensures forall i | 0 <= i < |frames| :: !InStretch(report, raw[0], to, frames[i].ts)
  {
    PlannedRest(report, raw, from, to);
    HomeIsAStretch(report, raw[1..], to, frames[0].ts);
    var k :| 0 <= k < |raw[1..]| && InStretch(report, raw[1..][k], to, frames[0].ts);
    assert raw[0].end <= frames[0].ts;
  }

  /** The key has the same total in both lists, and is present in both or in neither. */
  predicate Alike(rows: seq<Row>, whole: seq<Row>, key: Key) {
    Total(rows, key) == Total(whole, key) && (Holds(rows, key) <==> Holds(whole, key))
  }

  lemma AlikeAppend(a: seq<Row>, b: seq<Row>, c: seq<Row>, d: seq<Row>, key: Key)
    requires Alike(a, c, key) && Alike(b, d, key)
    ensures Alike(a + b, c + d, key)
  {
    TotalAppend(a, b, key);
    TotalAppend(c, d, key);
  }

  lemma QueryIsAlike(frames: seq<Frame>, report: Report, slice: Slice, key: Key)
    requires Sorted(frames)
    ensures Alike(Query(frames, report, slice), Direct(frames, report, slice), key)
  {
    QueryIsDirect(frames, report, slice);
    GroupingKeepsTotals(Direct(frames, report, slice), key);
  }

  /** The stretches' rows add up to what each frame adds in its own stretch. */
  lemma {:induction false} SlicesAreAlike(
    frames: seq<Frame>, report: Report, raw: seq<Stretch>, from: int, to: Option<int>, key: Key)
    requires Sorted(frames) && Planned(report, raw, from, to)
    ensures Alike(Flat(frames, report, raw, to), Piecewise(frames, report, raw, to), key)
    decreases |raw|
  {
    if raw == [] {
      NothingPlanned(frames, report, to);
    } else {
      var first := SliceFor(report, raw[0], to);
      PlannedRest(report, raw, from, to);
      SlicesAreAlike(frames, report, raw[1..], from, to, key);
      QueryIsAlike(frames, report, first, key);
      AlikeAppend(Query(frames, report, first), Flat(frames, report, raw[1..], to),
        Direct(frames, report, first), Piecewise(frames, report, raw[1..], to), key);
      PiecewiseSplits(frames, report, raw, from, to);
    }
  }

  // Sliced against single pass.

  function Whole(from: int, to: Option<int>): Slice {
    Slice(Some(from), to, 0)
  }

  /** What a frame adds in one pass over the window, if it lies in a stretch, or if it does not. */
  function PartOf(
    report: Report, raw: seq<Stretch>, from: int, to: Option<int>, inside: bool, frame: Frame, next: Option<int>): seq<Row>
  {
    if Selects(report, Whole(from, to), frame) && Home(report, raw, to, frame.ts).Some? == inside
    then [Part(report, frame, Seen(next, Whole(from, to)))] else []
  }

  /** The single pass, restricted to the frames stamped inside the stretches, or to the others. */
  function Restricted(frames: seq<Frame>, report: Report, raw: seq<Stretch>, from: int, to: Option<int>, inside: bool)
    : seq<Row>
  {
    if frames == [] then []
    else
      PartOf(report, raw, from, to, inside, frames[0], NextTs(frames[1..], frames[0].deviceId))
      + Restricted(frames[1..], report, raw, from, to, inside)
  }

  lemma AddCommutes(a: Agg, b: Agg)
    ensures Add(a, b) == Add(b, a)
  {}

  lemma AddExchanges(a: Agg, b: Agg, c: Agg, d: Agg)
    ensures Add(Add(a, b), Add(c, d)) == Add(Add(a, c), Add(b, d))
  {
    calc {
      Add(Add(a, b), Add(c, d));
      { AddIsAssociative(a, b, Add(c, d)); AddIsAssociative(b, c, d); }
      Add(a, Add(Add(b, c), d));
      { AddCommutes(b, c); AddIsAssociative(c, b, d); }
      Add(a, Add(c, Add(b, d)));
      { AddIsAssociative(a, c, Add(b, d)); }
      Add(Add(a, c), Add(b, d));
    }
  }

  /** Two lists that make up a third, as far as the key goes. */
  predicate MakeUp(outside: seq<Row>, inside: seq<Row>, all: seq<Row>, key: Key) {
    && Total(all, key) == Add(Total(outside, key), Total(inside, key))
    && (Holds(all, key) <==> Holds(outside, key) || Holds(inside, key))
  }

  lemma HoldsAppend(a: seq<Row>, b: seq<Row>, key: Key)
    ensures Holds(a + b, key) <==> Holds(a, key) || Holds(b, key)
  {
    assert forall row <- a :: row in a + b;
    assert forall row <- b :: row in a + b;
  }

  lemma MakeUpAppend(a: seq<Row>, b: seq<Row>, ab: seq<Row>, c: seq<Row>, d: seq<Row>, cd: seq<Row>, key: Key)
    requires MakeUp(a, b, ab, key) && MakeUp(c, d, cd, key)
    ensures MakeUp(a + c, b + d, ab + cd, key)
  {
    TotalAppend(a, c, key);
    TotalAppend(b, d, key);
    TotalAppend(ab, cd, key);
    HoldsAppend(a, c, key);
    HoldsAppend(b, d, key);
    HoldsAppend(ab, cd, key);
    AddExchanges(Total(a, key), Total(b, key), Total(c, key), Total(d, key));
  }

  lemma AddZero(a: Agg)
    ensures Add(ZERO, a) == a == Add(a, ZERO)
  {}

  lemma OneOfTwo(rows: seq<Row>, key: Key)
    ensures MakeUp([], rows, rows, key) && MakeUp(rows, [], rows, key)
  {
    AddZero(Total(rows, key));
  }

  /** What a frame adds in one pass over the window. */
  function SingleOf(report: Report, from: int, to: Option<int>, frame: Frame, next: Option<int>): seq<Row> {
    if Selects(report, Whole(from, to), frame) then [Part(report, frame, Seen(next, Whole(from, to)))] else []
  }

  lemma PartsMakeUp(
    report: Report, raw: seq<Stretch>, from: int, to: Option<int>, frame: Frame, next: Option<int>, key: Key)
    ensures MakeUp(PartOf(report, raw, from, to, false, frame, next), PartOf(report, raw, from, to, true, frame, next),
                   SingleOf(report, from, to, frame, next), key)
  {
    OneOfTwo(SingleOf(report, from, to, frame, next), key);
  }

  /** The single pass is the frames outside the stretches and those inside. */
  lemma {:induction false} SinglePassMadeUp(
    frames: seq<Frame>, report: Report, raw: seq<Stretch>, from: int, to: Option<int>, key: Key)
    ensures MadeUp(frames, report, raw, from, to, key)
  {
    if frames == [] {
      NothingMadeUp(Restricted(frames, report, raw, from, to, false), Restricted(frames, report, raw, from, to, true),
                    Direct(frames, report, Whole(from, to)), key);
    } else {
      SinglePassMadeUp(frames[1..], report, raw, from, to, key);
      NextMadeUp(frames, report, raw, from, to, key);
    }
  }

  predicate MadeUp(frames: seq<Frame>, report: Report, raw: seq<Stretch>, from: int, to: Option<int>, key: Key) {
    MakeUp(Restricted(frames, report, raw, from, to, false), Restricted(frames, report, raw, from, to, true),
           Direct(frames, report, Whole(from, to)), key)
  }

  lemma NothingMadeUp(outside: seq<Row>, inside: seq<Row>, all: seq<Row>, key: Key)
    requires outside == [] && inside == [] && all == []
    ensures MakeUp(outside, inside, all, key)
  {
    EmptyTotal(outside, key);
    EmptyTotal(inside, key);
    EmptyTotal(all, key);
    AddZero(ZERO);
  }

  lemma EmptyTotal(rows: seq<Row>, key: Key)
    requires rows == []
    ensures Total(rows, key) == ZERO && !Holds(rows, key)
  {}

  lemma DirectNext(frames: seq<Frame>, report: Report, from: int, to: Option<int>)
    requires frames != []
    ensures Direct(frames, report, Whole(from, to))
         == SingleOf(report, from, to, frames[0], NextTs(frames[1..], frames[0].deviceId))
            + Direct(frames[1..], report, Whole(from, to))
  {}

  lemma NextMadeUp(frames: seq<Frame>, report: Report, raw: seq<Stretch>, from: int, to: Option<int>, key: Key)
    requires frames != [] && MadeUp(frames[1..], report, raw, from, to, key)
    ensures MadeUp(frames, report, raw, from, to, key)
  {
    var first, rest := frames[0], frames[1..];
    var next := NextTs(rest, first.deviceId);
    PartsMakeUp(report, raw, from, to, first, next, key);
    MakeUpAppend(PartOf(report, raw, from, to, false, first, next), PartOf(report, raw, from, to, true, first, next),
                 SingleOf(report, from, to, first, next),
                 Restricted(rest, report, raw, from, to, false), Restricted(rest, report, raw, from, to, true),
                 Direct(rest, report, Whole(from, to)), key);
    DirectNext(frames, report, from, to);
  }

  // The difference slicing makes.

  /** How much more time a frame is given in its own stretch than in one pass. */
  function Surplus(report: Report, raw: seq<Stretch>, from: int, to: Option<int>, frame: Frame, next: Option<int>): int {
    var home := Home(report, raw, to, frame.ts);
    if home.None? || !OfReport(report, frame) || !frame.online then 0
    else Covered(report, frame.ts, Seen(next, SliceFor(report, home.value, to)))
         - Covered(report, frame.ts, Seen(next, Whole(from, to)))
  }

  function KeyOf(report: Report, frame: Frame): Key {
    Key(frame.deviceId, report.bucketOf(frame.ts))
  }

  function SurplusFor(
    report: Report, raw: seq<Stretch>, from: int, to: Option<int>, frame: Frame, next: Option<int>, key: Key): int
  {
    if KeyOf(report, frame) == key then Surplus(report, raw, from, to, frame, next) else 0
  }

  /** The surplus of a key's frames. */
  function Shift(frames: seq<Frame>, report: Report, raw: seq<Stretch>, from: int, to: Option<int>, key: Key): int {
    if frames == [] then 0
    else
      SurplusFor(report, raw, from, to, frames[0], NextTs(frames[1..], frames[0].deviceId), key)
      + Shift(frames[1..], report, raw, from, to, key)
  }

  /** An aggregate with its online time shifted. */
  function Shifted(agg: Agg, surplus: int): Agg {
    agg.(onlineMs := agg.onlineMs + surplus)
  }

  /** A key is present in both lists or in neither, and its totals differ only by this much online time. */
  predicate ShiftedBy(pieces: seq<Row>, parts: seq<Row>, key: Key, shift: int) {
    && (Holds(pieces, key) <==> Holds(parts, key))
    && Total(pieces, key) == Shifted(Total(parts, key), shift)
  }

  lemma ShiftsAdd(a: Agg, b: Agg, shift: int)
    ensures Add(a, Shifted(b, shift)) == Shifted(Add(a, b), shift)
    ensures forall surplus :: Add(Shifted(a, surplus), Shifted(b, shift)) == Shifted(Add(a, b), surplus + shift)
  {}

  lemma ShiftsAppend(a: seq<Row>, b: seq<Row>, c: seq<Row>, d: seq<Row>, key: Key, surplus: int, shift: int)
    requires ShiftedBy(a, b, key, surplus) && ShiftedBy(c, d, key, shift)
    ensures ShiftedBy(a + c, b + d, key, surplus + shift)
  {
    TotalAppend(a, c, key);
    TotalAppend(b, d, key);
    HoldsAppend(a, c, key);
    HoldsAppend(b, d, key);
    ShiftsAdd(Total(b, key), Total(d, key), shift);
  }

  lemma OnlyRow(row: Row, key: Key)
    ensures Total([row], key) == if row.key == key then row.agg else ZERO
    ensures Holds([row], key) <==> row.key == key
  {
    assert [row][..0] == [];
    AddIsAssociative(row.agg, ZERO, ZERO);
    assert row in [row];
  }

  lemma RowIsShifted(row: Row, other: Row, key: Key, surplus: int)
    requires row.key == other.key && row.agg == Shifted(other.agg, surplus)
    ensures ShiftedBy([row], [other], key, if row.key == key then surplus else 0)
  {
    OnlyRow(row, key);
    OnlyRow(other, key);
  }

  lemma NothingIsShifted(key: Key)
    ensures ShiftedBy([], [], key, 0)
  {}

  lemma PieceIsShifted(
    report: Report, raw: seq<Stretch>, from: int, to: Option<int>, frame: Frame, next: Option<int>, key: Key)
    requires Planned(report, raw, from, to)
    ensures ShiftedBy(PieceOf(report, raw, to, frame, next), PartOf(report, raw, from, to, true, frame, next), key,
                      SurplusFor(report, raw, from, to, frame, next, key))
  {
    var home := Home(report, raw, to, frame.ts);
    if home.Some? && OfReport(report, frame) {
      HomeIsAStretch(report, raw, to, frame.ts);
      assert Selects(report, Whole(from, to), frame);
      RowIsShifted(Part(report, frame, Seen(next, SliceFor(report, home.value, to))),
                   Part(report, frame, Seen(next, Whole(from, to))), key, Surplus(report, raw, from, to, frame, next));
    } else {
      NothingIsShifted(key);
    }
  }

  /** Inside the stretches slicing changes nothing but the online time, and that by the surplus. */
  lemma {:induction false} SlicingShifts(
    frames: seq<Frame>, report: Report, raw: seq<Stretch>, from: int, to: Option<int>, key: Key)
    requires Planned(report, raw, from, to)
    ensures ShiftedBy(Piecewise(frames, report, raw, to), Restricted(frames, report, raw, from, to, true), key,
                      Shift(frames, report, raw, from, to, key))
  {
    if frames != [] {
      var first, rest := frames[0], frames[1..];
      var next := NextTs(rest, first.deviceId);
      SlicingShifts(rest, report, raw, from, to, key);
      PieceIsShifted(report, raw, from, to, first, next, key);
      ShiftsAppend(PieceOf(report, raw, to, first, next), PartOf(report, raw, from, to, true, first, next),
                   Piecewise(rest, report, raw, to), Restricted(rest, report, raw, from, to, true), key,
                   SurplusFor(report, raw, from, to, first, next, key), Shift(rest, report, raw, from, to, key));
    }
  }

  /** The report's rows for a key are the same, or both without one. */
  predicate SameRows(sliced: seq<Row>, single: seq<Row>, key: Key) {
    && (Holds(sliced, key) <==> Holds(single, key))
    && forall i, j | 0 <= i < |sliced| && 0 <= j < |single| && sliced[i].key == single[j].key == key ::
         sliced[i] == single[j]
  }

  predicate RowsAgree(
    hours: seq<Row>, frames: seq<Frame>, report: Report, raw: seq<Stretch>, from: int, to: Option<int>, key: Key)
  {
    SameRows(SlicedRows(hours, frames, report, raw, to), Query(frames, report, Whole(from, to)), key)
  }

  lemma GroupedRow(rows: seq<Row>, key: Key)
    ensures forall i | 0 <= i < |Grouped(rows)| && Grouped(rows)[i].key == key :: Grouped(rows)[i].agg == Total(rows, key)
    ensures Holds(Grouped(rows), key) <==> Holds(rows, key)
  {
    GroupingKeepsTotals(rows, key);
  }

  /** Grouped lists show the same row exactly when nothing is shifted. */
  lemma SameWhenUnshifted(rows: seq<Row>, whole: seq<Row>, key: Key, shift: int)
    requires ShiftedBy(rows, whole, key, shift)
    ensures SameRows(Grouped(rows), Grouped(whole), key) <==> shift == 0
  {
    GroupedRow(rows, key);
    GroupedRow(whole, key);
    if Holds(rows, key) {
      var row, other :| row in Grouped(rows) && row.key == key && other in Grouped(whole) && other.key == key;
      var i, j :| 0 <= i < |Grouped(rows)| && Grouped(rows)[i] == row && 0 <= j < |Grouped(whole)| && Grouped(whole)[j] == other;
    } else {
      UnheldTotal(rows, key);
      UnheldTotal(whole, key);
    }
  }

  /** What hours that stand for the frames outside and stretches that are shifted make of the whole. */
  lemma MadeUpShift(
    hours: seq<Row>, flat: seq<Row>, outside: seq<Row>, pieces: seq<Row>, inside: seq<Row>, all: seq<Row>, key: Key, shift: int)
    requires Alike(hours, outside, key) && Alike(flat, pieces, key) && ShiftedBy(pieces, inside, key, shift)
    requires MakeUp(outside, inside, all, key)
    ensures ShiftedBy(hours + flat, all, key, shift)
  {
    TotalAppend(hours, flat, key);
    HoldsAppend(hours, flat, key);
    ShiftsAdd(Total(outside, key), Total(inside, key), shift);
  }

  lemma AgreeWhenUnshifted(
    hours: seq<Row>, frames: seq<Frame>, report: Report, raw: seq<Stretch>, from: int, to: Option<int>, key: Key)
    requires Sorted(frames) && Planned(report, raw, from, to)
    requires Alike(hours, Restricted(frames, report, raw, from, to, false), key)
    ensures RowsAgree(hours, frames, report, raw, from, to, key) <==> Shift(frames, report, raw, from, to, key) == 0
  {
    var all := Direct(frames, report, Whole(from, to));
    SlicesAreAlike(frames, report, raw, from, to, key);
    SlicingShifts(frames, report, raw, from, to, key);
    SinglePassMadeUp(frames, report, raw, from, to, key);
    MadeUpShift(hours, Flat(frames, report, raw, to), Restricted(frames, report, raw, from, to, false),
                Piecewise(frames, report, raw, to), Restricted(frames, report, raw, from, to, true), all, key,
                Shift(frames, report, raw, from, to, key));
    QueryIsDirect(frames, report, Whole(from, to));
    SameWhenUnshifted(hours + Flat(frames, report, raw, to), all, key, Shift(frames, report, raw, from, to, key));
  }

  // The condition.

  /**
   * A frame that makes the sliced report differ: online, in an inner stretch, the horizon less than a gap
   * away, and its successor past the horizon, where one of the two reads it and the other does not.
   */
  predicate Disturbs(report: Report, raw: seq<Stretch>, to: Option<int>, frame: Frame, next: Option<int>) {
    var home := Home(report, raw, to, frame.ts);
    && frame.online && OfReport(report, frame)
    && home.Some? && home.value.end < report.horizon && next.Some?
    && frame.ts <= report.horizon < next.value && report.horizon - frame.ts < report.maxGap
    && (next.value <= home.value.end + report.maxGap) != (to.None? || next.value <= to.value)
  }

  lemma SurplusIffDisturbs(
    report: Report, raw: seq<Stretch>, from: int, to: Option<int>, frame: Frame, next: Option<int>)
    requires Planned(report, raw, from, to) && (next.Some? ==> frame.ts <= next.value)
    ensures Surplus(report, raw, from, to, frame, next) != 0 <==> Disturbs(report, raw, to, frame, next)
  {
    HomeIsAStretch(report, raw, to, frame.ts);
  }

  lemma {:induction false} NextIsFirst(frames: seq<Frame>, deviceId: string, i: nat)
    requires Sorted(frames) && i < |frames| && frames[i].deviceId == deviceId
    ensures NextTs(frames, deviceId).Some? && NextTs(frames, deviceId).value <= frames[i].ts
  {
    if i > 0 && frames[0].deviceId != deviceId { NextIsFirst(frames[1..], deviceId, i - 1); }
  }

  predicate DisturbedAt(frames: seq<Frame>, report: Report, raw: seq<Stretch>, to: Option<int>, key: Key, i: nat) {
    i < |frames| && KeyOf(report, frames[i]) == key
    && Disturbs(report, raw, to, frames[i], NextTs(frames[i + 1..], frames[i].deviceId))
  }

  lemma DisturbedLater(frames: seq<Frame>, report: Report, raw: seq<Stretch>, to: Option<int>, key: Key, i: nat)
    requires frames != []
    ensures DisturbedAt(frames[1..], report, raw, to, key, i) <==> DisturbedAt(frames, report, raw, to, key, i + 1)
  {
    if i < |frames[1..]| { assert frames[1..][i + 1..] == frames[i + 2..]; }
  }

  lemma SomeDisturbed(frames: seq<Frame>, report: Report, raw: seq<Stretch>, to: Option<int>, key: Key)
    requires frames != []
    ensures (exists i: nat :: DisturbedAt(frames, report, raw, to, key, i))
       <==> DisturbedAt(frames, report, raw, to, key, 0)
            || exists i: nat :: DisturbedAt(frames[1..], report, raw, to, key, i)
  {
    if i: nat :| DisturbedAt(frames, report, raw, to, key, i) && i > 0 {
      DisturbedLater(frames, report, raw, to, key, i - 1);
    }
    if i: nat :| DisturbedAt(frames[1..], report, raw, to, key, i) {
      DisturbedLater(frames, report, raw, to, key, i);
    }
  }

  lemma DisturbedOnce(frames: seq<Frame>, report: Report, raw: seq<Stretch>, to: Option<int>, key: Key, i: nat)
    requires Sorted(frames) && frames != [] && DisturbedAt(frames, report, raw, to, key, 0)
    ensures !DisturbedAt(frames[1..], report, raw, to, key, i)
  {
    if DisturbedAt(frames[1..], report, raw, to, key, i) {
      NextIsFirst(frames[1..], frames[0].deviceId, i);
    }
  }

  /** A vehicle's disturbing frame is its last at or before the horizon, so no other one makes up for it. */
  lemma {:induction false} ShiftIffDisturbed(
    frames: seq<Frame>, report: Report, raw: seq<Stretch>, from: int, to: Option<int>, key: Key)
    requires Sorted(frames) && Planned(report, raw, from, to)
    ensures Shift(frames, report, raw, from, to, key) != 0 <==> exists i: nat :: DisturbedAt(frames, report, raw, to, key, i)
  {
    if frames != [] {
      ShiftIffDisturbed(frames[1..], report, raw, from, to, key);
      NextIsLater(frames[1..], frames[0].deviceId, frames[0].ts);
      SurplusIffDisturbs(report, raw, from, to, frames[0], NextTs(frames[1..], frames[0].deviceId));
      SomeDisturbed(frames, report, raw, to, key);
      if DisturbedAt(frames, report, raw, to, key, 0) {
        forall i: nat ensures !DisturbedAt(frames[1..], report, raw, to, key, i) {
          DisturbedOnce(frames, report, raw, to, key, i);
        }
      }
    }
  }

  /**
   * For any increasing, disjoint stretches and any frames, also ones stamped past the horizon: where the
   * summarised hours stand for the frames outside the stretches, a vehicle and bucket gets the row of one
   * query over the window, if and only if no frame of theirs disturbs.
   */
  lemma SlicedAgreesIff(
    hours: seq<Row>, frames: seq<Frame>, report: Report, raw: seq<Stretch>, from: int, to: Option<int>, key: Key)
    requires Sorted(frames) && Planned(report, raw, from, to)
    requires Alike(hours, Restricted(frames, report, raw, from, to, false), key)
    ensures RowsAgree(hours, frames, report, raw, from, to, key)
       <==> !exists i: nat :: DisturbedAt(frames, report, raw, to, key, i)
  {
    AgreeWhenUnshifted(hours, frames, report, raw, from, to, key);
    ShiftIffDisturbed(frames, report, raw, from, to, key);
  }

  /** Consecutive stretches from the window's start to the horizon. */
  predicate Consecutive(report: Report, raw: seq<Stretch>, from: int) {
    && raw != [] && raw[0].from == from && raw[|raw| - 1].end >= report.horizon
    && forall i | 0 <= i < |raw| - 1 :: raw[i].end == raw[i + 1].from
  }

  lemma {:induction false} AlwaysHome(report: Report, raw: seq<Stretch>, from: int, to: Option<int>, ts: int)
    requires Consecutive(report, raw, from) && ts >= from && (to.Some? ==> ts <= to.value)
    ensures Home(report, raw, to, ts).Some?
    decreases |raw|
  {
    if !InStretch(report, raw[0], to, ts) {
      assert |raw| > 1 && raw[0].end == raw[1].from;
      assert forall i | 0 <= i < |raw[1..]| :: raw[1..][i] == raw[i + 1];
      AlwaysHome(report, raw[1..], raw[1].from, to, ts);
    }
  }

  lemma {:induction false} NothingOutside(frames: seq<Frame>, report: Report, raw: seq<Stretch>, from: int, to: Option<int>)
    requires Consecutive(report, raw, from)
    ensures Restricted(frames, report, raw, from, to, false) == []
  {
    if frames != [] {
      NothingOutside(frames[1..], report, raw, from, to);
      if Selects(report, Whole(from, to), frames[0]) { AlwaysHome(report, raw, from, to, frames[0].ts); }
    }
  }

  /** Every frame is within the horizon, or too late for the window and for every inner stretch's lookahead. */
  predicate Undisturbed(frames: seq<Frame>, report: Report, raw: seq<Stretch>, to: Option<int>) {
    forall i | 0 <= i < |frames| ::
      frames[i].ts <= report.horizon
      || (to.Some? && frames[i].ts > to.value
          && forall stretch | stretch in raw && stretch.end < report.horizon :: frames[i].ts > stretch.end + report.maxGap)
  }

  lemma UndisturbedFrame(frames: seq<Frame>, report: Report, raw: seq<Stretch>, to: Option<int>, key: Key, i: nat)
    requires Sorted(frames) && Undisturbed(frames, report, raw, to)
    ensures !DisturbedAt(frames, report, raw, to, key, i)
  {
    if i < |frames| {
      var rest, next := frames[i + 1..], NextTs(frames[i + 1..], frames[i].deviceId);
      HomeIsAStretch(report, raw, to, frames[i].ts);
      NextIsLater(rest, frames[i].deviceId, frames[i].ts);
      if next.Some? {
        var j :| 0 <= j < |rest| && rest[j].ts == next.value;
        assert frames[i + 1 + j].ts == next.value;
      }
    }
  }

  /**
   * For any cut of the window into consecutive stretches, merging their rows gives every vehicle and bucket
   * the row of one query over the whole window, and no other, while no frame lies past the horizon within
   * reach.
   */
  lemma SlicedEqualsSinglePass(
    frames: seq<Frame>, report: Report, raw: seq<Stretch>, from: int, to: Option<int>, key: Key)
    requires Sorted(frames) && Planned(report, raw, from, to) && Consecutive(report, raw, from)
    requires Undisturbed(frames, report, raw, to)
    ensures RowsAgree([], frames, report, raw, from, to, key)
  {
    NothingOutside(frames, report, raw, from, to);
    SlicedAgreesIff([], frames, report, raw, from, to, key);
    forall i: nat ensures !DisturbedAt(frames, report, raw, to, key, i) {
      UndisturbedFrame(frames, report, raw, to, key, i);
    }
  }

  // What the covered time means.

  /** The online time of one vehicle over all its buckets. */
  function OnlineOf(rows: seq<Row>, deviceId: string): int {
    if rows == [] then 0
    else
      OnlineOf(rows[..|rows| - 1], deviceId)
      + if rows[|rows| - 1].key.deviceId == deviceId then rows[|rows| - 1].agg.onlineMs else 0
  }

  lemma {:induction false} OnlineAppend(a: seq<Row>, b: seq<Row>, deviceId: string)
    ensures OnlineOf(a + b, deviceId) == OnlineOf(a, deviceId) + OnlineOf(b, deviceId)
  {
    if b == [] {
      assert a + b == a;
    } else {
      assert (a + b)[..|a + b| - 1] == a + b[..|b| - 1];
      OnlineAppend(a, b[..|b| - 1], deviceId);
    }
  }

  lemma OnlineUpdate(rows: seq<Row>, i: nat, row: Row, deviceId: string)
    requires i < |rows| && row.key == rows[i].key
    ensures OnlineOf(rows[i := row], deviceId)
            == OnlineOf(rows, deviceId) + if row.key.deviceId == deviceId then row.agg.onlineMs - rows[i].agg.onlineMs else 0
  {
    assert rows == rows[..i] + [rows[i]] + rows[i + 1..];
    assert rows[i := row] == rows[..i] + [row] + rows[i + 1..];
    OnlineAppend(rows[..i] + [rows[i]], rows[i + 1..], deviceId);
    OnlineAppend(rows[..i] + [row], rows[i + 1..], deviceId);
    assert (rows[..i] + [rows[i]])[..i] == rows[..i] == (rows[..i] + [row])[..i];
  }

  lemma {:induction false} GroupingKeepsOnline(rows: seq<Row>, deviceId: string)
    ensures OnlineOf(Grouped(rows), deviceId) == OnlineOf(rows, deviceId)
  {
    if rows != [] {
      var front, last := rows[..|rows| - 1], rows[|rows| - 1];
      GroupingKeepsOnline(front, deviceId);
      KeysAreThoseHeld(front);
      if last.key in Keys(front) {
        var i :| 0 <= i < |Keys(front)| && Keys(front)[i] == last.key;
        var row := Row(last.key, Add(Grouped(front)[i].agg, last.agg));
        assert Grouped(rows) == Grouped(front)[i := row];
        OnlineUpdate(Grouped(front), i, row, deviceId);
      } else {
        UnheldTotal(front, last.key);
        AddIsAssociative(last.agg, ZERO, ZERO);
        assert Grouped(rows) == Grouped(front) + [last];
        OnlineAppend(Grouped(front), [last], deviceId);
        assert [last][..0] == [];
      }
    }
  }

  predicate NoneAfter(frames: seq<Frame>, horizon: int) {
    forall i | 0 <= i < |frames| :: frames[i].ts <= horizon
  }

  lemma FirstPart(frames: seq<Frame>, report: Report, slice: Slice, deviceId: string)
    requires frames != []
    ensures OnlineOf(Direct(frames, report, slice), deviceId)
            == OnlineOf(Direct(frames[1..], report, slice), deviceId)
               + if Selects(report, slice, frames[0]) && frames[0].deviceId == deviceId && frames[0].online
                 then Covered(report, frames[0].ts, Seen(NextTs(frames[1..], deviceId), slice)) else 0
  {
    var first := if Selects(report, slice, frames[0])
                 then [Part(report, frames[0], Seen(NextTs(frames[1..], frames[0].deviceId), slice))] else [];
    OnlineAppend(first, Direct(frames[1..], report, slice), deviceId);
    if first != [] { assert first[..0] == []; }
  }

  lemma {:induction false} PartsFitTheWindow(frames: seq<Frame>, report: Report, from: int, to: Option<int>, deviceId: string)
    requires Sorted(frames) && NoneAfter(frames, report.horizon) && from <= report.horizon
    requires to.Some? ==> report.horizon <= to.value
    ensures var next := NextTs(frames, deviceId);
            0 <= OnlineOf(Direct(frames, report, Slice(Some(from), to, 0)), deviceId)
              <= if next.Some? then report.horizon - Max(from, next.value) else 0
  {
    if frames != [] {
      var rest := frames[1..];
      PartsFitTheWindow(rest, report, from, to, deviceId);
      FirstPart(frames, report, Slice(Some(from), to, 0), deviceId);
      NextIsLater(rest, deviceId, frames[0].ts);
    }
  }

  /** The time frames vouch for never overlaps: a vehicle's online time over all buckets fits in the window. */
  lemma OnlineTimeFitsTheWindow(frames: seq<Frame>, report: Report, from: int, to: Option<int>, deviceId: string)
    requires Sorted(frames) && NoneAfter(frames, report.horizon) && from <= report.horizon
    requires to.Some? ==> report.horizon <= to.value
    ensures 0 <= OnlineOf(Query(frames, report, Slice(Some(from), to, 0)), deviceId) <= report.horizon - from
  {
    var slice := Slice(Some(from), to, 0);
    QueryIsDirect(frames, report, slice);
    GroupingKeepsOnline(Direct(frames, report, slice), deviceId);
    PartsFitTheWindow(frames, report, from, to, deviceId);
  }

  /** The vehicle's frames follow each other, and reach the horizon, within one gap. */
  predicate Continuous(frames: seq<Frame>, report: Report, deviceId: string) {
    frames != [] ==>
      && Continuous(frames[1..], report, deviceId)
      && (frames[0].deviceId == deviceId ==>
            var next := NextTs(frames[1..], deviceId);
            (if next.Some? then next.value else report.horizon) - frames[0].ts <= report.maxGap)
  }

  /** A vehicle always online and never silent for longer than a gap is online from its first frame to the horizon. */
  lemma {:induction false} ContinuousFramesCoverEverything(
    frames: seq<Frame>, report: Report, from: int, deviceId: string)
    requires Sorted(frames) && NoneAfter(frames, report.horizon) && Continuous(frames, report, deviceId)
    requires report.devices.Some? ==> deviceId in report.devices.value
    requires forall i | 0 <= i < |frames| :: frames[i].ts >= from && (frames[i].deviceId == deviceId ==> frames[i].online)
    ensures var next := NextTs(frames, deviceId);
            OnlineOf(Direct(frames, report, Slice(Some(from), None, 0)), deviceId)
            == if next.Some? then report.horizon - next.value else 0
  {
    if frames != [] {
      ContinuousFramesCoverEverything(frames[1..], report, from, deviceId);
      FirstPart(frames, report, Slice(Some(from), None, 0), deviceId);
      NextIsLater(frames[1..], deviceId, frames[0].ts);
    }
  }

  // An instance.

  function Flatten(ts: int): int {
    0
  }

  const LATE := Report(None, 100, 50, Flatten)

  lemma SinglePassOfTwo(a: Frame, b: Frame)
    requires a == Frame(b.deviceId, 0, true, None) && b == Frame(a.deviceId, 200, true, None)
    ensures var single := Query([a, b], LATE, Slice(Some(0), Some(300), 0)); |single| == 1 && single[0].agg.onlineMs == 100
  {
    var whole := Slice(Some(0), Some(300), 0);
    assert [a, b][1..] == [b] && [b][1..] == [];
    assert Read([b], LATE, whole) == [b];
    assert Read([a, b], LATE, whole) == [a] + [b] == [a, b];
    assert NextTs([b], a.deviceId) == Some(200);
    var early, late := Part(LATE, a, Some(200)), Part(LATE, b, None);
    assert Parts([b], LATE, whole) == [late];
    assert Parts([a, b], LATE, whole) == [early, late];
    GroupOfTwo(early, late);
  }

  lemma SlicesOfTwo(a: Frame, b: Frame)
    requires a == Frame(b.deviceId, 0, true, None) && b == Frame(a.deviceId, 200, true, None)
    ensures var sliced := SlicedRows([], [a, b], LATE, [Stretch(0, 10), Stretch(10, 50)], Some(300)); |sliced| == 1 && sliced[0].agg.onlineMs == 50
  {
    var first, last := Slice(Some(0), Some(9), 101), Slice(Some(10), Some(300), 0);
    assert [a, b][1..] == [b] && [b][1..] == [] && [a][1..] == [];
    var cut, late := Part(LATE, a, None), Part(LATE, b, None);
    assert Query([a, b], LATE, first) == [cut] by {
      assert Read([b], LATE, first) == [] + Read([], LATE, first) == [];
      assert Read([a, b], LATE, first) == [a] + Read([b], LATE, first) == [a];
      assert Parts([a], LATE, first) == [cut];
      GroupOfOne(cut);
    }
    assert Query([a, b], LATE, last) == [late] by {
      assert Read([b], LATE, last) == [b] && Read([a, b], LATE, last) == [b];
      assert Parts([b], LATE, last) == [late];
      GroupOfOne(late);
    }
    var early, edge := Stretch(0, 10), Stretch(10, 50);
    assert SliceFor(LATE, early, Some(300)) == first && SliceFor(LATE, edge, Some(300)) == last;
    assert [early, edge][1..] == [edge] && [edge][1..] == [];
    assert Flat([a, b], LATE, [edge], Some(300)) == [late] + [];
    assert [] + Flat([a, b], LATE, [early, edge], Some(300)) == [cut] + [late] == [cut, late];
    GroupOfTwo(cut, late);
  }

  /** A frame stamped past the horizon makes a sliced report differ from the single pass. */
  lemma FutureFrameDisturbs(deviceId: string) returns (frames: seq<Frame>)
    ensures var single := Query(frames, LATE, Slice(Some(0), Some(300), 0));
            var sliced := SlicedRows([], frames, LATE, [Stretch(0, 10), Stretch(10, 50)], Some(300));
            |single| == 1 && |sliced| == 1 && single[0].agg.onlineMs == 100 && sliced[0].agg.onlineMs == 50
  {
    var a, b := Frame(deviceId, 0, true, None), Frame(deviceId, 200, true, None);
    frames := [a, b];
    SinglePassOfTwo(a, b);
    SlicesOfTwo(a, b);
  }

  lemma GroupOfOne(row: Row)
    ensures Grouped([row]) == [row]
  {
    assert [row][..0] == [];
    assert Keys([row]) == [row.key];
    assert Total([row], row.key) == Add(ZERO, row.agg);
  }

  lemma GroupOfTwo(row: Row, other: Row)
    requires row.key == other.key
    ensures Grouped([row, other]) == [Row(row.key, Add(row.agg, other.agg))]
  {
    assert [row, other][..1] == [row] && [row][..0] == [];
    assert Keys([row]) == [row.key];
    assert Keys([row, other]) == [row.key];
    assert Total([row], row.key) == Add(ZERO, row.agg) == row.agg;
  }
}
