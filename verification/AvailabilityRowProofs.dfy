/**
 * What the fields of a report's rows say about the frames behind them
 * (`backend/src/reports/availabilityPipeline.ts`).
 */
module AvailabilityRowProofs {
  import opened Wrappers
  import opened AvailabilitySteps
  import opened AvailabilityProofs

  /** A frame behind a row, with the time it vouches for. */
  datatype Share = Share(frame: Frame, ms: int)

  function OnlineCount(shares: seq<Share>): nat {
    if shares == [] then 0 else (if shares[0].frame.online then 1 else 0) + OnlineCount(shares[1..])
  }

  function OnlineMs(shares: seq<Share>): int {
    if shares == [] then 0 else (if shares[0].frame.online then shares[0].ms else 0) + OnlineMs(shares[1..])
  }

  function SocCount(shares: seq<Share>): nat {
    if shares == [] then 0 else (if shares[0].frame.soc.Some? then 1 else 0) + SocCount(shares[1..])
  }

  function SocSum(shares: seq<Share>): real {
    if shares == [] then 0.0
    else (if shares[0].frame.soc.Some? then shares[0].frame.soc.value else 0.0) + SocSum(shares[1..])
  }

  /** The minimum is absent when no frame has a state of charge; else it is below each and one of them. */
  predicate IsLeastSoc(least: Option<real>, shares: seq<Share>) {
    match least
    case None => forall share <- shares :: share.frame.soc.None?
    case Some(soc) =>
      && (forall share <- shares :: share.frame.soc.Some? ==> soc <= share.frame.soc.value)
      && exists share <- shares :: share.frame.soc == Some(soc)
  }

  predicate Describes(agg: Agg, shares: seq<Share>) {
    && agg.totalSamples == |shares| && agg.onlineSamples == OnlineCount(shares) && agg.onlineMs == OnlineMs(shares)
    && agg.socCount == SocCount(shares) && agg.socSum == SocSum(shares) && IsLeastSoc(agg.socMin, shares)
  }

  // Adding up.

  lemma {:induction false} SumsAppend(a: seq<Share>, b: seq<Share>)
    ensures OnlineCount(a + b) == OnlineCount(a) + OnlineCount(b) && OnlineMs(a + b) == OnlineMs(a) + OnlineMs(b)
    ensures SocCount(a + b) == SocCount(a) + SocCount(b) && SocSum(a + b) == SocSum(a) + SocSum(b)
  {
    if a == [] {
      assert a + b == b;
    } else {
      assert (a + b)[1..] == a[1..] + b;
      SumsAppend(a[1..], b);
    }
  }

  lemma LeastAppend(a: Agg, left: seq<Share>, b: Agg, right: seq<Share>)
    requires IsLeastSoc(a.socMin, left) && IsLeastSoc(b.socMin, right)
    ensures IsLeastSoc(Add(a, b).socMin, left + right)
  {
    assert forall share <- left + right :: share in left || share in right;
    if a.socMin.Some? {
      var share :| share in left && share.frame.soc == a.socMin;
      assert share in left + right;
    }
    if b.socMin.Some? {
      var share :| share in right && share.frame.soc == b.socMin;
      assert share in left + right;
    }
  }

  lemma DescribesAppend(a: Agg, left: seq<Share>, b: Agg, right: seq<Share>)
    requires Describes(a, left) && Describes(b, right)
    ensures Describes(Add(a, b), left + right)
  {
    SumsAppend(left, right);
    LeastAppend(a, left, b, right);
  }

  // One query.

  /** The query reports this frame under this key. */
  predicate Selected(report: Report, slice: Slice, key: Key, frame: Frame) {
    && frame.deviceId == key.deviceId && report.bucketOf(frame.ts) == key.bucket
    && (report.devices.None? || frame.deviceId in report.devices.value)
    && (slice.from.None? || slice.from.value <= frame.ts)
    && (slice.to.None? || frame.ts <= slice.to.value)
  }

  /** The time up to the vehicle's next frame, if the query reads that far, else up to the horizon; at most one gap. */
  function Vouched(report: Report, slice: Slice, frame: Frame, next: Option<int>): int {
    var inReach := next.Some?
      && (slice.to.None? || next.value <= slice.to.value + if slice.lookahead > 0 then slice.lookahead else 0);
    var until := (if inReach then next.value else report.horizon) - frame.ts;
    if until <= 0 || report.maxGap <= 0 then 0 else if until <= report.maxGap then until else report.maxGap
  }

  /** The frames behind a key's row, each with its time. */
  function Shares(frames: seq<Frame>, report: Report, slice: Slice, key: Key): seq<Share> {
    if frames == [] then []
    else
      (if Selected(report, slice, key, frames[0])
       then [Share(frames[0], Vouched(report, slice, frames[0], NextTs(frames[1..], frames[0].deviceId)))] else [])
      + Shares(frames[1..], report, slice, key)
  }

  /** A vehicle's next frame is the first of its frames that follow. */
  lemma {:induction false} NextIsTheNext(frames: seq<Frame>, deviceId: string)
    ensures NextTs(frames, deviceId).None? ==> forall i | 0 <= i < |frames| :: frames[i].deviceId != deviceId
    ensures NextTs(frames, deviceId).Some? ==>
              exists i :: 0 <= i < |frames| && frames[i].deviceId == deviceId && frames[i].ts == NextTs(frames, deviceId).value
                          && forall j | 0 <= j < i :: frames[j].deviceId != deviceId
  {
    if frames != [] && frames[0].deviceId != deviceId {
      NextIsTheNext(frames[1..], deviceId);
      if NextTs(frames[1..], deviceId).Some? {
        var rest := frames[1..];
        var i :| 0 <= i < |rest| && rest[i].deviceId == deviceId && rest[i].ts == NextTs(rest, deviceId).value
                 && forall j | 0 <= j < i :: rest[j].deviceId != deviceId;
        assert forall j | 0 <= j < i + 1 :: frames[j].deviceId != deviceId by {
          assert forall j | 1 <= j < i + 1 :: frames[j] == rest[j - 1];
        }
        assert frames[i + 1] == rest[i];
      }
    }
  }

  lemma PartDescribes(report: Report, slice: Slice, frame: Frame, next: Option<int>)
    ensures Describes(Part(report, frame, Seen(next, slice)).agg, [Share(frame, Vouched(report, slice, frame, next))])
  {
    var share := Share(frame, Vouched(report, slice, frame, next));
    assert [share][1..] == [];
    assert share in [share];
  }

  lemma ZeroDescribes()
    ensures Describes(ZERO, [])
  {}

  /** The rows of a key describe these frames together, and there are some exactly when there are frames. */
  predicate Accounts(rows: seq<Row>, key: Key, shares: seq<Share>) {
    Describes(Total(rows, key), shares) && (Holds(rows, key) <==> shares != [])
  }

  lemma NothingAccounts(key: Key)
    ensures Accounts([], key, [])
  {
    ZeroDescribes();
  }

  lemma AccountsAppend(a: seq<Row>, left: seq<Share>, b: seq<Row>, right: seq<Share>, key: Key)
    requires Accounts(a, key, left) && Accounts(b, key, right)
    ensures Accounts(a + b, key, left + right)
  {
    TotalAppend(a, b, key);
    HoldsAppend(a, b, key);
    DescribesAppend(Total(a, key), left, Total(b, key), right);
  }

  lemma RowAccounts(row: Row, key: Key, shares: seq<Share>)
    requires Describes(row.agg, shares) && shares != []
    ensures Accounts([row], key, if row.key == key then shares else [])
  {
    OnlyRow(row, key);
    ZeroDescribes();
  }

  function DirectOf(report: Report, slice: Slice, frame: Frame, next: Option<int>): seq<Row> {
    if Selects(report, slice, frame) then [Part(report, frame, Seen(next, slice))] else []
  }

  function SharesOf(report: Report, slice: Slice, key: Key, frame: Frame, next: Option<int>): seq<Share> {
    if Selected(report, slice, key, frame) then [Share(frame, Vouched(report, slice, frame, next))] else []
  }

  lemma SelectedByKey(report: Report, slice: Slice, key: Key, frame: Frame)
    ensures Selected(report, slice, key, frame) <==> Selects(report, slice, frame) && KeyOf(report, frame) == key
  {}

  lemma DirectAccountsOne(report: Report, slice: Slice, frame: Frame, next: Option<int>, key: Key)
    requires Selects(report, slice, frame)
    ensures Accounts(DirectOf(report, slice, frame, next), key,
                     if KeyOf(report, frame) == key then [Share(frame, Vouched(report, slice, frame, next))] else [])
  {
    PartDescribes(report, slice, frame, next);
    RowAccounts(Part(report, frame, Seen(next, slice)), key, [Share(frame, Vouched(report, slice, frame, next))]);
  }

  lemma FrameAccounts(report: Report, slice: Slice, frame: Frame, next: Option<int>, key: Key)
    ensures Accounts(DirectOf(report, slice, frame, next), key, SharesOf(report, slice, key, frame, next))
  {
    SelectedByKey(report, slice, key, frame);
    if Selects(report, slice, frame) {
      DirectAccountsOne(report, slice, frame, next, key);
    } else {
      NothingAccounts(key);
    }
  }

  lemma {:induction false} DirectAccounts(frames: seq<Frame>, report: Report, slice: Slice, key: Key)
    ensures Accounts(Direct(frames, report, slice), key, Shares(frames, report, slice, key))
  {
    if frames == [] {
      NothingAccounts(key);
    } else {
      var next := NextTs(frames[1..], frames[0].deviceId);
      DirectAccounts(frames[1..], report, slice, key);
      FrameAccounts(report, slice, frames[0], next, key);
      AccountsAppend(DirectOf(report, slice, frames[0], next), SharesOf(report, slice, key, frames[0], next),
                     Direct(frames[1..], report, slice), Shares(frames[1..], report, slice, key), key);
    }
  }

  /** The rows of this key all describe these frames, and there is one unless there are no frames. */
  predicate RowsDescribe(rows: seq<Row>, key: Key, shares: seq<Share>) {
    && (Holds(rows, key) <==> shares != [])
    && forall row <- rows :: row.key == key ==> Describes(row.agg, shares)
  }

  lemma GroupedDescribe(rows: seq<Row>, key: Key, shares: seq<Share>)
    requires Accounts(rows, key, shares)
    ensures RowsDescribe(Grouped(rows), key, shares)
  {
    GroupedRow(rows, key);
    forall row | row in Grouped(rows) && row.key == key ensures Describes(row.agg, shares) {
      var i :| 0 <= i < |Grouped(rows)| && Grouped(rows)[i] == row;
    }
  }

  /**
   * A query reports a vehicle and bucket exactly when it selects frames of theirs, and the row counts them,
   * adds up their times and states of charge and gives the least of these.
   */
  lemma QueryRowsDescribe(frames: seq<Frame>, report: Report, slice: Slice, key: Key)
    requires Sorted(frames)
    ensures RowsDescribe(Query(frames, report, slice), key, Shares(frames, report, slice, key))
  {
    QueryIsDirect(frames, report, slice);
    DirectAccounts(frames, report, slice, key);
    GroupedDescribe(Direct(frames, report, slice), key, Shares(frames, report, slice, key));
  }

  // Merging.

  /** The frames behind the rows of this key. */
  function Gathered(rows: seq<Row>, behind: seq<seq<Share>>, key: Key): seq<Share>
    requires |rows| == |behind|
  {
    if rows == [] then []
    else
      Gathered(rows[..|rows| - 1], behind[..|rows| - 1], key)
      + if rows[|rows| - 1].key == key then behind[|rows| - 1] else []
  }

  /** Each row describes its frames, and has some. */
  predicate EachDescribes(rows: seq<Row>, behind: seq<seq<Share>>) {
    |rows| == |behind| && forall i | 0 <= i < |rows| :: behind[i] != [] && Describes(rows[i].agg, behind[i])
  }

  lemma {:induction false} RowsAccount(rows: seq<Row>, behind: seq<seq<Share>>, key: Key)
    requires EachDescribes(rows, behind)
    ensures Accounts(rows, key, Gathered(rows, behind, key))
  {
    if rows == [] {
      NothingAccounts(key);
    } else {
      var last := |rows| - 1;
      RowsAccount(rows[..last], behind[..last], key);
      RowAccounts(rows[last], key, behind[last]);
      AccountsAppend(rows[..last], Gathered(rows[..last], behind[..last], key),
                     [rows[last]], if rows[last].key == key then behind[last] else [], key);
      assert rows[..last] + [rows[last]] == rows;
    }
  }

  /** Merging rows gives each vehicle and bucket one row, which describes the frames of all of its rows together. */
  lemma MergedRowsDescribe(rows: seq<Row>, behind: seq<seq<Share>>, key: Key)
    requires EachDescribes(rows, behind)
    ensures RowsDescribe(Grouped(rows), key, Gathered(rows, behind, key))
  {
    RowsAccount(rows, behind, key);
    GroupedDescribe(rows, key, Gathered(rows, behind, key));
  }

  /** The frames the stretches' queries report under a key. */
  function StretchShares(frames: seq<Frame>, report: Report, raw: seq<Stretch>, to: Option<int>, key: Key): seq<Share> {
    if raw == [] then []
    else Shares(frames, report, SliceFor(report, raw[0], to), key) + StretchShares(frames, report, raw[1..], to, key)
  }

  lemma QueryAccounts(frames: seq<Frame>, report: Report, slice: Slice, key: Key)
    requires Sorted(frames)
    ensures Accounts(Query(frames, report, slice), key, Shares(frames, report, slice, key))
  {
    DirectAccounts(frames, report, slice, key);
    QueryIsAlike(frames, report, slice, key);
  }

  lemma {:induction false} FlatAccounts(frames: seq<Frame>, report: Report, raw: seq<Stretch>, to: Option<int>, key: Key)
    requires Sorted(frames)
    ensures Accounts(Flat(frames, report, raw, to), key, StretchShares(frames, report, raw, to, key))
  {
    if raw == [] {
      NothingAccounts(key);
    } else {
      var slice := SliceFor(report, raw[0], to);
      FlatAccounts(frames, report, raw[1..], to, key);
      QueryAccounts(frames, report, slice, key);
      AccountsAppend(Query(frames, report, slice), Shares(frames, report, slice, key),
                     Flat(frames, report, raw[1..], to), StretchShares(frames, report, raw[1..], to, key), key);
    }
  }

  /**
   * A served report has a vehicle and bucket exactly when frames stand behind it, and its row describes them:
   * those behind the summarised hours' rows and those the stretches' queries select.
   */
  lemma ServedRowsDescribe(
    hours: seq<Row>, behind: seq<seq<Share>>, frames: seq<Frame>, report: Report, raw: seq<Stretch>, to: Option<int>, key: Key)
    requires Sorted(frames) && EachDescribes(hours, behind)
    ensures RowsDescribe(SlicedRows(hours, frames, report, raw, to), key,
                         Gathered(hours, behind, key) + StretchShares(frames, report, raw, to, key))
  {
    var flat, shares := Flat(frames, report, raw, to), StretchShares(frames, report, raw, to, key);
    RowsAccount(hours, behind, key);
    FlatAccounts(frames, report, raw, to, key);
    AccountsAppend(hours, Gathered(hours, behind, key), flat, shares, key);
    GroupedDescribe(hours + flat, key, Gathered(hours, behind, key) + shares);
  }
}
