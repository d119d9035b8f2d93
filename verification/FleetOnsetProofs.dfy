/** An alert keeps its onset for as long as it stays present. */
module FleetOnsetProofs {
  import opened Wrappers
  import opened FleetSteps
  import opened FleetEventProofs
  import opened FleetStreamProofs

  lemma {:induction false} RecordedOnsetOf(alerts: seq<Alert>, i: nat)
    requires DistinctIds(alerts) && i < |alerts|
    ensures RecordedOnset(alerts, alerts[i].id) == Some(OnsetOf(alerts[i]))
  {
    if i < |alerts| - 1 {
      assert alerts[i].id != alerts[|alerts| - 1].id;
      RecordedOnsetOf(alerts[..|alerts| - 1], i);
    }
  }

  /** Carrying onsets keeps the recorded one for every alert that was there before. */
  lemma {:induction false} CarriedOnset(previous: seq<Alert>, next: seq<Alert>, id: string)
    requires Raises(next, id) && RecordedOnset(previous, id).Some?
    ensures RecordedOnset(CarryAlertOnsets(previous, next), id) == RecordedOnset(previous, id)
  {
    var init, last := next[..|next| - 1], next[|next| - 1];
    assert CarryAlertOnsets(previous, next)[..|next| - 1] == CarryAlertOnsets(previous, init);
    if last.id != id {
      var i :| 0 <= i < |next| && next[i].id == id;
      assert init[i].id == id;
      CarriedOnset(previous, init, id);
    }
  }

  /**
   * An alert present before and after a frame, a status frame or an offline verdict keeps its onset,
   * whatever time the new report gives it.
   */
  lemma OnsetsSurvive(c: Config, s: Store, p: Payload, frame: Device, rule: OfflineRule, now: int, id: string)
    requires frame.id in s.raw && !p.WholeFleet?
    requires DistinctIds(s.raw[frame.id].alerts) && Raises(s.raw[frame.id].alerts, id)
    ensures var before := s.raw[frame.id].alerts;
            var merged, judged := Merged(c, s, p, frame).alerts, MarkedOffline(c, s.raw[frame.id], rule, now).alerts;
            && (Raises(merged, id) ==> RecordedOnset(merged, id) == RecordedOnset(before, id))
            && (Raises(judged, id) ==> RecordedOnset(judged, id) == RecordedOnset(before, id))
            && (Raises(frame.alerts, id) ==>
                  RecordedOnset(CarryAlertOnsets(before, frame.alerts), id) == RecordedOnset(before, id))
  {
    var before := s.raw[frame.id].alerts;
    var i :| 0 <= i < |before| && before[i].id == id;
    RecordedOnsetOf(before, i);
    var carried := CarryAlertOnsets(before, frame.alerts);
    if Raises(frame.alerts, id) {
      CarriedOnset(before, frame.alerts, id);
    }
    LingeringOnset(frame.id, before, carried, c.debounceMs, Merged(c, s, p, frame).stamp, i);
    if Raises(carried, id) {
      var k :| 0 <= k < |carried| && carried[k].id == id;
      assert frame.alerts[k].id == id;
    }
    JudgedOnset(c, s.raw[frame.id], rule, now, id);
  }

  lemma LingeringOnset(deviceId: DeviceId, before: seq<Alert>, carried: seq<Alert>, debounceMs: int, now: int, i: nat)
    requires DistinctIds(before) && i < |before|
    requires Raises(carried, before[i].id) ==>
               RecordedOnset(carried, before[i].id) == RecordedOnset(before, before[i].id)
    ensures var after := ApplyRuleDebounce(deviceId, before, carried, debounceMs, now);
            Raises(after, before[i].id) ==> RecordedOnset(after, before[i].id) == RecordedOnset(before, before[i].id)
  {
    var after := ApplyRuleDebounce(deviceId, before, carried, debounceMs, now);
    RecordedOnsetOf(before, i);
    if after != carried {
      FindAlertFacts(before, LowBatteryAlertId(deviceId));
      var last := FindAlert(before, LowBatteryAlertId(deviceId)).value;
      FoundAlertIsListed(before, LowBatteryAlertId(deviceId));
      RaisesAppend(carried, last, before[i].id);
      assert (carried + [last])[..|carried|] == carried;
    }
  }

  lemma {:induction false} FoundAlertIsListed(alerts: seq<Alert>, id: string)
    requires FindAlert(alerts, id).Some?
    ensures FindAlert(alerts, id).value in alerts
  {
    if alerts[0].id != id {
      FoundAlertIsListed(alerts[1..], id);
    }
  }

  lemma JudgedOnset(c: Config, device: Device, rule: OfflineRule, now: int, id: string)
    requires RecordedOnset(device.alerts, id).Some?
    ensures var judged := MarkedOffline(c, device, rule, now).alerts;
            Raises(judged, id) ==> RecordedOnset(judged, id) == RecordedOnset(device.alerts, id)
  {
    var next := WithoutAlert(device.alerts, OfflineAlertId(device.id))
              + (if rule.raises(c.decorate(device)) then [OfflineAlert(device.id, now)] else []);
    var judged := MarkedOffline(c, device, rule, now).alerts;
    if Raises(judged, id) {
      var k :| 0 <= k < |judged| && judged[k].id == id;
      assert next[k].id == id;
      CarriedOnset(device.alerts, next, id);
    }
  }
}
