/** Closing, handing over, and the refinement theorem for `backend/sim/sink.ts`. */
module SinkRefinement {
  import opened Wrappers
  import opened OccurrenceSteps
  import opened OccurrenceProofs
  import opened SinkSteps
  import opened SinkProofs

  // Closing one occurrence.

  /** The live collection with the active document of one key closed. */
  function CloseKey(docs: seq<Doc>, key: string, at: int): seq<Doc> {
    var index := Find(docs, key);
    if index == |docs| then docs else docs[index := ClosedDoc(docs[index], at)]
  }

  lemma ClosingHidesOneFace(docs: seq<Doc>, own: string, doc: Doc, key: string)
    requires OneActivePerKey(docs) && Find(docs, own) < |docs| && !doc.active
    ensures var after := docs[Find(docs, own) := doc];
            ActiveFace(after, key) == (if key == own then None else ActiveFace(docs, key)) && OneActivePerKey(after)
  {
    var index := Find(docs, own);
    var after := docs[index := doc];
    var was, now := Find(docs, key), Find(after, key);
    if key == own {
      assert forall i | 0 <= i < |docs| && i != index :: !IsActive(docs[i], own);
      assert now == |after|;
    } else {
      assert forall i | 0 <= i < |docs| :: IsActive(after[i], key) == IsActive(docs[i], key);
      assert now == was;
    }
  }

  lemma ClosingKeepsOrder(live: seq<Doc>, roster: seq<string>, key: string, at: int)
    requires Orderly(live) && RosterApart(live, roster)
    ensures Orderly(CloseKey(live, key, at)) && RosterApart(CloseKey(live, key, at), roster)
  {
    var after := CloseKey(live, key, at);
    assert forall i | 0 <= i < |live| :: after[i].deviceId == live[i].deviceId;
  }

  lemma RemovedStaysOpened(entries: seq<Open>, i: nat, deviceId: string)
    requires WellOpened(entries, deviceId) && i < |entries|
    ensures WellOpened(entries[..i] + entries[i + 1..], deviceId)
  {
    var after := entries[..i] + entries[i + 1..];
    assert forall k | 0 <= k < |after| :: after[k] == entries[if k < i then k else k + 1];
  }

  lemma RemovedOwn(entries: seq<Open>, i: nat, deviceId: string)
    requires WellOpened(entries, deviceId) && i < |entries|
    ensures var after := entries[..i] + entries[i + 1..];
            IndexOf(after, entries[i].doc.key) == |after|
  {
    var after := entries[..i] + entries[i + 1..];
    forall k | 0 <= k < |after| ensures after[k].doc.key != entries[i].doc.key {
      assert after[k] == entries[if k < i then k else k + 1];
    }
  }

  lemma RemovedOther(entries: seq<Open>, i: nat, key: string)
    requires i < |entries| && key != entries[i].doc.key
    ensures var after := entries[..i] + entries[i + 1..];
            var was, now := IndexOf(entries, key), IndexOf(after, key);
            if was == |entries| then now == |after| else was < |entries| && now < |after| && after[now] == entries[was]
  {
    var after := entries[..i] + entries[i + 1..];
    var was, now := IndexOf(entries, key), IndexOf(after, key);
    assert forall k | 0 <= k < |after| :: after[k] == entries[if k < i then k else k + 1];
    if was < |entries| {
      var place := if was < i then was else was - 1;
      assert after[place] == entries[was];
      assert now == place;
    }
  }

  lemma RemovedIndex(entries: seq<Open>, i: nat, deviceId: string, key: string)
    requires WellOpened(entries, deviceId) && i < |entries|
    ensures var after := entries[..i] + entries[i + 1..];
            var was, now := IndexOf(entries, key), IndexOf(after, key);
            if key == entries[i].doc.key || was == |entries| then now == |after|
            else was < |entries| && now < |after| && after[now] == entries[was]
  {
    if key == entries[i].doc.key { RemovedOwn(entries, i, deviceId); } else { RemovedOther(entries, i, key); }
  }

  /** One key's link after an entry is closed on both sides. */
  lemma CloseKeepsLink(
    live: seq<Doc>, s: Sink, roster: seq<string>, deviceId: string, i: nat, at: int, staff: Staff, d: string, a: string)
    requires Shaped(live, s, roster) && deviceId in roster && i < |OpenOf(s.open, deviceId)| && d in roster
    ensures var own := OpenOf(s.open, deviceId)[i].doc.key;
            var next := CloseEntry(s, deviceId, i, at, staff);
            Linked(CloseKey(live, own, at), next.docs, OpenOf(next.open, d), Key(d, a))
  {
    var entries := OpenOf(s.open, deviceId);
    var own, key := entries[i].doc.key, Key(d, a);
    assert Linked(live, s.docs, OpenOf(s.open, d), key);
    OwnEntryIsLinked(live, s, roster, deviceId, i);
    ClosingHidesOneFace(live, own, ClosedDoc(live[Find(live, own)], at), key);
    if entries[i].stored {
      ClosingHidesOneFace(s.docs, own, CloseEntry(s, deviceId, i, at, staff).docs[Find(s.docs, own)], key);
    }
    if d == deviceId {
      RemovedIndex(entries, i, deviceId, key);
    } else {
      KeysCollideIffIdsExtend(d, deviceId);
    }
  }

  /** One entry closed on both sides. */
  lemma CloseKeepsLinks(live: seq<Doc>, s: Sink, roster: seq<string>, deviceId: string, i: nat, at: int, staff: Staff)
    requires Shaped(live, s, roster) && deviceId in roster && i < |OpenOf(s.open, deviceId)|
    ensures var key := OpenOf(s.open, deviceId)[i].doc.key;
            var next := CloseEntry(s, deviceId, i, at, staff);
            AllLinked(CloseKey(live, key, at), next, roster) && OneActivePerKey(next.docs) && AllWellOpened(next, roster)
  {
    var entries := OpenOf(s.open, deviceId);
    var next := CloseEntry(s, deviceId, i, at, staff);
    OwnEntryIsLinked(live, s, roster, deviceId, i);
    if entries[i].stored {
      ClosingHidesOneFace(s.docs, entries[i].doc.key, next.docs[Find(s.docs, entries[i].doc.key)], entries[i].doc.key);
    }
    RemovedStaysOpened(entries, i, deviceId);
    forall d, a | d in roster
      ensures Linked(CloseKey(live, entries[i].doc.key, at), next.docs, OpenOf(next.open, d), Key(d, a))
    {
      CloseKeepsLink(live, s, roster, deviceId, i, at, staff, d, a);
    }
  }

  lemma OwnEntryIsLinked(live: seq<Doc>, s: Sink, roster: seq<string>, deviceId: string, i: nat)
    requires Shaped(live, s, roster) && deviceId in roster && i < |OpenOf(s.open, deviceId)|
    ensures var entry := OpenOf(s.open, deviceId)[i];
            && ActiveFace(live, entry.doc.key) == Some(FaceOf(entry.doc))
            && ActiveFace(s.docs, entry.doc.key) == if entry.stored then Some(FaceOf(entry.doc)) else None
  {
    var entries := OpenOf(s.open, deviceId);
    assert WellOpened(entries, deviceId);
    var key := Key(deviceId, entries[i].doc.alertId);
    assert Linked(live, s.docs, entries, key);
    assert IndexOf(entries, key) == i;
  }

  function ShutFace(face: Face, at: int): Face {
    face.(active := false, cleared := Some(at))
  }

  lemma ClosingBag(docs: seq<Doc>, key: string, doc: Doc, face: Face, at: int)
    requires ActiveFace(docs, key) == Some(face) && FaceOf(doc) == ShutFace(face, at)
    ensures Bag(docs[Find(docs, key) := doc]) + multiset{face} == Bag(docs) + multiset{ShutFace(face, at)}
  {
    BagUpdate(docs, Find(docs, key), doc);
  }

  lemma StoredBags(
    live: multiset<Face>, after: multiset<Face>, docs: multiset<Face>, next: multiset<Face>, rest: multiset<Face>,
    face: multiset<Face>, shut: multiset<Face>)
    requires live == docs + rest && after + face == live + shut && next + face == docs + shut
    ensures after == next + rest
  {
    assert (next + rest) + face == (next + face) + rest;
    assert live + shut == (docs + shut) + rest;
    BagsCancel(after, next + rest, face);
  }

  lemma BufferedBags(
    live: multiset<Face>, after: multiset<Face>, rest: multiset<Face>, all: multiset<Face>, next: multiset<Face>,
    face: multiset<Face>, shut: multiset<Face>)
    requires live == rest + all && after + face == live + shut && next + face == all
    ensures after == rest + shut + next
  {
    assert (rest + shut + next) + face == rest + (next + face) + shut;
    BagsCancel(after, rest + shut + next, face);
  }

  lemma RemovedBag(s: Sink, roster: seq<string>, deviceId: string, i: nat)
    requires Distinct(roster) && deviceId in roster && i < |OpenOf(s.open, deviceId)|
    ensures var entries := OpenOf(s.open, deviceId);
            Bag(AllUnstored(s.open[deviceId := entries[..i] + entries[i + 1..]], roster)) + One(entries[i])
            == Bag(AllUnstored(s.open, roster))
  {
    var entries := OpenOf(s.open, deviceId);
    var after := entries[..i] + entries[i + 1..];
    AllUnstoredChange(s.open, deviceId, after, roster);
    UnstoredRemoved(entries, i);
    var next, all := Bag(AllUnstored(s.open[deviceId := after], roster)), Bag(AllUnstored(s.open, roster));
    assert Bag(Unstored(after)) + One(entries[i]) == Bag(Unstored(entries));
    assert (next + One(entries[i])) + Bag(Unstored(after)) == next + (Bag(Unstored(after)) + One(entries[i]));
    BagsCancel(next + One(entries[i]), all, Bag(Unstored(after)));
  }

  lemma CloseStoredKeepsBag(live: seq<Doc>, s: Sink, roster: seq<string>, deviceId: string, i: nat, at: int, staff: Staff)
    requires Matches(live, s, roster) && deviceId in roster && i < |OpenOf(s.open, deviceId)|
    requires OpenOf(s.open, deviceId)[i].stored
    ensures SameBag(CloseKey(live, OpenOf(s.open, deviceId)[i].doc.key, at), CloseEntry(s, deviceId, i, at, staff), roster)
  {
    var doc := OpenOf(s.open, deviceId)[i].doc;
    var key, face := doc.key, FaceOf(doc);
    var next := CloseEntry(s, deviceId, i, at, staff);
    OwnEntryIsLinked(live, s, roster, deviceId, i);
    ClosingBag(live, key, ClosedDoc(live[Find(live, key)], at), face, at);
    ClosingBag(s.docs, key, next.docs[Find(s.docs, key)], face, at);
    RemovedBag(s, roster, deviceId, i);
    StoredBags(Bag(live), Bag(CloseKey(live, key, at)), Bag(s.docs), Bag(next.docs),
      Bag(s.closed) + Bag(AllUnstored(next.open, roster)), multiset{face}, multiset{ShutFace(face, at)});
  }

  lemma CloseBufferedKeepsBag(live: seq<Doc>, s: Sink, roster: seq<string>, deviceId: string, i: nat, at: int, staff: Staff)
    requires Matches(live, s, roster) && deviceId in roster && i < |OpenOf(s.open, deviceId)|
    requires !OpenOf(s.open, deviceId)[i].stored
    ensures SameBag(CloseKey(live, OpenOf(s.open, deviceId)[i].doc.key, at), CloseEntry(s, deviceId, i, at, staff), roster)
  {
    var doc := OpenOf(s.open, deviceId)[i].doc;
    var key, face := doc.key, FaceOf(doc);
    var next := CloseEntry(s, deviceId, i, at, staff);
    OwnEntryIsLinked(live, s, roster, deviceId, i);
    ClosingBag(live, key, ClosedDoc(live[Find(live, key)], at), face, at);
    BagAppend(s.closed, [Finished(doc, at, staff)]);
    BagOne(Finished(doc, at, staff));
    RemovedBag(s, roster, deviceId, i);
    BufferedBags(Bag(live), Bag(CloseKey(live, key, at)), Bag(s.docs) + Bag(s.closed), Bag(AllUnstored(s.open, roster)),
      Bag(AllUnstored(next.open, roster)), multiset{face}, multiset{ShutFace(face, at)});
  }

  lemma CloseOneKeepsBag(live: seq<Doc>, s: Sink, roster: seq<string>, deviceId: string, i: nat, at: int, staff: Staff)
    requires Matches(live, s, roster) && deviceId in roster && i < |OpenOf(s.open, deviceId)|
    ensures SameBag(CloseKey(live, OpenOf(s.open, deviceId)[i].doc.key, at), CloseEntry(s, deviceId, i, at, staff), roster)
  {
    if OpenOf(s.open, deviceId)[i].stored {
      CloseStoredKeepsBag(live, s, roster, deviceId, i, at, staff);
    } else {
      CloseBufferedKeepsBag(live, s, roster, deviceId, i, at, staff);
    }
  }

  lemma ClosingHoldsNothingActive(s: Sink, deviceId: string, i: nat, at: int, staff: Staff)
    requires NoneActive(s.closed) && i < |OpenOf(s.open, deviceId)|
    ensures NoneActive(CloseEntry(s, deviceId, i, at, staff).closed)
  {}

  lemma CloseOneKeepsShape(live: seq<Doc>, s: Sink, roster: seq<string>, deviceId: string, i: nat, at: int, staff: Staff)
    requires Shaped(live, s, roster) && deviceId in roster && i < |OpenOf(s.open, deviceId)|
    ensures Shaped(CloseKey(live, OpenOf(s.open, deviceId)[i].doc.key, at), CloseEntry(s, deviceId, i, at, staff), roster)
  {
    CloseKeepsLinks(live, s, roster, deviceId, i, at, staff);
    ClosingKeepsOrder(live, roster, OpenOf(s.open, deviceId)[i].doc.key, at);
    ClosingHoldsNothingActive(s, deviceId, i, at, staff);
  }

  lemma CloseOneMatches(live: seq<Doc>, s: Sink, roster: seq<string>, deviceId: string, i: nat, at: int, staff: Staff)
    requires Matches(live, s, roster) && deviceId in roster && i < |OpenOf(s.open, deviceId)|
    ensures Matches(CloseKey(live, OpenOf(s.open, deviceId)[i].doc.key, at), CloseEntry(s, deviceId, i, at, staff), roster)
  {
    CloseOneKeepsShape(live, s, roster, deviceId, i, at, staff);
    CloseOneKeepsBag(live, s, roster, deviceId, i, at, staff);
  }

  // Closing everything that left the active set.

  function CloseKeys(docs: seq<Doc>, entries: seq<Open>, current: set<string>, at: int): seq<Doc>
    decreases |entries|
  {
    if entries == [] then docs
    else if entries[0].doc.key in current then CloseKeys(docs, entries[1..], current, at)
    else CloseKeys(CloseKey(docs, entries[0].doc.key, at), entries[1..], current, at)
  }

  lemma {:induction false} ExpireMatches(
    live: seq<Doc>, s: Sink, roster: seq<string>, deviceId: string, current: set<string>, at: int, staff: Staff, i: nat)
    requires Matches(live, s, roster) && deviceId in roster && i <= |OpenOf(s.open, deviceId)|
    ensures Matches(CloseKeys(live, OpenOf(s.open, deviceId)[i..], current, at),
                    Expire(s, deviceId, current, at, staff, i), roster)
    decreases |OpenOf(s.open, deviceId)| - i
  {
    var entries := OpenOf(s.open, deviceId);
    if i < |entries| {
      assert entries[i..][1..] == entries[i + 1..];
      if entries[i].doc.key in current {
        ExpireMatches(live, s, roster, deviceId, current, at, staff, i + 1);
      } else {
        CloseOneMatches(live, s, roster, deviceId, i, at, staff);
        var next := CloseEntry(s, deviceId, i, at, staff);
        assert OpenOf(next.open, deviceId)[i..] == entries[i + 1..];
        ExpireMatches(CloseKey(live, entries[i].doc.key, at), next, roster, deviceId, current, at, staff, i);
      }
    }
  }

  predicate Listed(entries: seq<Open>, current: set<string>, key: string) {
    key !in current && exists entry <- entries :: entry.doc.key == key
  }

  lemma {:induction false} CloseKeysAt(docs: seq<Doc>, entries: seq<Open>, current: set<string>, at: int, j: nat)
    requires OneActivePerKey(docs) && j < |docs|
    ensures |CloseKeys(docs, entries, current, at)| == |docs|
    ensures CloseKeys(docs, entries, current, at)[j]
            == if docs[j].active && Listed(entries, current, docs[j].key) then ClosedDoc(docs[j], at) else docs[j]
    decreases |entries|
  {
    if entries != [] {
      var key, rest := entries[0].doc.key, entries[1..];
      assert forall entry <- entries :: entry == entries[0] || entry in rest;
      if key in current {
        CloseKeysAt(docs, rest, current, at, j);
      } else {
        var next := CloseKey(docs, key, at);
        if Find(docs, key) < |docs| { ClosingHidesOneFace(docs, key, ClosedDoc(docs[Find(docs, key)], at), key); }
        CloseKeysAt(next, rest, current, at, j);
        if docs[j].active && docs[j].key == key {
          assert Find(docs, key) == j;
          assert entries[0] in entries;
        }
      }
    }
  }

  lemma CloseKeysIsCloseStale(live: seq<Doc>, s: Sink, roster: seq<string>, deviceId: string, current: set<string>, at: int)
    requires Shaped(live, s, roster) && deviceId in roster
    ensures CloseKeys(live, OpenOf(s.open, deviceId), current, at)
            == CloseStale(live, deviceId, current, at, Positions(|live|))
  {
    var entries := OpenOf(s.open, deviceId);
    var closed := CloseKeys(live, entries, current, at);
    CloseKeysLength(live, entries, current, at);
    forall j | 0 <= j < |live| ensures closed[j] == CloseStale(live, deviceId, current, at, Positions(|live|))[j] {
      CloseKeysAt(live, entries, current, at, j);
      ListedIffStale(live, s, roster, deviceId, current, j);
    }
  }

  lemma {:induction false} CloseKeysLength(docs: seq<Doc>, entries: seq<Open>, current: set<string>, at: int)
    ensures |CloseKeys(docs, entries, current, at)| == |docs|
    decreases |entries|
  {
    if entries != [] {
      CloseKeysLength(if entries[0].doc.key in current then docs else CloseKey(docs, entries[0].doc.key, at),
        entries[1..], current, at);
    }
  }

  lemma ListedIffStale(live: seq<Doc>, s: Sink, roster: seq<string>, deviceId: string, current: set<string>, j: nat)
    requires Shaped(live, s, roster) && deviceId in roster && j < |live|
    ensures live[j].active && Listed(OpenOf(s.open, deviceId), current, live[j].key)
            <==> IsStale(live[j], deviceId, current)
  {
    var entries := OpenOf(s.open, deviceId);
    var doc := live[j];
    if doc.active && doc.deviceId == deviceId {
      assert Linked(live, s.docs, entries, Key(deviceId, doc.alertId));
      var index := IndexOf(entries, doc.key);
      assert Find(live, doc.key) <= j;
      assert entries[index] in entries;
    }
    if doc.active && Listed(entries, current, doc.key) {
      var entry :| entry in entries && entry.doc.key == doc.key;
      assert WellOpened(entries, deviceId);
      if doc.deviceId != deviceId {
        KeysCollideIffIdsExtend(doc.deviceId, deviceId);
      }
    }
  }

  // One call, and the whole run.

  lemma FlushMatches(live: seq<Doc>, s: Sink, roster: seq<string>)
    requires Matches(live, s, roster)
    ensures Matches(live, Flush(s), roster)
  {
    var next := Flush(s);
    BagAppend(s.docs, s.closed);
    forall d, a | d in roster ensures Linked(live, next.docs, OpenOf(next.open, d), Key(d, a)) {
      assert Linked(live, s.docs, OpenOf(s.open, d), Key(d, a));
      ClosedTailKeepsFaces(s.docs, s.closed, Key(d, a));
    }
    assert Faces([]) == [];
  }

  lemma ClosedTailKeepsFaces(docs: seq<Doc>, closed: seq<Doc>, key: string)
    requires NoneActive(closed)
    ensures ActiveFace(docs + closed, key) == ActiveFace(docs, key)
  {
    var was, now := Find(docs, key), Find(docs + closed, key);
    assert forall i | 0 <= i < |docs| :: (docs + closed)[i] == docs[i];
    if was < |docs| {
      assert IsActive((docs + closed)[was], key);
      assert now == was;
    }
  }

  function FlushedWhenFull(s: Sink): Sink {
    if |s.closed| >= BATCH then Flush(s) else s
  }

  lemma ReconcileIsClosing(live: seq<Doc>, call: Call)
    ensures var written := UpsertAll(live, call.deviceId, call.alerts, call.at, InOrder(|call.alerts|));
            Reconcile(live, call)
            == CloseStale(written, call.deviceId, KeysOf(call.deviceId, call.alerts), call.at, Positions(|written|))
  {}

  lemma UpsertIsExpiring(s: Sink, roster: seq<string>, call: Call, staff: Staff)
    requires call.deviceId in roster
    ensures var touched := Touched(s, call.deviceId, call.alerts, call.at, |call.alerts|);
            Upsert(s, roster, call.deviceId, call.alerts, call.at, staff)
            == FlushedWhenFull(Expire(touched, call.deviceId, KeysOf(call.deviceId, call.alerts), call.at, staff, 0))
  {}

  /** Closing what is stale in the live collection, and expiring it in the sink. */
  lemma ExpiringMatches(
    live: seq<Doc>, s: Sink, roster: seq<string>, deviceId: string, current: set<string>, at: int, staff: Staff)
    requires Matches(live, s, roster) && deviceId in roster
    ensures Matches(CloseStale(live, deviceId, current, at, Positions(|live|)),
                    FlushedWhenFull(Expire(s, deviceId, current, at, staff, 0)), roster)
  {
    var entries := OpenOf(s.open, deviceId);
    assert entries[0..] == entries;
    CloseKeysIsCloseStale(live, s, roster, deviceId, current, at);
    ExpireMatches(live, s, roster, deviceId, current, at, staff, 0);
    FlushMatches(CloseKeys(live, entries, current, at), Expire(s, deviceId, current, at, staff, 0), roster);
  }

  lemma UpsertMatches(live: seq<Doc>, s: Sink, roster: seq<string>, call: Call, staff: Staff)
    requires Matches(live, s, roster) && call.deviceId in roster
    ensures Matches(Reconcile(live, call), Upsert(s, roster, call.deviceId, call.alerts, call.at, staff), roster)
  {
    var n := |call.alerts|;
    ReconcileIsClosing(live, call);
    UpsertIsExpiring(s, roster, call, staff);
    TouchAllMatches(live, s, roster, call.deviceId, call.alerts, call.at, n);
    ExpiringMatches(UpsertAll(live, call.deviceId, call.alerts, call.at, InOrder(n)),
                    Touched(s, call.deviceId, call.alerts, call.at, n), roster, call.deviceId,
                    KeysOf(call.deviceId, call.alerts), call.at, staff);
  }

  lemma {:induction false} RunsMatch(live: seq<Doc>, s: Sink, roster: seq<string>, calls: seq<Call>, staff: Staff)
    requires Matches(live, s, roster)
    ensures Matches(LiveRun(live, roster, calls), SinkRun(s, roster, calls, staff), roster)
  {
    if calls != [] {
      RunsMatch(live, s, roster, calls[..|calls| - 1], staff);
      var last := calls[|calls| - 1];
      if last.deviceId in roster {
        UpsertMatches(LiveRun(live, roster, calls[..|calls| - 1]), SinkRun(s, roster, calls[..|calls| - 1], staff),
          roster, last, staff);
      }
    }
  }

  // Connecting.

  predicate AllStored(entries: seq<Open>) {
    forall i | 0 <= i < |entries| :: entries[i].stored
  }

  lemma AppendedFace(docs: seq<Doc>, last: Doc, key: string)
    ensures ActiveFace(docs + [last], key)
            == if ActiveFace(docs, key) == None && IsActive(last, key) then Some(FaceOf(last)) else ActiveFace(docs, key)
  {
    var all := docs + [last];
    var was, now := Find(docs, key), Find(all, key);
    assert forall i | 0 <= i < |docs| :: all[i] == docs[i];
    assert all[|docs|] == last;
    if was < |docs| {
      assert now == was;
    } else {
      assert now == if IsActive(last, key) then |docs| else |all|;
    }
  }

  lemma PutIndex(entries: seq<Open>, entry: Open, key: string)
    requires IndexOf(entries, entry.doc.key) == |entries|
    ensures Put(entries, entry) == entries + [entry]
    ensures IndexOf(entries + [entry], key) == if key == entry.doc.key then |entries|
                                               else if IndexOf(entries, key) < |entries| then IndexOf(entries, key)
                                               else |entries| + 1
  {
    var after := entries + [entry];
    assert forall i | 0 <= i < |entries| :: after[i] == entries[i];
    assert after[|entries|] == entry;
    var was, now := IndexOf(entries, key), IndexOf(after, key);
    if was < |entries| { assert now == was; }
  }

  ghost predicate FoundFor(docs: seq<Doc>, open: map<string, seq<Open>>, deviceId: string) {
    && WellOpened(OpenOf(open, deviceId), deviceId) && AllStored(OpenOf(open, deviceId))
    && forall alertId :: Linked(docs, docs, OpenOf(open, deviceId), Key(deviceId, alertId))
  }

  lemma {:induction false} ConnectFindsTheActive(docs: seq<Doc>, roster: seq<string>, deviceId: string)
    requires Orderly(docs) && RosterApart(docs, roster) && deviceId in roster
    ensures FoundFor(docs, Connected(docs, roster), deviceId)
  {
    if docs != [] {
      var front, last := docs[..|docs| - 1], docs[|docs| - 1];
      assert docs == front + [last];
      ConnectFindsTheActive(front, roster, deviceId);
      var open := Connected(front, roster);
      if last.active && last.deviceId == deviceId {
        LastIsFound(front, last, OpenOf(open, deviceId), deviceId);
        PutIndex(OpenOf(open, deviceId), Open(last, true), last.key);
        assert OpenOf(Connected(docs, roster), deviceId) == OpenOf(open, deviceId) + [Open(last, true)];
      } else {
        assert OpenOf(Connected(docs, roster), deviceId) == OpenOf(open, deviceId);
        OtherLastIsIgnored(front, last, OpenOf(open, deviceId), deviceId);
      }
    }
  }

  lemma {:induction false} LastIsFound(front: seq<Doc>, last: Doc, entries: seq<Open>, deviceId: string)
    requires last.active && last.deviceId == deviceId && last.key == Key(deviceId, last.alertId)
    requires WellOpened(entries, deviceId) && AllStored(entries) && IndexOf(entries, last.key) == |entries|
    requires forall alertId :: Linked(front, front, entries, Key(deviceId, alertId))
    ensures WellOpened(entries + [Open(last, true)], deviceId) && AllStored(entries + [Open(last, true)])
    ensures forall alertId :: Linked(front + [last], front + [last], entries + [Open(last, true)], Key(deviceId, alertId))
  {
    assert forall i | 0 <= i < |entries| :: entries[i].doc.key != last.key;
    forall alertId
      ensures Linked(front + [last], front + [last], entries + [Open(last, true)], Key(deviceId, alertId))
    {
      assert Linked(front, front, entries, Key(deviceId, alertId));
      AppendedFace(front, last, Key(deviceId, alertId));
      PutIndex(entries, Open(last, true), Key(deviceId, alertId));
    }
  }

  lemma OtherLastIsIgnored(front: seq<Doc>, last: Doc, entries: seq<Open>, deviceId: string)
    requires last.active ==> last.deviceId != deviceId && Apart(deviceId, last.deviceId)
    requires last.key == Key(last.deviceId, last.alertId)
    requires forall alertId :: Linked(front, front, entries, Key(deviceId, alertId))
    ensures forall alertId :: Linked(front + [last], front + [last], entries, Key(deviceId, alertId))
  {
    forall alertId
      ensures Linked(front + [last], front + [last], entries, Key(deviceId, alertId))
    {
      assert Linked(front, front, entries, Key(deviceId, alertId));
      AppendedFace(front, last, Key(deviceId, alertId));
      if last.active { KeysCollideIffIdsExtend(deviceId, last.deviceId); }
    }
  }

  lemma {:induction false} StoredAreNotHandedOver(open: map<string, seq<Open>>, roster: seq<string>)
    requires forall deviceId <- roster :: AllStored(OpenOf(open, deviceId))
    ensures AllUnstored(open, roster) == []
  {
    if roster != [] {
      assert roster[|roster| - 1] in roster;
      StoredAreNotHandedOver(open, roster[..|roster| - 1]);
      StoredHasNothing(OpenOf(open, roster[|roster| - 1]));
    }
  }

  lemma {:induction false} StoredHasNothing(entries: seq<Open>)
    requires AllStored(entries)
    ensures Unstored(entries) == []
  {
    if entries != [] { StoredHasNothing(entries[..|entries| - 1]); }
  }

  lemma ConnectMatches(docs: seq<Doc>, roster: seq<string>)
    requires Orderly(docs) && RosterApart(docs, roster)
    ensures Matches(docs, Connect(docs, roster), roster)
  {
    forall deviceId | deviceId in roster ensures FoundFor(docs, Connected(docs, roster), deviceId) {
      ConnectFindsTheActive(docs, roster, deviceId);
    }
    StoredAreNotHandedOver(Connected(docs, roster), roster);
    assert Faces([]) == [];
  }

  // The hand-over.

  lemma {:induction false} HandOverAppends(docs: seq<Doc>, entries: seq<Open>, deviceId: string)
    requires WellOpened(entries, deviceId)
    requires forall i | 0 <= i < |entries| && !entries[i].stored :: ActiveFace(docs, entries[i].doc.key) == None
    ensures HandOver(docs, entries) == docs + Unstored(entries)
  {
    if entries != [] {
      var front, last := entries[..|entries| - 1], entries[|entries| - 1];
      assert forall i | 0 <= i < |front| :: front[i] == entries[i];
      HandOverAppends(docs, front, deviceId);
      if !last.stored {
        UnstoredAreListed(front, last.doc.key);
        NoneAfter(docs, Unstored(front), last.doc.key);
      }
    }
  }

  lemma {:induction false} UnstoredAreListed(entries: seq<Open>, key: string)
    requires forall i | 0 <= i < |entries| :: entries[i].doc.key != key
    ensures forall doc <- Unstored(entries) :: doc.key != key
  {
    if entries != [] { UnstoredAreListed(entries[..|entries| - 1], key); }
  }

  lemma NoneAfter(docs: seq<Doc>, more: seq<Doc>, key: string)
    requires ActiveFace(docs, key) == None
    requires forall doc <- more :: doc.key != key
    ensures ActiveFace(docs + more, key) == None
  {
    assert Find(docs, key) == |docs|;
    forall i | 0 <= i < |docs + more| ensures !IsActive((docs + more)[i], key) {
      if i >= |docs| { assert (docs + more)[i] == more[i - |docs|]; }
    }
  }

  lemma {:induction false} ForeignUnstored(s: Sink, roster: seq<string>, deviceId: string, alertId: string)
    requires AllWellOpened(s, roster)
    requires forall other <- roster :: other != deviceId && Apart(deviceId, other)
    ensures forall doc <- AllUnstored(s.open, roster) :: doc.key != Key(deviceId, alertId)
  {
    if roster != [] {
      var front, last := roster[..|roster| - 1], roster[|roster| - 1];
      assert last in roster && forall other <- front :: other in roster;
      ForeignUnstored(s, front, deviceId, alertId);
      KeysCollideIffIdsExtend(deviceId, last);
      assert WellOpened(OpenOf(s.open, last), last);
      UnstoredAreListed(OpenOf(s.open, last), Key(deviceId, alertId));
    }
  }

  /** Vehicle `k`'s open occurrences are inserted after those of the vehicles before it. */
  predicate HandsOver(docs: seq<Doc>, open: map<string, seq<Open>>, roster: seq<string>, k: nat)
    requires k < |roster|
  {
    var before := docs + AllUnstored(open, roster[..k]);
    HandOver(before, OpenOf(open, roster[k])) == before + Unstored(OpenOf(open, roster[k]))
  }

  lemma HandOverOne(live: seq<Doc>, s: Sink, roster: seq<string>, count: nat)
    requires Shaped(live, s, roster) && count < |roster|
    ensures HandsOver(s.docs, s.open, roster, count)
  {
    var front, last := roster[..count], roster[count];
    var entries := OpenOf(s.open, last);
    assert last in roster && WellOpened(entries, last);
    var before := s.docs + AllUnstored(s.open, front);
    forall i | 0 <= i < |entries| && !entries[i].stored ensures ActiveFace(before, entries[i].doc.key) == None {
      OwnEntryIsLinked(live, s, roster, last, i);
      ForeignUnstored(s, front, last, entries[i].doc.alertId);
      NoneAfter(s.docs, AllUnstored(s.open, front), entries[i].doc.key);
    }
    HandOverAppends(before, entries, last);
  }

  lemma {:induction false} HandOverAllAppends(docs: seq<Doc>, open: map<string, seq<Open>>, roster: seq<string>, count: nat)
    requires count <= |roster| && forall k: nat | k < |roster| :: HandsOver(docs, open, roster, k)
    ensures HandOverAll(docs, open, roster[..count]) == docs + AllUnstored(open, roster[..count])
    decreases count
  {
    if count > 0 {
      assert roster[..count][..count - 1] == roster[..count - 1];
      HandOverAllAppends(docs, open, roster, count - 1);
      assert HandsOver(docs, open, roster, count - 1);
    }
  }

  lemma FinishedBag(live: seq<Doc>, s: Sink, roster: seq<string>)
    requires Matches(live, s, roster)
    ensures Bag(Finish(s, roster)) == Bag(live)
  {
    FlushMatches(live, s, roster);
    var flushed := Flush(s);
    forall k: nat | k < |roster| ensures HandsOver(flushed.docs, flushed.open, roster, k) {
      HandOverOne(live, flushed, roster, k);
    }
    HandOverAllAppends(flushed.docs, flushed.open, roster, |roster|);
    assert roster[..|roster|] == roster;
    BagAppend(flushed.docs, AllUnstored(s.open, roster));
    assert Faces([]) == [];
  }

  /**
   * For any calls the store makes — re-fires, repeats, occurrences already stored at connect — the
   * collection after `finish` holds the same occurrences (key, onset, active flag, clear time), as
   * often, as the one the live reconciliation would have left.
   */
  lemma BackfillRefinesReconciliation(docs: seq<Doc>, roster: seq<string>, calls: seq<Call>, staff: Staff)
    requires Orderly(docs) && RosterApart(docs, roster)
    ensures Bag(Finish(SinkRun(Connect(docs, roster), roster, calls, staff), roster)) == Bag(LiveRun(docs, roster, calls))
  {
    ConnectMatches(docs, roster);
    RunsMatch(docs, Connect(docs, roster), roster, calls, staff);
    FinishedBag(LiveRun(docs, roster, calls), SinkRun(Connect(docs, roster), roster, calls, staff), roster);
  }

  /** The live history really is one of `Persistence`'s runs, with every sync succeeding. */
  function Reports(roster: seq<string>, calls: seq<Call>): seq<Step> {
    if calls == [] then []
    else
      var before := Reports(roster, calls[..|calls| - 1]);
      var last := calls[|calls| - 1];
      if last.deviceId !in roster then before
      else before + [Report(last.deviceId, last.alerts, last.at, Done(InOrder(|last.alerts|)))]
  }

  lemma {:induction false} LiveRunIsAPersistenceRun(s: Store, roster: seq<string>, calls: seq<Call>)
    requires s.attached
    ensures LegalRun(s, Reports(roster, calls))
    ensures Run(s, Reports(roster, calls)).docs == LiveRun(s.docs, roster, calls)
    ensures Run(s, Reports(roster, calls)).attached
    decreases |calls|
  {
    if calls != [] {
      var front, last := calls[..|calls| - 1], calls[|calls| - 1];
      LiveRunIsAPersistenceRun(s, roster, front);
      if last.deviceId in roster {
        RunsOn(s, Reports(roster, front), Report(last.deviceId, last.alerts, last.at, Done(InOrder(|last.alerts|))));
      }
    }
  }

  /** Ids must not extend one another: any two vehicles for which one does can be reported so that the histories differ. */
  lemma CollidingIdsDiverge(id: string, other: string, staff: Staff) returns (calls: seq<Call>)
    requires IdExtends(id, other)
    ensures |LiveRun([], [id, other], calls)| == 1
    ensures |Finish(SinkRun(Connect([], [id, other]), [id, other], calls, staff), [id, other])| == 2
  {
    var roster := [id, other];
    var mine := Alert(other[|id| + 1..] + ":x", "", 0, None);
    var theirs := Alert("x", "", 0, None);
    ExtensionShares(id, other);
    var a, b, c := Call(id, [mine], 0), Call(other, [theirs], 0), Call(id, [], 1);
    calls := [a, b, c];
    LiveCollision(id, other, mine, theirs, roster);
    SinkCollision(id, other, mine, theirs, roster, staff);
  }

  lemma LiveNext(docs: seq<Doc>, roster: seq<string>, calls: seq<Call>, call: Call)
    requires call.deviceId in roster
    ensures LiveRun(docs, roster, calls + [call]) == Reconcile(LiveRun(docs, roster, calls), call)
  {
    assert (calls + [call])[..|calls|] == calls;
  }

  lemma LiveCollision(id: string, other: string, mine: Alert, theirs: Alert, roster: seq<string>)
    requires id != other && Key(id, mine.id) == Key(other, theirs.id) && roster == [id, other]
    ensures |LiveRun([], roster, [Call(id, [mine], 0), Call(other, [theirs], 0), Call(id, [], 1)])| == 1
  {
    var a, b, c := Call(id, [mine], 0), Call(other, [theirs], 0), Call(id, [], 1);
    assert id == roster[0] && other == roster[1];
    var doc := NewDoc(id, mine, 0);
    var taken := Refreshed(doc, other, theirs, 0);
    assert InOrder(0) == [] && InOrder(1) == [0];
    LiveNext([], roster, [], a);
    FirstOfItsKey(id, mine, 0);
    LiveNext([], roster, [a], b);
    SecondOfItsKey(doc, other, theirs, 0);
    LiveNext([], roster, [a, b], c);
    assert [] + [a] == [a] && [a] + [b] == [a, b] && [a, b] + [c] == [a, b, c];
    assert LiveRun([], roster, [a, b]) == [taken];
    assert UpsertAll([taken], id, [], 1, InOrder(0)) == [taken];
  }

  lemma FirstReport(s: Sink, roster: seq<string>, id: string, alert: Alert, staff: Staff)
    requires id in roster && id !in s.open && |s.closed| < BATCH
    ensures Upsert(s, roster, id, [alert], 0, staff) == s.(open := s.open[id := [Open(NewDoc(id, alert, 0), false)]])
  {
    var touched := [Open(NewDoc(id, alert, 0), false)];
    assert TouchAll([], id, [alert], 0, 0) == [];
    assert TouchAll([], id, [alert], 0, 1) == touched;
    var next := s.(open := s.open[id := touched]);
    assert alert in [alert];
    assert OpenOf(next.open, id) == touched;
    assert Expire(next, id, KeysOf(id, [alert]), 0, staff, 1) == next;
    assert Expire(next, id, KeysOf(id, [alert]), 0, staff, 0) == next;
  }

  /** Both vehicles have reported. */
  lemma BothReported(id: string, other: string, mine: Alert, theirs: Alert, roster: seq<string>, staff: Staff)
    requires id != other && Key(id, mine.id) == Key(other, theirs.id) && roster == [id, other]
    ensures SinkRun(Connect([], roster), roster, [Call(id, [mine], 0), Call(other, [theirs], 0)], staff)
         == Sink([], map[id := [Open(NewDoc(id, mine, 0), false)], other := [Open(NewDoc(other, theirs, 0), false)]], [])
  {
    var a, b := Call(id, [mine], 0), Call(other, [theirs], 0);
    assert id == roster[0] && other == roster[1];
    var s := Connect([], roster);
    FirstReport(s, roster, id, mine, staff);
    SinkNext(s, roster, [], a, staff);
    FirstReport(Sink([], map[id := [Open(NewDoc(id, mine, 0), false)]], []), roster, other, theirs, staff);
    SinkNext(s, roster, [a], b, staff);
    assert [] + [a] == [a] && [a] + [b] == [a, b];
  }

  lemma SinkCollision(id: string, other: string, mine: Alert, theirs: Alert, roster: seq<string>, staff: Staff)
    requires id != other && Key(id, mine.id) == Key(other, theirs.id) && roster == [id, other]
    ensures |Finish(SinkRun(Connect([], roster), roster, [Call(id, [mine], 0), Call(other, [theirs], 0), Call(id, [], 1)], staff),
                    roster)| == 2
  {
    var a, b, c := Call(id, [mine], 0), Call(other, [theirs], 0), Call(id, [], 1);
    var doc, copy := NewDoc(id, mine, 0), NewDoc(other, theirs, 0);
    BothReported(id, other, mine, theirs, roster, staff);
    LastCall(Sink([], map[id := [Open(doc, false)], other := [Open(copy, false)]], []), roster, id, other, doc, copy, staff);
    SinkNext(Connect([], roster), roster, [a, b], c, staff);
    assert [a, b] + [c] == [a, b, c];
    HandedOver(roster, id, other, Finished(doc, 1, staff), copy);
  }

  lemma SinkNext(s: Sink, roster: seq<string>, calls: seq<Call>, call: Call, staff: Staff)
    ensures SinkRun(s, roster, calls + [call], staff)
            == Upsert(SinkRun(s, roster, calls, staff), roster, call.deviceId, call.alerts, call.at, staff)
  {
    assert (calls + [call])[..|calls|] == calls;
  }

  /** A vehicle's one occurrence, not stored, closed by an empty report. */
  lemma LastCall(s: Sink, roster: seq<string>, id: string, other: string, doc: Doc, copy: Doc, staff: Staff)
    requires id != other && id in roster
    requires s == Sink([], map[id := [Open(doc, false)], other := [Open(copy, false)]], [])
    ensures Upsert(s, roster, id, [], 1, staff)
            == Sink([], map[id := [], other := [Open(copy, false)]], [Finished(doc, 1, staff)])
  {
    var closed := Sink([], map[id := [], other := [Open(copy, false)]], [Finished(doc, 1, staff)]);
    assert TouchAll([Open(doc, false)], id, [], 1, 0) == [Open(doc, false)];
    assert s.open[id := [Open(doc, false)]] == s.open;
    assert [Open(doc, false)][..0] + [Open(doc, false)][1..] == [] && s.open[id := []] == closed.open;
    assert CloseEntry(s, id, 0, 1, staff) == closed;
    assert KeysOf(id, []) == {};
    assert Expire(s, id, {}, 1, staff, 0) == Expire(closed, id, {}, 1, staff, 0) == closed;
  }

  lemma HandedOver(roster: seq<string>, id: string, other: string, done: Doc, copy: Doc)
    requires roster == [id, other] && id != other && !done.active
    ensures Finish(Sink([], map[id := [], other := [Open(copy, false)]], [done]), roster) == [done, copy]
  {
    var s := Sink([], map[id := [], other := [Open(copy, false)]], [done]);
    assert roster[..1] == [id] && [id][..0] == [];
    assert Flush(s).docs == [done];
    assert HandOverAll([done], s.open, [id]) == [done];
    assert [Open(copy, false)][..0] == [];
    assert HandOver([done], [Open(copy, false)]) == [done, copy];
  }
}
