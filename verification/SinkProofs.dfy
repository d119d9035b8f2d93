/**
 * The backfill's batched reconciliation leaves the same occurrences as the live one
 * (`backend/sim/sink.ts` against `Persistence.upsertAlerts` in `backend/src/persistence.ts`).
 */
module SinkProofs {
  import opened Wrappers
  import opened OccurrenceSteps
  import opened OccurrenceProofs
  import opened SinkSteps

  // What the two histories are compared by.

  datatype Face = Face(key: string, firstSeen: int, active: bool, cleared: Option<int>)

  function FaceOf(doc: Doc): Face {
    Face(doc.key, doc.firstSeen, doc.active, doc.cleared)
  }

  function Faces(docs: seq<Doc>): (faces: seq<Face>)
    ensures |faces| == |docs|
  {
    seq(|docs|, i requires 0 <= i < |docs| => FaceOf(docs[i]))
  }

  function Bag(docs: seq<Doc>): multiset<Face> {
    multiset(Faces(docs))
  }

  lemma BagAppend(a: seq<Doc>, b: seq<Doc>)
    ensures Bag(a + b) == Bag(a) + Bag(b)
  {
    assert Faces(a + b) == Faces(a) + Faces(b);
  }

  lemma BagOne(doc: Doc)
    ensures Bag([doc]) == multiset{FaceOf(doc)}
  {
    assert Faces([doc]) == [FaceOf(doc)];
  }

  lemma BagUpdate(docs: seq<Doc>, i: nat, doc: Doc)
    requires i < |docs|
    ensures Bag(docs[i := doc]) + multiset{FaceOf(docs[i])} == Bag(docs) + multiset{FaceOf(doc)}
  {
    assert docs == docs[..i] + ([docs[i]] + docs[i + 1..]);
    assert docs[i := doc] == docs[..i] + ([doc] + docs[i + 1..]);
    BagAppend(docs[..i], [docs[i]] + docs[i + 1..]);
    BagAppend([docs[i]], docs[i + 1..]);
    BagAppend(docs[..i], [doc] + docs[i + 1..]);
    BagAppend([doc], docs[i + 1..]);
    BagOne(doc);
    BagOne(docs[i]);
  }

  // Occurrences that exist only in memory.

  function Unstored(entries: seq<Open>): seq<Doc> {
    if entries == [] then []
    else if entries[|entries| - 1].stored then Unstored(entries[..|entries| - 1])
    else Unstored(entries[..|entries| - 1]) + [entries[|entries| - 1].doc]
  }

  lemma {:induction false} UnstoredAppend(a: seq<Open>, b: seq<Open>)
    ensures Unstored(a + b) == Unstored(a) + Unstored(b)
  {
    if b == [] {
      assert a + b == a;
    } else {
      UnstoredAppend(a, b[..|b| - 1]);
      assert (a + b)[..|a + b| - 1] == a + b[..|b| - 1];
    }
  }

  function One(entry: Open): multiset<Face> {
    if entry.stored then multiset{} else multiset{FaceOf(entry.doc)}
  }

  lemma OneBag(entry: Open)
    ensures Bag(Unstored([entry])) == One(entry)
  {
    assert [entry][..0] == [];
    BagOne(entry.doc);
    assert Faces([]) == [];
  }

  lemma UnstoredBags(a: seq<Open>, b: seq<Open>)
    ensures Bag(Unstored(a + b)) == Bag(Unstored(a)) + Bag(Unstored(b))
  {
    UnstoredAppend(a, b);
    BagAppend(Unstored(a), Unstored(b));
  }

  lemma UnstoredJoin(a: seq<Open>, entry: Open, b: seq<Open>)
    ensures Bag(Unstored(a + [entry] + b)) == Bag(Unstored(a)) + One(entry) + Bag(Unstored(b))
  {
    UnstoredBags(a + [entry], b);
    UnstoredBags(a, [entry]);
    OneBag(entry);
  }

  lemma SplitAt(entries: seq<Open>, i: nat)
    requires i < |entries|
    ensures entries[..i] + [entries[i]] + entries[i + 1..] == entries
  {
  }

  /** An entry's part of the bag. */
  lemma UnstoredHere(entries: seq<Open>, i: nat)
    requires i < |entries|
    ensures Bag(Unstored(entries)) == Bag(Unstored(entries[..i])) + One(entries[i]) + Bag(Unstored(entries[i + 1..]))
  {
    SplitAt(entries, i);
    UnstoredJoin(entries[..i], entries[i], entries[i + 1..]);
  }

  lemma UnstoredRemoved(entries: seq<Open>, i: nat)
    requires i < |entries|
    ensures Bag(Unstored(entries[..i] + entries[i + 1..])) + One(entries[i]) == Bag(Unstored(entries))
  {
    UnstoredHere(entries, i);
    UnstoredBags(entries[..i], entries[i + 1..]);
  }

  lemma UnstoredReplaced(entries: seq<Open>, i: nat, entry: Open)
    requires i < |entries| && One(entry) == One(entries[i])
    ensures Bag(Unstored(entries[i := entry])) == Bag(Unstored(entries))
  {
    UnstoredHere(entries, i);
    UnstoredHere(entries[i := entry], i);
  }

  function AllUnstored(open: map<string, seq<Open>>, roster: seq<string>): seq<Doc> {
    if roster == [] then []
    else AllUnstored(open, roster[..|roster| - 1]) + Unstored(OpenOf(open, roster[|roster| - 1]))
  }

  lemma {:induction false} AllUnstoredSame(
    open: map<string, seq<Open>>, after: map<string, seq<Open>>, roster: seq<string>)
    requires forall i | 0 <= i < |roster| :: OpenOf(after, roster[i]) == OpenOf(open, roster[i])
    ensures AllUnstored(after, roster) == AllUnstored(open, roster)
  {
    if roster != [] {
      AllUnstoredSame(open, after, roster[..|roster| - 1]);
    }
  }

  lemma BagsSwap(a: multiset<Face>, b: multiset<Face>, c: multiset<Face>)
    ensures (a + b) + c == (a + c) + b
  {}

  lemma BagsExchange(a: multiset<Face>, b: multiset<Face>, c: multiset<Face>, d: multiset<Face>, rest: multiset<Face>)
    requires a + b == c + d
    ensures (a + rest) + b == (c + rest) + d
  {
    assert (a + rest) + b == (a + b) + rest;
    assert (c + rest) + d == (c + d) + rest;
  }

  lemma BagsCancel(a: multiset<Face>, b: multiset<Face>, rest: multiset<Face>)
    requires a + rest == b + rest
    ensures a == b
  {
    forall face ensures a[face] == b[face] {
      assert (a + rest)[face] == (b + rest)[face];
    }
  }

  lemma AllUnstoredLast(open: map<string, seq<Open>>, roster: seq<string>)
    requires roster != []
    ensures Bag(AllUnstored(open, roster))
            == Bag(AllUnstored(open, roster[..|roster| - 1])) + Bag(Unstored(OpenOf(open, roster[|roster| - 1])))
  {
    BagAppend(AllUnstored(open, roster[..|roster| - 1]), Unstored(OpenOf(open, roster[|roster| - 1])));
  }

  lemma {:induction false} AllUnstoredChange(
    open: map<string, seq<Open>>, deviceId: string, entries: seq<Open>, roster: seq<string>)
    requires Distinct(roster) && deviceId in roster
    ensures Bag(AllUnstored(open[deviceId := entries], roster)) + Bag(Unstored(OpenOf(open, deviceId)))
            == Bag(AllUnstored(open, roster)) + Bag(Unstored(entries))
  {
    var after := open[deviceId := entries];
    var front, last := roster[..|roster| - 1], roster[|roster| - 1];
    assert roster == front + [last];
    AllUnstoredLast(after, roster);
    AllUnstoredLast(open, roster);
    if last == deviceId {
      AllUnstoredSame(open, after, front);
      BagsSwap(Bag(AllUnstored(open, front)), Bag(Unstored(entries)), Bag(Unstored(OpenOf(open, deviceId))));
    } else {
      AllUnstoredChange(open, deviceId, entries, front);
      assert OpenOf(after, last) == OpenOf(open, last);
      BagsExchange(Bag(AllUnstored(after, front)), Bag(Unstored(OpenOf(open, deviceId))),
        Bag(AllUnstored(open, front)), Bag(Unstored(entries)), Bag(Unstored(OpenOf(open, last))));
    }
  }

  // The link between the live collection, the sink's collection and the open occurrences.

  function ActiveFace(docs: seq<Doc>, key: string): Option<Face> {
    var index := Find(docs, key);
    if index == |docs| then None else Some(FaceOf(docs[index]))
  }

  predicate Linked(live: seq<Doc>, docs: seq<Doc>, entries: seq<Open>, key: string) {
    var i := IndexOf(entries, key);
    if i == |entries| then ActiveFace(live, key) == None && ActiveFace(docs, key) == None
    else
      ActiveFace(live, key) == Some(FaceOf(entries[i].doc))
      && ActiveFace(docs, key) == if entries[i].stored then ActiveFace(live, key) else None
  }

  predicate WellOpened(entries: seq<Open>, deviceId: string) {
    && (forall i | 0 <= i < |entries| ::
          entries[i].doc.active && entries[i].doc.key == Key(deviceId, entries[i].doc.alertId))
    && (forall i, j | 0 <= i < j < |entries| :: entries[i].doc.key != entries[j].doc.key)
  }

  /** No device of the collection or the roster has an id that extends another's. */
  predicate RosterApart(docs: seq<Doc>, roster: seq<string>) {
    && Distinct(roster)
    && (forall a, b | a in roster && b in roster && a != b :: Apart(a, b))
    && (forall a, i | a in roster && 0 <= i < |docs| && docs[i].deviceId != a :: Apart(a, docs[i].deviceId))
  }

  predicate NoneActive(docs: seq<Doc>) {
    forall i | 0 <= i < |docs| :: !docs[i].active
  }

  ghost predicate AllLinked(live: seq<Doc>, s: Sink, roster: seq<string>) {
    forall deviceId, alertId | deviceId in roster ::
      Linked(live, s.docs, OpenOf(s.open, deviceId), Key(deviceId, alertId))
  }

  predicate AllWellOpened(s: Sink, roster: seq<string>) {
    forall deviceId <- roster :: WellOpened(OpenOf(s.open, deviceId), deviceId)
  }

  ghost predicate Shaped(live: seq<Doc>, s: Sink, roster: seq<string>) {
    && Orderly(live) && OneActivePerKey(s.docs) && RosterApart(live, roster)
    && NoneActive(s.closed) && AllWellOpened(s, roster) && AllLinked(live, s, roster)
  }

  predicate SameBag(live: seq<Doc>, s: Sink, roster: seq<string>) {
    Bag(live) == Bag(s.docs) + Bag(s.closed) + Bag(AllUnstored(s.open, roster))
  }

  ghost predicate Matches(live: seq<Doc>, s: Sink, roster: seq<string>) {
    Shaped(live, s, roster) && SameBag(live, s, roster)
  }

  // One alert.

  lemma UpsertMovesOneFace(docs: seq<Doc>, deviceId: string, alert: Alert, at: int, key: string)
    ensures var after := UpsertDoc(docs, deviceId, alert, at);
            ActiveFace(after, key)
            == if key == Key(deviceId, alert.id) && ActiveFace(docs, key) == None
               then Some(FaceOf(NewDoc(deviceId, alert, at)))
               else ActiveFace(docs, key)
  {
    var own := Key(deviceId, alert.id);
    var index := Find(docs, own);
    var after := UpsertDoc(docs, deviceId, alert, at);
    var was, now := Find(docs, key), Find(after, key);
    assert forall i | 0 <= i < |docs| :: IsActive(after[i], key) == IsActive(docs[i], key);
    if was < |docs| {
      assert now == was;
    } else if index == |docs| {
      assert IsActive(after[|docs|], own);
      assert now == if key == own then |docs| else |after|;
    } else {
      assert now == |after|;
    }
  }

  lemma SameFaceSameBag(docs: seq<Doc>, i: nat, doc: Doc)
    requires i < |docs| && FaceOf(doc) == FaceOf(docs[i])
    ensures Bag(docs[i := doc]) == Bag(docs)
  {
    assert Faces(docs[i := doc]) == Faces(docs);
  }

  lemma UpsertBag(docs: seq<Doc>, deviceId: string, alert: Alert, at: int)
    ensures Bag(UpsertDoc(docs, deviceId, alert, at))
            == Bag(docs) + if ActiveFace(docs, Key(deviceId, alert.id)).Some? then multiset{}
                           else multiset{FaceOf(NewDoc(deviceId, alert, at))}
  {
    var index := Find(docs, Key(deviceId, alert.id));
    if index < |docs| {
      SameFaceSameBag(docs, index, Refreshed(docs[index], deviceId, alert, at));
    } else {
      BagAppend(docs, [NewDoc(deviceId, alert, at)]);
      BagOne(NewDoc(deviceId, alert, at));
    }
  }

  lemma TouchKeepsShape(live: seq<Doc>, s: Sink, roster: seq<string>, deviceId: string, alert: Alert, at: int)
    requires Shaped(live, s, roster) && deviceId in roster
    ensures var entries := Touch(OpenOf(s.open, deviceId), deviceId, alert, at);
            Shaped(UpsertDoc(live, deviceId, alert, at), s.(open := s.open[deviceId := entries]), roster)
  {
    var old_ := OpenOf(s.open, deviceId);
    var entries := Touch(old_, deviceId, alert, at);
    var after := UpsertDoc(live, deviceId, alert, at);
    var next := s.(open := s.open[deviceId := entries]);
    var own := Key(deviceId, alert.id);
    UpsertKeepsOrder(live, deviceId, alert, at);
    assert RosterApart(after, roster) by { UpsertKeepsApart(live, roster, deviceId, alert, at); }
    assert Linked(live, s.docs, old_, own);
    forall d, a | d in roster ensures Linked(after, s.docs, OpenOf(next.open, d), Key(d, a)) {
      var key := Key(d, a);
      assert Linked(live, s.docs, OpenOf(s.open, d), key);
      UpsertMovesOneFace(live, deviceId, alert, at, key);
      if d == deviceId {
        TouchIndex(old_, deviceId, alert, at, key);
      } else {
        KeysCollideIffIdsExtend(d, deviceId);
      }
    }
    assert AllWellOpened(next, roster) by { TouchKeepsOpened(old_, deviceId, alert, at); }
  }

  lemma UpsertKeepsApart(live: seq<Doc>, roster: seq<string>, deviceId: string, alert: Alert, at: int)
    requires RosterApart(live, roster) && deviceId in roster
    ensures RosterApart(UpsertDoc(live, deviceId, alert, at), roster)
  {
    var after := UpsertDoc(live, deviceId, alert, at);
    forall a, i | a in roster && 0 <= i < |after| && after[i].deviceId != a ensures Apart(a, after[i].deviceId) {
      if i < |live| && after[i].deviceId == live[i].deviceId {
        assert Apart(a, live[i].deviceId);
      }
    }
  }

  lemma TouchKeepsOpened(entries: seq<Open>, deviceId: string, alert: Alert, at: int)
    requires WellOpened(entries, deviceId)
    ensures WellOpened(Touch(entries, deviceId, alert, at), deviceId)
  {
    var index := IndexOf(entries, Key(deviceId, alert.id));
    if index == |entries| {
      assert forall i | 0 <= i < |entries| :: entries[i].doc.key != Key(deviceId, alert.id);
    }
  }

  lemma TouchIndex(entries: seq<Open>, deviceId: string, alert: Alert, at: int, key: string)
    requires WellOpened(entries, deviceId)
    ensures var after := Touch(entries, deviceId, alert, at);
            var was, now := IndexOf(entries, key), IndexOf(after, key);
            if was < |entries| then
              now == was && FaceOf(after[now].doc) == FaceOf(entries[was].doc) && after[now].stored == entries[was].stored
            else if key == Key(deviceId, alert.id) then
              now < |after| && after[now] == Open(NewDoc(deviceId, alert, at), false)
            else now == |after|
  {
    var after := Touch(entries, deviceId, alert, at);
    assert forall i | 0 <= i < |entries| :: after[i].doc.key == entries[i].doc.key;
    var was, now := IndexOf(entries, key), IndexOf(after, key);
    if was < |entries| {
      assert now == was;
    } else if key == Key(deviceId, alert.id) {
      assert after[|entries|].doc.key == key;
      assert now == |entries|;
    } else {
      assert now == |after|;
    }
  }

  lemma TouchBag(entries: seq<Open>, deviceId: string, alert: Alert, at: int)
    requires WellOpened(entries, deviceId)
    ensures Bag(Unstored(Touch(entries, deviceId, alert, at)))
            == Bag(Unstored(entries)) + if IndexOf(entries, Key(deviceId, alert.id)) < |entries| then multiset{}
                                        else multiset{FaceOf(NewDoc(deviceId, alert, at))}
  {
    var index := IndexOf(entries, Key(deviceId, alert.id));
    if index < |entries| {
      UnstoredReplaced(entries, index, entries[index].(doc := Refreshed(entries[index].doc, deviceId, alert, at)));
    } else {
      AddBag(entries, NewDoc(deviceId, alert, at));
    }
  }

  lemma AddBag(entries: seq<Open>, doc: Doc)
    ensures Bag(Unstored(entries + [Open(doc, false)])) == Bag(Unstored(entries)) + multiset{FaceOf(doc)}
  {
    UnstoredBags(entries, [Open(doc, false)]);
    OneBag(Open(doc, false));
  }

  lemma BothGrow(
    live: multiset<Face>, docs: multiset<Face>, closed: multiset<Face>, all: multiset<Face>, next: multiset<Face>,
    was: multiset<Face>, own: multiset<Face>, extra: multiset<Face>)
    requires live == docs + closed + all && next + was == all + own && own == was + extra
    ensures live + extra == docs + closed + next
  {
    assert next + was == (all + extra) + was;
    BagsCancel(next, all + extra, was);
  }

  lemma TouchKeepsBag(live: seq<Doc>, s: Sink, roster: seq<string>, deviceId: string, alert: Alert, at: int)
    requires Matches(live, s, roster) && deviceId in roster
    ensures var entries := Touch(OpenOf(s.open, deviceId), deviceId, alert, at);
            SameBag(UpsertDoc(live, deviceId, alert, at), s.(open := s.open[deviceId := entries]), roster)
  {
    var was := OpenOf(s.open, deviceId);
    var entries := Touch(was, deviceId, alert, at);
    assert Linked(live, s.docs, was, Key(deviceId, alert.id));
    UpsertBag(live, deviceId, alert, at);
    TouchBag(was, deviceId, alert, at);
    AllUnstoredChange(s.open, deviceId, entries, roster);
    BothGrow(Bag(live), Bag(s.docs), Bag(s.closed), Bag(AllUnstored(s.open, roster)),
      Bag(AllUnstored(s.open[deviceId := entries], roster)), Bag(Unstored(was)), Bag(Unstored(entries)),
      if IndexOf(was, Key(deviceId, alert.id)) < |was| then multiset{} else multiset{FaceOf(NewDoc(deviceId, alert, at))});
  }

  lemma SameOpenMatches(live: seq<Doc>, s: Sink, open: map<string, seq<Open>>, roster: seq<string>)
    requires Matches(live, s, roster)
    requires forall d <- roster :: OpenOf(open, d) == OpenOf(s.open, d)
    ensures Matches(live, s.(open := open), roster)
  {
    var next := s.(open := open);
    AllUnstoredSame(s.open, open, roster);
    forall d, a | d in roster ensures Linked(live, next.docs, OpenOf(next.open, d), Key(d, a)) {
      assert Linked(live, s.docs, OpenOf(s.open, d), Key(d, a));
    }
  }

  function Touched(s: Sink, deviceId: string, alerts: seq<Alert>, at: int, count: nat): Sink
    requires count <= |alerts|
  {
    s.(open := s.open[deviceId := TouchAll(OpenOf(s.open, deviceId), deviceId, alerts, at, count)])
  }

  lemma TouchedNext(s: Sink, deviceId: string, alerts: seq<Alert>, at: int, count: nat)
    requires 0 < count <= |alerts|
    ensures var before := Touched(s, deviceId, alerts, at, count - 1);
            var entries := Touch(OpenOf(before.open, deviceId), deviceId, alerts[count - 1], at);
            Touched(s, deviceId, alerts, at, count) == before.(open := before.open[deviceId := entries])
  {}

  lemma NothingTouched(live: seq<Doc>, s: Sink, roster: seq<string>, deviceId: string, alerts: seq<Alert>, at: int)
    requires Matches(live, s, roster)
    ensures Matches(UpsertAll(live, deviceId, alerts, at, InOrder(0)), Touched(s, deviceId, alerts, at, 0), roster)
  {
    var touched := Touched(s, deviceId, alerts, at, 0);
    assert UpsertAll(live, deviceId, alerts, at, InOrder(0)) == live;
    assert forall d :: OpenOf(touched.open, d) == OpenOf(s.open, d);
    SameOpenMatches(live, s, touched.open, roster);
  }

  lemma {:induction false} TouchAllMatches(
    live: seq<Doc>, s: Sink, roster: seq<string>, deviceId: string, alerts: seq<Alert>, at: int, count: nat)
    requires Matches(live, s, roster) && deviceId in roster && count <= |alerts|
    ensures Matches(UpsertAll(live, deviceId, alerts, at, InOrder(count)), Touched(s, deviceId, alerts, at, count), roster)
    decreases count
  {
    if count == 0 {
      NothingTouched(live, s, roster, deviceId, alerts, at);
    } else {
      TouchAllMatches(live, s, roster, deviceId, alerts, at, count - 1);
      TouchNextMatches(live, s, roster, deviceId, alerts, at, count);
    }
  }

  lemma TouchNextMatches(
    live: seq<Doc>, s: Sink, roster: seq<string>, deviceId: string, alerts: seq<Alert>, at: int, count: nat)
    requires deviceId in roster && 0 < count <= |alerts|
    requires Matches(UpsertAll(live, deviceId, alerts, at, InOrder(count - 1)),
                     Touched(s, deviceId, alerts, at, count - 1), roster)
    ensures Matches(UpsertAll(live, deviceId, alerts, at, InOrder(count)), Touched(s, deviceId, alerts, at, count), roster)
  {
    UpsertAllNext(live, deviceId, alerts, at, count);
    TouchedNext(s, deviceId, alerts, at, count);
    TouchOneMatches(UpsertAll(live, deviceId, alerts, at, InOrder(count - 1)),
      Touched(s, deviceId, alerts, at, count - 1), roster, deviceId, alerts[count - 1], at);
  }

  lemma UpsertAllNext(live: seq<Doc>, deviceId: string, alerts: seq<Alert>, at: int, count: nat)
    requires 0 < count <= |alerts|
    ensures UpsertAll(live, deviceId, alerts, at, InOrder(count))
            == UpsertDoc(UpsertAll(live, deviceId, alerts, at, InOrder(count - 1)), deviceId, alerts[count - 1], at)
  {
    assert InOrder(count)[..count - 1] == InOrder(count - 1);
  }

  lemma TouchOneMatches(live: seq<Doc>, s: Sink, roster: seq<string>, deviceId: string, alert: Alert, at: int)
    requires Matches(live, s, roster) && deviceId in roster
    ensures var entries := Touch(OpenOf(s.open, deviceId), deviceId, alert, at);
            Matches(UpsertDoc(live, deviceId, alert, at), s.(open := s.open[deviceId := entries]), roster)
  {
    TouchKeepsShape(live, s, roster, deviceId, alert, at);
    TouchKeepsBag(live, s, roster, deviceId, alert, at);
  }
}
