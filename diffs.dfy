/** The change detector of utils/meetings/computeMeetingDiffs.ts: which
    incoming events become inserts, which become updates, and which stored
    meetings are gone. Incoming events are matched against the stored
    `external_event_id`. */
module MeetingDiffs {
  import opened Js
  import opened Seqs
  import opened Meetings

  /** A stored meeting as read back (`Partial<Meeting>`): any column may be
      missing, the external id included. */
  datatype Existing = Existing(
    id: Option<nat>,
    externalEventId: Option<string>,
    content: Content,
    createdAt: Option<string>)

  /** A row to insert: the account's ids plus the event's provider and content. */
  datatype InsertRow = InsertRow(
    userId: string,
    linkedAccountId: string,
    externalEventId: string,
    provider: string,
    content: Content)

  /** A full row to write over a stored meeting. `updatedAt` is `new Date()`;
      `id` and `createdAt` are copied from the stored meeting. */
  datatype UpdateRow = UpdateRow(
    externalEventId: string,
    content: Content,
    updatedAt: string,
    id: Option<nat>,
    linkedAccountId: string,
    userId: string,
    createdAt: Option<string>,
    provider: string)

  /** `new Set(existingMeetings.map((m) => String(m.external_event_id)))`:
      a missing id is stringified to "undefined". */
  function ExistingKeys(existing: seq<Existing>): set<string> {
    set m | m in existing :: Template(m.externalEventId)
  }

  predicate IsNew(existing: seq<Existing>, e: Event) {
    e.id !in ExistingKeys(existing)
  }

  function ToInsertRow(e: Event, accountId: string, userId: string): InsertRow {
    InsertRow(userId, accountId, e.id, e.provider, e.content)
  }

  /** `computeInsertData`. */
  function ComputeInsertData(events: seq<Event>, existing: seq<Existing>, accountId: string, userId: string): (r: seq<InsertRow>)
    ensures |r| <= |events|
    ensures forall i :: 0 <= i < |r| ==>
              && r[i].userId == userId && r[i].linkedAccountId == accountId
              && r[i].externalEventId !in ExistingKeys(existing)
              && exists e :: e in events && r[i] == InsertRow(userId, accountId, e.id, e.provider, e.content)
    ensures forall e :: e in events && IsNew(existing, e) ==> InsertRow(userId, accountId, e.id, e.provider, e.content) in r
  {
    var unseen := Filter(events, e => IsNew(existing, e));
    var r := MapSeq(unseen, e => ToInsertRow(e, accountId, userId));
    assert forall e :: e in unseen ==> ToInsertRow(e, accountId, userId) in r by {
      forall e | e in unseen ensures ToInsertRow(e, accountId, userId) in r {
        var j :| 0 <= j < |unseen| && unseen[j] == e;
        assert r[j] == ToInsertRow(e, accountId, userId);
      }
    }
    r
  }

  /** Insert rows come in the order of their events, one row per occurrence of a new event. */
  lemma InsertOrderAndMultiplicity(events: seq<Event>, existing: seq<Existing>, accountId: string, userId: string)
    ensures var unseen := Filter(events, e => IsNew(existing, e));
            && IsSubsequence(unseen, events)
            && ComputeInsertData(events, existing, accountId, userId) == MapSeq(unseen, e => ToInsertRow(e, accountId, userId))
            && forall e :: multiset(unseen)[e] == if IsNew(existing, e) then multiset(events)[e] else 0
  {
    var isNew := e => IsNew(existing, e);
    FilterIsSubsequence(events, isNew);
    forall e ensures multiset(Filter(events, isNew))[e] == if IsNew(existing, e) then multiset(events)[e] else 0 {
      FilterMultiplicity(events, isNew, e);
    }
  }

  /** `existingMeetings.some((m) => m.external_event_id === event.id)`. */
  predicate HasMatch(existing: seq<Existing>, id: string) {
    exists m :: m in existing && m.externalEventId == Some(id)
  }

  /** The position of the first stored meeting with external id `id`, or -1. */
  function FirstMatch(existing: seq<Existing>, id: string): (k: int)
    ensures -1 <= k < |existing|
    ensures k >= 0 ==> existing[k].externalEventId == Some(id) &&
                       forall j :: 0 <= j < k ==> existing[j].externalEventId != Some(id)
    ensures k == -1 <==> forall j :: 0 <= j < |existing| ==> existing[j].externalEventId != Some(id)
  {
    if existing == [] then -1
    else if existing[0].externalEventId == Some(id) then 0
    else
      var k := FirstMatch(existing[1..], id);
      if k == -1 then -1 else k + 1
  }

  /** `existingMeetings.find((m) => m.external_event_id === event.id)`. */
  function FindExisting(existing: seq<Existing>, id: string): (r: Option<Existing>)
    ensures r.Some? <==> HasMatch(existing, id)
    ensures r.Some? ==> r.value in existing && r.value.externalEventId == Some(id)
    ensures r.Some? ==> r.value == existing[FirstMatch(existing, id)]
  {
    var k := FirstMatch(existing, id);
    if k >= 0 then Some(existing[k])
    else
      assert forall m :: m in existing ==> m.externalEventId != Some(id);
      None
  }

  /** `hasChanges`: the eight compared columns, attendees by serialised form. */
  predicate HasChanges(stored: Content, incoming: Content) {
    || stored.name != incoming.name
    || stored.startDate != incoming.startDate
    || stored.endDate != incoming.endDate
    || stored.attendees != incoming.attendees
    || stored.location != incoming.location
    || stored.link != incoming.link
    || stored.message != incoming.message
    || stored.status != incoming.status
  }

  /** The eight compared columns are all of the content: a change is detected
      exactly when the contents differ. */
  lemma HasChangesIffDiffer(stored: Content, incoming: Content)
    ensures HasChanges(stored, incoming) <==> stored != incoming
  {
  }

  predicate NeedsUpdate(existing: seq<Existing>, e: Event) {
    var m := FindExisting(existing, e.id);
    m.Some? && HasChanges(m.value.content, e.content)
  }

  /** The `.map` step: the row for an event, or null when it has no match or nothing changed. */
  function UpdateCandidate(e: Event, existing: seq<Existing>, accountId: string, userId: string, now: string): Option<UpdateRow> {
    match FindExisting(existing, e.id)
    case None => None
    case Some(m) =>
      if !HasChanges(m.content, e.content) then None
      else Some(UpdateRow(e.id, e.content, now, m.id, accountId, userId, m.createdAt, e.provider))
  }

  /** `computeUpdateData`. */
  function ComputeUpdateData(events: seq<Event>, existing: seq<Existing>, accountId: string, userId: string, now: string): (r: seq<UpdateRow>)
    ensures |r| <= |events|
    // every row updates the first stored meeting with that id, carrying over its
    // `id` and `created_at`, and holds content that differs from the stored one
    ensures forall i :: 0 <= i < |r| ==>
              var m := FindExisting(existing, r[i].externalEventId);
              && m.Some?
              && r[i].id == m.value.id && r[i].createdAt == m.value.createdAt
              && HasChanges(m.value.content, r[i].content)
              && r[i].linkedAccountId == accountId && r[i].userId == userId && r[i].updatedAt == now
    // every row is the content of some incoming event
    ensures forall i :: 0 <= i < |r| ==>
              exists e :: e in events && e.id == r[i].externalEventId && e.content == r[i].content && e.provider == r[i].provider
    // every incoming event that matches and changed has its row
    ensures forall e :: e in events && NeedsUpdate(existing, e) ==>
              exists i :: 0 <= i < |r| && r[i].externalEventId == e.id && r[i].content == e.content && r[i].provider == e.provider
  {
    var matched := Filter(events, (e: Event) => HasMatch(existing, e.id));
    var candidates := MapSeq(matched, e => UpdateCandidate(e, existing, accountId, userId, now));
    UpdateRowsSound(events, matched, candidates, existing, accountId, userId, now);
    UpdateRowsComplete(events, matched, candidates, existing, accountId, userId, now);
    Somes(candidates)
  }

  /** Each kept candidate is the update row of a matched incoming event. */
  lemma UpdateRowsSound(events: seq<Event>, matched: seq<Event>, candidates: seq<Option<UpdateRow>>,
                        existing: seq<Existing>, accountId: string, userId: string, now: string)
    requires forall k :: 0 <= k < |matched| ==> matched[k] in events
    requires |candidates| == |matched|
    requires forall k :: 0 <= k < |matched| ==> candidates[k] == UpdateCandidate(matched[k], existing, accountId, userId, now)
    ensures var r := Somes(candidates);
            forall i :: 0 <= i < |r| ==>
              var m := FindExisting(existing, r[i].externalEventId);
              && m.Some?
              && r[i].id == m.value.id && r[i].createdAt == m.value.createdAt
              && HasChanges(m.value.content, r[i].content)
              && r[i].linkedAccountId == accountId && r[i].userId == userId && r[i].updatedAt == now
              && exists e :: e in events && e.id == r[i].externalEventId && e.content == r[i].content && e.provider == r[i].provider
  {
    var r := Somes(candidates);
    forall i | 0 <= i < |r|
      ensures var m := FindExisting(existing, r[i].externalEventId);
              && m.Some?
              && r[i].id == m.value.id && r[i].createdAt == m.value.createdAt
              && HasChanges(m.value.content, r[i].content)
              && r[i].linkedAccountId == accountId && r[i].userId == userId && r[i].updatedAt == now
              && exists e :: e in events && e.id == r[i].externalEventId && e.content == r[i].content && e.provider == r[i].provider
    {
      var k :| 0 <= k < |candidates| && candidates[k] == Some(r[i]);
      assert matched[k] in events;
    }
  }

  /** Every matched incoming event with changed content keeps its candidate. */
  lemma UpdateRowsComplete(events: seq<Event>, matched: seq<Event>, candidates: seq<Option<UpdateRow>>,
                           existing: seq<Existing>, accountId: string, userId: string, now: string)
    requires forall e :: e in events && HasMatch(existing, e.id) ==> e in matched
    requires |candidates| == |matched|
    requires forall k :: 0 <= k < |matched| ==> candidates[k] == UpdateCandidate(matched[k], existing, accountId, userId, now)
    ensures forall e :: e in events && NeedsUpdate(existing, e) ==>
              exists i :: 0 <= i < |Somes(candidates)| && Somes(candidates)[i].externalEventId == e.id &&
                          Somes(candidates)[i].content == e.content && Somes(candidates)[i].provider == e.provider
  {
    var r := Somes(candidates);
    forall e | e in events && NeedsUpdate(existing, e)
      ensures exists i :: 0 <= i < |r| && r[i].externalEventId == e.id && r[i].content == e.content && r[i].provider == e.provider
    {
      assert HasMatch(existing, e.id) && e in matched;
      var k :| 0 <= k < |matched| && matched[k] == e;
      var m := FindExisting(existing, e.id).value;
      assert candidates[k] == Some(UpdateRow(e.id, e.content, now, m.id, accountId, userId, m.createdAt, e.provider));
      var i :| 0 <= i < |r| && r[i] == candidates[k].value;
      assert r[i].externalEventId == e.id;
    }
    assert r == Somes(candidates);
  }

  /** An incoming event produces an update row exactly when a stored meeting has
      its id and one of the eight columns differs. */
  lemma UpdateIff(events: seq<Event>, existing: seq<Existing>, accountId: string, userId: string, now: string, e: Event)
    requires e in events
    ensures (exists i :: 0 <= i < |ComputeUpdateData(events, existing, accountId, userId, now)| &&
                        var row := ComputeUpdateData(events, existing, accountId, userId, now)[i];
                        row.externalEventId == e.id && row.content == e.content)
            <==> (HasMatch(existing, e.id) && HasChanges(FindExisting(existing, e.id).value.content, e.content))
  {
    var r := ComputeUpdateData(events, existing, accountId, userId, now);
    if HasMatch(existing, e.id) && HasChanges(FindExisting(existing, e.id).value.content, e.content) {
      assert NeedsUpdate(existing, e);
    }
  }

  /** An event the stored data already has leaves no update behind. */
  lemma UnchangedEventNotUpdated(events: seq<Event>, existing: seq<Existing>, accountId: string, userId: string, now: string, e: Event)
    requires HasMatch(existing, e.id) && FindExisting(existing, e.id).value.content == e.content
    ensures forall row :: row in ComputeUpdateData(events, existing, accountId, userId, now) ==>
              row.externalEventId != e.id || row.content != e.content
  {
  }

  /** For string ids, no id is both inserted and updated. */
  lemma InsertUpdateDisjoint(events: seq<Event>, existing: seq<Existing>, accountId: string, userId: string, now: string)
    ensures forall i, j ::
              0 <= i < |ComputeInsertData(events, existing, accountId, userId)| &&
              0 <= j < |ComputeUpdateData(events, existing, accountId, userId, now)| ==>
              ComputeInsertData(events, existing, accountId, userId)[i].externalEventId !=
              ComputeUpdateData(events, existing, accountId, userId, now)[j].externalEventId
  {
    var ins := ComputeInsertData(events, existing, accountId, userId);
    var upd := ComputeUpdateData(events, existing, accountId, userId, now);
    forall i, j | 0 <= i < |ins| && 0 <= j < |upd| ensures ins[i].externalEventId != upd[j].externalEventId {
      var m := FindExisting(existing, upd[j].externalEventId).value;
      assert Template(m.externalEventId) == upd[j].externalEventId;
      assert upd[j].externalEventId in ExistingKeys(existing);
    }
  }

  /** The String() conversion is one-sided: a stored meeting without an
      external id shadows an incoming event whose id is the text "undefined",
      which is then neither inserted nor updated. */
  lemma UndefinedKeyShadowsEvent(e: Event, m: Existing, accountId: string, userId: string, now: string)
    requires e.id == "undefined" && m.externalEventId.None?
    ensures ComputeInsertData([e], [m], accountId, userId) == []
    ensures ComputeUpdateData([e], [m], accountId, userId, now) == []
  {
    assert Template(m.externalEventId) in ExistingKeys([m]);
    assert !HasMatch([m], e.id);
  }

  /** No incoming event has the stored meeting's external id. */
  predicate IsGone(events: seq<Event>, m: Existing) {
    !exists e :: e in events && Some(e.id) == m.externalEventId
  }

  /** `computeDeletions`. */
  function ComputeDeletions(events: seq<Event>, existing: seq<Existing>): (r: seq<string>)
    ensures |r| <= |existing|
    ensures forall i :: 0 <= i < |r| ==>
              (exists m :: m in existing && m.externalEventId == Some(r[i])) &&
              forall e :: e in events ==> e.id != r[i]
    ensures forall m :: m in existing && m.externalEventId.Some? &&
                        (forall e :: e in events ==> e.id != m.externalEventId.value) ==>
              m.externalEventId.value in r
  {
    var gone := Filter(existing, (m: Existing) => IsGone(events, m));
    var ids := MapSeq(gone, (m: Existing) => m.externalEventId);
    var r := Somes(ids);
    assert forall i :: 0 <= i < |r| ==> exists k :: 0 <= k < |ids| && ids[k] == Some(r[i]);
    forall m | m in existing && m.externalEventId.Some? && (forall e :: e in events ==> e.id != m.externalEventId.value)
      ensures m.externalEventId.value in r
    {
      var k :| 0 <= k < |gone| && gone[k] == m;
      assert ids[k] == m.externalEventId;
    }
    r
  }

  /** The stored external ids, in stored order, missing ones dropped. */
  function StoredIds(existing: seq<Existing>): seq<string> {
    Somes(MapSeq(existing, (m: Existing) => m.externalEventId))
  }

  /** Deleted ids come out in stored order. */
  lemma DeletionsInStoredOrder(events: seq<Event>, existing: seq<Existing>)
    ensures IsSubsequence(ComputeDeletions(events, existing), StoredIds(existing))
  {
    var keep := (m: Existing) => IsGone(events, m);
    var ext := (m: Existing) => m.externalEventId;
    FilterIsSubsequence(existing, keep);
    MapSubsequence(Filter(existing, keep), existing, ext);
    SomesSubsequence(MapSeq(Filter(existing, keep), ext), MapSeq(existing, ext));
  }

  /** The stored meetings hold the incoming events, in any order: every stored
      meeting carries the id of some incoming event, and every incoming event
      finds a stored meeting (the first with its id, as `find` picks) with the
      same content. */
  predicate MirrorsEvents(events: seq<Event>, existing: seq<Existing>) {
    && (forall m :: m in existing ==> exists e :: e in events && m.externalEventId == Some(e.id))
    && (forall e :: e in events ==> FindExisting(existing, e.id).Some? && FindExisting(existing, e.id).value.content == e.content)
  }

  predicate DistinctEventIds(events: seq<Event>) {
    forall i, j :: 0 <= i < j < |events| ==> events[i].id != events[j].id
  }

  /** When the stored meetings mirror the incoming events, whatever their order, there is nothing to do. */
  lemma MirroredStoreIsQuiet(events: seq<Event>, existing: seq<Existing>, accountId: string, userId: string, now: string)
    requires MirrorsEvents(events, existing)
    ensures ComputeInsertData(events, existing, accountId, userId) == []
    ensures ComputeUpdateData(events, existing, accountId, userId, now) == []
    ensures ComputeDeletions(events, existing) == []
  {
    MirrorNoInserts(events, existing, accountId, userId);
    MirrorNoUpdates(events, existing, accountId, userId, now);
    MirrorNoDeletions(events, existing);
  }

  lemma MirrorNoInserts(events: seq<Event>, existing: seq<Existing>, accountId: string, userId: string)
    requires MirrorsEvents(events, existing)
    ensures ComputeInsertData(events, existing, accountId, userId) == []
  {
    forall e | e in events ensures !IsNew(existing, e) {
      var m := FindExisting(existing, e.id).value;
      assert Template(m.externalEventId) == e.id;
    }
    FilterNoneKept(events, e => IsNew(existing, e));
  }

  lemma MirrorNoUpdates(events: seq<Event>, existing: seq<Existing>, accountId: string, userId: string, now: string)
    requires MirrorsEvents(events, existing)
    ensures ComputeUpdateData(events, existing, accountId, userId, now) == []
  {
    var matched := Filter(events, (e: Event) => HasMatch(existing, e.id));
    var candidates := MapSeq(matched, e => UpdateCandidate(e, existing, accountId, userId, now));
    forall k | 0 <= k < |candidates| ensures candidates[k].None? {
      assert matched[k] in events;
    }
    SomesAllNone(candidates);
  }

  lemma MirrorNoDeletions(events: seq<Event>, existing: seq<Existing>)
    requires MirrorsEvents(events, existing)
    ensures ComputeDeletions(events, existing) == []
  {
    FilterNoneKept(existing, (m: Existing) => IsGone(events, m));
    var gone := Filter(existing, (m: Existing) => IsGone(events, m));
    assert MapSeq(gone, (m: Existing) => m.externalEventId) == [];
  }

  /** Stored meetings laid out in the order of their events, one per event,
      are a special case of mirroring. */
  lemma AlignedStoreMirrors(events: seq<Event>, existing: seq<Existing>)
    requires DistinctEventIds(events) && |existing| == |events|
    requires forall i :: 0 <= i < |events| ==>
               existing[i].externalEventId == Some(events[i].id) && existing[i].content == events[i].content
    ensures MirrorsEvents(events, existing)
  {
    forall m | m in existing ensures exists e :: e in events && m.externalEventId == Some(e.id) {
      var k :| 0 <= k < |existing| && existing[k] == m;
      assert events[k] in events;
    }
    forall e | e in events ensures FindExisting(existing, e.id).Some? && FindExisting(existing, e.id).value.content == e.content {
      var k :| 0 <= k < |events| && events[k] == e;
      assert HasMatch(existing, e.id) by { assert existing[k] in existing; }
      var km := FirstMatch(existing, e.id);
      assert events[km].id == e.id;
    }
  }
}
