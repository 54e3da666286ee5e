/** The older `syncMeetingsToDatabase` (utils/syncMeetings.ts), on the single
    `date` column. It differs from the newer one in three ways: the marker
    filter reads plain strings, every incoming date is canonicalised with
    `new Date(date).toISOString()` while the insert and update data are
    prepared (outside the `try`, so an invalid date makes the call reject
    before anything is written), and an update writes only the seven content
    columns and `updated_at`. The apply phase is the shared one. */
module LegacySync {
  import opened Js
  import opened Seqs
  import opened Meetings
  import opened MeetingStore
  import opened Reconcile
  import opened LegacyFetch

  /** The marker test of utils/syncMeetings.ts:26-29; name and message always exist. */
  predicate LegacyIsLinkcal(e: LegacyEvent) {
    IsLinkcalMarked(Some(e.content.name), Some(e.content.message))
  }

  function LegacyFilter(events: seq<LegacyEvent>): (r: seq<LegacyEvent>)
    ensures |r| <= |events|
    ensures forall e :: e in r <==> e in events && !LegacyIsLinkcal(e)
  {
    Filter(events, (e: LegacyEvent) => !LegacyIsLinkcal(e))
  }

  /** An event with its date replaced by `canon(date)`; `canon` is
      `new Date(date).toISOString()` and is None where that throws. */
  function Canonical(e: LegacyEvent, d: string): LegacyEvent {
    e.(content := e.content.(date := d))
  }

  /** The incoming events with canonical dates, or None when one of them has a date `toISOString` rejects. */
  function CanonEvents(events: seq<LegacyEvent>, canon: string -> Option<string>): (r: Option<seq<LegacyEvent>>)
    ensures r.Some? <==> forall i :: 0 <= i < |events| ==> canon(events[i].content.date).Some?
    ensures r.Some? ==> |r.value| == |events| &&
                        forall i :: 0 <= i < |events| ==> r.value[i] == Canonical(events[i], canon(events[i].content.date).value)
  {
    if events == [] then Some([])
    else
      var d := canon(events[0].content.date);
      var rest := CanonEvents(events[1..], canon);
      assert forall i :: 1 <= i < |events| ==> events[i] == events[1..][i - 1];
      if d.None? || rest.None? then None
      else Some([Canonical(events[0], d.value)] + rest.value)
  }

  function LegacyIds(events: seq<LegacyEvent>): set<string> {
    set e | e in events :: e.id
  }

  function RowKeys(rows: seq<Row<LegacyContent>>): set<string> {
    set r | r in rows :: r.externalEventId
  }

  /** `idsToDelete`: in stored order, the stored ids no incoming event has. */
  function LegacyDeletions(events: seq<LegacyEvent>, stored: seq<Row<LegacyContent>>): (r: seq<string>)
    ensures (set k | k in r) == RowKeys(stored) - LegacyIds(events)
  {
    var gone := Filter(stored, (m: Row<LegacyContent>) => m.externalEventId !in LegacyIds(events));
    var r := MapSeq(gone, (m: Row<LegacyContent>) => m.externalEventId);
    assert forall k :: k in RowKeys(stored) - LegacyIds(events) ==> k in r by {
      forall k | k in RowKeys(stored) - LegacyIds(events) ensures k in r {
        var m :| m in stored && m.externalEventId == k;
        var j :| 0 <= j < |gone| && gone[j] == m;
        assert r[j] == k;
      }
    }
    r
  }

  /** `insertData`: one row per canonical event whose id is not stored. */
  function LegacyInserts(events: seq<LegacyEvent>, stored: seq<Row<LegacyContent>>, accountId: string, userId: string): (r: seq<NewRow<LegacyContent>>)
    ensures forall j :: 0 <= j < |r| ==>
              r[j].externalEventId !in RowKeys(stored) && r[j].linkedAccountId == accountId && r[j].userId == userId &&
              exists e :: e in events && r[j] == NewRow(userId, accountId, e.id, e.provider, e.content)
    ensures forall e :: e in events && e.id !in RowKeys(stored) ==> NewRow(userId, accountId, e.id, e.provider, e.content) in r
  {
    var unseen := Filter(events, (e: LegacyEvent) => e.id !in RowKeys(stored));
    var r := MapSeq(unseen, (e: LegacyEvent) => NewRow(userId, accountId, e.id, e.provider, e.content));
    assert forall e :: e in unseen ==> NewRow(userId, accountId, e.id, e.provider, e.content) in r by {
      forall e | e in unseen ensures NewRow(userId, accountId, e.id, e.provider, e.content) in r {
        var j :| 0 <= j < |unseen| && unseen[j] == e;
        assert r[j] == NewRow(userId, accountId, e.id, e.provider, e.content);
      }
    }
    r
  }

  /** `existingMeetings.find((m) => m.external_event_id === event.id)`. */
  function FirstRow(stored: seq<Row<LegacyContent>>, id: string): (r: Option<Row<LegacyContent>>)
    ensures r.Some? <==> id in RowKeys(stored)
    ensures r.Some? ==> r.value in stored && r.value.externalEventId == id
  {
    if stored == [] then None
    else if stored[0].externalEventId == id then Some(stored[0])
    else
      var r := FirstRow(stored[1..], id);
      assert RowKeys(stored) == {stored[0].externalEventId} + RowKeys(stored[1..]) by {
        assert forall m :: m in stored <==> m == stored[0] || m in stored[1..];
      }
      r
  }

  /** `hasChanges` of utils/syncMeetings.ts:101-109, applied to the canonical event. */
  predicate LegacyHasChanges(stored: LegacyContent, incoming: LegacyContent) {
    || stored.name != incoming.name
    || stored.date != incoming.date
    || stored.attendees != incoming.attendees
    || stored.location != incoming.location
    || stored.link != incoming.link
    || stored.message != incoming.message
    || stored.status != incoming.status
  }

  /** The seven compared columns are the whole content. */
  lemma LegacyHasChangesIffDiffer(stored: LegacyContent, incoming: LegacyContent)
    ensures LegacyHasChanges(stored, incoming) <==> stored != incoming
  {
  }

  /** The update for one canonical event, if it is stored and changed: the seven
      columns and `updated_at`, keyed by the external id. */
  function LegacyCandidate(e: LegacyEvent, stored: seq<Row<LegacyContent>>, now: string): Option<UpdateOp<LegacyContent>> {
    var m := FirstRow(stored, e.id);
    if m.Some? && LegacyHasChanges(m.value.content, e.content) then Some(UpdateOp(e.id, Patch(e.content, now, None))) else None
  }

  /** `updateData`. */
  function LegacyUpdates(events: seq<LegacyEvent>, stored: seq<Row<LegacyContent>>, now: string): (r: seq<UpdateOp<LegacyContent>>)
    ensures forall j :: 0 <= j < |r| ==>
              exists e :: e in events && LegacyCandidate(e, stored, now) == Some(r[j])
    ensures forall e :: e in events && LegacyCandidate(e, stored, now).Some? ==> LegacyCandidate(e, stored, now).value in r
  {
    var matched := Filter(events, (e: LegacyEvent) => e.id in RowKeys(stored));
    var candidates := MapSeq(matched, (e: LegacyEvent) => LegacyCandidate(e, stored, now));
    var r := Somes(candidates);
    assert forall j :: 0 <= j < |r| ==> exists k :: 0 <= k < |candidates| && candidates[k] == Some(r[j]);
    forall e | e in events && LegacyCandidate(e, stored, now).Some? ensures LegacyCandidate(e, stored, now).value in r {
      var k :| 0 <= k < |matched| && matched[k] == e;
      assert candidates[k] == LegacyCandidate(e, stored, now);
    }
    r
  }

  /** The outcome of a call: it rejects (an invalid date) or returns a value. */
  datatype LegacyResult = Rejected | Returned(value: Option<seq<LegacyEvent>>)

  datatype LegacyRun = LegacyRun(rows: seq<Row<LegacyContent>>, nextId: nat, result: LegacyResult)

  function LegacyPlan(events: seq<LegacyEvent>, canonical: seq<LegacyEvent>, stored: seq<Row<LegacyContent>>,
                      accountId: string, userId: string, now: string): Plan<LegacyContent> {
    Plan(LegacyDeletions(events, stored), LegacyInserts(canonical, stored, accountId, userId), LegacyUpdates(canonical, stored, now))
  }

  /** The whole function. */
  function LegacySyncRun(rows: seq<Row<LegacyContent>>, nextId: nat, schema: Schema<LegacyContent>, validEvents: seq<LegacyEvent>,
                         accountId: string, userId: string, now: string, canon: string -> Option<string>,
                         readFails: bool, faults: WriteFaults): LegacyRun {
    if readFails then LegacyRun(rows, nextId, Returned(None))
    else
      var events := LegacyFilter(validEvents);
      var canonical := CanonEvents(events, canon);
      if canonical.None? then LegacyRun(rows, nextId, Rejected)
      else
        var plan := LegacyPlan(events, canonical.value, AccountRows(rows, accountId), accountId, userId, now);
        var applied := ApplyPlan(rows, nextId, plan, accountId, now, faults, schema);
        LegacyRun(applied.rows, applied.nextId, Returned(if applied.threw then None else Some(events)))
  }

  method LegacySyncMeetingsToDatabase(table: MeetingsTable<LegacyContent>, validEvents: seq<LegacyEvent>, accountId: string,
                                      userId: string, now: string, canon: string -> Option<string>, readFails: bool, faults: WriteFaults)
    returns (r: LegacyResult)
    requires table.Valid()
    modifies table
    ensures table.Valid()
    ensures var run := LegacySyncRun(old(table.rows), old(table.nextId), table.schema, validEvents, accountId, userId, now,
                                     canon, readFails, faults);
            table.rows == run.rows && table.nextId == run.nextId && r == run.result
  {
    var events := LegacyFilter(validEvents);
    if readFails {
      return Returned(None);
    }
    var stored := table.Select(accountId);
    var canonical := CanonEvents(events, canon);
    if canonical.None? {
      return Rejected;
    }
    var plan := LegacyPlan(events, canonical.value, stored, accountId, userId, now);
    var threw, _ := Apply(table, plan, accountId, now, faults);
    r := Returned(if threw then None else Some(events));
  }

  /** A failed read returns null with no writes. */
  lemma LegacyReadFailureWritesNothing(rows: seq<Row<LegacyContent>>, nextId: nat, schema: Schema<LegacyContent>,
                                       validEvents: seq<LegacyEvent>, accountId: string, userId: string, now: string,
                                       canon: string -> Option<string>, faults: WriteFaults)
    ensures LegacySyncRun(rows, nextId, schema, validEvents, accountId, userId, now, canon, true, faults) ==
            LegacyRun(rows, nextId, Returned(None))
  {
  }

  /** One unparseable date among the kept events makes the call reject before any statement is issued. */
  lemma InvalidDateRejectsBeforeWrites(rows: seq<Row<LegacyContent>>, nextId: nat, schema: Schema<LegacyContent>,
                                       validEvents: seq<LegacyEvent>, accountId: string, userId: string, now: string,
                                       canon: string -> Option<string>, faults: WriteFaults, e: LegacyEvent)
    requires e in validEvents && !LegacyIsLinkcal(e) && canon(e.content.date).None?
    ensures LegacySyncRun(rows, nextId, schema, validEvents, accountId, userId, now, canon, false, faults) ==
            LegacyRun(rows, nextId, Rejected)
  {
    var events := LegacyFilter(validEvents);
    var k :| 0 <= k < |events| && events[k] == e;
  }

  /** When nothing rejects, the call returns the kept events, or null when the delete or the insert threw. */
  lemma LegacyReturnsFilteredEvents(rows: seq<Row<LegacyContent>>, nextId: nat, schema: Schema<LegacyContent>,
                                    validEvents: seq<LegacyEvent>, accountId: string, userId: string, now: string,
                                    canon: string -> Option<string>, readFails: bool, faults: WriteFaults)
    ensures var run := LegacySyncRun(rows, nextId, schema, validEvents, accountId, userId, now, canon, readFails, faults);
            run.result.Returned? && run.result.value.Some? ==>
              run.result.value.value == LegacyFilter(validEvents) &&
              forall e :: e in run.result.value.value ==> e in validEvents && !LegacyIsLinkcal(e)
  {
  }

  lemma LegacyPlanInAccount(events: seq<LegacyEvent>, canonical: seq<LegacyEvent>, stored: seq<Row<LegacyContent>>,
                            accountId: string, userId: string, now: string)
    ensures PlanInAccount(LegacyPlan(events, canonical, stored, accountId, userId, now), accountId)
  {
    var plan := LegacyPlan(events, canonical, stored, accountId, userId, now);
    forall j | 0 <= j < |plan.updates| ensures StaysInAccount(plan.updates[j].patch, accountId) {
      var e :| e in canonical && LegacyCandidate(e, stored, now) == Some(plan.updates[j]);
    }
  }

  /** Deletes and updates are scoped to the account: other accounts' meetings are untouched. */
  lemma LegacyKeepsOtherAccounts(rows: seq<Row<LegacyContent>>, nextId: nat, schema: Schema<LegacyContent>,
                                 validEvents: seq<LegacyEvent>, accountId: string, userId: string, now: string,
                                 canon: string -> Option<string>, readFails: bool, faults: WriteFaults)
    ensures OtherRows(LegacySyncRun(rows, nextId, schema, validEvents, accountId, userId, now, canon, readFails, faults).rows, accountId) ==
            OtherRows(rows, accountId)
  {
    var events := LegacyFilter(validEvents);
    var canonical := CanonEvents(events, canon);
    if !readFails && canonical.Some? {
      var plan := LegacyPlan(events, canonical.value, AccountRows(rows, accountId), accountId, userId, now);
      LegacyPlanInAccount(events, canonical.value, AccountRows(rows, accountId), accountId, userId, now);
      ApplyKeepsOtherAccounts(rows, nextId, plan, accountId, now, faults, schema);
    }
  }

  /** Inserted rows carry the canonical date `new Date(date).toISOString()` of their event. */
  lemma InsertsStoreCanonicalDate(events: seq<LegacyEvent>, canon: string -> Option<string>, stored: seq<Row<LegacyContent>>,
                                  accountId: string, userId: string)
    requires CanonEvents(events, canon).Some?
    ensures forall j :: 0 <= j < |LegacyInserts(CanonEvents(events, canon).value, stored, accountId, userId)| ==>
              var row := LegacyInserts(CanonEvents(events, canon).value, stored, accountId, userId)[j];
              exists e :: e in events && e.id == row.externalEventId && e.provider == row.provider &&
                          row.content == e.content.(date := canon(e.content.date).value)
  {
    var canonical := CanonEvents(events, canon).value;
    var ins := LegacyInserts(canonical, stored, accountId, userId);
    forall j | 0 <= j < |ins|
      ensures exists e :: e in events && e.id == ins[j].externalEventId && e.provider == ins[j].provider &&
                          ins[j].content == e.content.(date := canon(e.content.date).value)
    {
      var c :| c in canonical && ins[j] == NewRow(userId, accountId, c.id, c.provider, c.content);
      var k :| 0 <= k < |canonical| && canonical[k] == c;
      assert events[k] in events;
    }
  }

  /** An update is planned for an event exactly when its id is stored and the
      first stored row differs from the event with its date canonicalised; a
      stored row that already holds the canonical date gives no update. */
  lemma LegacyUpdateIff(events: seq<LegacyEvent>, canon: string -> Option<string>, stored: seq<Row<LegacyContent>>, now: string,
                        e: LegacyEvent)
    requires CanonEvents(events, canon).Some? && e in events
    ensures var c := Canonical(e, canon(e.content.date).value);
            UpdateOp(e.id, Patch(c.content, now, None)) in LegacyUpdates(CanonEvents(events, canon).value, stored, now) <==>
            (e.id in RowKeys(stored) && FirstRow(stored, e.id).value.content != c.content)
  {
    var canonical := CanonEvents(events, canon).value;
    var k :| 0 <= k < |events| && events[k] == e;
    var c := canonical[k];
    assert c in canonical;
    var op := UpdateOp(e.id, Patch(c.content, now, None));
    var ups := LegacyUpdates(canonical, stored, now);
    if op in ups {
      var j :| 0 <= j < |ups| && ups[j] == op;
      var x :| x in canonical && LegacyCandidate(x, stored, now) == Some(op);
      LegacyCandidateIs(x, stored, now, e.id, c.content);
    } else {
      LegacyCandidateIs(c, stored, now, e.id, c.content);
    }
  }

  /** The update planned for one event is the one patching its own id with its own content, and it is planned iff the first stored row differs. */
  lemma LegacyCandidateIs(x: LegacyEvent, stored: seq<Row<LegacyContent>>, now: string, id: string, content: LegacyContent)
    ensures LegacyCandidate(x, stored, now) == Some(UpdateOp(id, Patch(content, now, None))) <==>
            x.id == id && x.content == content && id in RowKeys(stored) && FirstRow(stored, id).value.content != content
  {
    if FirstRow(stored, x.id).Some? {
      LegacyHasChangesIffDiffer(FirstRow(stored, x.id).value.content, x.content);
    }
  }

  /** The reconciliation property of the older version: when the read, the
      canonicalisation, the delete and the insert go through, the account
      holds exactly the ids of the kept events. */
  lemma LegacyReconcilesKeys(rows: seq<Row<LegacyContent>>, nextId: nat, schema: Schema<LegacyContent>,
                             validEvents: seq<LegacyEvent>, accountId: string, userId: string, now: string,
                             canon: string -> Option<string>, faults: WriteFaults)
    requires CanonEvents(LegacyFilter(validEvents), canon).Some?
    requires PhasesCommitted(rows, LegacyPlan(LegacyFilter(validEvents), CanonEvents(LegacyFilter(validEvents), canon).value,
                                              AccountRows(rows, accountId), accountId, userId, now), accountId, faults, schema)
    ensures AccountKeys(LegacySyncRun(rows, nextId, schema, validEvents, accountId, userId, now, canon, false, faults).rows, accountId) ==
            LegacyIds(LegacyFilter(validEvents))
  {
    var events := LegacyFilter(validEvents);
    var canonical := CanonEvents(events, canon).value;
    var stored := AccountRows(rows, accountId);
    var plan := LegacyPlan(events, canonical, stored, accountId, userId, now);
    LegacyPlanInAccount(events, canonical, stored, accountId, userId, now);
    CommittedKeys(rows, nextId, plan, accountId, now, faults, schema);
    AccountRowKeys(rows, accountId);
    CanonKeepsIds(events, canon);
    LegacyInsertKeys(canonical, stored, accountId, userId);
    assert LegacySyncRun(rows, nextId, schema, validEvents, accountId, userId, now, canon, false, faults).rows ==
           ApplyPlan(rows, nextId, plan, accountId, now, faults, schema).rows;
  }

  lemma CanonKeepsIds(events: seq<LegacyEvent>, canon: string -> Option<string>)
    requires CanonEvents(events, canon).Some?
    ensures LegacyIds(CanonEvents(events, canon).value) == LegacyIds(events)
  {
    var canonical := CanonEvents(events, canon).value;
    forall x | x in LegacyIds(events) ensures x in LegacyIds(canonical) {
      var e :| e in events && e.id == x;
      var k :| 0 <= k < |events| && events[k] == e;
      assert canonical[k] in canonical;
    }
    forall x | x in LegacyIds(canonical) ensures x in LegacyIds(events) {
      var c :| c in canonical && c.id == x;
      var k :| 0 <= k < |canonical| && canonical[k] == c;
      assert events[k] in events;
    }
  }

  lemma LegacyInsertKeys(canonical: seq<LegacyEvent>, stored: seq<Row<LegacyContent>>, accountId: string, userId: string)
    ensures InsertKeys(LegacyInserts(canonical, stored, accountId, userId)) == LegacyIds(canonical) - RowKeys(stored)
  {
    var ins := LegacyInserts(canonical, stored, accountId, userId);
    forall x | x in InsertKeys(ins) ensures x in LegacyIds(canonical) - RowKeys(stored) {
      var j :| 0 <= j < |ins| && ins[j].externalEventId == x;
      var e :| e in canonical && ins[j] == NewRow(userId, accountId, e.id, e.provider, e.content);
    }
    forall x | x in LegacyIds(canonical) - RowKeys(stored) ensures x in InsertKeys(ins) {
      var e :| e in canonical && e.id == x;
      var row := NewRow(userId, accountId, e.id, e.provider, e.content);
      var j :| 0 <= j < |ins| && ins[j] == row;
    }
  }

  /** The account's keys, read through `select`. */
  lemma AccountRowKeys(rows: seq<Row<LegacyContent>>, accountId: string)
    ensures RowKeys(AccountRows(rows, accountId)) == AccountKeys(rows, accountId)
  {
    var acct := AccountRows(rows, accountId);
    forall k | k in AccountKeys(rows, accountId) ensures k in RowKeys(acct) {
      var i :| 0 <= i < |rows| && rows[i].linkedAccountId == accountId && rows[i].externalEventId == k;
      assert rows[i] in acct;
    }
    forall k | k in RowKeys(acct) ensures k in AccountKeys(rows, accountId) {
      var m :| m in acct && m.externalEventId == k;
      var i :| 0 <= i < |rows| && rows[i] == m;
    }
  }

  /** An account whose rows already hold every kept event with its canonical
      date, and nothing else, gets no statement: the table is unchanged. */
  lemma LegacyMirroredAccountIsQuiet(rows: seq<Row<LegacyContent>>, nextId: nat, schema: Schema<LegacyContent>,
                                     validEvents: seq<LegacyEvent>, accountId: string, userId: string, now: string,
                                     canon: string -> Option<string>, faults: WriteFaults)
    requires CanonEvents(LegacyFilter(validEvents), canon).Some?
    requires RowKeys(AccountRows(rows, accountId)) <= LegacyIds(LegacyFilter(validEvents))
    requires forall e :: e in LegacyFilter(validEvents) ==>
               var m := FirstRow(AccountRows(rows, accountId), e.id);
               m.Some? && m.value.content == Canonical(e, canon(e.content.date).value).content
    ensures LegacySyncRun(rows, nextId, schema, validEvents, accountId, userId, now, canon, false, faults) ==
            LegacyRun(rows, nextId, Returned(Some(LegacyFilter(validEvents))))
  {
    var events := LegacyFilter(validEvents);
    MirroredPlanIsEmpty(events, canon, AccountRows(rows, accountId), accountId, userId, now);
    EmptyPlanIsQuiet(rows, nextId, accountId, now, faults, schema);
  }

  lemma MirroredPlanIsEmpty(events: seq<LegacyEvent>, canon: string -> Option<string>, stored: seq<Row<LegacyContent>>,
                            accountId: string, userId: string, now: string)
    requires CanonEvents(events, canon).Some?
    requires RowKeys(stored) <= LegacyIds(events)
    requires forall e :: e in events ==>
               var m := FirstRow(stored, e.id);
               m.Some? && m.value.content == Canonical(e, canon(e.content.date).value).content
    ensures LegacyPlan(events, CanonEvents(events, canon).value, stored, accountId, userId, now) == Plan([], [], [])
  {
    var canonical := CanonEvents(events, canon).value;
    CanonKeepsIds(events, canon);
    MirrorNoLegacyDeletions(events, stored);
    assert forall e :: e in canonical ==> FirstRow(stored, e.id).Some? && FirstRow(stored, e.id).value.content == e.content by {
      forall e | e in canonical ensures FirstRow(stored, e.id).Some? && FirstRow(stored, e.id).value.content == e.content {
        var k :| 0 <= k < |canonical| && canonical[k] == e;
        assert events[k] in events;
      }
    }
    assert LegacyIds(canonical) <= RowKeys(stored);
    MirrorNoLegacyInserts(canonical, stored, accountId, userId);
    MirrorNoLegacyUpdates(canonical, stored, now);
  }

  lemma MirrorNoLegacyDeletions(events: seq<LegacyEvent>, stored: seq<Row<LegacyContent>>)
    requires RowKeys(stored) <= LegacyIds(events)
    ensures LegacyDeletions(events, stored) == []
  {
    var d := LegacyDeletions(events, stored);
    assert (set k | k in d) == {};
    EmptyOrHeadIn(d);
  }

  lemma MirrorNoLegacyInserts(canonical: seq<LegacyEvent>, stored: seq<Row<LegacyContent>>, accountId: string, userId: string)
    requires LegacyIds(canonical) <= RowKeys(stored)
    ensures LegacyInserts(canonical, stored, accountId, userId) == []
  {
    var ins := LegacyInserts(canonical, stored, accountId, userId);
    LegacyInsertKeys(canonical, stored, accountId, userId);
    assert InsertKeys(ins) == {};
    EmptyOrHeadKey(ins);
  }

  lemma MirrorNoLegacyUpdates(canonical: seq<LegacyEvent>, stored: seq<Row<LegacyContent>>, now: string)
    requires forall e :: e in canonical ==> FirstRow(stored, e.id).Some? && FirstRow(stored, e.id).value.content == e.content
    ensures LegacyUpdates(canonical, stored, now) == []
  {
    var matched := Filter(canonical, (e: LegacyEvent) => e.id in RowKeys(stored));
    SomesAllNone(MapSeq(matched, (e: LegacyEvent) => LegacyCandidate(e, stored, now)));
  }

  lemma EmptyOrHeadIn<T>(s: seq<T>)
    ensures s == [] || s[0] in s
  {
  }

  lemma EmptyOrHeadKey<C>(rows: seq<NewRow<C>>)
    ensures rows == [] || rows[0].externalEventId in InsertKeys(rows)
  {
  }
}
