/** `syncMeetingsToDatabase` (utils/meetings/syncMeetings.ts): drop the
    Linkcal-marked events, read the account's stored meetings, work out what
    to delete, insert and update, and apply it to the `meetings` table. The
    inline diff is the one of utils/meetings/computeMeetingDiffs.ts, read on
    rows whose `external_event_id` is never null. */
module SyncMeetings {
  import opened Js
  import opened Seqs
  import opened Meetings
  import opened LinkcalFilter
  import opened MeetingDiffs
  import opened MeetingStore
  import opened Reconcile

  /** The NOT NULL content columns of db/schema.ts:54-55. */
  predicate Storable(c: Content) {
    c.startDate.Some? && c.endDate.Some?
  }

  /** The JSON body of `update(data)` drops a property whose value is
      undefined, so that column keeps its stored value; every defined column
      is written. `attendees` is always defined (`|| []`). */
  function Column(stored: Option<string>, written: Option<string>): Option<string> {
    if written.Some? then written else stored
  }

  function Overlay(stored: Content, written: Content): Content {
    Content(Column(stored.name, written.name), Column(stored.startDate, written.startDate),
            Column(stored.endDate, written.endDate), written.attendees, Column(stored.location, written.location),
            Column(stored.link, written.link), Column(stored.message, written.message), Column(stored.status, written.status))
  }

  /** The `meetings` table's content schema. */
  const MeetingSchema: Schema<Content> := Schema(Storable, Overlay)

  /** A payload that defines every column writes exactly its own content. */
  lemma DefinedPayloadOverwrites(stored: Content, written: Content)
    requires written.name.Some? && written.startDate.Some? && written.endDate.Some? && written.location.Some?
    requires written.link.Some? && written.message.Some? && written.status.Some?
    ensures Overlay(stored, written) == written
  {
  }

  /** Each column after the update is the written value where the payload
      defines it and the stored value where it does not; so a storable row
      stays storable under any payload. */
  lemma OverlayColumns(stored: Content, written: Content)
    ensures var c := Overlay(stored, written);
            && (written.endDate.Some? ==> c.endDate == written.endDate)
            && (written.endDate.None? ==> c.endDate == stored.endDate)
            && (written.startDate.Some? ==> c.startDate == written.startDate)
            && (written.startDate.None? ==> c.startDate == stored.startDate)
            && (written.name.Some? ==> c.name == written.name)
            && c.attendees == written.attendees
    ensures Storable(stored) ==> Storable(Overlay(stored, written))
  {
  }

  /** A changed event whose `end_date` is undefined (a Google event with no
      `end`) still updates its stored meeting: the statement commits, the new
      columns are written, and the stored end date stays. */
  lemma UndefinedEndUpdateCommits(r: Row<Content>, nextId: nat, e: Event, accountId: string, userId: string, now: string)
    requires r.linkedAccountId == accountId && r.externalEventId == e.id && r.id < nextId && Storable(r.content)
    requires e.content.startDate.Some? && e.content.endDate.None?
    ensures var existing := ReadExisting([r], accountId);
            var updates := ComputeUpdateData([e], existing, accountId, userId, now);
            HasChanges(r.content, e.content) ==>
              && |updates| == 1
              && var op := ToUpdateOp(updates[0]);
                 && UpdateCommits([r], nextId, op, accountId, NoFault, MeetingSchema)
                 && var after := AfterUpdate([r], op.ext, accountId, op.patch, MeetingSchema)[0];
                    after.content.endDate == r.content.endDate && (e.content.name.Some? ==> after.content.name == e.content.name) &&
                    after.content.startDate == e.content.startDate && after.id == r.id
  {
    var existing := ReadExisting([r], accountId);
    assert AccountRows([r], accountId) == [r];
    assert existing == [ExistingOf(r)];
    if HasChanges(r.content, e.content) {
      assert FindExisting(existing, e.id) == Some(ExistingOf(r));
      var row := UpdateRow(e.id, e.content, now, Some(r.id), accountId, userId, r.createdAt, e.provider);
      assert UpdateCandidate(e, existing, accountId, userId, now) == Some(row);
      assert HasMatch(existing, e.id);
      assert Filter([e], (x: Event) => HasMatch(existing, x.id)) == [e];
      assert ComputeUpdateData([e], existing, accountId, userId, now) == [row];
      var op := ToUpdateOp(row);
      var after := ApplyPatch(r, op.patch, MeetingSchema);
      OverlayColumns(r.content, e.content);
      assert AfterUpdate([r], op.ext, accountId, op.patch, MeetingSchema) == [after];
      assert RowsValid([after], nextId, MeetingSchema);
    }
  }

  /** A selected row: `id, external_event_id`, the eight columns, `created_at`. */
  function ExistingOf(r: Row<Content>): Existing {
    Existing(Some(r.id), Some(r.externalEventId), r.content, r.createdAt)
  }

  /** `existingMeetings`, in table order. */
  function ReadExisting(rows: seq<Row<Content>>, accountId: string): (r: seq<Existing>)
    ensures |r| == |AccountRows(rows, accountId)|
    ensures forall i :: 0 <= i < |r| ==> r[i] == ExistingOf(AccountRows(rows, accountId)[i])
  {
    MapSeq(AccountRows(rows, accountId), ExistingOf)
  }

  function ToNewRow(r: InsertRow): NewRow<Content> {
    NewRow(r.userId, r.linkedAccountId, r.externalEventId, r.provider, r.content)
  }

  /** The full row written by one update, keyed by its external id. */
  function ToUpdateOp(r: UpdateRow): UpdateOp<Content> {
    UpdateOp(r.externalEventId, Patch(r.content, r.updatedAt, Some(FullFields(r.id, r.linkedAccountId, r.userId, r.createdAt, r.provider))))
  }

  /** `idsToDelete`, `insertData` and `updateData`. */
  function SyncPlan(events: seq<Event>, existing: seq<Existing>, accountId: string, userId: string, now: string): Plan<Content> {
    Plan(ComputeDeletions(events, existing),
         MapSeq(ComputeInsertData(events, existing, accountId, userId), ToNewRow),
         MapSeq(ComputeUpdateData(events, existing, accountId, userId, now), ToUpdateOp))
  }

  /** The result of one sync: the table afterwards and the return value. */
  datatype SyncRun = SyncRun(rows: seq<Row<Content>>, nextId: nat, result: Option<seq<Event>>)

  /** The whole function. `readFails` is the `fetchError` of the select; the
      write faults are those of the apply phase. */
  function Sync(rows: seq<Row<Content>>, nextId: nat, schema: Schema<Content>, validEvents: seq<Event>, accountId: string,
                userId: string, now: string, readFails: bool, faults: WriteFaults): SyncRun {
    if readFails then SyncRun(rows, nextId, None)
    else
      var events := FilterLinkcalEvents(validEvents);
      var plan := SyncPlan(events, ReadExisting(rows, accountId), accountId, userId, now);
      var applied := ApplyPlan(rows, nextId, plan, accountId, now, faults, schema);
      SyncRun(applied.rows, applied.nextId, if applied.threw then None else Some(events))
  }

  method SyncMeetingsToDatabase(table: MeetingsTable<Content>, validEvents: seq<Event>, accountId: string, userId: string,
                                now: string, readFails: bool, faults: WriteFaults)
    returns (r: Option<seq<Event>>)
    requires table.Valid()
    modifies table
    ensures table.Valid()
    ensures var run := Sync(old(table.rows), old(table.nextId), table.schema, validEvents, accountId, userId, now, readFails, faults);
            table.rows == run.rows && table.nextId == run.nextId && r == run.result
  {
    var events := FilterLinkcalEvents(validEvents);
    if readFails {
      return None;
    }
    var selected := table.Select(accountId);
    var existing := MapSeq(selected, ExistingOf);
    var plan := SyncPlan(events, existing, accountId, userId, now);
    var threw, _ := Apply(table, plan, accountId, now, faults);
    r := if threw then None else Some(events);
  }

  /** A failed read returns null and writes nothing. */
  lemma ReadFailureWritesNothing(rows: seq<Row<Content>>, nextId: nat, schema: Schema<Content>, validEvents: seq<Event>,
                                 accountId: string, userId: string, now: string, faults: WriteFaults)
    ensures Sync(rows, nextId, schema, validEvents, accountId, userId, now, true, faults) == SyncRun(rows, nextId, None)
  {
  }

  /** On success the function returns the incoming events without the Linkcal-marked ones, in order. */
  lemma SyncReturnsFilteredEvents(rows: seq<Row<Content>>, nextId: nat, schema: Schema<Content>, validEvents: seq<Event>,
                                  accountId: string, userId: string, now: string, readFails: bool, faults: WriteFaults)
    ensures var run := Sync(rows, nextId, schema, validEvents, accountId, userId, now, readFails, faults);
            run.result.Some? ==> run.result.value == FilterLinkcalEvents(validEvents) &&
                                 forall e :: e in run.result.value ==> e in validEvents && !IsLinkcalEvent(e)
    ensures var run := Sync(rows, nextId, schema, validEvents, accountId, userId, now, readFails, faults);
            var plan := SyncPlan(FilterLinkcalEvents(validEvents), ReadExisting(rows, accountId), accountId, userId, now);
            run.result.None? <==>
              readFails || (|plan.deletions| > 0 && faults.delete.Thrown?) || (|plan.inserts| > 0 && faults.insert.Thrown?)
  {
    if !readFails {
      var plan := SyncPlan(FilterLinkcalEvents(validEvents), ReadExisting(rows, accountId), accountId, userId, now);
      ThrowStopsLaterPhases(rows, nextId, plan, accountId, now, faults, schema);
    }
  }

  /** Every statement of the plan is scoped to the account. */
  lemma SyncPlanInAccount(events: seq<Event>, existing: seq<Existing>, accountId: string, userId: string, now: string)
    ensures PlanInAccount(SyncPlan(events, existing, accountId, userId, now), accountId)
  {
  }

  /** Other accounts' meetings, and their order, are exactly as before. */
  lemma SyncKeepsOtherAccounts(rows: seq<Row<Content>>, nextId: nat, schema: Schema<Content>, validEvents: seq<Event>,
                               accountId: string, userId: string, now: string, readFails: bool, faults: WriteFaults)
    ensures OtherRows(Sync(rows, nextId, schema, validEvents, accountId, userId, now, readFails, faults).rows, accountId) ==
            OtherRows(rows, accountId)
  {
    if !readFails {
      var events := FilterLinkcalEvents(validEvents);
      SyncPlanInAccount(events, ReadExisting(rows, accountId), accountId, userId, now);
      ApplyKeepsOtherAccounts(rows, nextId, SyncPlan(events, ReadExisting(rows, accountId), accountId, userId, now),
                              accountId, now, faults, schema);
    }
  }

  /** Read from the table, every stored meeting has its external id, so the
      inline `existingIds.has(id)` and `computeMeetingDiffs`'s string keys and
      `some` test agree: all three are membership in the account's keys. */
  lemma StoredKeys(rows: seq<Row<Content>>, accountId: string)
    ensures ExistingKeys(ReadExisting(rows, accountId)) == AccountKeys(rows, accountId)
    ensures forall id :: HasMatch(ReadExisting(rows, accountId), id) <==> id in AccountKeys(rows, accountId)
  {
    StoredKeysHeld(rows, accountId);
    StoredKeysRead(rows, accountId);
  }

  /** Every key the account holds is read back, with its external id present. */
  lemma StoredKeysHeld(rows: seq<Row<Content>>, accountId: string)
    ensures forall k :: k in AccountKeys(rows, accountId) ==> k in ExistingKeys(ReadExisting(rows, accountId)) && HasMatch(ReadExisting(rows, accountId), k)
  {
    var acct := AccountRows(rows, accountId);
    var existing := ReadExisting(rows, accountId);
    forall k | k in AccountKeys(rows, accountId) ensures k in ExistingKeys(existing) && HasMatch(existing, k) {
      var i :| 0 <= i < |rows| && rows[i].linkedAccountId == accountId && rows[i].externalEventId == k;
      var j :| 0 <= j < |acct| && acct[j] == rows[i];
      assert existing[j] in existing && Template(existing[j].externalEventId) == k;
    }
  }

  /** Every key read back is one the account holds. */
  lemma StoredKeysRead(rows: seq<Row<Content>>, accountId: string)
    ensures ExistingKeys(ReadExisting(rows, accountId)) <= AccountKeys(rows, accountId)
    ensures forall k :: HasMatch(ReadExisting(rows, accountId), k) ==> k in AccountKeys(rows, accountId)
  {
    var acct := AccountRows(rows, accountId);
    var existing := ReadExisting(rows, accountId);
    forall k | k in ExistingKeys(existing) ensures k in AccountKeys(rows, accountId) {
      var m :| m in existing && Template(m.externalEventId) == k;
      var j :| 0 <= j < |existing| && existing[j] == m;
      var i :| 0 <= i < |rows| && rows[i] == acct[j];
    }
    forall k | HasMatch(existing, k) ensures k in AccountKeys(rows, accountId) {
      var m :| m in existing && m.externalEventId == Some(k);
      var j :| 0 <= j < |existing| && existing[j] == m;
      var i :| 0 <= i < |rows| && rows[i] == acct[j];
    }
  }

  /** What the plan asks for: inserts only for ids the account does not hold,
      updates only for ids it holds whose first stored row differs in one of the
      eight columns (the row's id and `created_at` are carried over), and
      deletions exactly for the held ids that no incoming event has. */
  lemma SyncPlanTargets(rows: seq<Row<Content>>, events: seq<Event>, accountId: string, userId: string, now: string)
    ensures var plan := SyncPlan(events, ReadExisting(rows, accountId), accountId, userId, now);
            && (forall j :: 0 <= j < |plan.inserts| ==> plan.inserts[j].externalEventId !in AccountKeys(rows, accountId))
            && (forall j :: 0 <= j < |plan.updates| ==>
                  var m := FindExisting(ReadExisting(rows, accountId), plan.updates[j].ext);
                  && plan.updates[j].ext in AccountKeys(rows, accountId)
                  && m.Some? && HasChanges(m.value.content, plan.updates[j].patch.content)
                  && plan.updates[j].patch.full == Some(FullFields(m.value.id, accountId, userId, m.value.createdAt, plan.updates[j].patch.full.value.provider)))
            && (set k | k in plan.deletions) == AccountKeys(rows, accountId) - EventIds(events)
  {
    var existing := ReadExisting(rows, accountId);
    StoredKeys(rows, accountId);
    DeletionKeys(rows, events, accountId);
  }

  function EventIds(events: seq<Event>): set<string> {
    set e | e in events :: e.id
  }

  lemma DeletionKeys(rows: seq<Row<Content>>, events: seq<Event>, accountId: string)
    ensures (set k | k in ComputeDeletions(events, ReadExisting(rows, accountId))) == AccountKeys(rows, accountId) - EventIds(events)
  {
    var existing := ReadExisting(rows, accountId);
    var del := ComputeDeletions(events, existing);
    StoredKeys(rows, accountId);
    forall k | k in del ensures k in AccountKeys(rows, accountId) - EventIds(events) {
      var i :| 0 <= i < |del| && del[i] == k;
      assert HasMatch(existing, k);
    }
    forall k | k in AccountKeys(rows, accountId) - EventIds(events) ensures k in del {
      assert HasMatch(existing, k);
      var m :| m in existing && m.externalEventId == Some(k);
    }
  }

  lemma InsertionKeys(rows: seq<Row<Content>>, events: seq<Event>, accountId: string, userId: string, now: string)
    ensures InsertKeys(SyncPlan(events, ReadExisting(rows, accountId), accountId, userId, now).inserts) ==
            EventIds(events) - AccountKeys(rows, accountId)
  {
    StoredKeys(rows, accountId);
    InsertDataKeys(events, ReadExisting(rows, accountId), accountId, userId);
  }

  lemma InsertDataKeys(events: seq<Event>, existing: seq<Existing>, accountId: string, userId: string)
    ensures InsertKeys(MapSeq(ComputeInsertData(events, existing, accountId, userId), ToNewRow)) ==
            EventIds(events) - ExistingKeys(existing)
  {
    InsertDataKeysSound(events, existing, accountId, userId);
    InsertDataKeysComplete(events, existing, accountId, userId);
  }

  lemma InsertDataKeysSound(events: seq<Event>, existing: seq<Existing>, accountId: string, userId: string)
    ensures InsertKeys(MapSeq(ComputeInsertData(events, existing, accountId, userId), ToNewRow)) <=
            EventIds(events) - ExistingKeys(existing)
  {
    var data := ComputeInsertData(events, existing, accountId, userId);
    var ins := MapSeq(data, ToNewRow);
    forall k | k in InsertKeys(ins) ensures k in EventIds(events) - ExistingKeys(existing) {
      var j :| 0 <= j < |ins| && ins[j].externalEventId == k;
      var e :| e in events && data[j] == InsertRow(userId, accountId, e.id, e.provider, e.content);
    }
  }

  lemma InsertDataKeysComplete(events: seq<Event>, existing: seq<Existing>, accountId: string, userId: string)
    ensures EventIds(events) - ExistingKeys(existing) <=
            InsertKeys(MapSeq(ComputeInsertData(events, existing, accountId, userId), ToNewRow))
  {
    var data := ComputeInsertData(events, existing, accountId, userId);
    var ins := MapSeq(data, ToNewRow);
    forall k | k in EventIds(events) - ExistingKeys(existing) ensures k in InsertKeys(ins) {
      var e :| e in events && e.id == k;
      assert IsNew(existing, e);
      var row := InsertRow(userId, accountId, e.id, e.provider, e.content);
      var j :| 0 <= j < |data| && data[j] == row;
      assert ins[j].externalEventId == k;
    }
  }

  /** The delete and the insert both went through, or had nothing to do. */
  predicate SyncCommitted(rows: seq<Row<Content>>, schema: Schema<Content>, validEvents: seq<Event>, accountId: string,
                          userId: string, now: string, faults: WriteFaults) {
    var plan := SyncPlan(FilterLinkcalEvents(validEvents), ReadExisting(rows, accountId), accountId, userId, now);
    PhasesCommitted(rows, plan, accountId, faults, schema)
  }

  /** Reconciliation: when the read, the delete and the insert go through, the
      account holds exactly the external ids of the incoming events that are
      not Linkcal-marked, whatever the individual updates did. */
  lemma SyncReconcilesKeys(rows: seq<Row<Content>>, nextId: nat, schema: Schema<Content>, validEvents: seq<Event>,
                           accountId: string, userId: string, now: string, faults: WriteFaults)
    requires SyncCommitted(rows, schema, validEvents, accountId, userId, now, faults)
    ensures AccountKeys(Sync(rows, nextId, schema, validEvents, accountId, userId, now, false, faults).rows, accountId) ==
            EventIds(FilterLinkcalEvents(validEvents))
  {
    var events := FilterLinkcalEvents(validEvents);
    var plan := SyncPlan(events, ReadExisting(rows, accountId), accountId, userId, now);
    SyncPlanInAccount(events, ReadExisting(rows, accountId), accountId, userId, now);
    CommittedKeys(rows, nextId, plan, accountId, now, faults, schema);
    DeletionKeys(rows, events, accountId);
    InsertionKeys(rows, events, accountId, userId, now);
  }

  /** A store that already mirrors the incoming events without the
      Linkcal-marked ones, in any order, gets no statement at all: the table is
      unchanged and the filtered events are returned. */
  lemma MirroredAccountIsQuiet(rows: seq<Row<Content>>, nextId: nat, schema: Schema<Content>, validEvents: seq<Event>,
                               accountId: string, userId: string, now: string, faults: WriteFaults)
    requires MirrorsEvents(FilterLinkcalEvents(validEvents), ReadExisting(rows, accountId))
    ensures Sync(rows, nextId, schema, validEvents, accountId, userId, now, false, faults) ==
            SyncRun(rows, nextId, Some(FilterLinkcalEvents(validEvents)))
  {
    MirroredStoreIsQuiet(FilterLinkcalEvents(validEvents), ReadExisting(rows, accountId), accountId, userId, now);
    EmptyPlanIsQuiet(rows, nextId, accountId, now, faults, schema);
  }
}
