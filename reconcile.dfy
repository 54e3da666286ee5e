/** The apply phase shared by both `syncMeetingsToDatabase` versions
    (utils/meetings/syncMeetings.ts:131-193, utils/syncMeetings.ts:133-195):
    inside one `try`, delete the gone meetings, insert the new ones, then
    update each changed one. A phase with nothing to do issues no statement.
    An error the database reports is logged and the next phase runs; an
    exception from the delete or the insert leaves the `try` (the function then
    returns null); an exception from one update is caught for that update
    alone. The concurrent updates are applied one after another. */
module Reconcile {
  import opened Js
  import opened Seqs
  import opened MeetingStore

  /** One `update(patch).eq("external_event_id", ext).eq("linked_account_id", accountId)`. */
  datatype UpdateOp<C> = UpdateOp(ext: string, patch: Patch<C>)

  /** What a sync asks of the table. */
  datatype Plan<C> = Plan(deletions: seq<string>, inserts: seq<NewRow<C>>, updates: seq<UpdateOp<C>>)

  /** How each statement ends; an update without an entry succeeds. */
  datatype WriteFaults = WriteFaults(delete: Fault, insert: Fault, updates: seq<Fault>)

  function UpdateFault(faults: WriteFaults, i: nat): Fault {
    if i < |faults.updates| then faults.updates[i] else NoFault
  }

  /** The table and whether an exception left the `try`. */
  datatype Applied<C> = Applied(rows: seq<Row<C>>, nextId: nat, threw: bool)

  /** Every statement of the plan stays inside the account. */
  predicate PlanInAccount<C>(plan: Plan<C>, accountId: string) {
    && (forall j :: 0 <= j < |plan.inserts| ==> plan.inserts[j].linkedAccountId == accountId)
    && (forall j :: 0 <= j < |plan.updates| ==> StaysInAccount(plan.updates[j].patch, accountId))
  }

  function DeletePhase<C>(rows: seq<Row<C>>, plan: Plan<C>, accountId: string, fault: Fault): seq<Row<C>> {
    if |plan.deletions| > 0 && OutcomeOf(fault, true).Ok? then AfterDelete(rows, plan.deletions, accountId) else rows
  }

  predicate InsertCommits<C>(rows: seq<Row<C>>, plan: Plan<C>, fault: Fault, schema: Schema<C>) {
    |plan.inserts| > 0 && OutcomeOf(fault, InsertAdmissible(rows, plan.inserts, schema)).Ok?
  }

  /** Whether one update goes through: it reports no error and the table stays valid. */
  predicate UpdateCommits<C>(rows: seq<Row<C>>, nextId: nat, op: UpdateOp<C>, accountId: string, fault: Fault, schema: Schema<C>) {
    OutcomeOf(fault, RowsValid(AfterUpdate(rows, op.ext, accountId, op.patch, schema), nextId, schema)).Ok?
  }

  /** One update, which commits only when it goes through. */
  function UpdateStep<C>(rows: seq<Row<C>>, nextId: nat, op: UpdateOp<C>, accountId: string, fault: Fault, schema: Schema<C>): seq<Row<C>> {
    if UpdateCommits(rows, nextId, op, accountId, fault, schema) then AfterUpdate(rows, op.ext, accountId, op.patch, schema) else rows
  }

  /** The first `n` updates applied one after another. */
  function UpdatePhase<C>(rows: seq<Row<C>>, nextId: nat, plan: Plan<C>, accountId: string, faults: WriteFaults,
                          schema: Schema<C>, n: nat): seq<Row<C>>
    requires n <= |plan.updates|
  {
    if n == 0 then rows
    else UpdateStep(UpdatePhase(rows, nextId, plan, accountId, faults, schema, n - 1), nextId,
                    plan.updates[n - 1], accountId, UpdateFault(faults, n - 1), schema)
  }

  /** `successCount`: how many of the first `n` updates went through, each
      tried on the table the earlier ones left. */
  function UpdateSuccesses<C>(rows: seq<Row<C>>, nextId: nat, plan: Plan<C>, accountId: string, faults: WriteFaults,
                              schema: Schema<C>, n: nat): (count: nat)
    requires n <= |plan.updates|
    ensures count <= n
  {
    if n == 0 then 0
    else
      UpdateSuccesses(rows, nextId, plan, accountId, faults, schema, n - 1) +
      if StepCommits(rows, nextId, plan, accountId, faults, schema, n - 1) then 1 else 0
  }

  /** A failed update is never counted: when every update reports an error or
      throws, the count is zero. */
  lemma {:induction false} FailedUpdatesNotCounted<C>(rows: seq<Row<C>>, nextId: nat, plan: Plan<C>, accountId: string,
                                                      faults: WriteFaults, schema: Schema<C>, n: nat)
    requires n <= |plan.updates|
    requires forall i :: 0 <= i < n ==> !UpdateFault(faults, i).NoFault?
    ensures UpdateSuccesses(rows, nextId, plan, accountId, faults, schema, n) == 0
  {
    if n > 0 {
      FailedUpdatesNotCounted(rows, nextId, plan, accountId, faults, schema, n - 1);
      assert !UpdateFault(faults, n - 1).NoFault?;
    }
  }

  /** Every update that goes through is counted: the count reaches `n` exactly
      when each of the first `n` updates commits on the table before it. */
  lemma {:induction false} AllCommittedCounted<C>(rows: seq<Row<C>>, nextId: nat, plan: Plan<C>, accountId: string,
                                                  faults: WriteFaults, schema: Schema<C>, n: nat)
    requires n <= |plan.updates|
    ensures UpdateSuccesses(rows, nextId, plan, accountId, faults, schema, n) == n <==>
            forall i :: 0 <= i < n ==> StepCommits(rows, nextId, plan, accountId, faults, schema, i)
  {
    if n > 0 {
      AllCommittedCounted(rows, nextId, plan, accountId, faults, schema, n - 1);
      var previous := UpdateSuccesses(rows, nextId, plan, accountId, faults, schema, n - 1);
      var last := StepCommits(rows, nextId, plan, accountId, faults, schema, n - 1);
      assert UpdateSuccesses(rows, nextId, plan, accountId, faults, schema, n) == previous + if last then 1 else 0;
      assert previous <= n - 1;
    }
  }

  /** Whether update `i` goes through on the table the earlier updates left. */
  predicate StepCommits<C>(rows: seq<Row<C>>, nextId: nat, plan: Plan<C>, accountId: string, faults: WriteFaults,
                           schema: Schema<C>, i: nat)
    requires i < |plan.updates|
  {
    UpdateCommits(UpdatePhase(rows, nextId, plan, accountId, faults, schema, i), nextId, plan.updates[i], accountId,
                  UpdateFault(faults, i), schema)
  }

  /** The delete and insert statements: the table after them, or the
      exception that ends the block. */
  function WritePhases<C>(rows: seq<Row<C>>, nextId: nat, plan: Plan<C>, accountId: string, now: string,
                          faults: WriteFaults, schema: Schema<C>): Applied<C> {
    if |plan.deletions| > 0 && faults.delete.Thrown? then Applied(rows, nextId, true)
    else
      var afterDelete := DeletePhase(rows, plan, accountId, faults.delete);
      if |plan.inserts| > 0 && faults.insert.Thrown? then Applied(afterDelete, nextId, true)
      else if InsertCommits(afterDelete, plan, faults.insert, schema) then
        Applied(afterDelete + Materialize(plan.inserts, nextId, now), nextId + |plan.inserts|, false)
      else Applied(afterDelete, nextId, false)
  }

  /** The updates counted by the `try` block: none when the delete or the
      insert threw, since the updates are then never issued. */
  function ApplySuccesses<C>(rows: seq<Row<C>>, nextId: nat, plan: Plan<C>, accountId: string, now: string,
                             faults: WriteFaults, schema: Schema<C>): (count: nat)
    ensures count <= |plan.updates|
    ensures WritePhases(rows, nextId, plan, accountId, now, faults, schema).threw ==> count == 0
  {
    var w := WritePhases(rows, nextId, plan, accountId, now, faults, schema);
    if w.threw then 0 else UpdateSuccesses(w.rows, w.nextId, plan, accountId, faults, schema, |plan.updates|)
  }

  /** The whole `try` block. */
  function ApplyPlan<C>(rows: seq<Row<C>>, nextId: nat, plan: Plan<C>, accountId: string, now: string,
                        faults: WriteFaults, schema: Schema<C>): Applied<C> {
    var w := WritePhases(rows, nextId, plan, accountId, now, faults, schema);
    if w.threw then w
    else Applied(UpdatePhase(w.rows, w.nextId, plan, accountId, faults, schema, |plan.updates|), w.nextId, false)
  }

  /** The apply phase never breaks a table constraint. */
  lemma {:induction false} UpdatePhaseKeepsValid<C>(rows: seq<Row<C>>, nextId: nat, plan: Plan<C>, accountId: string,
                                                     faults: WriteFaults, schema: Schema<C>, n: nat)
    requires n <= |plan.updates| && TableValid(rows, nextId, schema)
    ensures TableValid(UpdatePhase(rows, nextId, plan, accountId, faults, schema, n), nextId, schema)
  {
    if n > 0 {
      UpdatePhaseKeepsValid(rows, nextId, plan, accountId, faults, schema, n - 1);
      var op := plan.updates[n - 1];
      RowsValidIff(AfterUpdate(UpdatePhase(rows, nextId, plan, accountId, faults, schema, n - 1), op.ext, accountId, op.patch, schema), nextId, schema);
    }
  }

  lemma WritePhasesKeepValid<C>(rows: seq<Row<C>>, nextId: nat, plan: Plan<C>, accountId: string, now: string,
                                faults: WriteFaults, schema: Schema<C>)
    requires TableValid(rows, nextId, schema)
    ensures var w := WritePhases(rows, nextId, plan, accountId, now, faults, schema);
            TableValid(w.rows, w.nextId, schema)
  {
    DeleteKeepsValid(rows, nextId, plan.deletions, accountId, schema);
    InsertAdmissibleIff(DeletePhase(rows, plan, accountId, faults.delete), nextId, plan.inserts, now, schema);
  }

  lemma ApplyKeepsValid<C>(rows: seq<Row<C>>, nextId: nat, plan: Plan<C>, accountId: string, now: string,
                           faults: WriteFaults, schema: Schema<C>)
    requires TableValid(rows, nextId, schema)
    ensures var a := ApplyPlan(rows, nextId, plan, accountId, now, faults, schema);
            TableValid(a.rows, a.nextId, schema)
  {
    var w := WritePhases(rows, nextId, plan, accountId, now, faults, schema);
    WritePhasesKeepValid(rows, nextId, plan, accountId, now, faults, schema);
    UpdatePhaseKeepsValid(w.rows, w.nextId, plan, accountId, faults, schema, |plan.updates|);
  }

  /** Rows of other accounts, and their order, are untouched by the whole apply phase. */
  lemma {:induction false} UpdatePhaseKeepsOtherAccounts<C>(rows: seq<Row<C>>, nextId: nat, plan: Plan<C>, accountId: string,
                                                             faults: WriteFaults, schema: Schema<C>, n: nat)
    requires n <= |plan.updates| && PlanInAccount(plan, accountId)
    ensures OtherRows(UpdatePhase(rows, nextId, plan, accountId, faults, schema, n), accountId) == OtherRows(rows, accountId)
  {
    if n > 0 {
      UpdatePhaseKeepsOtherAccounts(rows, nextId, plan, accountId, faults, schema, n - 1);
      var before := UpdatePhase(rows, nextId, plan, accountId, faults, schema, n - 1);
      var op := plan.updates[n - 1];
      assert StaysInAccount(op.patch, accountId);
      UpdateStepKeepsOtherAccounts(before, nextId, op, accountId, UpdateFault(faults, n - 1), schema);
    }
  }

  lemma UpdateStepKeepsOtherAccounts<C>(rows: seq<Row<C>>, nextId: nat, op: UpdateOp<C>, accountId: string, fault: Fault, schema: Schema<C>)
    requires StaysInAccount(op.patch, accountId)
    ensures OtherRows(UpdateStep(rows, nextId, op, accountId, fault, schema), accountId) == OtherRows(rows, accountId)
  {
    UpdateKeepsOtherAccounts(rows, op.ext, accountId, op.patch, schema);
  }

  lemma ApplyKeepsOtherAccounts<C>(rows: seq<Row<C>>, nextId: nat, plan: Plan<C>, accountId: string, now: string,
                                   faults: WriteFaults, schema: Schema<C>)
    requires PlanInAccount(plan, accountId)
    ensures OtherRows(ApplyPlan(rows, nextId, plan, accountId, now, faults, schema).rows, accountId) == OtherRows(rows, accountId)
  {
    var afterDelete := DeletePhase(rows, plan, accountId, faults.delete);
    DeleteKeepsOtherAccounts(rows, plan.deletions, accountId);
    InsertKeepsOtherAccounts(afterDelete, plan.inserts, nextId, now, accountId);
    var committed := InsertCommits(afterDelete, plan, faults.insert, schema);
    var afterInsert := if committed then afterDelete + Materialize(plan.inserts, nextId, now) else afterDelete;
    var nextId' := if committed then nextId + |plan.inserts| else nextId;
    var w := WritePhases(rows, nextId, plan, accountId, now, faults, schema);
    assert w.threw || (w.rows == afterInsert && w.nextId == nextId');
    UpdatePhaseKeepsOtherAccounts(afterInsert, nextId', plan, accountId, faults, schema, |plan.updates|);
  }

  /** A plan with nothing to do issues no statement: the table is unchanged
      whatever the database would have answered. */
  lemma EmptyPlanIsQuiet<C>(rows: seq<Row<C>>, nextId: nat, accountId: string, now: string, faults: WriteFaults, schema: Schema<C>)
    ensures ApplyPlan(rows, nextId, Plan([], [], []), accountId, now, faults, schema) == Applied(rows, nextId, false)
  {
  }

  /** A delete the database refuses is as if there had been nothing to delete:
      the insert and the updates still run, on the unchanged table. */
  lemma DeleteErrorContinues<C>(rows: seq<Row<C>>, nextId: nat, plan: Plan<C>, accountId: string, now: string,
                                faults: WriteFaults, schema: Schema<C>)
    requires faults.delete.ErrorReturned?
    ensures ApplyPlan(rows, nextId, plan, accountId, now, faults, schema) ==
            ApplyPlan(rows, nextId, plan.(deletions := []), accountId, now, faults, schema)
  {
    assert DeletePhase(rows, plan, accountId, faults.delete) == rows;
    assert DeletePhase(rows, plan.(deletions := []), accountId, faults.delete) == rows;
    UpdatePhaseIgnoresDeletions(plan, rows, nextId, accountId, faults, schema, now);
  }

  /** A refused insert likewise leaves the updates to run. */
  lemma InsertErrorContinues<C>(rows: seq<Row<C>>, nextId: nat, plan: Plan<C>, accountId: string, now: string,
                                faults: WriteFaults, schema: Schema<C>)
    requires faults.insert.ErrorReturned?
    ensures ApplyPlan(rows, nextId, plan, accountId, now, faults, schema) ==
            ApplyPlan(rows, nextId, plan.(inserts := []), accountId, now, faults, schema)
  {
    UpdatePhaseIgnoresInserts(plan, DeletePhase(rows, plan, accountId, faults.delete), nextId, accountId, faults, schema);
  }

  /** A thrown delete ends the sync before anything is written; a thrown insert after the delete. */
  lemma ThrowStopsLaterPhases<C>(rows: seq<Row<C>>, nextId: nat, plan: Plan<C>, accountId: string, now: string,
                                 faults: WriteFaults, schema: Schema<C>)
    ensures |plan.deletions| > 0 && faults.delete.Thrown? ==>
              ApplyPlan(rows, nextId, plan, accountId, now, faults, schema) == Applied(rows, nextId, true)
    ensures !(|plan.deletions| > 0 && faults.delete.Thrown?) && |plan.inserts| > 0 && faults.insert.Thrown? ==>
              ApplyPlan(rows, nextId, plan, accountId, now, faults, schema) ==
              Applied(DeletePhase(rows, plan, accountId, faults.delete), nextId, true)
    ensures ApplyPlan(rows, nextId, plan, accountId, now, faults, schema).threw <==>
              (|plan.deletions| > 0 && faults.delete.Thrown?) || (|plan.inserts| > 0 && faults.insert.Thrown?)
  {
  }

  lemma {:induction false} UpdatePhaseSamePlanUpdates<C>(p: Plan<C>, q: Plan<C>, rows: seq<Row<C>>, nextId: nat, accountId: string,
                                                          faults: WriteFaults, schema: Schema<C>, n: nat)
    requires p.updates == q.updates && n <= |p.updates|
    ensures UpdatePhase(rows, nextId, p, accountId, faults, schema, n) == UpdatePhase(rows, nextId, q, accountId, faults, schema, n)
  {
    if n > 0 {
      UpdatePhaseSamePlanUpdates(p, q, rows, nextId, accountId, faults, schema, n - 1);
    }
  }

  lemma UpdatePhaseIgnoresDeletions<C>(plan: Plan<C>, rows: seq<Row<C>>, nextId: nat, accountId: string, faults: WriteFaults,
                                       schema: Schema<C>, now: string)
    ensures forall r: seq<Row<C>>, k: nat :: UpdatePhase(r, k, plan, accountId, faults, schema, |plan.updates|) ==
                                            UpdatePhase(r, k, plan.(deletions := []), accountId, faults, schema, |plan.updates|)
  {
    forall r: seq<Row<C>>, k: nat
      ensures UpdatePhase(r, k, plan, accountId, faults, schema, |plan.updates|) ==
              UpdatePhase(r, k, plan.(deletions := []), accountId, faults, schema, |plan.updates|)
    {
      UpdatePhaseSamePlanUpdates(plan, plan.(deletions := []), r, k, accountId, faults, schema, |plan.updates|);
    }
  }

  lemma UpdatePhaseIgnoresInserts<C>(plan: Plan<C>, rows: seq<Row<C>>, nextId: nat, accountId: string, faults: WriteFaults,
                                     schema: Schema<C>)
    ensures UpdatePhase(rows, nextId, plan, accountId, faults, schema, |plan.updates|) ==
            UpdatePhase(rows, nextId, plan.(inserts := []), accountId, faults, schema, |plan.updates|)
  {
    UpdatePhaseSamePlanUpdates(plan, plan.(inserts := []), rows, nextId, accountId, faults, schema, |plan.updates|);
  }

  /** The external ids the account holds. */
  function AccountKeys<C>(rows: seq<Row<C>>, accountId: string): set<string> {
    set i | 0 <= i < |rows| && rows[i].linkedAccountId == accountId :: rows[i].externalEventId
  }

  /** Updates change neither a row's external id nor, for a plan inside the
      account, which rows belong to the account. */
  lemma {:induction false} UpdatePhaseKeepsKeys<C>(rows: seq<Row<C>>, nextId: nat, plan: Plan<C>, accountId: string,
                                                    faults: WriteFaults, schema: Schema<C>, n: nat)
    requires n <= |plan.updates| && PlanInAccount(plan, accountId)
    ensures AccountKeys(UpdatePhase(rows, nextId, plan, accountId, faults, schema, n), accountId) == AccountKeys(rows, accountId)
  {
    if n > 0 {
      UpdatePhaseKeepsKeys(rows, nextId, plan, accountId, faults, schema, n - 1);
      var before := UpdatePhase(rows, nextId, plan, accountId, faults, schema, n - 1);
      var op := plan.updates[n - 1];
      assert StaysInAccount(op.patch, accountId);
      UpdateKeepsKeys(before, op.ext, accountId, op.patch, schema);
    }
  }

  lemma UpdateKeepsKeys<C>(rows: seq<Row<C>>, ext: string, accountId: string, patch: Patch<C>, schema: Schema<C>)
    requires StaysInAccount(patch, accountId)
    ensures AccountKeys(AfterUpdate(rows, ext, accountId, patch, schema), accountId) == AccountKeys(rows, accountId)
  {
    var after := AfterUpdate(rows, ext, accountId, patch, schema);
    forall k | k in AccountKeys(after, accountId) ensures k in AccountKeys(rows, accountId) {
      var i :| 0 <= i < |after| && after[i].linkedAccountId == accountId && after[i].externalEventId == k;
      assert rows[i].linkedAccountId == accountId && rows[i].externalEventId == k;
    }
    forall k | k in AccountKeys(rows, accountId) ensures k in AccountKeys(after, accountId) {
      var i :| 0 <= i < |rows| && rows[i].linkedAccountId == accountId && rows[i].externalEventId == k;
      assert after[i].linkedAccountId == accountId && after[i].externalEventId == k;
    }
  }

  /** The delete and the insert both went through (or had nothing to do). */
  predicate PhasesCommitted<C>(rows: seq<Row<C>>, plan: Plan<C>, accountId: string, faults: WriteFaults, schema: Schema<C>) {
    && (|plan.deletions| == 0 || faults.delete.NoFault?)
    && (|plan.inserts| == 0 ||
         (faults.insert.NoFault? && InsertAdmissible(DeletePhase(rows, plan, accountId, faults.delete), plan.inserts, schema)))
  }

  function InsertKeys<C>(inserts: seq<NewRow<C>>): set<string> {
    set j | 0 <= j < |inserts| :: inserts[j].externalEventId
  }

  /** Inserted rows of the account carry exactly the inserted external ids. */
  lemma MaterializedKeys<C>(inserts: seq<NewRow<C>>, nextId: nat, now: string, accountId: string)
    requires forall j :: 0 <= j < |inserts| ==> inserts[j].linkedAccountId == accountId
    ensures AccountKeys(Materialize(inserts, nextId, now), accountId) == InsertKeys(inserts)
  {
    var added := Materialize(inserts, nextId, now);
    forall k | k in InsertKeys(inserts) ensures k in AccountKeys(added, accountId) {
      var j :| 0 <= j < |inserts| && inserts[j].externalEventId == k;
      assert added[j].linkedAccountId == accountId && added[j].externalEventId == k;
    }
  }

  /** When the delete and the insert go through, the account ends up holding
      exactly its old keys minus the deleted ones plus the inserted ones. */
  lemma CommittedKeys<C>(rows: seq<Row<C>>, nextId: nat, plan: Plan<C>, accountId: string, now: string,
                         faults: WriteFaults, schema: Schema<C>)
    requires PlanInAccount(plan, accountId) && PhasesCommitted(rows, plan, accountId, faults, schema)
    ensures AccountKeys(ApplyPlan(rows, nextId, plan, accountId, now, faults, schema).rows, accountId) ==
            (AccountKeys(rows, accountId) - set k | k in plan.deletions) + InsertKeys(plan.inserts)
  {
    var afterDelete := DeletePhase(rows, plan, accountId, faults.delete);
    assert AccountKeys(afterDelete, accountId) == AccountKeys(rows, accountId) - set k | k in plan.deletions by {
      DeletedKeys(rows, plan.deletions, accountId);
    }
    var committed := InsertCommits(afterDelete, plan, faults.insert, schema);
    var added := Materialize(plan.inserts, nextId, now);
    var afterInsert := if committed then afterDelete + added else afterDelete;
    assert AccountKeys(afterInsert, accountId) == AccountKeys(afterDelete, accountId) + InsertKeys(plan.inserts) by {
      if committed {
        InsertedKeys(afterDelete, added, accountId);
        MaterializedKeys(plan.inserts, nextId, now, accountId);
      }
    }
    var nextId' := if committed then nextId + |plan.inserts| else nextId;
    assert WritePhases(rows, nextId, plan, accountId, now, faults, schema) == Applied(afterInsert, nextId', false);
    UpdatePhaseKeepsKeys(afterInsert, nextId', plan, accountId, faults, schema, |plan.updates|);
  }

  lemma DeletedKeys<C>(rows: seq<Row<C>>, ids: seq<string>, accountId: string)
    ensures AccountKeys(AfterDelete(rows, ids, accountId), accountId) == AccountKeys(rows, accountId) - set k | k in ids
  {
    var keep := (x: Row<C>) => !Doomed(x, ids, accountId);
    var after := AfterDelete(rows, ids, accountId);
    forall k | k in AccountKeys(rows, accountId) - set k | k in ids ensures k in AccountKeys(after, accountId) {
      var i :| 0 <= i < |rows| && rows[i].linkedAccountId == accountId && rows[i].externalEventId == k;
      assert keep(rows[i]);
      var j :| 0 <= j < |after| && after[j] == rows[i];
    }
    forall k | k in AccountKeys(after, accountId) ensures k in AccountKeys(rows, accountId) - set k | k in ids {
      var j :| 0 <= j < |after| && after[j].linkedAccountId == accountId && after[j].externalEventId == k;
      var i :| 0 <= i < |rows| && rows[i] == after[j];
      assert keep(rows[i]);
    }
  }

  lemma InsertedKeys<C>(a: seq<Row<C>>, b: seq<Row<C>>, accountId: string)
    ensures AccountKeys(a + b, accountId) == AccountKeys(a, accountId) + AccountKeys(b, accountId)
  {
    var ab := a + b;
    forall k | k in AccountKeys(ab, accountId) ensures k in AccountKeys(a, accountId) + AccountKeys(b, accountId) {
      var i :| 0 <= i < |ab| && ab[i].linkedAccountId == accountId && ab[i].externalEventId == k;
      if i >= |a| {
        assert b[i - |a|] == ab[i];
      }
    }
    forall k | k in AccountKeys(a, accountId) ensures k in AccountKeys(ab, accountId) {
      var i :| 0 <= i < |a| && a[i].linkedAccountId == accountId && a[i].externalEventId == k;
      assert ab[i] == a[i];
    }
    forall k | k in AccountKeys(b, accountId) ensures k in AccountKeys(ab, accountId) {
      var i :| 0 <= i < |b| && b[i].linkedAccountId == accountId && b[i].externalEventId == k;
      assert ab[|a| + i] == b[i];
    }
  }

  /** The update statements, one after the other; `successes` counts those
      that went through. */
  method RunUpdates<C(==)>(table: MeetingsTable<C>, plan: Plan<C>, accountId: string, faults: WriteFaults)
    returns (successes: nat)
    requires table.Valid()
    modifies table
    ensures table.Valid() && table.nextId == old(table.nextId)
    ensures table.rows == UpdatePhase(old(table.rows), old(table.nextId), plan, accountId, faults, table.schema, |plan.updates|)
    ensures successes == UpdateSuccesses(old(table.rows), old(table.nextId), plan, accountId, faults, table.schema, |plan.updates|)
  {
    successes := 0;
    ghost var start := table.rows;
    ghost var id := table.nextId;
    for i := 0 to |plan.updates|
      invariant successes == UpdateSuccesses(start, id, plan, accountId, faults, table.schema, i)
      invariant table.Valid() && table.nextId == id
      invariant table.rows == UpdatePhase(start, id, plan, accountId, faults, table.schema, i)
    {
      ghost var before := table.rows;
      var op := plan.updates[i];
      var outcome := table.Update(op.ext, accountId, op.patch, UpdateFault(faults, i));
      UpdateIsStep(start, before, table.rows, id, plan, accountId, faults, table.schema, i, outcome);
      if outcome.Ok? {
        successes := successes + 1;
      }
    }
  }

  /** Update `i` of the loop is step `i` of UpdatePhase, and it is counted
      exactly when it goes through. */
  lemma UpdateIsStep<C>(start: seq<Row<C>>, before: seq<Row<C>>, after: seq<Row<C>>, nextId: nat, plan: Plan<C>,
                        accountId: string, faults: WriteFaults, schema: Schema<C>, i: nat, outcome: Outcome)
    requires i < |plan.updates| && before == UpdatePhase(start, nextId, plan, accountId, faults, schema, i)
    requires outcome == OutcomeOf(UpdateFault(faults, i), RowsValid(AfterUpdate(before, plan.updates[i].ext, accountId,
                                                                                 plan.updates[i].patch, schema), nextId, schema))
    requires after == if outcome.Ok? then AfterUpdate(before, plan.updates[i].ext, accountId, plan.updates[i].patch, schema) else before
    ensures after == UpdatePhase(start, nextId, plan, accountId, faults, schema, i + 1)
    ensures UpdateSuccesses(start, nextId, plan, accountId, faults, schema, i + 1) ==
            UpdateSuccesses(start, nextId, plan, accountId, faults, schema, i) + if outcome.Ok? then 1 else 0
  {
    assert StepCommits(start, nextId, plan, accountId, faults, schema, i) == outcome.Ok?;
  }

  /** The delete and insert statements of the `try` block, each issued only
      when its list is non-empty. */
  method WriteStatements<C(==)>(table: MeetingsTable<C>, plan: Plan<C>, accountId: string, now: string, faults: WriteFaults)
    returns (threw: bool)
    requires table.Valid()
    modifies table
    ensures table.Valid()
    ensures Applied(table.rows, table.nextId, threw) ==
            WritePhases(old(table.rows), old(table.nextId), plan, accountId, now, faults, table.schema)
  {
    if |plan.deletions| > 0 {
      var outcome := table.Delete(plan.deletions, accountId, faults.delete);
      if outcome.Threw? {
        return true;
      }
    }
    ghost var afterDelete := table.rows;
    assert afterDelete == DeletePhase(old(table.rows), plan, accountId, faults.delete);
    if |plan.inserts| > 0 {
      var outcome := table.Insert(plan.inserts, now, faults.insert);
      if outcome.Threw? {
        return true;
      }
    }
    return false;
  }

  /** `syncMeetingsToDatabase`'s `try` block against the table. `successes`
      counts the updates that went through. */
  method Apply<C(==)>(table: MeetingsTable<C>, plan: Plan<C>, accountId: string, now: string, faults: WriteFaults)
    returns (threw: bool, successes: nat)
    requires table.Valid()
    modifies table
    ensures table.Valid()
    ensures Applied(table.rows, table.nextId, threw) ==
            ApplyPlan(old(table.rows), old(table.nextId), plan, accountId, now, faults, table.schema)
    ensures successes == ApplySuccesses(old(table.rows), old(table.nextId), plan, accountId, now, faults, table.schema)
  {
    successes := 0;
    threw := WriteStatements(table, plan, accountId, now, faults);
    if !threw {
      successes := RunUpdates(table, plan, accountId, faults);
    }
  }
}
