/** The `meetings` table (db/schema.ts:36-71) as an in-memory table. Every
    statement is atomic, as in Postgres: it either applies completely or, when
    the database reports an error or a constraint would break, leaves the table
    as it was. The constraints are the primary key, the unique index on
    (`external_event_id`, `provider`) — which spans ALL accounts — and the
    NOT NULL columns, given by the content's `Schema`. The content type is a
    parameter so that both the current columns and the older single-`date`
    columns fit. */
module MeetingStore {
  import opened Js
  import opened Seqs

  /** A stored meeting. `id` stands for the uuid primary key; the timestamps are
      nullable columns. */
  datatype Row<C> = Row(
    id: nat,
    userId: string,
    linkedAccountId: string,
    externalEventId: string,
    provider: string,
    content: C,
    createdAt: Option<string>,
    updatedAt: Option<string>)

  /** A row handed to `insert`: the key columns and the content; the id and
      both timestamps take their column defaults. */
  datatype NewRow<C> = NewRow(
    userId: string,
    linkedAccountId: string,
    externalEventId: string,
    provider: string,
    content: C)

  /** The extra columns a full-row update writes besides the content. An `id`
      of None is an undefined property, which the update leaves out. */
  datatype FullFields = FullFields(
    id: Option<nat>,
    linkedAccountId: string,
    userId: string,
    createdAt: Option<string>,
    provider: string)

  /** What the table needs to know about a content type: which contents keep
      the NOT NULL columns (`storable`), and which columns an `update` payload
      writes over a stored content (`overlay`; a property the payload leaves
      undefined is dropped by the JSON body, so the stored column stays). */
  datatype Schema<!C> = Schema(storable: C -> bool, overlay: (C, C) -> C)

  /** The payload of `update(data)`. */
  datatype Patch<C> = Patch(content: C, updatedAt: string, full: Option<FullFields>)

  /** What happens to one statement: a thrown exception, an `error` in the
      response, or success. */
  datatype Fault = NoFault | ErrorReturned | Thrown
  datatype Outcome = Ok | Failed | Threw

  /** Primary key and unique index hold. */
  predicate UniqueKeys<C>(rows: seq<Row<C>>) {
    forall i, j :: 0 <= i < j < |rows| ==>
      rows[i].id != rows[j].id &&
      (rows[i].externalEventId != rows[j].externalEventId || rows[i].provider != rows[j].provider)
  }

  predicate AllStorable<C>(rows: seq<Row<C>>, schema: Schema<C>) {
    forall i :: 0 <= i < |rows| ==> schema.storable(rows[i].content)
  }

  predicate IdsBelow<C>(rows: seq<Row<C>>, nextId: nat) {
    forall i :: 0 <= i < |rows| ==> rows[i].id < nextId
  }

  predicate TableValid<C>(rows: seq<Row<C>>, nextId: nat, schema: Schema<C>) {
    UniqueKeys(rows) && AllStorable(rows, schema) && IdsBelow(rows, nextId)
  }

  function AccountRows<C>(rows: seq<Row<C>>, accountId: string): seq<Row<C>> {
    Filter(rows, (r: Row<C>) => r.linkedAccountId == accountId)
  }

  function OtherRows<C>(rows: seq<Row<C>>, accountId: string): seq<Row<C>> {
    Filter(rows, (r: Row<C>) => r.linkedAccountId != accountId)
  }

  /** `delete().in("external_event_id", ids).eq("linked_account_id", accountId)`. */
  predicate Doomed<C>(r: Row<C>, ids: seq<string>, accountId: string) {
    r.linkedAccountId == accountId && r.externalEventId in ids
  }

  function AfterDelete<C>(rows: seq<Row<C>>, ids: seq<string>, accountId: string): (r: seq<Row<C>>)
    ensures forall x :: x in rows && !Doomed(x, ids, accountId) ==> x in r
    ensures forall x :: x in r ==> x in rows && !Doomed(x, ids, accountId)
  {
    var r := Filter(rows, (x: Row<C>) => !Doomed(x, ids, accountId));
    assert forall x :: x in rows && !Doomed(x, ids, accountId) ==> x in r by {
      forall x | x in rows && !Doomed(x, ids, accountId) ensures x in r {
        var k :| 0 <= k < |rows| && rows[k] == x;
      }
    }
    assert forall x :: x in r ==> x in rows && !Doomed(x, ids, accountId) by {
      forall x | x in r ensures x in rows && !Doomed(x, ids, accountId) {
        var k :| 0 <= k < |r| && r[k] == x;
      }
    }
    r
  }

  /** The rows `insert(newRows)` adds, numbered from `nextId`, stamped `now`. */
  function Materialize<C>(newRows: seq<NewRow<C>>, nextId: nat, now: string): (r: seq<Row<C>>)
    ensures |r| == |newRows|
    ensures forall i :: 0 <= i < |r| ==>
              r[i] == Row(nextId + i, newRows[i].userId, newRows[i].linkedAccountId, newRows[i].externalEventId,
                          newRows[i].provider, newRows[i].content, Some(now), Some(now))
  {
    seq(|newRows|, i requires 0 <= i < |newRows| =>
      Row(nextId + i, newRows[i].userId, newRows[i].linkedAccountId, newRows[i].externalEventId,
          newRows[i].provider, newRows[i].content, Some(now), Some(now)))
  }

  /** The insert respects the constraints: no new key collides with a stored
      one or with another new one, and every content is storable. */
  predicate InsertClear<C>(rows: seq<Row<C>>, newRows: seq<NewRow<C>>, schema: Schema<C>) {
    && (forall i, j :: 0 <= i < |rows| && 0 <= j < |newRows| ==>
          rows[i].externalEventId != newRows[j].externalEventId || rows[i].provider != newRows[j].provider)
    && (forall i, j :: 0 <= i < j < |newRows| ==>
          newRows[i].externalEventId != newRows[j].externalEventId || newRows[i].provider != newRows[j].provider)
    && (forall j :: 0 <= j < |newRows| ==> schema.storable(newRows[j].content))
  }

  /** The key of a new row is not among the stored rows' keys. */
  predicate KeyFree<C>(rows: seq<Row<C>>, n: NewRow<C>)
    decreases |rows|
  {
    rows == [] ||
    ((rows[0].externalEventId != n.externalEventId || rows[0].provider != n.provider) && KeyFree(rows[1..], n))
  }

  /** The key of a new row is not among the keys of the new rows after it. */
  predicate NewKeyFree<C>(n: NewRow<C>, rest: seq<NewRow<C>>)
    decreases |rest|
  {
    rest == [] ||
    ((n.externalEventId != rest[0].externalEventId || n.provider != rest[0].provider) && NewKeyFree(n, rest[1..]))
  }

  /** The insert's constraint check, new row by new row: the check the
      database makes before it commits an insert. */
  predicate InsertAdmissible<C>(rows: seq<Row<C>>, newRows: seq<NewRow<C>>, schema: Schema<C>)
    decreases |newRows|
  {
    newRows == [] ||
    (&& schema.storable(newRows[0].content) && KeyFree(rows, newRows[0]) && NewKeyFree(newRows[0], newRows[1..])
     && InsertAdmissible(rows, newRows[1..], schema))
  }

  lemma {:induction false} KeyFreeIff<C>(rows: seq<Row<C>>, n: NewRow<C>)
    ensures KeyFree(rows, n) <==>
            forall i :: 0 <= i < |rows| ==> rows[i].externalEventId != n.externalEventId || rows[i].provider != n.provider
    decreases |rows|
  {
    if rows != [] {
      KeyFreeIff(rows[1..], n);
      assert forall i :: 1 <= i < |rows| ==> rows[i] == rows[1..][i - 1];
    }
  }

  lemma {:induction false} NewKeyFreeIff<C>(n: NewRow<C>, rest: seq<NewRow<C>>)
    ensures NewKeyFree(n, rest) <==>
            forall j :: 0 <= j < |rest| ==> n.externalEventId != rest[j].externalEventId || n.provider != rest[j].provider
    decreases |rest|
  {
    if rest != [] {
      NewKeyFreeIff(n, rest[1..]);
      assert forall j :: 1 <= j < |rest| ==> rest[j] == rest[1..][j - 1];
    }
  }

  /** The row-by-row check accepts exactly the inserts that respect the constraints. */
  lemma {:induction false} InsertAdmissibleClear<C>(rows: seq<Row<C>>, newRows: seq<NewRow<C>>, schema: Schema<C>)
    ensures InsertAdmissible(rows, newRows, schema) <==> InsertClear(rows, newRows, schema)
    decreases |newRows|
  {
    if newRows != [] {
      var rest := newRows[1..];
      InsertAdmissibleClear(rows, rest, schema);
      KeyFreeIff(rows, newRows[0]);
      NewKeyFreeIff(newRows[0], rest);
      assert forall j :: 1 <= j < |newRows| ==> newRows[j] == rest[j - 1];
      if InsertClear(rows, newRows, schema) {
        assert InsertClear(rows, rest, schema);
      }
      if InsertAdmissible(rows, newRows, schema) {
        forall i, j | 0 <= i < j < |newRows|
          ensures newRows[i].externalEventId != newRows[j].externalEventId || newRows[i].provider != newRows[j].provider
        {
          if i > 0 {
            assert newRows[i] == rest[i - 1] && newRows[j] == rest[j - 1];
          }
        }
      }
    }
  }

  /** The constraint check of an insert, stated on the new rows alone, agrees
      with the table invariant of the table it would produce. */
  lemma InsertAdmissibleIff<C>(rows: seq<Row<C>>, nextId: nat, newRows: seq<NewRow<C>>, now: string, schema: Schema<C>)
    requires TableValid(rows, nextId, schema)
    ensures InsertAdmissible(rows, newRows, schema) <==>
            TableValid(rows + Materialize(newRows, nextId, now), nextId + |newRows|, schema)
  {
    InsertAdmissibleClear(rows, newRows, schema);
    InsertClearIff(rows, nextId, newRows, now, schema);
  }

  lemma InsertClearIff<C>(rows: seq<Row<C>>, nextId: nat, newRows: seq<NewRow<C>>, now: string, schema: Schema<C>)
    requires TableValid(rows, nextId, schema)
    ensures InsertClear(rows, newRows, schema) <==>
            TableValid(rows + Materialize(newRows, nextId, now), nextId + |newRows|, schema)
  {
    var added := Materialize(newRows, nextId, now);
    var all := rows + added;
    assert forall i :: 0 <= i < |rows| ==> all[i] == rows[i];
    assert forall j :: 0 <= j < |newRows| ==> all[|rows| + j] == added[j];
    if TableValid(all, nextId + |newRows|, schema) {
      forall i, j | 0 <= i < |rows| && 0 <= j < |newRows|
        ensures rows[i].externalEventId != newRows[j].externalEventId || rows[i].provider != newRows[j].provider
      {
        assert all[i] == rows[i] && all[|rows| + j] == added[j];
      }
      forall i, j | 0 <= i < j < |newRows|
        ensures newRows[i].externalEventId != newRows[j].externalEventId || newRows[i].provider != newRows[j].provider
      {
        assert all[|rows| + i] == added[i] && all[|rows| + j] == added[j];
      }
      forall j | 0 <= j < |newRows| ensures schema.storable(newRows[j].content) {
        assert all[|rows| + j] == added[j];
      }
    }
  }

  /** `ApplyPatch`: the columns an `update(data)` writes. */
  function ApplyPatch<C>(r: Row<C>, patch: Patch<C>, schema: Schema<C>): Row<C> {
    var r1 := r.(content := schema.overlay(r.content, patch.content), updatedAt := Some(patch.updatedAt));
    match patch.full
    case None => r1
    case Some(f) =>
      r1.(id := if f.id.Some? then f.id.value else r.id,
          linkedAccountId := f.linkedAccountId, userId := f.userId,
          createdAt := f.createdAt, provider := f.provider)
  }

  /** `update(patch).eq("external_event_id", ext).eq("linked_account_id", accountId)`. */
  predicate Targeted<C>(r: Row<C>, ext: string, accountId: string) {
    r.externalEventId == ext && r.linkedAccountId == accountId
  }

  function AfterUpdate<C>(rows: seq<Row<C>>, ext: string, accountId: string, patch: Patch<C>, schema: Schema<C>): (r: seq<Row<C>>)
    ensures |r| == |rows|
    ensures forall i {:trigger r[i]} :: 0 <= i < |rows| ==>
              r[i] == if Targeted(rows[i], ext, accountId) then ApplyPatch(rows[i], patch, schema) else rows[i]
  {
    MapSeq(rows, (x: Row<C>) => if Targeted(x, ext, accountId) then ApplyPatch(x, patch, schema) else x)
  }

  /** `r` shares neither its id nor its external key with a row of `rest`. */
  predicate ClashFree<C>(r: Row<C>, rest: seq<Row<C>>)
    decreases |rest|
  {
    rest == [] ||
    (&& r.id != rest[0].id
     && (r.externalEventId != rest[0].externalEventId || r.provider != rest[0].provider)
     && ClashFree(r, rest[1..]))
  }

  /** The constraints checked row by row, each row against the rows after it:
      the check the database makes on the rows an update would leave. */
  predicate RowsValid<C>(rows: seq<Row<C>>, nextId: nat, schema: Schema<C>)
    decreases |rows|
  {
    rows == [] ||
    (&& schema.storable(rows[0].content) && rows[0].id < nextId
     && ClashFree(rows[0], rows[1..])
     && RowsValid(rows[1..], nextId, schema))
  }

  lemma {:induction false} ClashFreeIff<C>(r: Row<C>, rest: seq<Row<C>>)
    ensures ClashFree(r, rest) <==>
            forall j :: 0 <= j < |rest| ==>
              r.id != rest[j].id && (r.externalEventId != rest[j].externalEventId || r.provider != rest[j].provider)
    decreases |rest|
  {
    if rest != [] {
      ClashFreeIff(r, rest[1..]);
      assert forall j :: 1 <= j < |rest| ==> rest[j] == rest[1..][j - 1];
    }
  }

  /** The row-by-row check accepts exactly the tables that keep every constraint. */
  lemma {:induction false} RowsValidIff<C>(rows: seq<Row<C>>, nextId: nat, schema: Schema<C>)
    ensures RowsValid(rows, nextId, schema) <==> TableValid(rows, nextId, schema)
    decreases |rows|
  {
    if rows != [] {
      var rest := rows[1..];
      RowsValidIff(rest, nextId, schema);
      ClashFreeIff(rows[0], rest);
      assert forall j :: 1 <= j < |rows| ==> rows[j] == rest[j - 1];
      if TableValid(rows, nextId, schema) {
        assert TableValid(rest, nextId, schema);
      }
      if RowsValid(rows, nextId, schema) {
        assert UniqueKeys(rows) by {
          forall i, j | 0 <= i < j < |rows|
            ensures rows[i].id != rows[j].id &&
                    (rows[i].externalEventId != rows[j].externalEventId || rows[i].provider != rows[j].provider)
          {
            if i > 0 {
              assert rows[i] == rest[i - 1] && rows[j] == rest[j - 1];
            }
          }
        }
      }
    }
  }

  /** A patch that keeps a targeted row in its account. */
  predicate StaysInAccount<C>(patch: Patch<C>, accountId: string) {
    patch.full.None? || patch.full.value.linkedAccountId == accountId
  }

  /** Statements scoped to one account leave every other account's rows, and their order, exactly as they were. */
  lemma DeleteKeepsOtherAccounts<C>(rows: seq<Row<C>>, ids: seq<string>, accountId: string)
    ensures OtherRows(AfterDelete(rows, ids, accountId), accountId) == OtherRows(rows, accountId)
  {
    FilterOfFilter(rows, (x: Row<C>) => !Doomed(x, ids, accountId), (r: Row<C>) => r.linkedAccountId != accountId);
  }

  lemma InsertKeepsOtherAccounts<C>(rows: seq<Row<C>>, newRows: seq<NewRow<C>>, nextId: nat, now: string, accountId: string)
    requires forall j :: 0 <= j < |newRows| ==> newRows[j].linkedAccountId == accountId
    ensures OtherRows(rows + Materialize(newRows, nextId, now), accountId) == OtherRows(rows, accountId)
  {
    var added := Materialize(newRows, nextId, now);
    var other := (r: Row<C>) => r.linkedAccountId != accountId;
    FilterConcat(rows, added, other);
    FilterNoneKept(added, other);
    assert OtherRows(rows, accountId) + [] == OtherRows(rows, accountId);
  }

  lemma UpdateKeepsOtherAccounts<C>(rows: seq<Row<C>>, ext: string, accountId: string, patch: Patch<C>, schema: Schema<C>)
    requires StaysInAccount(patch, accountId)
    ensures OtherRows(AfterUpdate(rows, ext, accountId, patch, schema), accountId) == OtherRows(rows, accountId)
  {
    FilterOfMap(rows, (x: Row<C>) => if Targeted(x, ext, accountId) then ApplyPatch(x, patch, schema) else x,
                (r: Row<C>) => r.linkedAccountId != accountId);
  }

  /** Deleting never breaks a constraint. */
  lemma DeleteKeepsValid<C>(rows: seq<Row<C>>, nextId: nat, ids: seq<string>, accountId: string, schema: Schema<C>)
    requires TableValid(rows, nextId, schema)
    ensures TableValid(AfterDelete(rows, ids, accountId), nextId, schema)
  {
    var keep := (x: Row<C>) => !Doomed(x, ids, accountId);
    FilterIsSubsequence(rows, keep);
    SubsequenceKeepsValid(Filter(rows, keep), rows, nextId, schema);
  }

  lemma {:induction false} SubsequenceKeepsValid<C>(a: seq<Row<C>>, b: seq<Row<C>>, nextId: nat, schema: Schema<C>)
    requires IsSubsequence(a, b) && TableValid(b, nextId, schema)
    ensures TableValid(a, nextId, schema)
    decreases |b|
  {
    if a != [] && b != [] {
      assert TableValid(b[1..], nextId, schema) by {
        assert forall i :: 0 <= i < |b| - 1 ==> b[1..][i] == b[i + 1];
      }
      if a[0] == b[0] && IsSubsequence(a[1..], b[1..]) {
        SubsequenceKeepsValid(a[1..], b[1..], nextId, schema);
        SubsequenceElements(a[1..], b[1..]);
        assert forall i :: 0 <= i < |a| - 1 ==> a[1..][i] == a[i + 1];
        assert forall j :: 1 <= j < |a| ==> a[j] in b[1..];
        forall j | 1 <= j < |a|
          ensures a[0].id != a[j].id && (a[0].externalEventId != a[j].externalEventId || a[0].provider != a[j].provider)
        {
          var k :| 0 <= k < |b[1..]| && b[1..][k] == a[j];
          assert b[k + 1] == a[j];
        }
      } else {
        SubsequenceKeepsValid(a, b[1..], nextId, schema);
      }
    }
  }

  lemma {:induction false} SubsequenceElements<T>(a: seq<T>, b: seq<T>)
    requires IsSubsequence(a, b)
    ensures forall x :: x in a ==> x in b
    decreases |b|
  {
    if a != [] && b != [] {
      if a[0] == b[0] && IsSubsequence(a[1..], b[1..]) {
        SubsequenceElements(a[1..], b[1..]);
        assert forall x :: x in a ==> x == a[0] || x in a[1..];
      } else {
        SubsequenceElements(a, b[1..]);
      }
    }
  }

  /** What a statement's outcome is, given the injected fault and whether its
      result would satisfy the constraints. */
  function OutcomeOf(fault: Fault, admissible: bool): (o: Outcome)
    ensures o.Ok? <==> fault.NoFault? && admissible
    ensures o.Threw? <==> fault.Thrown?
  {
    if fault.Thrown? then Threw else if fault.ErrorReturned? || !admissible then Failed else Ok
  }

  /** The table. `schema` gives the NOT NULL check and the update overlay of the content columns. */
  class MeetingsTable<C(==)> {
    var rows: seq<Row<C>>
    var nextId: nat
    const schema: Schema<C>

    ghost predicate Valid()
      reads this
    {
      RowsValid(rows, nextId, schema)
    }

    constructor (initial: seq<Row<C>>, firstFreeId: nat, schema: Schema<C>)
      requires TableValid(initial, firstFreeId, schema)
      ensures Valid() && rows == initial && nextId == firstFreeId && this.schema == schema
    {
      RowsValidIff(initial, firstFreeId, schema);
      rows := initial;
      nextId := firstFreeId;
      this.schema := schema;
    }

    /** `select(...).eq("linked_account_id", accountId)`: the account's rows in table order. */
    method Select(accountId: string) returns (selected: seq<Row<C>>)
      ensures forall x :: x in selected <==> x in rows && x.linkedAccountId == accountId
      ensures selected == AccountRows(rows, accountId)
    {
      selected := Filter(rows, (r: Row<C>) => r.linkedAccountId == accountId);
      forall x | x in rows && x.linkedAccountId == accountId ensures x in selected {
        var k :| 0 <= k < |rows| && rows[k] == x;
      }
    }

    method Delete(ids: seq<string>, accountId: string, fault: Fault) returns (outcome: Outcome)
      requires Valid()
      modifies this
      ensures Valid() && nextId == old(nextId)
      ensures outcome == OutcomeOf(fault, true)
      ensures rows == if outcome.Ok? then AfterDelete(old(rows), ids, accountId) else old(rows)
    {
      outcome := OutcomeOf(fault, true);
      if outcome.Ok? {
        RowsValidIff(rows, nextId, schema);
        DeleteKeepsValid(rows, nextId, ids, accountId, schema);
        rows := AfterDelete(rows, ids, accountId);
        RowsValidIff(rows, nextId, schema);
      }
    }

    method Insert(newRows: seq<NewRow<C>>, now: string, fault: Fault) returns (outcome: Outcome)
      requires Valid()
      modifies this
      ensures Valid()
      ensures outcome == OutcomeOf(fault, InsertAdmissible(old(rows), newRows, schema))
      ensures rows == if outcome.Ok? then old(rows) + Materialize(newRows, old(nextId), now) else old(rows)
      ensures nextId == if outcome.Ok? then old(nextId) + |newRows| else old(nextId)
    {
      RowsValidIff(rows, nextId, schema);
      InsertAdmissibleIff(rows, nextId, newRows, now, schema);
      outcome := OutcomeOf(fault, InsertAdmissible(rows, newRows, schema));
      if outcome.Ok? {
        rows := rows + Materialize(newRows, nextId, now);
        nextId := nextId + |newRows|;
        RowsValidIff(rows, nextId, schema);
      }
    }

    method Update(ext: string, accountId: string, patch: Patch<C>, fault: Fault) returns (outcome: Outcome)
      requires Valid()
      modifies this
      ensures Valid() && nextId == old(nextId)
      ensures outcome == OutcomeOf(fault, RowsValid(AfterUpdate(old(rows), ext, accountId, patch, schema), old(nextId), schema))
      ensures rows == if outcome.Ok? then AfterUpdate(old(rows), ext, accountId, patch, schema) else old(rows)
    {
      var candidate := AfterUpdate(rows, ext, accountId, patch, schema);
      outcome := OutcomeOf(fault, RowsValid(candidate, nextId, schema));
      if outcome.Ok? {
        rows := candidate;
      }
    }
  }
}
