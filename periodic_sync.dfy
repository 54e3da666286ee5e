/** `syncAllLinkedAccounts` (utils/meetings/periodicSync.ts): at most once per
    twelve hours, fetch every linked account's meetings and sync the
    non-empty lists into the meetings table, one account after the other.
    The `lastSyncTime` entry of localStorage is the field of `SyncState`;
    the clock, the user lookup, the account list and `fetchMeetings` are
    modelled by their answers. */
module PeriodicSync {
  import opened Js
  import opened Seqs
  import opened Meetings
  import opened MeetingStore
  import opened Reconcile
  import opened SyncMeetings

  const TwelveHoursMs: int := 43200000

  /** `lastSyncStr ? parseInt(lastSyncStr, 10) : 0`; None stands for NaN. */
  function LastSync(stored: Option<string>, parseInt: string -> Option<int>): (r: Option<int>)
    ensures !Truthy(stored) ==> r == Some(0)
  {
    if Truthy(stored) then parseInt(stored.value) else Some(0)
  }

  /** `now - lastSync < TWELVE_HOURS_MS`; a comparison with NaN is false. */
  predicate Throttled(now: int, lastSync: Option<int>) {
    lastSync.Some? && now - lastSync.value < TwelveHoursMs
  }

  /** `meetings && meetings.length > 0`. */
  predicate ShouldSync(fetched: Option<seq<Event>>) {
    fetched.Some? && |fetched.value| > 0
  }

  /** What the loop meets for one account: the answer of `fetchMeetings`, and
      the clock reading and database answers inside its sync. */
  datatype AccountRun = AccountRun(fetched: Option<seq<Event>>, now: string, readFails: bool, faults: WriteFaults)

  datatype TableState = TableState(rows: seq<Row<Content>>, nextId: nat)

  /** One account of the loop: its meetings are synced only when the fetch
      returned a non-empty list. */
  function SyncStep(before: TableState, schema: Schema<Content>, accountId: string, userId: string, e: AccountRun): TableState {
    if ShouldSync(e.fetched) then
      var run := Sync(before.rows, before.nextId, schema, e.fetched.value, accountId, userId, e.now, e.readFails, e.faults);
      TableState(run.rows, run.nextId)
    else before
  }

  /** The table after the first `n` accounts of the loop. */
  function SyncAll(start: TableState, schema: Schema<Content>, accountIds: seq<string>, userId: string,
                   env: nat -> AccountRun, n: nat): TableState
    requires n <= |accountIds|
  {
    if n == 0 then start
    else SyncStep(SyncAll(start, schema, accountIds, userId, env, n - 1), schema, accountIds[n - 1], userId, env(n - 1))
  }

  /** The accounts whose meetings were handed to the sync, in loop order. */
  function SyncedUpTo(accountIds: seq<string>, env: nat -> AccountRun, n: nat): (r: seq<string>)
    requires n <= |accountIds|
    ensures |r| <= n
    ensures forall x :: x in r ==> x in accountIds
  {
    if n == 0 then []
    else SyncedUpTo(accountIds, env, n - 1) + (if ShouldSync(env(n - 1).fetched) then [accountIds[n - 1]] else [])
  }

  /** The `lastSyncTime` entry of localStorage. */
  class SyncState {
    var lastSyncTime: Option<string>

    constructor (stored: Option<string>)
      ensures lastSyncTime == stored
    {
      lastSyncTime := stored;
    }
  }

  /** The `for … of linkedAccounts` loop. */
  method SyncAccounts(table: MeetingsTable<Content>, ids: seq<string>, userId: string, env: nat -> AccountRun)
    returns (synced: seq<string>)
    requires table.Valid()
    modifies table
    ensures table.Valid()
    ensures TableState(table.rows, table.nextId) == SyncAll(TableState(old(table.rows), old(table.nextId)), table.schema, ids, userId, env, |ids|)
    ensures synced == SyncedUpTo(ids, env, |ids|)
  {
    synced := [];
    ghost var start := TableState(table.rows, table.nextId);
    for i := 0 to |ids|
      invariant table.Valid()
      invariant TableState(table.rows, table.nextId) == SyncAll(start, table.schema, ids, userId, env, i)
      invariant synced == SyncedUpTo(ids, env, i)
    {
      var didSync := SyncOne(table, ids[i], userId, env(i));
      if didSync {
        synced := synced + [ids[i]];
      }
    }
  }

  /** One pass of the loop body: the account's meetings go to the sync only
      when the fetch returned a non-empty list. */
  method SyncOne(table: MeetingsTable<Content>, accountId: string, userId: string, e: AccountRun) returns (didSync: bool)
    requires table.Valid()
    modifies table
    ensures table.Valid()
    ensures TableState(table.rows, table.nextId) == SyncStep(TableState(old(table.rows), old(table.nextId)), table.schema, accountId, userId, e)
    ensures didSync == ShouldSync(e.fetched)
  {
    didSync := e.fetched.Some? && |e.fetched.value| > 0;
    if didSync {
      var _ := SyncMeetingsToDatabase(table, e.fetched.value, accountId, userId, e.now, e.readFails, e.faults);
    }
  }

  /** `syncAllLinkedAccounts()`. `user` is the signed-in user's id, if any;
      `accounts` the ids `fetchLinkedAccounts` returned (None for null).
      Errors inside one account's fetch or sync are caught, so the loop always
      reaches every account and the timestamp is written at the end. */
  method SyncAllLinkedAccounts(state: SyncState, table: MeetingsTable<Content>, now: int, parseInt: string -> Option<int>,
                               user: Option<string>, accounts: Option<seq<string>>, env: nat -> AccountRun)
    returns (synced: seq<string>)
    requires table.Valid()
    modifies state, table
    ensures table.Valid()
    ensures Throttled(now, LastSync(old(state.lastSyncTime), parseInt)) || user.None? ==>
              state.lastSyncTime == old(state.lastSyncTime) && table.rows == old(table.rows) && table.nextId == old(table.nextId) &&
              synced == []
    ensures !Throttled(now, LastSync(old(state.lastSyncTime), parseInt)) && user.Some? ==>
              && state.lastSyncTime == Some(IntToString(now))
              && TableState(table.rows, table.nextId) ==
                 SyncAll(TableState(old(table.rows), old(table.nextId)), table.schema, accounts.GetOr([]), user.value, env, |accounts.GetOr([])|)
              && synced == SyncedUpTo(accounts.GetOr([]), env, |accounts.GetOr([])|)
  {
    var lastSync := LastSync(state.lastSyncTime, parseInt);
    if Throttled(now, lastSync) {
      return [];
    }
    if user.None? {
      return [];
    }
    var ids := accounts.GetOr([]);
    if ids == [] {
      state.lastSyncTime := Some(IntToString(now));
      return [];
    }
    synced := SyncAccounts(table, ids, user.value, env);
    state.lastSyncTime := Some(IntToString(now));
  }

  /** A finished run stores a timestamp that throttles every later run for
      twelve hours (given a `parseInt` that reads back what `toString` wrote). */
  lemma NextRunThrottled(now: int, later: int, parseInt: string -> Option<int>)
    requires parseInt(IntToString(now)) == Some(now)
    requires later < now + TwelveHoursMs
    ensures Throttled(later, LastSync(Some(IntToString(now)), parseInt))
  {
    assert IntToString(now) != "";
  }

  /** A stored value that is not a number (NaN) never throttles. */
  lemma UnparsableTimestampNeverThrottles(now: int, stored: string, parseInt: string -> Option<int>)
    requires stored != "" && parseInt(stored).None?
    ensures !Throttled(now, LastSync(Some(stored), parseInt))
  {
  }

  /** A missing timestamp counts as 0: only a clock before twelve hours
      after the epoch is throttled. */
  lemma MissingTimestampIsEpoch(now: int, parseInt: string -> Option<int>)
    ensures Throttled(now, LastSync(None, parseInt)) <==> now < TwelveHoursMs
  {
  }

  /** Each sync touches only its own account, so the rows of an account that
      is not in the list are left exactly as they were. */
  lemma {:induction false} UnlistedAccountsUntouched(start: TableState, schema: Schema<Content>, accountIds: seq<string>,
                                                     userId: string, env: nat -> AccountRun, n: nat, other: string)
    requires n <= |accountIds| && other !in accountIds
    ensures AccountRows(SyncAll(start, schema, accountIds, userId, env, n).rows, other) == AccountRows(start.rows, other)
  {
    if n > 0 {
      UnlistedAccountsUntouched(start, schema, accountIds, userId, env, n - 1, other);
      StepKeepsOtherAccount(SyncAll(start, schema, accountIds, userId, env, n - 1), schema, accountIds[n - 1], userId, env(n - 1), other);
    }
  }

  lemma StepKeepsOtherAccount(before: TableState, schema: Schema<Content>, accountId: string, userId: string,
                              e: AccountRun, other: string)
    requires accountId != other
    ensures AccountRows(SyncStep(before, schema, accountId, userId, e).rows, other) == AccountRows(before.rows, other)
  {
    if ShouldSync(e.fetched) {
      var run := Sync(before.rows, before.nextId, schema, e.fetched.value, accountId, userId, e.now, e.readFails, e.faults);
      SyncKeepsOtherAccounts(before.rows, before.nextId, schema, e.fetched.value, accountId, userId, e.now, e.readFails, e.faults);
      OwnRowsAmongOthers(run.rows, accountId, other);
      OwnRowsAmongOthers(before.rows, accountId, other);
    }
  }

  /** An account's rows are the same whether read from the whole table or
      from the rows of all accounts but another one. */
  lemma OwnRowsAmongOthers(rows: seq<Row<Content>>, a: string, other: string)
    requires a != other
    ensures AccountRows(OtherRows(rows, a), other) == AccountRows(rows, other)
  {
    FilterOfFilter(rows, (r: Row<Content>) => r.linkedAccountId != a, (r: Row<Content>) => r.linkedAccountId == other);
  }

  /** When no account fetched any meetings, the loop writes nothing. */
  lemma {:induction false} NothingFetchedWritesNothing(start: TableState, schema: Schema<Content>, accountIds: seq<string>,
                                                       userId: string, env: nat -> AccountRun, n: nat)
    requires n <= |accountIds|
    requires forall i :: 0 <= i < n ==> !ShouldSync(env(i).fetched)
    ensures SyncAll(start, schema, accountIds, userId, env, n) == start
    ensures SyncedUpTo(accountIds, env, n) == []
  {
    if n > 0 {
      NothingFetchedWritesNothing(start, schema, accountIds, userId, env, n - 1);
    }
  }
}
