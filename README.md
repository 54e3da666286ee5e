# linkcal.io meeting pipeline — a Dafny model

linkcal.io links a user's Google and Microsoft calendars. It mirrors each
account's meetings into one `meetings` table. It can also forward the meetings
of one account to another as "Linkcal Timeblock" placeholder events. This
project models the logic between the calendar providers and that table:

- the provider normalisers, in the newer (`start_date`/`end_date`) and older
  (single `date`) versions;
- the Linkcal-marker filters, the start-date validation and the deduplicator;
- the diff engine: inserts, updates and deletions;
- the sync applier, which runs delete, then insert, then update against an
  account-scoped table, in both versions;
- the fetch orchestrators, with their provider dispatch and refresh-token
  rotation;
- the forwarder (self-loop guard, placeholder title and body, three attempts
  with linear back-off, success/failure tally), in both versions;
- the paginated purge of Linkcal placeholders and the account deletion after it;
- the twelve-hour periodic-sync gate and its loop over accounts;
- the small helpers: zone-suffix normalisation, provider-name normalisation,
  webhook status, account colours and hour labels.

Pure code is modelled as functions with lemmas. Code that changes state is
modelled as methods on classes:

- `MeetingStore.MeetingsTable` is the `meetings` table. It enforces the
  schema's primary key and its unique index on (`external_event_id`,
  `provider`). The table is parameterised by a `Schema` of its content: the
  NOT NULL test and the way an update payload overlays a stored row. For the
  newer columns this is `SyncMeetings.MeetingSchema`, whose overlay keeps a
  stored column when the payload leaves it undefined, as `update(data)` does
  once the JSON body drops undefined properties.
- `Accounts.AccountStore` is the `linked_accounts` table.
- `PeriodicSync.SyncState` holds the `lastSyncTime` entry of localStorage.

Every loop is a `while` or `for` loop with invariants, and each method is
proved equal to a specification function. The lemmas about that function
state what the source promises.

Everything outside the process is a parameter:

- HTTP answers (token endpoints, calendar listings, lookups, creates, deletes);
- database answers (read errors, write errors, thrown exceptions);
- the clock and date parsing;
- the logged-in user.

The two versions of each pair share one model where they behave alike. Their
differences are written out:

- `LegacySync` next to `SyncMeetings`;
- `LegacyForward` next to the newer attempt in `Forward`;
- `LegacyFetch` next to `FetchMeetings`.

Where the two versions of a file behave the same (the purge loops), one model
serves both, and both files are cited.

In the newer forwarder, the Microsoft existence lookup uses only the start
date (utils/meetings/forwardMeetings.ts:195-213), so a meeting with a bad end
date still gets a lookup, and `NewerQuery` follows the code.

## Model

The table lists every member with a contract. Definitions without one (for
example `CalendarView.FormatHour`, `PeriodicSync.Throttled`, `SyncMeetings.Sync`,
`Reconcile.ApplyPlan`, `MeetingStore.ApplyPatch`) model the same source lines
as the rows that state their properties, and take their meaning from those rows.

| member | source | states |
|---|---|---|
| FormatDate.WithUtcSuffix | utils/formatDate.ts:3-6 | the result ends in a zone designator, starts with the input and is at most one character longer; it equals the input exactly when the input already ends in "Z" or ±HH:MM |
| FormatDate.WithUtcSuffixIdempotent | utils/formatDate.ts:3-6 | applying the transform twice gives the same string as applying it once |
| FormatDate.AppendsZExactlyWhenUnzoned | utils/formatDate.ts:4-5 | "Z" is appended if and only if the input has no zone designator |
| FormatDate.Examples | utils/formatDate.ts:3-6 | a bare time gets "Z"; "Z" and "+02:00" endings are kept; "+0200" (no colon) is not a designator and gets "Z" |
| NormalizeProvider.NormalizeProvider | utils/normalizeProvider.ts:7-13 | the result has no upper-case letter; "azure-ad" in any case becomes "azure", anything else becomes its lower-case form |
| NormalizeProvider.NormalizeProviderIdempotent | utils/normalizeProvider.ts:7-13 | normalising twice equals normalising once |
| NormalizeProvider.Examples | utils/normalizeProvider.ts:8-11 | "Google" gives "google"; "AZURE-AD" and "Azure-Ad" give "azure"; "microsoft" is unchanged |
| Validation.ValidateMeetings | utils/calendar/validation.ts:3-13 | never grows the list; an event is in the output iff it is in the input and its start date parses |
| Validation.ValidateMeetingsSpec | utils/calendar/validation.ts:6-12 | the output is an order-preserving subsequence, and every occurrence of a valid event is kept while every occurrence of an invalid one is dropped |
| Validation.ValidateMeetingsIdempotent | utils/calendar/validation.ts:6-12 | validating twice equals validating once |
| Validation.FilterOutLinkcalTimeblocks | utils/calendar/validation.ts:15-22 | every kept event is an input event whose summary is absent or, lower-cased, lacks the marker; every input event without that match is kept |
| Validation.NoSummaryKept | utils/calendar/validation.ts:18 | events without a summary are all kept |
| Validation.UppercaseMarkerNeverMatches | utils/calendar/validation.ts:18-20 | a lower-cased string never contains a marker that has an upper-case letter |
| Validation.UppercaseMarkerDropsNothing | utils/calendar/validation.ts:16-21 | because the marker itself is not lower-cased, a marker with an upper-case letter drops nothing |
| LinkcalFilter.FilterLinkcalEvents | utils/meetings/filterLinkCalEvents.ts:11-29 | never grows the list; an event is kept iff it is an input event and neither its lower-cased name contains "linkcal" or "timeblock" nor its lower-cased message contains "meeting forwarded by linkcal.io" |
| LinkcalFilter.FilterLinkcalSpec | utils/meetings/filterLinkCalEvents.ts:14-28 | the output is an order-preserving subsequence that keeps every occurrence of an unmarked event and no occurrence of a marked one |
| LinkcalFilter.FilterLinkcalIdempotent | utils/meetings/filterLinkCalEvents.ts:14-28 | filtering twice equals filtering once |
| LinkcalFilter.NamelessEventKept | utils/meetings/filterLinkCalEvents.ts:16-18 | an event with neither name nor message is kept |
| LinkcalFilter.LowerContainsOfPrefix | utils/meetings/filterLinkCalEvents.ts:16 | a marker inside a known lower-case prefix of the lower-cased name is found by the `includes` test |
| LinkcalFilter.CaseInsensitiveMatch | utils/meetings/filterLinkCalEvents.ts:16-17 | an event whose name holds the marker in upper case ("LINKCAL Timeblock", then a bar and a name) is dropped |
| Dedup.IdIndex | utils/meetings/dedeuplicateEvents.ts:12 | the position of the first event with the id, or -1 exactly when none has it |
| Dedup.MapSet | utils/meetings/dedeuplicateEvents.ts:12 | the Map's `set` on its value list: a known id is overwritten in place, a new id is appended, and the ids stay distinct |
| Dedup.Deduplicate | utils/meetings/dedeuplicateEvents.ts:9-13 | the output is no longer than the input, has pairwise distinct ids, holds only input events and carries exactly the input's ids |
| Dedup.DeduplicateStep | utils/meetings/dedeuplicateEvents.ts:12 | one event more either overwrites the entry with its id or is appended at the end |
| Dedup.LastOccurrenceWins | utils/meetings/dedeuplicateEvents.ts:12 | the event kept for each id is the last input event with that id |
| Dedup.FirstOccurrenceOrder | utils/meetings/dedeuplicateEvents.ts:12 | output order is the order in which ids first appear in the input |
| Dedup.DistinctUnchanged | utils/meetings/dedeuplicateEvents.ts:12 | events with distinct ids pass through unchanged |
| Dedup.DeduplicateIdempotent | utils/meetings/dedeuplicateEvents.ts:12 | deduplicating twice equals deduplicating once |
| GoogleProvider.When | utils/calendar/providers/google.ts:42-43 | `start?.dateTime`, or else `start?.date`: the date-time when truthy, otherwise the all-day date, and nothing when the field is absent |
| GoogleProvider.Attendees | utils/calendar/providers/google.ts:44 | the attendee emails in order, or [] when absent |
| GoogleProvider.GoogleContent | utils/calendar/providers/google.ts:41-48 | each column is the event's field when truthy and otherwise "No title", "No location", "No link", "No description" or "confirmed"; the dates are `When` of start and end |
| GoogleProvider.NormalizeGoogleEvent | utils/calendar/providers/google.ts:36-49 | id and external id are the event id, the account id is the argument and the provider is "google" |
| GoogleProvider.NormalizeGoogleEvents | utils/calendar/providers/google.ts:32-50 | same length as the input, element i normalises event i |
| GoogleProvider.NormalizeGoogleRoundTrip | utils/calendar/providers/google.ts:36-49 | an event rebuilt from its normalised row normalises to the same row |
| GoogleProvider.GoogleStartFallback | utils/calendar/providers/google.ts:42 | an all-day event stores its `date` as start |
| GoogleProvider.UndatedGoogleEventDropped | utils/calendar/providers/google.ts:42 | an event without a start is dropped by validation (also utils/calendar/validation.ts:8) |
| GoogleProvider.FetchGoogleEvents | utils/calendar/providers/google.ts:6-30 | a failed request gives nothing, a missing list gives [], otherwise the items without the timeblock-marked ones |
| MicrosoftProvider.Stamp | utils/calendar/providers/microsoft.ts:44-45 | `${dateTime}Z`: always ends in "Z"; the date-time followed by "Z", or "undefinedZ" when absent |
| MicrosoftProvider.LocationOf | utils/calendar/providers/microsoft.ts:48-51 | the display name, else the join URL, else "No location"; never empty |
| MicrosoftProvider.StatusOf | utils/calendar/providers/microsoft.ts:54 | `showAs`, else the response, else "unknown"; never empty |
| MicrosoftProvider.MicrosoftContent | utils/calendar/providers/microsoft.ts:43-54 | the columns and defaults of the Graph normaliser ("No title", "No link", "No description") |
| MicrosoftProvider.NormalizeMicrosoftEvent | utils/calendar/providers/microsoft.ts:38-55 | id and external id are the event id, the account id is the argument and the provider is "microsoft" |
| MicrosoftProvider.NormalizeMicrosoftEvents | utils/calendar/providers/microsoft.ts:34-56 | same length as the input, element i normalises event i |
| MicrosoftProvider.MicrosoftStampsAreZoned | utils/calendar/providers/microsoft.ts:44-45 | both stored dates end in a zone designator, so `parseUtcTimestamp` leaves them alone (also utils/formatDate.ts:3-6) |
| MicrosoftProvider.UndatedMicrosoftEvent | utils/calendar/providers/microsoft.ts:44 | a missing start is stored as the text "undefinedZ" |
| MicrosoftProvider.JoinUrlStandsInForLocation | utils/calendar/providers/microsoft.ts:48-52 | without a location the join URL is both location and link |
| MicrosoftProvider.FetchMicrosoftEvents | utils/calendar/providers/microsoft.ts:6-32 | a failed request gives nothing, a missing list gives [], otherwise the items the summary filter keeps |
| MicrosoftProvider.MicrosoftTimeblocksNotFiltered | utils/calendar/providers/microsoft.ts:26 | Graph events carry `subject`, not `summary`, so the timeblock filter keeps all of them (also utils/calendar/validation.ts:18) |
| MeetingDiffs.ComputeInsertData | utils/meetings/computeMeetingDiffs.ts:15-44 | every row carries the given user and account, an external id absent from the stored ones and an incoming event's columns; every incoming event whose id is not stored has its row |
| MeetingDiffs.InsertOrderAndMultiplicity | utils/meetings/computeMeetingDiffs.ts:28-43 | the rows are exactly the unseen events, in input order and with their multiplicity |
| MeetingDiffs.FirstMatch | utils/meetings/computeMeetingDiffs.ts:68-70 | the index of the first stored meeting with the id, or -1 when there is none |
| MeetingDiffs.FindExisting | utils/meetings/computeMeetingDiffs.ts:68-71 | `find`: present iff some stored meeting has the id, and then it is the first such meeting |
| MeetingDiffs.HasChangesIffDiffer | utils/meetings/computeMeetingDiffs.ts:78-87 | the eight compared columns are the whole content: a change is reported iff the contents differ |
| MeetingDiffs.ComputeUpdateData | utils/meetings/computeMeetingDiffs.ts:57-110 | every row carries the `id` and `created_at` of the first matching stored meeting, changed content from an incoming event and the given account, user and time; every matching changed event has its row |
| MeetingDiffs.UpdateIff | utils/meetings/computeMeetingDiffs.ts:63-89 | an incoming event has an update row iff a stored meeting has its id and one of the eight columns differs |
| MeetingDiffs.UnchangedEventNotUpdated | utils/meetings/computeMeetingDiffs.ts:78-89 | an event equal to its stored meeting produces no update |
| MeetingDiffs.InsertUpdateDisjoint | utils/meetings/computeMeetingDiffs.ts:29-66 | no external id is both inserted and updated |
| MeetingDiffs.UndefinedKeyShadowsEvent | utils/meetings/computeMeetingDiffs.ts:24-65 | a stored meeting without an external id makes `String(undefined)` match an event whose id is "undefined", so it is neither inserted nor updated |
| MeetingDiffs.ComputeDeletions | utils/meetings/computeMeetingDiffs.ts:120-131 | every deleted id belongs to a stored meeting and to no incoming event; every stored id that no incoming event has is deleted; undefined ids are dropped |
| MeetingDiffs.DeletionsInStoredOrder | utils/meetings/computeMeetingDiffs.ts:124-130 | deletions come out in stored order |
| MeetingDiffs.MirroredStoreIsQuiet | utils/meetings/computeMeetingDiffs.ts:24-128 | when the stored meetings mirror the incoming events in any order (every stored id is incoming, and every incoming event finds a stored meeting with its content), all three outputs are empty |
| MeetingDiffs.MirrorNoInserts | utils/meetings/computeMeetingDiffs.ts:24-29 | a store that mirrors the events in any order produces no inserts |
| MeetingDiffs.MirrorNoUpdates | utils/meetings/computeMeetingDiffs.ts:63-89 | a store that mirrors the events in any order produces no updates |
| MeetingDiffs.MirrorNoDeletions | utils/meetings/computeMeetingDiffs.ts:124-128 | a store that mirrors the events in any order produces no deletions |
| MeetingDiffs.AlignedStoreMirrors | utils/meetings/computeMeetingDiffs.ts:63-71 | stored meetings laid out one per distinct event, in event order, mirror the events |
| MeetingStore.AfterDelete | utils/meetings/syncMeetings.ts:134-138 | `delete().in(ids).eq(account)` removes exactly the account's rows whose external id is listed |
| MeetingStore.Materialize | utils/meetings/syncMeetings.ts:149 | inserted rows get fresh consecutive ids and the insert time, and keep the given columns (also db/schema.ts:39-63) |
| MeetingStore.InsertAdmissibleIff | db/schema.ts:39-69 | an insert keeps the table valid iff its rows are storable and their (external id, provider) pairs are new and pairwise distinct |
| MeetingStore.AfterUpdate | utils/meetings/syncMeetings.ts:162-166 | `update(patch).eq(ext).eq(account)` patches exactly the account's rows with that external id and leaves the others; a patched row's content is the schema's overlay of the payload on the stored content |
| MeetingStore.DeleteKeepsOtherAccounts | utils/meetings/syncMeetings.ts:138 | a delete scoped to an account leaves every other account's rows, and their order, unchanged |
| MeetingStore.InsertKeepsOtherAccounts | utils/meetings/syncMeetings.ts:61-149 | inserting the account's own rows leaves the other accounts' rows unchanged |
| MeetingStore.UpdateKeepsOtherAccounts | utils/meetings/syncMeetings.ts:162-166 | an account-scoped update that keeps rows in the account leaves other accounts unchanged |
| MeetingStore.DeleteKeepsValid | db/schema.ts:39-69 | a delete never breaks the key or the unique index |
| MeetingStore.SubsequenceKeepsValid | db/schema.ts:39-69 | removing rows never breaks the key or the unique index |
| MeetingStore.OutcomeOf | utils/meetings/syncMeetings.ts:140-155 | a statement commits iff it reports no error and keeps the constraints; it throws iff the client throws |
| MeetingStore.MeetingsTable.constructor | db/schema.ts:36-71 | a table over valid initial rows |
| MeetingStore.MeetingsTable.Select | utils/meetings/syncMeetings.ts:35-40 | selects exactly the account's rows, in table order |
| MeetingStore.MeetingsTable.Delete | utils/meetings/syncMeetings.ts:134-138 | commits `AfterDelete` unless the statement fails, and keeps the table valid |
| MeetingStore.MeetingsTable.Insert | utils/meetings/syncMeetings.ts:149 | commits the materialised rows and advances the id counter iff the statement succeeds and the constraints hold; otherwise nothing changes (also db/schema.ts:66-69) |
| MeetingStore.MeetingsTable.Update | utils/meetings/syncMeetings.ts:162-166 | commits `AfterUpdate` (the payload overlaid on each targeted row) iff the statement succeeds and the constraints hold |
| Reconcile.UpdatePhaseKeepsValid | utils/meetings/syncMeetings.ts:158-177 | the update phase never breaks a table constraint |
| Reconcile.ApplyKeepsValid | utils/meetings/syncMeetings.ts:131-193 | the apply phases keep the table valid |
| Reconcile.UpdatePhaseKeepsOtherAccounts | utils/meetings/syncMeetings.ts:162-166 | the update phase leaves other accounts' rows unchanged |
| Reconcile.UpdateStepKeepsOtherAccounts | utils/meetings/syncMeetings.ts:162-167 | one update leaves other accounts' rows unchanged |
| Reconcile.ApplyKeepsOtherAccounts | utils/meetings/syncMeetings.ts:131-186 | delete, insert and update together leave every other account's rows unchanged, whatever the database answers (also utils/syncMeetings.ts:133-188) |
| Reconcile.EmptyPlanIsQuiet | utils/meetings/syncMeetings.ts:133-158 | with nothing to delete, insert or update, the table is untouched and nothing throws |
| Reconcile.DeleteErrorContinues | utils/meetings/syncMeetings.ts:140-145 | a delete that reports an error is skipped and the insert and update phases still run |
| Reconcile.InsertErrorContinues | utils/meetings/syncMeetings.ts:150-155 | an insert that reports an error is skipped and the update phase still runs |
| Reconcile.ThrowStopsLaterPhases | utils/meetings/syncMeetings.ts:131-193 | a thrown delete skips insert and update, a thrown insert skips the updates, and the run throws iff a non-empty delete or insert threw |
| Reconcile.UpdatePhaseSamePlanUpdates | utils/meetings/syncMeetings.ts:158-177 | the update phase depends only on the plan's updates |
| Reconcile.UpdatePhaseIgnoresDeletions | utils/meetings/syncMeetings.ts:158-177 | the update phase does not read the deletion list |
| Reconcile.UpdatePhaseIgnoresInserts | utils/meetings/syncMeetings.ts:158-177 | the update phase does not read the insert list |
| Reconcile.UpdatePhaseKeepsKeys | utils/meetings/syncMeetings.ts:162-166 | updates change no external id of the account |
| Reconcile.UpdateKeepsKeys | utils/meetings/syncMeetings.ts:162-166 | one update changes no external id of the account |
| Reconcile.CommittedKeys | utils/meetings/syncMeetings.ts:133-156 | when delete and insert commit, the account's ids are the old ones minus the deleted plus the inserted |
| Reconcile.DeletedKeys | utils/meetings/syncMeetings.ts:134-138 | a committed delete removes exactly the listed ids from the account |
| Reconcile.Apply | utils/meetings/syncMeetings.ts:131-193 | the method runs delete, insert and update (each only when non-empty) and ends in the state `ApplyPlan` describes; the success count is `ApplySuccesses`: zero when the delete or the insert threw, otherwise the updates that went through (also utils/syncMeetings.ts:133-195) |
| Reconcile.WriteStatements | utils/meetings/syncMeetings.ts:131-155 | the delete then the insert, each issued only when its list is non-empty; the table stays valid and ends where `WritePhases` says, and the method reports a throw iff a non-empty statement threw (also utils/syncMeetings.ts:133-157) |
| Reconcile.RunUpdates | utils/meetings/syncMeetings.ts:158-186 | the updates run one after the other in plan order; the table stays valid, its id counter is unchanged, it ends in the state `UpdatePhase` describes, and the success count is `UpdateSuccesses`, the number of updates that reported no error and did not throw (also utils/syncMeetings.ts:160-188) |
| Reconcile.UpdateSuccesses | utils/meetings/syncMeetings.ts:178 | `successCount`: the number of the first n updates for which `StepCommits` holds, i.e. that reported no error and did not throw on the table the earlier updates left; at most n (also utils/syncMeetings.ts:180) |
| Reconcile.FailedUpdatesNotCounted | utils/meetings/syncMeetings.ts:167-178 | when every update reports an error or throws, the count is zero (also utils/syncMeetings.ts:169-180) |
| Reconcile.AllCommittedCounted | utils/meetings/syncMeetings.ts:167-178 | the count equals the number of updates exactly when every update went through on the table before it (also utils/syncMeetings.ts:169-180) |
| Reconcile.ApplySuccesses | utils/meetings/syncMeetings.ts:131-186 | the count is at most the number of updates, and zero when the delete or the insert threw, since the updates are then never issued (also utils/syncMeetings.ts:133-188) |
| MeetingStore.RowsValidIff | db/schema.ts:39-69 | the row-by-row constraint test (the table invariant, and the check an update is committed on) holds iff the table is valid: storable contents, ids below the counter, distinct ids and distinct (external id, provider) pairs |
| MeetingStore.InsertAdmissibleClear | db/schema.ts:39-69 | the new-row-by-new-row check an insert is committed on holds iff every new row is storable and its (external id, provider) pair collides with no stored row and no other new row |
| SyncMeetings.ReadExisting | utils/meetings/syncMeetings.ts:35-40 | the selected meetings are exactly the account's rows, in order |
| SyncMeetings.SyncMeetingsToDatabase | utils/meetings/syncMeetings.ts:5-194 | the method leaves the table and returns the value that `Sync` gives for the old table under the table's schema, and keeps the table valid |
| SyncMeetings.DefinedPayloadOverwrites | utils/meetings/syncMeetings.ts:162-166 | a payload that defines every column writes exactly its own content |
| SyncMeetings.OverlayColumns | utils/meetings/syncMeetings.ts:162-166 | after an update each column is the payload's where defined and the stored one where undefined; attendees are always written; a storable row stays storable |
| SyncMeetings.UndefinedEndUpdateCommits | utils/meetings/syncMeetings.ts:95-166 | a changed event with an undefined end date (a Google event without `end`) yields one update, which commits, writes the new start and name, and keeps the stored end date and the row id |
| SyncMeetings.ReadFailureWritesNothing | utils/meetings/syncMeetings.ts:42-48 | a failed read returns null and writes nothing |
| SyncMeetings.SyncReturnsFilteredEvents | utils/meetings/syncMeetings.ts:13-193 | on success the result is the Linkcal-filtered input; null exactly when the read failed or a delete or insert threw |
| SyncMeetings.SyncPlanInAccount | utils/meetings/syncMeetings.ts:61-121 | every planned row belongs to the account |
| SyncMeetings.SyncKeepsOtherAccounts | utils/meetings/syncMeetings.ts:134-167 | a sync leaves other accounts' rows unchanged |
| SyncMeetings.StoredKeys | utils/meetings/syncMeetings.ts:51-53 | the stored ids read back are exactly the account's external ids |
| SyncMeetings.SyncPlanTargets | utils/meetings/syncMeetings.ts:61-80 | inserts go only to ids the account does not hold; updates only to ids it holds, with changed content |
| SyncMeetings.DeletionKeys | utils/meetings/syncMeetings.ts:54-58 | the ids to delete are the account's ids minus the incoming ids |
| SyncMeetings.InsertionKeys | utils/meetings/syncMeetings.ts:61-62 | the ids to insert are the incoming ids minus the account's ids |
| SyncMeetings.InsertDataKeys | utils/meetings/syncMeetings.ts:61-76 | the insert rows carry exactly the new incoming ids |
| SyncMeetings.SyncReconcilesKeys | utils/meetings/syncMeetings.ts:55-156 | when read, delete and insert go through, the account ends up holding exactly the ids of the filtered incoming events |
| SyncMeetings.MirroredAccountIsQuiet | utils/meetings/syncMeetings.ts:55-123 | an account whose stored rows, in any order, mirror the incoming events without the Linkcal-marked ones is left as it is, and those filtered events are returned |
| LegacySync.LegacyFilter | utils/syncMeetings.ts:25-35 | keeps exactly the events whose lower-cased name and message carry no Linkcal marker |
| LegacySync.CanonEvents | utils/syncMeetings.ts:81-98 | present iff every date canonicalises (`toISOString` throws otherwise); then each event with its canonical date |
| LegacySync.LegacyDeletions | utils/syncMeetings.ts:66-70 | the ids to delete are the stored ids minus the incoming ids |
| LegacySync.LegacyInserts | utils/syncMeetings.ts:73-87 | every row belongs to the account and user and carries an unstored id; every event with an unstored id has its row |
| LegacySync.FirstRow | utils/syncMeetings.ts:93-96 | the first stored row with the id, present iff the id is stored |
| LegacySync.LegacyHasChangesIffDiffer | utils/syncMeetings.ts:101-109 | the seven compared columns are the whole content |
| LegacySync.LegacyUpdates | utils/syncMeetings.ts:90-125 | every update is the patch of some incoming event that is stored and changed, and every such event has its update |
| LegacySync.LegacySyncMeetingsToDatabase | utils/syncMeetings.ts:17-196 | the method ends in the state and returns the value that `LegacySyncRun` gives, and keeps the table valid |
| LegacySync.LegacyReadFailureWritesNothing | utils/syncMeetings.ts:54-60 | a failed read returns null and writes nothing |
| LegacySync.InvalidDateRejectsBeforeWrites | utils/syncMeetings.ts:81-98 | an unfiltered event whose date does not canonicalise makes the run throw before any write |
| LegacySync.LegacyReturnsFilteredEvents | utils/syncMeetings.ts:25-191 | on success the result is the filtered input |
| LegacySync.LegacyPlanInAccount | utils/syncMeetings.ts:73-123 | every planned row belongs to the account |
| LegacySync.LegacyKeepsOtherAccounts | utils/syncMeetings.ts:136-168 | other accounts' rows are unchanged |
| LegacySync.InsertsStoreCanonicalDate | utils/syncMeetings.ts:81 | inserted rows store `new Date(date).toISOString()` |
| LegacySync.LegacyUpdateIff | utils/syncMeetings.ts:98-111 | an event is updated iff it is stored and differs after canonicalising its date, so an unchanged event gives no update |
| LegacySync.LegacyReconcilesKeys | utils/syncMeetings.ts:66-157 | when delete and insert commit, the account holds exactly the incoming ids |
| LegacySync.CanonKeepsIds | utils/syncMeetings.ts:81-98 | canonicalising dates keeps the ids |
| LegacySync.LegacyInsertKeys | utils/syncMeetings.ts:73-74 | the ids to insert are the incoming ids minus the stored ones |
| LegacySync.AccountRowKeys | utils/syncMeetings.ts:47-52 | the selected rows' ids are the account's ids |
| LegacySync.LegacyMirroredAccountIsQuiet | utils/syncMeetings.ts:66-125 | an account that mirrors the canonical incoming events is left as it is |
| LegacySync.MirroredPlanIsEmpty | utils/syncMeetings.ts:66-125 | mirrored stored rows give an empty plan |
| Accounts.WithRefreshToken | utils/tokenRefresh.ts:75-78 | the same rows, with only the given row's refresh token replaced |
| Accounts.RewriteSameToken | utils/tokenRefresh.ts:75-78 | writing back the stored token changes nothing |
| Accounts.AccountStore.constructor | db/schema.ts:23-33 | the store holds the given rows |
| Accounts.AccountStore.SetRefreshToken | utils/tokenRefresh.ts:75-78 | `update({refresh_token}).eq("id", …)` |
| Accounts.AccountStore.Remove | utils/meetings/deleteLinkCalEvents.ts:263-266 | `delete().eq("id", …)` removes exactly that row |
| TokenRefresh.ProviderFamily | utils/tokenRefresh.ts:66-72 | "google" is Google, "azure-ad" and "microsoft" are Microsoft, anything else is unsupported |
| TokenRefresh.RefreshTokens | utils/tokenRefresh.ts:11-56 | a failed request throws; otherwise the access token, and the provider's refresh token when truthy, else the current one |
| TokenRefresh.RotationKeepsAToken | utils/tokenRefresh.ts:23-47 | a non-empty current token is never replaced by an empty one |
| TokenRefresh.NoNewTokenKeepsOld | utils/fetchLinkedAccountInfo.ts:43-68 | a missing or empty new refresh token keeps the old one (also utils/tokenRefresh.ts:23-47) |
| TokenRefresh.RefreshOutcome | utils/tokenRefresh.ts:58-81 | an unsupported provider throws; Google and Microsoft use their own endpoint's answer |
| TokenRefresh.RefreshWritesOnlyOnSuccess | utils/tokenRefresh.ts:66-78 | a throw leaves the rows unchanged; a success writes only the account's own row |
| TokenRefresh.RefreshAndUpdateToken | utils/tokenRefresh.ts:58-80 | returns the access token of `RefreshOutcome` and writes the rotated token before returning, only on success |
| TokenRefresh.CheckAccount | utils/meetings/forwardMeetings.ts:55-97 | no account iff the row is missing or belongs to someone else; an unsupported provider or a failed refresh fails; ready gives the family and the rotated token (also utils/meetings/deleteLinkCalEvents.ts:48-89) |
| TokenRefresh.UnsupportedProviderRejected | utils/meetings/forwardMeetings.ts:91-96 | an unsupported provider fails and leaves the rows alone |
| TokenRefresh.CheckTouchesOnlyAccount | utils/meetings/forwardMeetings.ts:78-89 | the check writes at most the account's own refresh token |
| TokenRefresh.OpenAccount | utils/meetings/forwardMeetings.ts:55-97 | the method returns `CheckAccount` and leaves the rows as `AccountsAfterCheck` (also utils/forwardMeetings.ts:49-88) |
| FetchMeetings.VerifyLinkedAccount | utils/meetings/fetchMeetings.ts:121-134 | found iff the row exists and belongs to the user |
| FetchMeetings.EventsFor | utils/meetings/fetchMeetings.ts:58-109 | an unsupported provider gives null |
| FetchMeetings.FetchedEventsAreValidAndTagged | utils/meetings/fetchMeetings.ts:69-105 | every returned event belongs to the account, has a parsing start date and the provider's tag |
| FetchMeetings.DispatchReadsOwnProvider | utils/meetings/fetchMeetings.ts:69-98 | a Google account depends only on Google's answers, a Microsoft one only on Graph's |
| FetchMeetings.FailuresYieldNull | utils/meetings/fetchMeetings.ts:58-109 | for a Google account and for a "microsoft" or "azure-ad" account, a failed token refresh or a failed listing gives null rather than an exception |
| FetchMeetings.FetchMeetings | utils/meetings/fetchMeetings.ts:24-110 | service-account data skips the user and account lookups; no user or no verified account gives null without writes; otherwise the result is `EventsFor`; the only write is the token rotation |
| LegacyFetch.LegacyGoogleEvent | utils/fetchLinkedAccountInfo.ts:150-163 | id and provider, and `date` = start date-time, else date, else "No date" |
| LegacyFetch.LegacyMicrosoftEvent | utils/fetchLinkedAccountInfo.ts:169-187 | id and provider, and `date` = start date-time, else "No date" |
| LegacyFetch.LegacyGoogleEvents | utils/fetchLinkedAccountInfo.ts:150-151 | same length, element i normalises event i |
| LegacyFetch.LegacyMicrosoftEvents | utils/fetchLinkedAccountInfo.ts:169-170 | same length, element i normalises event i |
| LegacyFetch.GoogleNormalisersAgree | utils/fetchLinkedAccountInfo.ts:150-163 | the older and newer Google normalisers agree on every column; `date` is the newer start or "No date" (also utils/calendar/providers/google.ts:36-49) |
| LegacyFetch.MicrosoftNormalisersAgree | utils/fetchLinkedAccountInfo.ts:169-187 | the two Microsoft normalisers agree on every column; the newer start is the older date plus "Z" (also utils/calendar/providers/microsoft.ts:38-55) |
| LegacyFetch.LegacyItems | utils/fetchLinkedAccountInfo.ts:103-135 | a failed request gives nothing, otherwise `items`, or the empty list when it is missing, unfiltered |
| LegacyFetch.LegacyAttempt | utils/fetchLinkedAccountInfo.ts:226-249 | an unsupported provider gives null; a success carries the rotated refresh token of that provider's answer |
| LegacyFetch.LegacyFetchMeetings | utils/fetchLinkedAccountInfo.ts:200-268 | no user or no row matching id, email and user gives null without writes; otherwise the events, and the token is written only after refresh and fetch succeeded |
| LegacyFetch.LegacyFetchFailureKeepsOldToken | utils/fetchLinkedAccountInfo.ts:232-257 | a listing failure after a good refresh returns null before the write-back |
| LegacyFetch.NewerFetchFailureStoresNewToken | utils/meetings/fetchMeetings.ts:60-66 | in the newer version the token is already stored when the listing fails (also utils/tokenRefresh.ts:75-78) |
| LegacyFetch.LegacyUnsupportedProvider | utils/fetchLinkedAccountInfo.ts:246-248 | an unsupported provider returns null |
| Forward.Title | utils/meetings/forwardMeetings.ts:137-190 | the prefix "Linkcal Timeblock", a vertical bar and a space, followed by the name (also utils/forwardMeetings.ts:124-169) |
| Forward.AttendeesText | utils/meetings/forwardMeetings.ts:125-127 | attendees joined with ", ", or "No attendees" when that is empty |
| Forward.OptionalLine | utils/meetings/forwardMeetings.ts:128-130 | the Body/Link line appears iff the value is truthy |
| Forward.Details | utils/meetings/forwardMeetings.ts:123-132 | starts with the Name/Time/Attendees head and ends with "-----" and "Meeting forwarded by Linkcal.io" (also utils/forwardMeetings.ts:112-119) |
| Forward.Attempt | utils/meetings/forwardMeetings.ts:100-238 | a skipped meeting returns at once; a created block comes from a lookup that found nothing and a create that succeeded |
| Forward.FoundLookupCreatesNothing | utils/meetings/forwardMeetings.ts:157-213 | a lookup that lists an event means nothing is created |
| Forward.RetryFrom | utils/meetings/forwardMeetings.ts:241-257 | stops at the first attempt that returns, after only raised attempts, and fails only after attempt 3 |
| Forward.RetryRun | utils/meetings/forwardMeetings.ts:245 | one to three attempts |
| Forward.RetrySucceedsIff | utils/meetings/forwardMeetings.ts:241-257 | success iff one of the three attempts returns; all earlier attempts raised; a failure used all three (also utils/forwardMeetings.ts:212-226) |
| Forward.ForwardWithRetry | utils/meetings/forwardMeetings.ts:241-257 | the loop's result is `RetryRun`; the wait before attempt k+1 is 1000·k ms (also utils/forwardMeetings.ts:212-226) |
| Forward.Successes | utils/meetings/forwardMeetings.ts:285 | at most one success per meeting |
| Forward.CreatedBy | utils/meetings/forwardMeetings.ts:277-297 | at most one placeholder per meeting |
| Forward.ForwardAll | utils/meetings/forwardMeetings.ts:277-297 | successes plus failures equal the meetings; one result per meeting in order; the success count; the placeholders created (also utils/forwardMeetings.ts:246-268) |
| Forward.CreatedByOrigin | utils/meetings/forwardMeetings.ts:277-297 | each placeholder comes from a returned attempt of one meeting |
| Forward.CreatedWithinSuccesses | utils/meetings/forwardMeetings.ts:277-297 | placeholders are at most the successes |
| Forward.SourceMeetings | utils/meetings/forwardMeetings.ts:36-40 | exactly the source account's meetings of the user, in table order (also utils/forwardMeetings.ts:35-39) |
| Forward.ForwardMeetings | utils/meetings/forwardMeetings.ts:11-304 | authentication, meeting read, target and refresh failures reject before any meeting is processed; otherwise the count is the successes of the forwarding loop |
| Forward.LowerTitle | utils/meetings/forwardMeetings.ts:137 | a placeholder title lower-cases to one that starts with "linkcal timeblock", a vertical bar and a space |
| Forward.ResyncDropsPlaceholder | utils/meetings/forwardMeetings.ts:137-190 | a placeholder read back is dropped by the Linkcal filter (also utils/meetings/filterLinkCalEvents.ts:16) |
| Forward.NewerQuery | utils/meetings/forwardMeetings.ts:142-213 | Google needs both dates and searches [start, end + 1 day]; Microsoft needs only the start |
| Forward.NewerAttempt | utils/meetings/forwardMeetings.ts:100-238 | the self-loop guard; a created block spans start to end and has the Linkcal title |
| Forward.NewerPlaceholdersMarked | utils/meetings/forwardMeetings.ts:137-190 | every placeholder carries a meeting's Linkcal title |
| Forward.NewerSelfLoopSkipped | utils/meetings/forwardMeetings.ts:104-109 | a meeting forwarded from the target succeeds at once without a create |
| LegacyForward.LegacyEnd | utils/forwardMeetings.ts:101-102 | the end is start + 3 600 000 ms |
| LegacyForward.LegacyQuery | utils/forwardMeetings.ts:128-180 | Google searches [date, date + 86 400 000 ms]; Microsoft from the date |
| LegacyForward.LegacyForwardAttempt | utils/forwardMeetings.ts:94-209 | skip on the self-loop guard; a bad date throws; a created block lasts one hour and followed an empty lookup |
| LegacyForward.LegacyPlaceholdersLastAnHour | utils/forwardMeetings.ts:101-124 | every placeholder lasts one hour from some meeting's date and has its title |
| LegacyForward.LegacyBlockOfMeeting | utils/forwardMeetings.ts:101-124 | a created block has the meeting's title and one-hour span |
| LegacyForward.LegacySelfLoopSkipped | utils/forwardMeetings.ts:95-98 | a meeting forwarded from the target succeeds at once |
| LegacyForward.LegacyBadDateFails | utils/forwardMeetings.ts:101-226 | an unparsable date fails after three attempts without a placeholder |
| Purge.StopPage | utils/meetings/deleteLinkCalEvents.ts:117-178 | the page where the `do…while` stops: every earlier page was listed with a next cursor, and it is the last page, a failed one, or one without a cursor (also utils/deleteLinkCalEvents.ts:110-162) |
| Purge.TargetIds | utils/meetings/deleteLinkCalEvents.ts:143-169 | at most one delete per item |
| Purge.TargetIdsAreFiltered | utils/meetings/deleteLinkCalEvents.ts:143-146 | the delete calls are the ids of the items whose summary exists and lower-cased contains "linkcal" (also utils/deleteLinkCalEvents.ts:133-137) |
| Purge.DeletedWithinTargets | utils/meetings/deleteLinkCalEvents.ts:148-164 | deleted ids are among the attempted ones |
| Purge.DeletedWithinProcessed | utils/meetings/deleteLinkCalEvents.ts:141-155 | deleted ≤ attempted ≤ processed (also utils/deleteLinkCalEvents.ts:130-150) |
| Purge.AllDeletesSucceed | utils/meetings/deleteLinkCalEvents.ts:148-155 | when every delete succeeds, every target is deleted |
| Purge.TargetIdsMembership | utils/meetings/deleteLinkCalEvents.ts:143-146 | an id is attempted iff a marked item carries it |
| Purge.AttemptedAreMarked | utils/meetings/deleteLinkCalEvents.ts:143-169 | across all pages read, an id is attempted iff a marked item on those pages carries it (also utils/deleteLinkCalEvents.ts:133-137) |
| Purge.PurgePages | utils/meetings/deleteLinkCalEvents.ts:109-254 | the paging loop throws iff a listing failed; it reports the processed count, the attempted and deleted ids, and deleted ≤ processed (also utils/deleteLinkCalEvents.ts:104-225) |
| Purge.PurgePage | utils/meetings/deleteLinkCalEvents.ts:143-170 | the per-item loop of one page issues a delete for exactly the marked items, in order, and records as deleted exactly those whose delete did not throw (also utils/deleteLinkCalEvents.ts:133-156) |
| Purge.DeleteLinkCalEvents | utils/meetings/deleteLinkCalEvents.ts:28-107 | authentication, account and refresh failures come before any deletion; otherwise the provider's pages are purged (also utils/deleteLinkCalEvents.ts:28-102) |
| Purge.DeleteAccount | utils/meetings/deleteLinkCalEvents.ts:256-273 | the account row is removed iff the purge returned normally and the delete reported no error (also utils/deleteLinkCalEvents.ts:228-248) |
| PeriodicSync.LastSync | utils/meetings/periodicSync.ts:10-11 | a missing or empty stored value counts as 0 |
| PeriodicSync.SyncedUpTo | utils/meetings/periodicSync.ts:38-53 | the accounts handed to the sync are listed accounts, at most one per step |
| PeriodicSync.SyncState.constructor | utils/meetings/periodicSync.ts:10 | the stored timestamp |
| PeriodicSync.SyncAccounts | utils/meetings/periodicSync.ts:38-53 | the loop leaves the table as `SyncAll` and syncs exactly the accounts whose fetch returned a non-empty list |
| PeriodicSync.SyncAllLinkedAccounts | utils/meetings/periodicSync.ts:8-57 | a throttled run or a missing user changes nothing: the timestamp, the rows and the id counter stay and no account is synced; otherwise every account is processed in order and the timestamp becomes `now` |
| PeriodicSync.NextRunThrottled | utils/meetings/periodicSync.ts:14-55 | a run within twelve hours of a finished one is throttled |
| PeriodicSync.UnparsableTimestampNeverThrottles | utils/meetings/periodicSync.ts:11-14 | a NaN timestamp never throttles |
| PeriodicSync.MissingTimestampIsEpoch | utils/meetings/periodicSync.ts:6-14 | without a timestamp, a run is throttled iff now < 43 200 000 |
| PeriodicSync.UnlistedAccountsUntouched | utils/meetings/periodicSync.ts:38-53 | an account not in the list keeps its rows |
| PeriodicSync.StepKeepsOtherAccount | utils/meetings/periodicSync.ts:40-43 | one account's sync leaves another account's rows unchanged |
| PeriodicSync.NothingFetchedWritesNothing | utils/meetings/periodicSync.ts:41-46 | when no fetch returns meetings, the loop writes nothing and syncs no account |
| AccountCard.ClassifyWebhook | components/Accountcard.tsx:104-116 | no resource id or no expiration gives "disconnected"; otherwise "expired" iff `expiration < now`, else "connected" |
| AccountCard.LabelIsOneOfThree | components/Accountcard.tsx:104-116 | the status text is one of the three strings |
| AccountCard.ExpirationBoundary | components/Accountcard.tsx:108-113 | an expiration exactly at now is "connected" |
| AccountCard.ResyncBlockedWhileSyncing | components/Accountcard.tsx:68-128 | pressing resync under the "syncing" mark does nothing; under "idle", "done" or no mark it calls the handler; other accounts' marks do not matter (the marks are set in app/(pages)/accounts/page.tsx:228-246) |
| CalendarView.FindIndex | components/Calendar.tsx:51 | the first index of the account, or -1 iff absent |
| CalendarView.AccountColorByPosition | components/Calendar.tsx:50-55 | an account at index i gets colour i mod 8 |
| CalendarView.UnknownAccountIsGrey | components/Calendar.tsx:52-60 | an unknown account is "border-l-gray-500" and "bg-gray-500" |
| CalendarView.ReplaceLeadingPattern | components/Calendar.tsx:59 | `replace` on a leading pattern swaps just that prefix |
| CalendarView.BgColorSwapsPrefix | components/Calendar.tsx:58-60 | the background class is the colour with "border-l-" replaced by "bg-" |
| CalendarView.HourNumberOnClock | components/Calendar.tsx:142 | for 0..23 the number is `h mod 12`, or 12 when that is 0, within 1..12 |
| CalendarView.FormatHourSuffix | components/Calendar.tsx:142 | "am" before noon, "pm" after |
| CalendarView.FormatHourExamples | components/Calendar.tsx:141-143 | 0 is "12am", 12 is "12pm", 9 is "9am", 23 is "11pm", -1 is "-1am" |

## Left out

- HTTP and database I/O: every axios request and Supabase statement is a parameter.
  - HTTP: the token endpoints, calendar listings, lookups, creates and deletes.
  - Database: each statement's answer (error, exception, whether a write reached the row).
  - Access tokens are not modelled, since nothing in the core inspects them.
- `Promise.all` over updates: it is modelled as independent updates applied in order; concurrency is not modelled.
- Dates, clocks and locales are oracles:
  - date parsing (`new Date(…)`, `getTime`), `toISOString` and `toLocaleTimeString`;
  - `Date.now` and `parseInt`;
  - the `setMonth` query windows.
- `setTimeout` waits in the retry loops: only the delay values (1000·attempt ms) are modelled, not time passing. `isRateLimitError` and `sleep` are unused and not modelled.
- The purge's page answers form a finite script. A listing beyond it counts as a failed listing.
- The Microsoft `$filter` on the server is not modelled: every item returned is checked by the client rule.
- The database cascade from a deleted linked account to its meetings (db/schema.ts:45-47) is not modelled.
- `fetchLinkedAccounts` and the `fetchMeetings` call inside the periodic sync are oracles: each account's fetch answer is a parameter.
- `toLowerCase` is modelled on ASCII letters only. Unicode case mapping is not modelled.
- Logging (`console.*`) is not modelled.
- MeetingStore.Materialize: `meetings.id` is a random UUID (db/schema.ts:39); the model hands out consecutive naturals from the `nextId` counter instead, since the contracts only need fresh, distinct ids.
- LegacySync.LegacySyncMeetingsToDatabase: proved for every table schema; the schema of the older columns (all text, always defined, so an update writes the payload's content unchanged) is not defined as a constant of its own.
- Attendees without an e-mail address: `attendees?.map(a => a.email)` can hold `undefined` entries, which the change test serialises as `null` and the forward text joins as "". The model carries attendees as strings, so such an entry is not represented.
- Anything outside the meeting pipeline is not part of this model:
  - the React state of the account card and calendar;
  - OAuth and webhook routes;
  - subscription I/O.
- Forward.Attempt: the newer and older `forwardMeeting` are modelled as one attempt. A lookup failure and a failed create both count as a raised attempt, with the request body's exact JSON left out. Only the fields the core relies on (title, details, start, end) are kept.
