/** The meeting forwarder (utils/meetings/forwardMeetings.ts): every stored
    meeting of a source account becomes a "Linkcal Timeblock" placeholder in a
    target account's calendar. The parts both versions share live here: the
    self-loop guard, the title and the details text, one forwarding attempt,
    the retry loop and the counting loop, and the checks made before the first
    meeting. The calendar APIs are modelled by their answers; clock and date
    parsing are uninterpreted functions. */
module Forward {
  import opened Js
  import opened Seqs
  import opened Meetings
  import opened Accounts
  import opened TokenRefresh
  import opened MeetingStore
  import LinkcalFilter

  const TitlePrefix: string := "Linkcal Timeblock | "
  const Footer: string := "Meeting forwarded by Linkcal.io"
  const NoAttendees: string := "No attendees"
  const MaxRetries: nat := 3
  const HourMs: int := 3600000
  const DayMs: int := 86400000

  /** The clock functions the forwarder uses: `new Date(s).getTime()` (None for
      an invalid date) and `toLocaleTimeString` of a time value (None renders
      an invalid date). */
  datatype Clock = Clock(parse: string -> Option<int>, localTime: Option<int> -> string)

  /** The existence lookup: Google's `q` plus the [timeMin, timeMax] window, or
      Microsoft's `$filter` on the subject and the earliest start. */
  datatype Lookup = GoogleQuery(q: string, timeMin: int, timeMax: int) | MicrosoftQuery(subject: string, startFrom: int)

  /** The lookup request threw, or it answered; `found` is `items?.length > 0`
      (or `value?.length > 0`). */
  datatype LookupAnswer = LookupFailed | Listed(found: bool)

  /** The calendar APIs of the target account, per meeting index and attempt. */
  datatype ForwardRemote = ForwardRemote(lookup: (nat, nat, Lookup) -> LookupAnswer, createOk: (nat, nat) -> bool)

  /** The placeholder event `forwardMeeting` posts. */
  datatype TimeBlock = TimeBlock(family: Family, title: string, details: string, startMs: int, endMs: int)

  /** One call of `forwardMeeting`: it returned (having created a block or
      not), or it threw. */
  datatype AttemptResult = Returned(block: Option<TimeBlock>) | Raised

  /** The title of the placeholder. */
  function Title(name: string): (r: string)
    ensures StartsWith(r, TitlePrefix) && r[|TitlePrefix|..] == name
  {
    StartsWithConcat(TitlePrefix, name);
    TitlePrefix + name
  }

  /** `attendees.join(", ") || "No attendees"`. */
  function AttendeesText(attendees: seq<string>): (r: string)
    ensures r != ""
    ensures attendees == [] ==> r == NoAttendees
    ensures Join(attendees, ", ") != "" ==> r == Join(attendees, ", ")
  {
    var joined := Join(attendees, ", ");
    if joined == "" then NoAttendees else joined
  }

  /** A line that is present only when the value is truthy. */
  function OptionalLine(heading: string, value: Option<string>): (r: string)
    ensures r == "" <==> !Truthy(value)
    ensures Truthy(value) ==> r == heading + value.value + "\n"
  {
    if Truthy(value) then heading + value.value + "\n" else ""
  }

  /** The first three lines of the details: name, time range and attendees. */
  function DetailsHead(name: string, startText: string, endText: string, attendees: seq<string>): string {
    "Name: " + name + "\nTime: " + startText + " - " + endText + "\nAttendees: " + AttendeesText(attendees) + "\n"
  }

  const DetailsTail: string := "\n-----\n" + Footer

  /** The description/body text: name, time range, attendees, the optional
      body and link lines, a rule and the forwarding footer. */
  function Details(name: string, startText: string, endText: string, attendees: seq<string>,
                   message: Option<string>, link: Option<string>): (r: string)
    ensures StartsWith(r, DetailsHead(name, startText, endText, attendees))
    ensures EndsWith(r, DetailsTail) && EndsWith(r, Footer)
  {
    var head := DetailsHead(name, startText, endText, attendees);
    var lines := OptionalLine("Body: ", message) + OptionalLine("Link: ", link);
    Framed(head, lines, DetailsTail);
    EndsWithConcat("\n-----\n", Footer);
    EndsWithTransitive(head + lines + DetailsTail, DetailsTail, Footer);
    head + lines + DetailsTail
  }

  lemma Framed(head: string, middle: string, tail: string)
    ensures StartsWith(head + middle + tail, head) && EndsWith(head + middle + tail, tail)
  {
    assert (head + middle + tail)[..|head|] == head;
    assert (head + middle + tail)[|head + middle + tail| - |tail|..] == tail;
  }

  lemma EndsWithTransitive(s: string, t: string, u: string)
    requires EndsWith(s, t) && EndsWith(t, u)
    ensures EndsWith(s, u)
  {
    assert s[|s| - |u|..] == s[|s| - |t|..][|t| - |u|..];
  }

  /** One attempt once the version-specific values are known. `skip` is the
      self-loop guard; `query` is None when building the lookup parameters
      throws (`toISOString` of an invalid date); `block` is None when building
      the placeholder throws. A listed match means the meeting was forwarded
      before, so nothing is created. */
  function Attempt(skip: bool, query: Option<Lookup>, block: Option<TimeBlock>, remote: ForwardRemote, i: nat, k: nat): (r: AttemptResult)
    ensures skip ==> r == Returned(None)
    ensures r.Returned? && r.block.Some? ==>
              !skip && query.Some? && remote.lookup(i, k, query.value) == Listed(false) && remote.createOk(i, k) && r.block == block
  {
    if skip then Returned(None)
    else if query.None? then Raised
    else match remote.lookup(i, k, query.value)
      case LookupFailed => Raised
      case Listed(found) =>
        if found then Returned(None)
        else if block.None? || !remote.createOk(i, k) then Raised
        else Returned(block)
  }

  /** A lookup that lists a match stops the attempt without creating anything. */
  lemma FoundLookupCreatesNothing(skip: bool, query: Option<Lookup>, block: Option<TimeBlock>, remote: ForwardRemote, i: nat, k: nat)
    requires query.Some? && remote.lookup(i, k, query.value) == Listed(true)
    ensures Attempt(skip, query, block, remote, i, k) == Returned(None)
  {
  }

  /** What `forwardMeetingWithRetry` does with a meeting: whether it returned,
      how many attempts it made, and the block it created. */
  datatype RetryResult = RetryResult(ok: bool, attempts: nat, block: Option<TimeBlock>)

  /** The retry loop from attempt `k` on. */
  function RetryFrom(o: (nat, nat) -> AttemptResult, i: nat, k: nat): (r: RetryResult)
    requires 1 <= k <= MaxRetries
    ensures k <= r.attempts <= MaxRetries
    ensures forall j :: k <= j < r.attempts ==> o(i, j).Raised?
    ensures r.ok <==> o(i, r.attempts).Returned?
    ensures !r.ok ==> r.attempts == MaxRetries
    ensures r.block == if r.ok then o(i, r.attempts).block else None
    decreases MaxRetries - k
  {
    if o(i, k).Returned? then RetryResult(true, k, o(i, k).block)
    else if k == MaxRetries then RetryResult(false, k, None)
    else RetryFrom(o, i, k + 1)
  }

  /** `forwardMeetingWithRetry(meeting)` with the default three attempts. */
  function RetryRun(o: (nat, nat) -> AttemptResult, i: nat): (r: RetryResult)
    ensures 1 <= r.attempts <= MaxRetries
  {
    RetryFrom(o, i, 1)
  }

  /** The retry loop stops at the first attempt that returns and rethrows the
      third failure: it succeeds iff one of the three attempts returns, and
      every attempt before the last one it makes threw. */
  lemma RetrySucceedsIff(o: (nat, nat) -> AttemptResult, i: nat)
    ensures RetryRun(o, i).ok <==> o(i, 1).Returned? || o(i, 2).Returned? || o(i, 3).Returned?
    ensures forall j :: 1 <= j < RetryRun(o, i).attempts ==> o(i, j).Raised?
    ensures RetryRun(o, i).ok ==> o(i, RetryRun(o, i).attempts).Returned?
    ensures !RetryRun(o, i).ok ==> RetryRun(o, i).attempts == MaxRetries
  {
    var r := RetryRun(o, i);
    if r.ok {
      assert o(i, r.attempts).Returned?;
    } else {
      assert r.attempts == 3;
      assert forall j :: 1 <= j < 3 ==> o(i, j).Raised?;
    }
  }

  /** The waits `forwardMeetingWithRetry` asks for: 1000·k ms before attempt k+1. */
  predicate BackoffDelays(delays: seq<nat>, attempts: nat) {
    |delays| + 1 == attempts && forall j :: 0 <= j < |delays| ==> delays[j] == 1000 * (j + 1)
  }

  /** `forwardMeetingWithRetry`: a `for` loop over the attempts that returns on
      the first normal return, rethrows on the last attempt and otherwise
      waits 1000·attempt ms. `delays` are the waits requested. */
  method ForwardWithRetry(o: (nat, nat) -> AttemptResult, i: nat)
    returns (ok: bool, attempts: nat, block: Option<TimeBlock>, delays: seq<nat>)
    ensures RetryResult(ok, attempts, block) == RetryRun(o, i)
    ensures BackoffDelays(delays, attempts)
  {
    var attempt := 1;
    delays := [];
    while attempt < MaxRetries
      invariant 1 <= attempt <= MaxRetries
      invariant RetryFrom(o, i, attempt) == RetryRun(o, i)
      invariant BackoffDelays(delays, attempt)
    {
      var r := o(i, attempt);
      if r.Returned? {
        return true, attempt, r.block, delays;
      }
      delays := delays + [1000 * attempt];
      attempt := attempt + 1;
    }
    var r := o(i, attempt);
    if r.Returned? {
      return true, attempt, r.block, delays;
    }
    return false, attempt, None, delays;
  }

  /** `{ success, meetingId }`, pushed once per meeting. */
  datatype MeetingResult = MeetingResult(success: bool, meetingId: nat)

  /** How many results report success. */
  function Successes(results: seq<MeetingResult>): (n: nat)
    ensures n <= |results|
  {
    if results == [] then 0
    else Successes(results[..|results| - 1]) + (if results[|results| - 1].success then 1 else 0)
  }

  /** The results line up with the meetings, and each says whether its
      meeting's retry loop returned. */
  predicate Tally<C>(meetings: seq<Row<C>>, o: (nat, nat) -> AttemptResult, results: seq<MeetingResult>) {
    |results| == |meetings| &&
    forall i :: 0 <= i < |meetings| ==> results[i] == MeetingResult(RetryRun(o, i).ok, meetings[i].id)
  }

  function BlockSeq(b: Option<TimeBlock>): seq<TimeBlock> {
    if b.Some? then [b.value] else []
  }

  /** The blocks created for the first `n` meetings, in order. */
  function CreatedBy(o: (nat, nat) -> AttemptResult, n: nat): (r: seq<TimeBlock>)
    ensures |r| <= n
  {
    if n == 0 then [] else CreatedBy(o, n - 1) + BlockSeq(RetryRun(o, n - 1).block)
  }

  /** The outer loop: every meeting goes through the retry loop once, in
      order; a meeting that returned (skipped ones included) counts as a
      success, one whose retry loop threw as a failure. */
  method ForwardAll<C>(meetings: seq<Row<C>>, o: (nat, nat) -> AttemptResult)
    returns (successCount: nat, failureCount: nat, results: seq<MeetingResult>, created: seq<TimeBlock>)
    ensures successCount + failureCount == |meetings|
    ensures Tally(meetings, o, results)
    ensures successCount == Successes(results)
    ensures created == CreatedBy(o, |meetings|)
  {
    successCount, failureCount := 0, 0;
    results, created := [], [];
    for i := 0 to |meetings|
      invariant successCount + failureCount == i
      invariant Tally(meetings[..i], o, results)
      invariant successCount == Successes(results)
      invariant created == CreatedBy(o, i)
    {
      var ok, attempts, block, delays := ForwardWithRetry(o, i);
      TallyExtend(meetings, o, results, i);
      results := results + [MeetingResult(ok, meetings[i].id)];
      if ok {
        successCount := successCount + 1;
      } else {
        failureCount := failureCount + 1;
      }
      created := created + BlockSeq(block);
    }
    assert meetings[..|meetings|] == meetings;
  }

  /** One more meeting through the retry loop extends the tally by its result. */
  lemma TallyExtend<C>(meetings: seq<Row<C>>, o: (nat, nat) -> AttemptResult, results: seq<MeetingResult>, i: nat)
    requires i < |meetings|
    requires Tally(meetings[..i], o, results)
    ensures Tally(meetings[..i + 1], o, results + [MeetingResult(RetryRun(o, i).ok, meetings[i].id)])
    ensures Successes(results + [MeetingResult(RetryRun(o, i).ok, meetings[i].id)])
            == Successes(results) + (if RetryRun(o, i).ok then 1 else 0)
  {
    var next := results + [MeetingResult(RetryRun(o, i).ok, meetings[i].id)];
    assert next[..|next| - 1] == results;
  }

  /** The blocks produced for the first `n` meetings each come from one attempt on one of them. */
  lemma {:induction false} CreatedByOrigin(o: (nat, nat) -> AttemptResult, n: nat)
    ensures forall b :: b in CreatedBy(o, n) ==>
              exists i, k :: 0 <= i < n && 1 <= k <= MaxRetries && o(i, k) == Returned(Some(b))
  {
    if n > 0 {
      CreatedByOrigin(o, n - 1);
      var r := RetryRun(o, n - 1);
      if r.block.Some? {
        assert o(n - 1, r.attempts) == Returned(Some(r.block.value));
      }
    }
  }

  /** A skipped or already-forwarded meeting still counts as a success, so
      there are never more placeholders than successes. */
  lemma {:induction false} CreatedWithinSuccesses<C>(meetings: seq<Row<C>>, o: (nat, nat) -> AttemptResult, results: seq<MeetingResult>)
    requires Tally(meetings, o, results)
    ensures |CreatedBy(o, |meetings|)| <= Successes(results)
  {
    if meetings != [] {
      var n := |meetings| - 1;
      assert Tally(meetings[..n], o, results[..n]);
      CreatedWithinSuccesses(meetings[..n], o, results[..n]);
      assert results[..|results| - 1] == results[..n];
    }
  }

  /** Why `forwardMeetings` throws before the first meeting. */
  datatype Rejection = AuthenticationRequired | MeetingsUnavailable | InvalidTarget | TokenRefreshFailed

  /** The thrown error, or `{ success: true, count: successCount }`. */
  datatype ForwardResult = Rejected(reason: Rejection) | Forwarded(count: nat)

  /** `select("*").eq("linked_account_id", source).eq("user_id", user)`. */
  function SourceMeetings<C>(rows: seq<Row<C>>, sourceId: string, userId: string): (r: seq<Row<C>>)
    ensures IsSubsequence(r, rows)
    ensures forall j :: 0 <= j < |r| ==> r[j] in rows && r[j].linkedAccountId == sourceId && r[j].userId == userId
    ensures forall j :: 0 <= j < |rows| && rows[j].linkedAccountId == sourceId && rows[j].userId == userId ==> rows[j] in r
  {
    FilterIsSubsequence(rows, (m: Row<C>) => m.linkedAccountId == sourceId && m.userId == userId);
    Filter(rows, (m: Row<C>) => m.linkedAccountId == sourceId && m.userId == userId)
  }

  /** The attempt outcomes of every meeting, given the version's attempt for one meeting. */
  function Outcomes<C>(family: Family, meetings: seq<Row<C>>, attemptFor: (Family, Row<C>, nat, nat) -> AttemptResult): (nat, nat) -> AttemptResult {
    (i: nat, k: nat) => if i < |meetings| then attemptFor(family, meetings[i], i, k) else Raised
  }

  /** `forwardMeetings(sourceAccountId, targetAccountId)`. Authentication,
      reading the source meetings and opening the target each throw before
      any meeting is processed; then every meeting is forwarded with retry.
      `attemptFor` is the version's `forwardMeeting`. */
  method ForwardMeetings<C(==)>(table: MeetingsTable<C>, store: AccountStore, sourceId: string, targetId: string,
                                user: Option<string>, readFails: bool, google: TokenAnswer, microsoft: TokenAnswer,
                                tokenPersisted: bool, attemptFor: (Family, Row<C>, nat, nat) -> AttemptResult)
    returns (r: ForwardResult, results: seq<MeetingResult>, created: seq<TimeBlock>)
    modifies store
    ensures user.None? ==> r == Rejected(AuthenticationRequired) && store.accounts == old(store.accounts)
    ensures user.Some? && readFails ==> r == Rejected(MeetingsUnavailable) && store.accounts == old(store.accounts)
    ensures r.Rejected? ==> results == [] && created == []
    ensures user.Some? && !readFails ==>
              var check := CheckAccount(old(store.accounts), targetId, user.value, google, microsoft);
              && store.accounts == AccountsAfterCheck(old(store.accounts), targetId, check, tokenPersisted)
              && (check.NoAccount? ==> r == Rejected(InvalidTarget))
              && (check.RefreshFailed? ==> r == Rejected(TokenRefreshFailed))
              && (check.Ready? ==>
                    var meetings := SourceMeetings(table.rows, sourceId, user.value);
                    var o := Outcomes(check.family, meetings, attemptFor);
                    && r == Forwarded(Successes(results))
                    && Tally(meetings, o, results)
                    && created == CreatedBy(o, |meetings|))
  {
    if user.None? {
      return Rejected(AuthenticationRequired), [], [];
    }
    if readFails {
      return Rejected(MeetingsUnavailable), [], [];
    }
    var meetings := SourceMeetings(table.rows, sourceId, user.value);
    var check := OpenAccount(store, targetId, user.value, google, microsoft, tokenPersisted);
    if check.NoAccount? {
      return Rejected(InvalidTarget), [], [];
    }
    if check.RefreshFailed? {
      return Rejected(TokenRefreshFailed), [], [];
    }
    var successCount, failureCount;
    successCount, failureCount, results, created := ForwardAll(meetings, Outcomes(check.family, meetings, attemptFor));
    r := Forwarded(successCount);
  }

  /** Lower-casing a string that starts with the title prefix yields one
      starting with "linkcal timeblock | ". */
  lemma LowerTitle(title: string)
    requires StartsWith(title, TitlePrefix)
    ensures StartsWith(Lower(title), "linkcal timeblock | ")
  {
    var rest := title[|TitlePrefix|..];
    assert title == TitlePrefix + rest;
    LowerConcat(TitlePrefix, rest);
    assert Lower(TitlePrefix) == "linkcal timeblock | ";
    StartsWithConcat(Lower(TitlePrefix), Lower(rest));
  }

  /** A placeholder read back from the target calendar on the next sync has a
      Linkcal-marked name, so the Linkcal filter drops it and the forwarder
      never forwards its own blocks back. */
  lemma ResyncDropsPlaceholder(b: TimeBlock, e: Event)
    requires StartsWith(b.title, TitlePrefix)
    requires e.content.name == Some(b.title)
    ensures IsLinkcalEvent(e)
    ensures LinkcalFilter.FilterLinkcalEvents([e]) == []
  {
    LowerTitle(b.title);
    assert OccursAt("linkcal timeblock | ", MarkerLinkcal, 0);
    LinkcalFilter.LowerContainsOfPrefix(b.title, "linkcal timeblock | ", MarkerLinkcal);
  }

  // ---- the newer `forwardMeeting` (start_date / end_date columns)

  /** `meeting.name?.includes(`forwarded from ${targetAccountId}`)`; a null name is not skipped. */
  predicate NewerSkip(name: Option<string>, targetId: string) {
    name.Some? && Contains(name.value, "forwarded from " + targetId)
  }

  /** `new Date(column).getTime()`: a NULL column is the epoch. */
  function DateMs(column: Option<string>, clock: Clock): Option<int> {
    if column.None? then Some(0) else clock.parse(column.value)
  }

  /** Google's lookup needs both dates (the window ends a day after the
      meeting's end); Microsoft's needs only the start. */
  function NewerQuery(family: Family, title: string, start: Option<int>, end: Option<int>): (q: Option<Lookup>)
    ensures family == GoogleFamily ==> (q.Some? <==> start.Some? && end.Some?)
    ensures family == MicrosoftFamily ==> (q.Some? <==> start.Some?)
    ensures q.Some? && family == GoogleFamily ==> q.value == GoogleQuery(title, start.value, end.value + DayMs)
  {
    match family
    case GoogleFamily => if start.Some? && end.Some? then Some(GoogleQuery(title, start.value, end.value + DayMs)) else None
    case MicrosoftFamily => if start.Some? then Some(MicrosoftQuery(title, start.value)) else None
  }

  /** One newer `forwardMeeting` call on a stored meeting. */
  function NewerAttempt(targetId: string, clock: Clock, remote: ForwardRemote,
                        family: Family, m: Row<Content>, i: nat, k: nat): (r: AttemptResult)
    ensures NewerSkip(m.content.name, targetId) ==> r == Returned(None)
    ensures r.Returned? && r.block.Some? ==>
              var b := r.block.value;
              && b.family == family
              && b.title == Title(TemplateNullable(m.content.name))
              && StartsWith(b.details, DetailsHead(TemplateNullable(m.content.name), clock.localTime(DateMs(m.content.startDate, clock)),
                                                  clock.localTime(DateMs(m.content.endDate, clock)), m.content.attendees))
              && EndsWith(b.details, Footer)
              && Some(b.startMs) == DateMs(m.content.startDate, clock)
              && Some(b.endMs) == DateMs(m.content.endDate, clock)
  {
    var c := m.content;
    var name := TemplateNullable(c.name);
    var start := DateMs(c.startDate, clock);
    var end := DateMs(c.endDate, clock);
    var title := Title(name);
    var details := Details(name, clock.localTime(start), clock.localTime(end), c.attendees, c.message, c.link);
    var block := if start.Some? && end.Some? then Some(TimeBlock(family, title, details, start.value, end.value)) else None;
    Attempt(NewerSkip(c.name, targetId), NewerQuery(family, title, start, end), block, remote, i, k)
  }

  function NewerAttemptFor(targetId: string, clock: Clock, remote: ForwardRemote): (Family, Row<Content>, nat, nat) -> AttemptResult {
    (family: Family, m: Row<Content>, i: nat, k: nat) => NewerAttempt(targetId, clock, remote, family, m, i, k)
  }

  /** Every placeholder the newer forwarder creates carries the Linkcal title
      of some source meeting and the forwarding footer. */
  lemma NewerPlaceholdersMarked(targetId: string, clock: Clock, remote: ForwardRemote, family: Family, meetings: seq<Row<Content>>)
    ensures var created := CreatedBy(Outcomes(family, meetings, NewerAttemptFor(targetId, clock, remote)), |meetings|);
            forall b :: b in created ==>
              && b.family == family
              && StartsWith(b.title, TitlePrefix) && EndsWith(b.details, Footer)
              && exists m :: m in meetings && b.title == Title(TemplateNullable(m.content.name))
  {
    var o := Outcomes(family, meetings, NewerAttemptFor(targetId, clock, remote));
    CreatedByOrigin(o, |meetings|);
    forall b | b in CreatedBy(o, |meetings|)
      ensures b.family == family && StartsWith(b.title, TitlePrefix) && EndsWith(b.details, Footer)
      ensures exists m :: m in meetings && b.title == Title(TemplateNullable(m.content.name))
    {
      var i, k :| 0 <= i < |meetings| && 1 <= k <= MaxRetries && o(i, k) == Returned(Some(b));
      NewerOutcomeBlock(targetId, clock, remote, family, meetings, i, k, b);
    }
  }

  lemma NewerOutcomeBlock(targetId: string, clock: Clock, remote: ForwardRemote, family: Family,
                          meetings: seq<Row<Content>>, i: nat, k: nat, b: TimeBlock)
    requires i < |meetings| && Outcomes(family, meetings, NewerAttemptFor(targetId, clock, remote))(i, k) == Returned(Some(b))
    ensures b.family == family && StartsWith(b.title, TitlePrefix) && EndsWith(b.details, Footer)
    ensures meetings[i] in meetings && b.title == Title(TemplateNullable(meetings[i].content.name))
  {
    assert NewerAttempt(targetId, clock, remote, family, meetings[i], i, k) == Returned(Some(b));
  }

  /** A meeting whose name shows it was forwarded from the target is skipped
      on the first attempt and counts as a success without a placeholder. */
  lemma NewerSelfLoopSkipped(targetId: string, clock: Clock, remote: ForwardRemote, family: Family,
                             meetings: seq<Row<Content>>, i: nat)
    requires i < |meetings| && NewerSkip(meetings[i].content.name, targetId)
    ensures RetryRun(Outcomes(family, meetings, NewerAttemptFor(targetId, clock, remote)), i) == RetryResult(true, 1, None)
  {
    var o := Outcomes(family, meetings, NewerAttemptFor(targetId, clock, remote));
    assert o(i, 1) == Returned(None);
  }
}
