/** The older `forwardMeeting` (utils/forwardMeetings.ts): the stored meeting
    has one `date` column; the placeholder lasts one hour from it, and the
    Google lookup window is the day after that same instant. Everything else
    (guard, title, details, retry, counting, the checks before the first
    meeting) is the shared `Forward` model. */
module LegacyForward {
  import opened Js
  import opened TokenRefresh
  import opened MeetingStore
  import opened LegacyFetch
  import opened Forward

  /** `meeting.name.includes(`forwarded from ${targetAccountId}`)`. */
  predicate LegacySkip(name: string, targetId: string) {
    Contains(name, "forwarded from " + targetId)
  }

  /** `new Date(meeting.date)` and `new Date(start.getTime() + 3600000)`. */
  function LegacyEnd(start: Option<int>): (r: Option<int>)
    ensures r.Some? <==> start.Some?
    ensures r.Some? ==> r.value == start.value + HourMs
  {
    if start.Some? then Some(start.value + HourMs) else None
  }

  /** Both lookups start at the meeting's date; Google's window is one day long. */
  function LegacyQuery(family: Family, title: string, start: Option<int>): (q: Option<Lookup>)
    ensures q.Some? <==> start.Some?
    ensures q.Some? && family == GoogleFamily ==> q.value == GoogleQuery(title, start.value, start.value + DayMs)
    ensures q.Some? && family == MicrosoftFamily ==> q.value == MicrosoftQuery(title, start.value)
  {
    if start.None? then None
    else match family
      case GoogleFamily => Some(GoogleQuery(title, start.value, start.value + DayMs))
      case MicrosoftFamily => Some(MicrosoftQuery(title, start.value))
  }

  /** One older `forwardMeeting` call on a stored meeting. */
  function LegacyForwardAttempt(targetId: string, clock: Clock, remote: ForwardRemote,
                                family: Family, m: Row<LegacyContent>, i: nat, k: nat): (r: AttemptResult)
    ensures LegacySkip(m.content.name, targetId) ==> r == Returned(None)
    ensures clock.parse(m.content.date).None? && !LegacySkip(m.content.name, targetId) ==> r == Raised
    ensures r.Returned? && r.block.Some? ==>
              var b := r.block.value;
              && b.family == family
              && b.title == Title(m.content.name)
              && EndsWith(b.details, Footer)
              && clock.parse(m.content.date) == Some(b.startMs)
              && b.endMs == b.startMs + HourMs
              && (family == GoogleFamily ==> remote.lookup(i, k, GoogleQuery(b.title, b.startMs, b.startMs + DayMs)) == Listed(false))
  {
    var c := m.content;
    var start := clock.parse(c.date);
    var end := LegacyEnd(start);
    var title := Title(c.name);
    var details := Details(c.name, clock.localTime(start), clock.localTime(end), c.attendees, Some(c.message), Some(c.link));
    var block := if start.Some? then Some(TimeBlock(family, title, details, start.value, start.value + HourMs)) else None;
    Attempt(LegacySkip(c.name, targetId), LegacyQuery(family, title, start), block, remote, i, k)
  }

  function LegacyAttemptFor(targetId: string, clock: Clock, remote: ForwardRemote): (Family, Row<LegacyContent>, nat, nat) -> AttemptResult {
    (family: Family, m: Row<LegacyContent>, i: nat, k: nat) => LegacyForwardAttempt(targetId, clock, remote, family, m, i, k)
  }

  /** Every placeholder of the older forwarder lasts exactly one hour from
      its meeting's date and carries that meeting's Linkcal title. */
  lemma LegacyPlaceholdersLastAnHour(targetId: string, clock: Clock, remote: ForwardRemote, family: Family,
                                     meetings: seq<Row<LegacyContent>>)
    ensures var created := CreatedBy(Outcomes(family, meetings, LegacyAttemptFor(targetId, clock, remote)), |meetings|);
            forall b :: b in created ==>
              && b.endMs == b.startMs + HourMs
              && StartsWith(b.title, TitlePrefix)
              && exists m :: m in meetings && b.title == Title(m.content.name) && clock.parse(m.content.date) == Some(b.startMs)
  {
    var o := Outcomes(family, meetings, LegacyAttemptFor(targetId, clock, remote));
    CreatedByOrigin(o, |meetings|);
    forall b | b in CreatedBy(o, |meetings|)
      ensures b.endMs == b.startMs + HourMs && StartsWith(b.title, TitlePrefix)
      ensures exists m :: m in meetings && b.title == Title(m.content.name) && clock.parse(m.content.date) == Some(b.startMs)
    {
      var i, k :| 0 <= i < |meetings| && 1 <= k <= MaxRetries && o(i, k) == Returned(Some(b));
      LegacyOutcomeBlock(targetId, clock, remote, family, meetings, i, k, b);
    }
  }

  lemma LegacyOutcomeBlock(targetId: string, clock: Clock, remote: ForwardRemote, family: Family,
                           meetings: seq<Row<LegacyContent>>, i: nat, k: nat, b: TimeBlock)
    requires i < |meetings| && Outcomes(family, meetings, LegacyAttemptFor(targetId, clock, remote))(i, k) == Returned(Some(b))
    ensures b.endMs == b.startMs + HourMs && StartsWith(b.title, TitlePrefix)
    ensures meetings[i] in meetings && b.title == Title(meetings[i].content.name) && clock.parse(meetings[i].content.date) == Some(b.startMs)
  {
    LegacyBlockOfMeeting(targetId, clock, remote, family, meetings[i], i, k, b);
  }

  lemma LegacyBlockOfMeeting(targetId: string, clock: Clock, remote: ForwardRemote, family: Family,
                             m: Row<LegacyContent>, i: nat, k: nat, b: TimeBlock)
    requires LegacyForwardAttempt(targetId, clock, remote, family, m, i, k) == Returned(Some(b))
    ensures b.endMs == b.startMs + HourMs && StartsWith(b.title, TitlePrefix)
    ensures b.title == Title(m.content.name) && clock.parse(m.content.date) == Some(b.startMs)
  {
  }

  /** A meeting already forwarded from the target is skipped at once. */
  lemma LegacySelfLoopSkipped(targetId: string, clock: Clock, remote: ForwardRemote, family: Family,
                              meetings: seq<Row<LegacyContent>>, i: nat)
    requires i < |meetings| && LegacySkip(meetings[i].content.name, targetId)
    ensures RetryRun(Outcomes(family, meetings, LegacyAttemptFor(targetId, clock, remote)), i) == RetryResult(true, 1, None)
  {
    var o := Outcomes(family, meetings, LegacyAttemptFor(targetId, clock, remote));
    assert o(i, 1) == Returned(None);
  }

  /** A date that does not parse makes every attempt throw, so the meeting
      fails after three attempts and nothing is created for it. */
  lemma LegacyBadDateFails(targetId: string, clock: Clock, remote: ForwardRemote, family: Family,
                           meetings: seq<Row<LegacyContent>>, i: nat)
    requires i < |meetings| && !LegacySkip(meetings[i].content.name, targetId)
    requires clock.parse(meetings[i].content.date).None?
    ensures RetryRun(Outcomes(family, meetings, LegacyAttemptFor(targetId, clock, remote)), i) == RetryResult(false, MaxRetries, None)
  {
    var o := Outcomes(family, meetings, LegacyAttemptFor(targetId, clock, remote));
    assert o(i, 1) == Raised && o(i, 2) == Raised && o(i, 3) == Raised;
  }
}
