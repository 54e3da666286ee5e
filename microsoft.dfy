/** The Microsoft Graph adapter (utils/calendar/providers/microsoft.ts): the raw
    calendarView event, its fallback chains, the normaliser and the
    post-processing of a fetched page. The field rules are shared with the
    older normaliser in utils/fetchLinkedAccountInfo.ts. */
module MicrosoftProvider {
  import opened Js
  import opened Seqs
  import opened Meetings
  import opened Validation
  import opened FormatDate
  import GoogleProvider

  /** `start` / `end` (requested with `outlook.timezone="UTC"`, without a zone suffix). */
  datatype GraphTime = GraphTime(dateTime: Option<string>)
  datatype GraphLocation = GraphLocation(displayName: Option<string>)
  datatype OnlineMeeting = OnlineMeeting(joinUrl: Option<string>)
  datatype ResponseStatus = ResponseStatus(response: Option<string>)

  /** The selected fields of an event; `attendees` lists the attendee addresses. */
  datatype MicrosoftEvent = MicrosoftEvent(
    id: string,
    subject: Option<string>,
    start: Option<GraphTime>,
    end: Option<GraphTime>,
    attendees: Option<seq<string>>,
    location: Option<GraphLocation>,
    onlineMeeting: Option<OnlineMeeting>,
    bodyPreview: Option<string>,
    showAs: Option<string>,
    responseStatus: Option<ResponseStatus>)

  /** `t?.dateTime`. */
  function DateTime(t: Option<GraphTime>): Option<string> {
    if t.Some? then t.value.dateTime else None
  }

  function DisplayName(e: MicrosoftEvent): Option<string> {
    if e.location.Some? then e.location.value.displayName else None
  }

  function JoinUrl(e: MicrosoftEvent): Option<string> {
    if e.onlineMeeting.Some? then e.onlineMeeting.value.joinUrl else None
  }

  function Response(e: MicrosoftEvent): Option<string> {
    if e.responseStatus.Some? then e.responseStatus.value.response else None
  }

  /** `` `${t?.dateTime}Z` ``: the suffix is appended unconditionally, and a
      missing value is rendered as the text "undefined". */
  function Stamp(t: Option<GraphTime>): (r: string)
    ensures EndsWith(r, "Z") && HasZoneSuffix(r)
    ensures DateTime(t).Some? ==> r == DateTime(t).value + "Z"
    ensures DateTime(t).None? ==> r == "undefinedZ"
  {
    EndsWithConcat(Template(DateTime(t)), "Z");
    Template(DateTime(t)) + "Z"
  }

  const NoTitle: string := "No title"
  const NoLocation: string := "No location"
  const NoLink: string := "No link"
  const NoDescription: string := "No description"
  const UnknownStatus: string := "unknown"

  /** `event.location?.displayName || event.onlineMeeting?.joinUrl || "No location"`. */
  function LocationOf(e: MicrosoftEvent): (r: string)
    ensures Truthy(DisplayName(e)) ==> r == DisplayName(e).value
    ensures !Truthy(DisplayName(e)) && Truthy(JoinUrl(e)) ==> r == JoinUrl(e).value
    ensures !Truthy(DisplayName(e)) && !Truthy(JoinUrl(e)) ==> r == NoLocation
    ensures r != ""
  {
    OrElse(Or(DisplayName(e), JoinUrl(e)), NoLocation)
  }

  /** `event.showAs || event.responseStatus?.response || "unknown"`. */
  function StatusOf(e: MicrosoftEvent): (r: string)
    ensures Truthy(e.showAs) ==> r == e.showAs.value
    ensures !Truthy(e.showAs) && Truthy(Response(e)) ==> r == Response(e).value
    ensures !Truthy(e.showAs) && !Truthy(Response(e)) ==> r == UnknownStatus
    ensures r != ""
  {
    OrElse(Or(e.showAs, Response(e)), UnknownStatus)
  }

  /** The normalised content of one event. */
  function MicrosoftContent(e: MicrosoftEvent): (c: Content)
    ensures c.startDate == Some(Stamp(e.start)) && c.endDate == Some(Stamp(e.end))
    ensures c.attendees == GoogleProvider.Attendees(e.attendees)
    ensures c.name == (if Truthy(e.subject) then e.subject else Some(NoTitle))
    ensures c.location == Some(LocationOf(e))
    ensures c.link == (if Truthy(JoinUrl(e)) then JoinUrl(e) else Some(NoLink))
    ensures c.message == (if Truthy(e.bodyPreview) then e.bodyPreview else Some(NoDescription))
    ensures c.status == Some(StatusOf(e))
    ensures Truthy(c.name) && Truthy(c.location) && Truthy(c.link) && Truthy(c.message) && Truthy(c.status)
  {
    Content(
      name := Some(OrElse(e.subject, NoTitle)),
      startDate := Some(Stamp(e.start)),
      endDate := Some(Stamp(e.end)),
      attendees := GoogleProvider.Attendees(e.attendees),
      location := Some(LocationOf(e)),
      link := Some(OrElse(JoinUrl(e), NoLink)),
      message := Some(OrElse(e.bodyPreview, NoDescription)),
      status := Some(StatusOf(e)))
  }

  /** One element of `normalizeMicrosoftEvents`. */
  function NormalizeMicrosoftEvent(e: MicrosoftEvent, linkedAccountId: string): (r: Event)
    ensures r.id == e.id && r.externalEventId == e.id
    ensures r.linkedAccountId == linkedAccountId && r.provider == "microsoft"
    ensures r.content == MicrosoftContent(e)
  {
    Event(e.id, linkedAccountId, e.id, "microsoft", MicrosoftContent(e))
  }

  /** `normalizeMicrosoftEvents`: one meeting per raw event, in order. */
  function NormalizeMicrosoftEvents(events: seq<MicrosoftEvent>, linkedAccountId: string): (r: seq<Event>)
    ensures |r| == |events|
    ensures forall i :: 0 <= i < |r| ==> r[i] == NormalizeMicrosoftEvent(events[i], linkedAccountId)
  {
    MapSeq(events, e => NormalizeMicrosoftEvent(e, linkedAccountId))
  }

  /** The stored start and end already carry a zone designator, so the
      calendar's `parseUtcTimestamp` reads them unchanged. */
  lemma MicrosoftStampsAreZoned(e: MicrosoftEvent, linkedAccountId: string)
    ensures var c := NormalizeMicrosoftEvent(e, linkedAccountId).content;
            WithUtcSuffix(c.startDate.value) == c.startDate.value && WithUtcSuffix(c.endDate.value) == c.endDate.value
  {
  }

  /** An event without `start` is stored with the start text "undefinedZ". */
  lemma UndatedMicrosoftEvent(e: MicrosoftEvent, linkedAccountId: string)
    requires e.start.None?
    ensures NormalizeMicrosoftEvent(e, linkedAccountId).content.startDate == Some("undefinedZ")
  {
  }

  /** The online-meeting URL doubles as the location when no room is named. */
  lemma JoinUrlStandsInForLocation(e: MicrosoftEvent, url: string, linkedAccountId: string)
    requires e.location.None? && e.onlineMeeting == Some(OnlineMeeting(Some(url))) && url != ""
    ensures var c := NormalizeMicrosoftEvent(e, linkedAccountId).content;
            c.location == Some(url) && c.link == Some(url)
  {
  }

  /** The timeblock filter reads `event.summary`, a property Graph events do not have. */
  function MicrosoftSummary(e: MicrosoftEvent): Option<string> {
    None
  }

  /** `fetchMicrosoftEvents` after the request: `value || []` through
      `filterOutLinkcalTimeblocks`; None stands for the thrown error. */
  function FetchMicrosoftEvents(answer: GoogleProvider.ItemsAnswer<MicrosoftEvent>, marker: string): (r: Option<seq<MicrosoftEvent>>)
    ensures answer.FetchFailed? <==> r.None?
    ensures answer.Items? && answer.items.None? ==> r == Some([])
    ensures answer.Items? && answer.items.Some? ==>
              r == Some(FilterOutLinkcalTimeblocks(answer.items.value, MicrosoftSummary, marker))
  {
    match answer
    case FetchFailed => None
    case Items(items) =>
      Some(FilterOutLinkcalTimeblocks(if items.Some? then items.value else [], MicrosoftSummary, marker))
  }

  /** Since Graph events have no `summary`, the timeblock filter keeps every Microsoft event. */
  lemma MicrosoftTimeblocksNotFiltered(items: seq<MicrosoftEvent>, marker: string)
    ensures FetchMicrosoftEvents(GoogleProvider.Items(Some(items)), marker) == Some(items)
  {
    NoSummaryKept(items, MicrosoftSummary, marker);
  }
}
