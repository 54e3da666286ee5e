/** The Google Calendar adapter (utils/calendar/providers/google.ts): the raw
    event as the API returns it, the per-field fallbacks, the normaliser and
    the post-processing of a fetched page. The field rules are shared with the
    older normaliser in utils/fetchLinkedAccountInfo.ts. */
module GoogleProvider {
  import opened Js
  import opened Seqs
  import opened Meetings
  import opened Validation

  /** `start` / `end`: a timed event has `dateTime`, an all-day event `date`. */
  datatype GoogleTime = GoogleTime(dateTime: Option<string>, date: Option<string>)

  /** The requested fields of an event; `attendees` lists the attendee e-mails. */
  datatype GoogleEvent = GoogleEvent(
    id: string,
    status: Option<string>,
    summary: Option<string>,
    start: Option<GoogleTime>,
    end: Option<GoogleTime>,
    attendees: Option<seq<string>>,
    location: Option<string>,
    hangoutLink: Option<string>,
    description: Option<string>)

  /** `t?.dateTime || t?.date`. */
  function When(t: Option<GoogleTime>): (r: Option<string>)
    ensures t.None? ==> r.None?
    ensures t.Some? && Truthy(t.value.dateTime) ==> r == t.value.dateTime
    ensures t.Some? && !Truthy(t.value.dateTime) ==> r == t.value.date
  {
    Or(if t.Some? then t.value.dateTime else None, if t.Some? then t.value.date else None)
  }

  /** `event.attendees?.map((att) => att.email) || []`: an array, even an empty
      one, is truthy, so only a missing list becomes []. */
  function Attendees(a: Option<seq<string>>): (r: seq<string>)
    ensures a.Some? ==> r == a.value
    ensures a.None? ==> r == []
  {
    if a.Some? then a.value else []
  }

  const NoTitle: string := "No title"
  const NoLocation: string := "No location"
  const NoLink: string := "No link"
  const NoDescription: string := "No description"
  const DefaultStatus: string := "confirmed"

  /** The normalised content of one event. */
  function GoogleContent(e: GoogleEvent): (c: Content)
    ensures c.startDate == When(e.start) && c.endDate == When(e.end)
    ensures c.attendees == Attendees(e.attendees)
    // each text column keeps a non-empty source value and otherwise takes its placeholder
    ensures c.name == (if Truthy(e.summary) then e.summary else Some(NoTitle))
    ensures c.location == (if Truthy(e.location) then e.location else Some(NoLocation))
    ensures c.link == (if Truthy(e.hangoutLink) then e.hangoutLink else Some(NoLink))
    ensures c.message == (if Truthy(e.description) then e.description else Some(NoDescription))
    ensures c.status == (if Truthy(e.status) then e.status else Some(DefaultStatus))
    ensures Truthy(c.name) && Truthy(c.location) && Truthy(c.link) && Truthy(c.message) && Truthy(c.status)
  {
    Content(
      name := Some(OrElse(e.summary, NoTitle)),
      startDate := When(e.start),
      endDate := When(e.end),
      attendees := Attendees(e.attendees),
      location := Some(OrElse(e.location, NoLocation)),
      link := Some(OrElse(e.hangoutLink, NoLink)),
      message := Some(OrElse(e.description, NoDescription)),
      status := Some(OrElse(e.status, DefaultStatus)))
  }

  /** One element of `normalizeGoogleEvents`. */
  function NormalizeGoogleEvent(e: GoogleEvent, linkedAccountId: string): (r: Event)
    ensures r.id == e.id && r.externalEventId == e.id
    ensures r.linkedAccountId == linkedAccountId && r.provider == "google"
    ensures r.content == GoogleContent(e)
  {
    Event(e.id, linkedAccountId, e.id, "google", GoogleContent(e))
  }

  /** `normalizeGoogleEvents`: one meeting per raw event, in order. */
  function NormalizeGoogleEvents(events: seq<GoogleEvent>, linkedAccountId: string): (r: seq<Event>)
    ensures |r| == |events|
    ensures forall i :: 0 <= i < |r| ==> r[i] == NormalizeGoogleEvent(events[i], linkedAccountId)
  {
    MapSeq(events, e => NormalizeGoogleEvent(e, linkedAccountId))
  }

  /** A raw event that carries a normalised meeting's values verbatim. */
  function AsGoogleEvent(m: Event): GoogleEvent {
    GoogleEvent(
      m.id, m.content.status, m.content.name,
      if m.content.startDate.Some? then Some(GoogleTime(None, m.content.startDate)) else None,
      if m.content.endDate.Some? then Some(GoogleTime(None, m.content.endDate)) else None,
      Some(m.content.attendees), m.content.location, m.content.link, m.content.message)
  }

  /** Normalisation is a retraction: feeding a normalised meeting back through
      the adapter reproduces it, because every placeholder is non-empty and
      therefore survives its own `||` fallback. */
  lemma NormalizeGoogleRoundTrip(e: GoogleEvent, linkedAccountId: string)
    ensures var m := NormalizeGoogleEvent(e, linkedAccountId);
            NormalizeGoogleEvent(AsGoogleEvent(m), linkedAccountId) == m
  {
  }

  /** A timed event uses its `dateTime`; an all-day event falls back to its `date`. */
  lemma GoogleStartFallback(e: GoogleEvent, linkedAccountId: string, day: string)
    requires e.start == Some(GoogleTime(None, Some(day)))
    ensures NormalizeGoogleEvent(e, linkedAccountId).content.startDate == Some(day)
  {
  }

  /** An event without `start` has no start date, so `validateMeetings` drops it
      whatever the date parser accepts. */
  lemma UndatedGoogleEventDropped(e: GoogleEvent, linkedAccountId: string, parses: string -> bool)
    requires e.start.None?
    ensures ValidateMeetings([NormalizeGoogleEvent(e, linkedAccountId)], parses) == []
  {
    assert !HasValidStart(NormalizeGoogleEvent(e, linkedAccountId), parses);
  }

  /** The answer of the events endpoint: a transport failure, or a body whose
      `items` may be missing. */
  datatype ItemsAnswer<T> = FetchFailed | Items(items: Option<seq<T>>)

  /** The summary the timeblock filter reads. */
  function GoogleSummary(e: GoogleEvent): Option<string> {
    e.summary
  }

  /** `fetchGoogleEvents` after the request: `items || []` through
      `filterOutLinkcalTimeblocks`; None stands for the thrown error. */
  function FetchGoogleEvents(answer: ItemsAnswer<GoogleEvent>, marker: string): (r: Option<seq<GoogleEvent>>)
    ensures answer.FetchFailed? <==> r.None?
    ensures answer.Items? && answer.items.None? ==> r == Some([])
    ensures answer.Items? && answer.items.Some? ==>
              r == Some(FilterOutLinkcalTimeblocks(answer.items.value, GoogleSummary, marker))
  {
    match answer
    case FetchFailed => None
    case Items(items) =>
      Some(FilterOutLinkcalTimeblocks(if items.Some? then items.value else [], GoogleSummary, marker))
  }
}
