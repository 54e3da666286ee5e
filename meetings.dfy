/** The normalised meeting shape shared by the newer pipeline
    (`Omit<Meeting, "user_id" | "created_at" | "updated_at">`, db/schema.ts:36-71)
    and the marker rule that recognises events Linkcal created itself. */
module Meetings {
  import opened Js

  /** The eight columns the change detector compares. Text columns are
      nullable in the schema; `attendees` is the list of e-mail addresses
      (JSON.stringify on a list of strings is injective, so comparing the
      serialised lists is comparing the lists). */
  datatype Content = Content(
    name: Option<string>,
    startDate: Option<string>,
    endDate: Option<string>,
    attendees: seq<string>,
    location: Option<string>,
    link: Option<string>,
    message: Option<string>,
    status: Option<string>)

  /** A normalised event as the provider adapters produce it. */
  datatype Event = Event(
    id: string,
    linkedAccountId: string,
    externalEventId: string,
    provider: string,
    content: Content)

  const MarkerLinkcal: string := "linkcal"
  const MarkerTimeblock: string := "timeblock"
  const MarkerForwarded: string := "meeting forwarded by linkcal.io"

  /** The self-generated-event test: the lower-cased name contains "linkcal" or
      "timeblock", or the lower-cased message contains the forwarding footer.
      A missing name or message short-circuits (`?.`) to false. */
  predicate IsLinkcalMarked(name: Option<string>, message: Option<string>) {
    || (name.Some? && Contains(Lower(name.value), MarkerLinkcal))
    || (name.Some? && Contains(Lower(name.value), MarkerTimeblock))
    || (message.Some? && Contains(Lower(message.value), MarkerForwarded))
  }

  predicate IsLinkcalEvent(e: Event) {
    IsLinkcalMarked(e.content.name, e.content.message)
  }

  predicate KeepEvent(e: Event) {
    !IsLinkcalEvent(e)
  }
}
