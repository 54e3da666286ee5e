/** The two filters of utils/calendar/validation.ts. */
module Validation {
  import opened Js
  import opened Seqs
  import opened Meetings

  /** `new Date(start_date).getTime()` is a number. Date parsing is left
      abstract: `parses` says which strings the runtime accepts; a missing
      start date (`new Date(undefined)`) never parses. */
  predicate HasValidStart(e: Event, parses: string -> bool) {
    e.content.startDate.Some? && parses(e.content.startDate.value)
  }

  /** `validateMeetings`. */
  function ValidateMeetings(events: seq<Event>, parses: string -> bool): (r: seq<Event>)
    ensures |r| <= |events|
    ensures forall e :: e in r <==> e in events && HasValidStart(e, parses)
  {
    Filter(events, e => HasValidStart(e, parses))
  }

  /** Validation keeps the input order, keeps every occurrence of a valid
      event and drops every occurrence of an invalid one. */
  lemma ValidateMeetingsSpec(events: seq<Event>, parses: string -> bool)
    ensures IsSubsequence(ValidateMeetings(events, parses), events)
    ensures forall e :: multiset(ValidateMeetings(events, parses))[e] ==
                        if HasValidStart(e, parses) then multiset(events)[e] else 0
  {
    var keep := e => HasValidStart(e, parses);
    FilterIsSubsequence(events, keep);
    forall e ensures multiset(ValidateMeetings(events, parses))[e] ==
                     if HasValidStart(e, parses) then multiset(events)[e] else 0 {
      FilterMultiplicity(events, keep, e);
    }
  }

  lemma ValidateMeetingsIdempotent(events: seq<Event>, parses: string -> bool)
    ensures ValidateMeetings(ValidateMeetings(events, parses), parses) == ValidateMeetings(events, parses)
  {
    FilterAllKept(ValidateMeetings(events, parses), e => HasValidStart(e, parses));
  }

  /** The marker as the code builds it, `${process.env.NEXT_PUBLIC_LINKCAL_TIMEBLOCK_NAME}`:
      an unset variable yields the text "undefined". */
  function TimeblockMarker(env: Option<string>): string {
    Template(env)
  }

  /** The drop test of `filterOutLinkcalTimeblocks`: the summary exists and its
      lower-cased text contains the marker (the marker itself is not lower-cased). */
  predicate IsTimeblock(summary: Option<string>, marker: string) {
    summary.Some? && Contains(Lower(summary.value), marker)
  }

  /** `filterOutLinkcalTimeblocks` over raw provider events; `summary` reads the
      raw event's `summary` property (absent on Microsoft events, which carry `subject`). */
  function FilterOutLinkcalTimeblocks<T>(events: seq<T>, summary: T -> Option<string>, marker: string): (r: seq<T>)
    ensures |r| <= |events|
    ensures forall i :: 0 <= i < |r| ==> r[i] in events && !IsTimeblock(summary(r[i]), marker)
    ensures forall i :: 0 <= i < |events| && !IsTimeblock(summary(events[i]), marker) ==> events[i] in r
  {
    Filter(events, e => !IsTimeblock(summary(e), marker))
  }

  /** Events without a summary are always kept. */
  lemma NoSummaryKept<T>(events: seq<T>, summary: T -> Option<string>, marker: string)
    requires forall i :: 0 <= i < |events| ==> summary(events[i]).None?
    ensures FilterOutLinkcalTimeblocks(events, summary, marker) == events
  {
    FilterAllKept(events, e => !IsTimeblock(summary(e), marker));
  }

  /** A lower-cased string holds no upper-case letter, so a marker with one can never match. */
  lemma {:induction false} UppercaseMarkerNeverMatches(s: string, marker: string, k: nat)
    requires k < |marker| && IsUpper(marker[k])
    ensures !Contains(Lower(s), marker)
  {
    var l := Lower(s);
    LowerHasNoUpper(s);
    forall i: nat | i <= |l| ensures !OccursAt(l, marker, i) {
      if i + |marker| <= |l| {
        assert l[i..i + |marker|][k] == l[i + k];
      }
    }
  }

  /** A marker containing an upper-case ASCII letter drops nothing. */
  lemma UppercaseMarkerDropsNothing<T>(events: seq<T>, summary: T -> Option<string>, marker: string, k: nat)
    requires k < |marker| && IsUpper(marker[k])
    ensures FilterOutLinkcalTimeblocks(events, summary, marker) == events
  {
    forall e | e in events ensures !IsTimeblock(summary(e), marker) {
      if summary(e).Some? {
        UppercaseMarkerNeverMatches(summary(e).value, marker, k);
      }
    }
    FilterAllKept(events, e => !IsTimeblock(summary(e), marker));
  }
}
