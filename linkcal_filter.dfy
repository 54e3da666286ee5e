/** `filterLinkcalEvents` (utils/meetings/filterLinkCalEvents.ts). The same
    filter is written inline at the start of both `syncMeetingsToDatabase`
    versions; the sync modules reuse this definition. */
module LinkcalFilter {
  import opened Js
  import opened Seqs
  import opened Meetings

  /** Drops every event whose name or message carries a Linkcal marker. */
  function FilterLinkcalEvents(events: seq<Event>): (r: seq<Event>)
    ensures |r| <= |events|
    ensures forall e :: e in r <==> e in events && !IsLinkcalMarked(e.content.name, e.content.message)
  {
    Filter(events, KeepEvent)
  }

  /** The output keeps the input order and drops exactly the marked events,
      every occurrence of them, and nothing else. */
  lemma FilterLinkcalSpec(events: seq<Event>)
    ensures IsSubsequence(FilterLinkcalEvents(events), events)
    ensures forall e :: multiset(FilterLinkcalEvents(events))[e] ==
                        if IsLinkcalEvent(e) then 0 else multiset(events)[e]
  {
    FilterIsSubsequence(events, KeepEvent);
    forall e ensures multiset(FilterLinkcalEvents(events))[e] ==
                     if IsLinkcalEvent(e) then 0 else multiset(events)[e] {
      FilterMultiplicity(events, KeepEvent, e);
    }
  }

  lemma FilterLinkcalIdempotent(events: seq<Event>)
    ensures FilterLinkcalEvents(FilterLinkcalEvents(events)) == FilterLinkcalEvents(events)
  {
    FilterIdempotent(events, KeepEvent);
  }

  /** An event with neither a name nor a message is never dropped. */
  lemma NamelessEventKept(e: Event)
    requires e.content.name.None? && e.content.message.None?
    ensures FilterLinkcalEvents([e]) == [e]
  {
  }

  lemma LowerContainsOfPrefix(s: string, prefix: string, marker: string)
    requires StartsWith(Lower(s), prefix) && Contains(prefix, marker)
    ensures Contains(Lower(s), marker)
  {
    var l := Lower(s);
    assert l == prefix + l[|prefix|..];
    ContainsExtend([], prefix, l[|prefix|..], marker);
    assert [] + prefix + l[|prefix|..] == l;
  }

  /** Matching ignores case: "LINKCAL Timeblock | x" is dropped. */
  lemma CaseInsensitiveMatch(e: Event)
    requires e.content.name == Some("LINKCAL Timeblock | x")
    ensures FilterLinkcalEvents([e]) == []
  {
    var l := Lower("LINKCAL Timeblock | x");
    assert l == "linkcal timeblock | x";
    assert OccursAt(l, MarkerLinkcal, 0);
  }
}
