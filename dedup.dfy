/** `deduplicateEvents` (utils/meetings/dedeuplicateEvents.ts): the events are
    loaded into a `Map` keyed by id and its values read back. A JavaScript
    `Map` keeps keys in first-insertion order and a repeated `set` overwrites
    the value in place, so the result has one event per id, in the order the
    ids first appear, each being the LAST event carrying that id. */
module Dedup {
  import opened Js
  import opened Meetings

  /** The position of the first event with id `id`, or -1. */
  function IdIndex(events: seq<Event>, id: string): (i: int)
    ensures -1 <= i < |events|
    ensures i >= 0 ==> events[i].id == id && forall j :: 0 <= j < i ==> events[j].id != id
    ensures i == -1 <==> forall j :: 0 <= j < |events| ==> events[j].id != id
  {
    if events == [] then -1
    else if events[0].id == id then 0
    else
      var k := IdIndex(events[1..], id);
      if k == -1 then -1 else k + 1
  }

  /** The ids carried by a list of events. */
  function Ids(events: seq<Event>): set<string> {
    set e | e in events :: e.id
  }

  lemma IdsAppend(p: seq<Event>, e: Event)
    ensures Ids(p + [e]) == Ids(p) + {e.id}
  {
    assert forall x :: x in p + [e] <==> x in p || x == e;
  }

  lemma IdIndexIds(events: seq<Event>, id: string)
    ensures IdIndex(events, id) == -1 <==> id !in Ids(events)
  {
    if id in Ids(events) {
      var x :| x in events && x.id == id;
      var j :| 0 <= j < |events| && events[j] == x;
    }
  }

  lemma IdsPointwise(a: seq<Event>, b: seq<Event>)
    requires |a| == |b| && forall j :: 0 <= j < |a| ==> a[j].id == b[j].id
    ensures Ids(a) == Ids(b)
  {
    forall id | id in Ids(a) ensures id in Ids(b) {
      var x :| x in a && x.id == id;
      var j :| 0 <= j < |a| && a[j] == x;
      assert b[j] in b;
    }
    forall id | id in Ids(b) ensures id in Ids(a) {
      var x :| x in b && x.id == id;
      var j :| 0 <= j < |b| && b[j] == x;
      assert a[j] in a;
    }
  }

  predicate DistinctIds(events: seq<Event>) {
    forall i, j :: 0 <= i < j < |events| ==> events[i].id != events[j].id
  }

  /** The last event with id `id`, if any. */
  function LastWithId(events: seq<Event>, id: string): Option<Event>
    decreases |events|
  {
    if events == [] then None
    else if events[|events| - 1].id == id then Some(events[|events| - 1])
    else LastWithId(events[..|events| - 1], id)
  }

  /** The map's `set`, applied to its list of values: a known key has its
      value overwritten in place, a new key is appended. */
  function MapSet(values: seq<Event>, e: Event): (r: seq<Event>)
    ensures Ids(r) == Ids(values) + {e.id}
    ensures DistinctIds(values) ==> DistinctIds(r)
    ensures e.id in Ids(values) ==>
              && |r| == |values|
              && (forall j :: 0 <= j < |values| ==> r[j].id == values[j].id)
              && (forall j :: 0 <= j < |values| && r[j] != values[j] ==> r[j] == e)
    ensures e.id !in Ids(values) ==> r == values + [e]
  {
    var k := IdIndex(values, e.id);
    IdIndexIds(values, e.id);
    if k >= 0 then
      var r := values[k := e];
      IdsPointwise(r, values);
      r
    else
      IdsAppend(values, e);
      values + [e]
  }

  /** `Array.from(new Map(events.map(e => [e.id, e])).values())`, folding the
      events left to right. */
  function Deduplicate(events: seq<Event>): (r: seq<Event>)
    decreases |events|
    ensures |r| <= |events|
    ensures DistinctIds(r)
    ensures forall k :: 0 <= k < |r| ==> r[k] in events
    ensures Ids(r) == Ids(events)
  {
    if events == [] then []
    else
      var p := events[..|events| - 1];
      var e := events[|events| - 1];
      assert events == p + [e];
      IdsAppend(p, e);
      MapSet(Deduplicate(p), e)
  }

  /** One step of the fold: the entries already present keep their ids, and an
      entry appended at the end carries an id new to the prefix. */
  lemma DeduplicateStep(events: seq<Event>)
    requires events != []
    ensures var d := Deduplicate(events[..|events| - 1]);
            var r := Deduplicate(events);
            var e := events[|events| - 1];
            && (|r| == |d| || (|r| == |d| + 1 && r[|d|] == e && e.id !in Ids(events[..|events| - 1])))
            && (forall j :: 0 <= j < |d| ==> r[j].id == d[j].id)
            && (forall j :: 0 <= j < |d| && r[j] != d[j] ==> r[j] == e)
  {
    var p := events[..|events| - 1];
    var e := events[|events| - 1];
    var d := Deduplicate(p);
    var r := Deduplicate(events);
    assert r == MapSet(d, e);
    if e.id !in Ids(d) {
      assert r == d + [e];
      assert r[|d|] == e;
    }
  }

  /** Every id of the output is an id of the input, and the value kept for it
      is the last input event with that id. */
  lemma {:induction false} LastOccurrenceWins(events: seq<Event>, k: nat)
    requires k < |Deduplicate(events)|
    ensures LastWithId(events, Deduplicate(events)[k].id) == Some(Deduplicate(events)[k])
    decreases |events|
  {
    var r := Deduplicate(events);
    var p := events[..|events| - 1];
    var e := events[|events| - 1];
    DeduplicateStep(events);
    if r[k].id != e.id {
      // the entry was already there, untouched by the last `set`
      LastOccurrenceWins(p, k);
    }
  }

  /** Output order is the order in which ids first appear in the input. */
  lemma {:induction false} FirstOccurrenceOrder(events: seq<Event>, a: nat, b: nat)
    requires a < b < |Deduplicate(events)|
    ensures 0 <= IdIndex(events, Deduplicate(events)[a].id) < IdIndex(events, Deduplicate(events)[b].id)
    decreases |events|
  {
    var p := events[..|events| - 1];
    var d := Deduplicate(p);
    DeduplicateStep(events);
    assert d[a] in d;
    PrefixIdIndex(events, d[a].id);
    if b < |d| {
      assert d[b] in d;
      FirstOccurrenceOrder(p, a, b);
      PrefixIdIndex(events, d[b].id);
    } else {
      // `b` was appended by the last `set`: its id is new to the prefix
      IdIndexAppendNew(events);
    }
  }

  /** An id already present before the last event keeps its first position. */
  lemma PrefixIdIndex(events: seq<Event>, id: string)
    requires events != [] && id in Ids(events[..|events| - 1])
    ensures IdIndex(events, id) == IdIndex(events[..|events| - 1], id) >= 0
  {
    var p := events[..|events| - 1];
    IdIndexIds(p, id);
    var k := IdIndex(p, id);
    assert events[k] == p[k];
    var k2 := IdIndex(events, id);
    assert p[k2] == events[k2];
  }

  /** The last event's id, new to the prefix, first appears at the end. */
  lemma IdIndexAppendNew(events: seq<Event>)
    requires events != [] && events[|events| - 1].id !in Ids(events[..|events| - 1])
    ensures IdIndex(events, events[|events| - 1].id) == |events| - 1
  {
    var p := events[..|events| - 1];
    forall j | 0 <= j < |p| ensures events[j].id != events[|events| - 1].id {
      assert events[j] == p[j];
      assert p[j] in p;
    }
  }

  /** Events with distinct ids pass through unchanged. */
  lemma {:induction false} DistinctUnchanged(events: seq<Event>)
    requires DistinctIds(events)
    ensures Deduplicate(events) == events
    decreases |events|
  {
    if events != [] {
      var p := events[..|events| - 1];
      var e := events[|events| - 1];
      DistinctPrefix(events);
      DistinctUnchanged(p);
      assert Deduplicate(events) == MapSet(p, e);
      assert p + [e] == events;
    }
  }

  /** Without duplicates, the prefix has none either and the last id is new to it. */
  lemma DistinctPrefix(events: seq<Event>)
    requires events != [] && DistinctIds(events)
    ensures DistinctIds(events[..|events| - 1])
    ensures events[|events| - 1].id !in Ids(events[..|events| - 1])
  {
    var p := events[..|events| - 1];
    var e := events[|events| - 1];
    assert forall j :: 0 <= j < |p| ==> p[j] == events[j];
    forall x | x in p ensures x.id != e.id {
      var j :| 0 <= j < |p| && p[j] == x;
      assert events[j] == x;
    }
  }

  /** Deduplicating twice is deduplicating once. */
  lemma DeduplicateIdempotent(events: seq<Event>)
    ensures Deduplicate(Deduplicate(events)) == Deduplicate(events)
  {
    DistinctUnchanged(Deduplicate(events));
  }
}
