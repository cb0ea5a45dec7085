/**
 * The events table component: which timestamp an event is shown and sorted
 * by, the most-recent-first order of the rows, and the empty-list message.
 */
module EventsDisplay {
  import opened Wrappers
  import opened Seqs
  import opened JsParseInt
  import opened Events

  /**
   * `getEventTime`: `body.when` if it is a string (even an empty one), else
   * `body.time` if it is a string, else a non-empty top-level `when`, else
   * `captured`.
   */
  function EventTime(e: Event): (r: string)
    ensures e.body.when.Str? ==> r == e.body.when.text
    ensures !e.body.when.Str? && e.body.time.Str? ==> r == e.body.time.text
    ensures !e.body.when.Str? && !e.body.time.Str? && e.when != "" ==> r == e.when
    ensures !e.body.when.Str? && !e.body.time.Str? && e.when == "" ==> r == e.captured
  {
    if e.body.when.Str? then e.body.when.text
    else if e.body.time.Str? then e.body.time.text
    else if e.when != "" then e.when
    else e.captured
  }

  /** The four timestamp sources in priority order; `None` marks one the rule passes over. */
  function TimeCandidates(e: Event): seq<Option<string>> {
    [ if e.body.when.Str? then Some(e.body.when.text) else None,
      if e.body.time.Str? then Some(e.body.time.text) else None,
      if e.when != "" then Some(e.when) else None,
      Some(e.captured) ]
  }

  /** The first candidate that is present. */
  function FirstPresent(cs: seq<Option<string>>): (r: Option<string>)
    ensures r.Some? <==> exists i :: 0 <= i < |cs| && cs[i].Some?
  {
    if cs == [] then None else if cs[0].Some? then cs[0] else FirstPresent(cs[1..])
  }

  /** The timestamp is the first present candidate, and one always is: the function is total. */
  lemma EventTimeIsFirstCandidate(e: Event)
    ensures FirstPresent(TimeCandidates(e)) == Some(EventTime(e))
  {
    var cs := TimeCandidates(e);
    var c1, c2, c3 := cs[1..], cs[1..][1..], cs[1..][1..][1..];
    assert c1[0] == cs[1] && c2[0] == cs[2] && c3 == [cs[3]];
    if !e.body.when.Str? {
      assert FirstPresent(cs) == FirstPresent(c1);
      if !e.body.time.Str? {
        assert FirstPresent(c1) == FirstPresent(c2);
        if e.when == "" {
          assert FirstPresent(c2) == FirstPresent(c3);
        }
      }
    }
  }

  /** `parseInt(getEventTime(e)) || 0`: the parsed timestamp, with `NaN` (and `-0`) read as 0. */
  function SortKey(e: Event): (k: int)
    ensures ParseInt(EventTime(e), Unspecified).Some? ==> k == ParseInt(EventTime(e), Unspecified).value
    ensures ParseInt(EventTime(e), Unspecified).None? ==> k == 0
  {
    ParseInt(EventTime(e), Unspecified).GetOr(0)
  }

  /** An event whose timestamp is the decimal rendering of `n` sorts with key `n`. */
  lemma SortKeyOfDecimalTime(e: Event, n: int)
    requires EventTime(e) == IntToDecimal(n)
    ensures SortKey(e) == n
  {
    ParseIntDecimalRoundTrip(n, Unspecified);
  }

  /** The comparator `(a, b) => timeB - timeA` orders ascending by the negated key. */
  function NegatedSortKey(e: Event): int {
    -SortKey(e)
  }

  /** `[...events].sort(...)`: a sorted copy, most recent first. */
  function TableOrder(events: seq<Event>): (r: seq<Event>)
    ensures multiset(r) == multiset(events)
    ensures forall i, j :: 0 <= i < j < |r| ==> SortKey(r[i]) >= SortKey(r[j])
  {
    SortBy(events, NegatedSortKey)
  }

  /** Events with equal keys (the negated key being `k`) keep the order they arrived in. */
  lemma TableOrderIsStable(events: seq<Event>, k: int)
    ensures WithKey(TableOrder(events), NegatedSortKey, k) == WithKey(events, NegatedSortKey, k)
  {
    SortByIsStable(events, NegatedSortKey, k);
  }

  const NoEventsText := "No events found. Make sure your Notehub credentials are properly configured."

  /** What the component renders: the message alone, or the map and the table. */
  datatype EventsView =
    | NoEventsMessage(text: string)
    | MapAndTable(mapEvents: seq<Event>, rows: seq<Event>)

  /** `EventsDisplay`: an empty list gives the message; otherwise the map and the rows share the sorted copy. */
  function RenderEvents(events: seq<Event>): (v: EventsView)
    ensures v.NoEventsMessage? <==> events == []
    ensures v.NoEventsMessage? ==> v.text == NoEventsText
    ensures v.MapAndTable? ==> v.mapEvents == v.rows
    ensures v.MapAndTable? ==> multiset(v.rows) == multiset(events)
    ensures v.MapAndTable? ==> forall i, j :: 0 <= i < j < |v.rows| ==> SortKey(v.rows[i]) >= SortKey(v.rows[j])
  {
    var sorted := TableOrder(events);
    if |events| == 0 then NoEventsMessage(NoEventsText) else MapAndTable(sorted, sorted)
  }
}
