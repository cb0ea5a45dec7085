/**
 * The map component: the slider's initial time window, the events inside a
 * window in chronological order, the polyline through those that have
 * coordinates, the map centre, and the markers with their endpoint flags.
 * Unlike the table, every step here reads the top-level `when` with
 * `parseInt(when, 10)`.
 */
module EventMap {
  import opened Wrappers
  import opened Seqs
  import opened JsParseInt
  import opened Events

  /** `parseInt(event.when, 10)`; `None` is `NaN`. */
  function WhenValue(e: Event): (r: Option<int>)
    ensures var u := Unsigned(TrimStart(e.when));
      r.None? <==> u == [] || !IsDigit(u[0], 10)
  {
    ParseInt(e.when, Decimal)
  }

  /**
   * The comparator key `parseInt(a.when, 10)` where it is a number. An
   * unparseable `when` reads as 0 here, where the source has `NaN`: the
   * initial window is only defined when every `when` parses, and the window
   * test uses `WhenValue` and never keeps a `NaN`.
   */
  function WhenKey(e: Event): int {
    WhenValue(e).GetOr(0)
  }

  ghost predicate AllWhensParse(events: seq<Event>) {
    forall i :: 0 <= i < |events| ==> WhenValue(events[i]).Some?
  }

  /** The slider's `[start, end]` pair. */
  datatype Range = Range(lo: int, hi: int)

  function Identity(t: int): int {
    t
  }

  /** `events.map(e => parseInt(e.when, 10))`, with `NaN` read as 0 as in `WhenKey`. */
  function WhenKeys(events: seq<Event>): (ks: seq<int>)
    ensures |ks| == |events| && forall i :: 0 <= i < |events| ==> ks[i] == WhenKey(events[i])
  {
    if events == [] then [] else [WhenKey(events[0])] + WhenKeys(events[1..])
  }

  /** `timestamps`: the parsed `when`s in ascending order. */
  function Timestamps(events: seq<Event>): (ts: seq<int>)
    ensures |ts| == |events|
    ensures multiset(ts) == multiset(WhenKeys(events))
    ensures SortedBy(ts, Identity)
  {
    SortBy(WhenKeys(events), Identity)
  }

  /**
   * The initial `timeRange`: `[timestamps[0], timestamps[timestamps.length - 1]]`.
   * An empty list has no range (the component is never shown for one).
   */
  function InitialRange(events: seq<Event>): (r: Option<Range>)
    requires AllWhensParse(events)
    ensures r.None? <==> events == []
  {
    var ts := Timestamps(events);
    if ts == [] then None else Some(Range(ts[0], ts[|ts| - 1]))
  }

  /**
   * The initial window is `[minTime, maxTime]`: its ends are the parsed
   * `when`s of `events[lo]` and `events[hi]`, and every parsed `when` lies
   * between them.
   */
  lemma InitialRangeBounds(events: seq<Event>) returns (lo: nat, hi: nat)
    requires AllWhensParse(events) && events != []
    ensures lo < |events| && hi < |events|
    ensures WhenValue(events[lo]) == Some(InitialRange(events).value.lo)
    ensures WhenValue(events[hi]) == Some(InitialRange(events).value.hi)
    ensures forall i :: 0 <= i < |events| ==>
      InitialRange(events).value.lo <= WhenKey(events[i]) <= InitialRange(events).value.hi
  {
    var keys := WhenKeys(events);
    lo, hi := SortByEnds(keys, Identity);
    assert WhenValue(events[lo]).Some? && WhenValue(events[hi]).Some?;
    forall i | 0 <= i < |events| ensures keys[lo] <= keys[i] <= keys[hi] {
      assert Identity(keys[lo]) <= Identity(keys[i]) <= Identity(keys[hi]);
    }
  }

  /** The filter test `eventTime >= timeRange[0] && eventTime <= timeRange[1]`; it fails for `NaN`. */
  predicate InWindow(e: Event, r: Range): (b: bool)
    ensures b ==> WhenValue(e).Some?
    ensures WhenValue(e).Some? ==> (b <==> r.lo <= WhenKey(e) <= r.hi)
  {
    WhenValue(e).Some? && r.lo <= WhenValue(e).value <= r.hi
  }

  function InWindowOf(r: Range): Event -> bool {
    e => InWindow(e, r)
  }

  /** `filteredEvents`: the events inside the window, ascending by `when`. */
  function FilteredEvents(events: seq<Event>, r: Range): (f: seq<Event>)
    ensures forall e :: multiset(f)[e] == if InWindow(e, r) then multiset(events)[e] else 0
    ensures forall i :: 0 <= i < |f| ==> InWindow(f[i], r)
    ensures forall i, j :: 0 <= i < j < |f| ==> WhenKey(f[i]) <= WhenKey(f[j])
  {
    var kept := Filter(events, InWindowOf(r));
    FilterSpec(events, InWindowOf(r));
    KeptAreInWindow(events, r);
    SortBy(kept, WhenKey)
  }

  /** Sorting the kept events keeps them in the window and orders them by their parsed `when`. */
  lemma KeptAreInWindow(events: seq<Event>, r: Range)
    ensures var f := SortBy(Filter(events, InWindowOf(r)), WhenKey);
      forall i :: 0 <= i < |f| ==> InWindow(f[i], r)
  {
    FilterSpec(events, InWindowOf(r));
    SortByKeeps(Filter(events, InWindowOf(r)), WhenKey, InWindowOf(r));
  }

  /** Events with the same `when` keep the order of the list the map was given. */
  lemma FilteredEventsStable(events: seq<Event>, r: Range, k: int)
    ensures WithKey(FilteredEvents(events, r), WhenKey, k) == Filter(WithKey(events, WhenKey, k), InWindowOf(r))
  {
    SortByIsStable(Filter(events, InWindowOf(r)), WhenKey, k);
    FilterWithKey(events, InWindowOf(r), WhenKey, k);
  }

  /** Before the slider moves, the window holds every event. */
  lemma InitialWindowHoldsAll(events: seq<Event>)
    requires AllWhensParse(events) && events != []
    ensures multiset(FilteredEvents(events, InitialRange(events).value)) == multiset(events)
  {
    var r := InitialRange(events).value;
    var lo, hi := InitialRangeBounds(events);
    assert forall i :: 0 <= i < |events| ==> InWindowOf(r)(events[i]);
    FilterKeepsAll(events, InWindowOf(r));
  }

  /** `handleTimeRangeChange`: the slider's new pair replaces the window. */
  function HandleTimeRangeChange(current: Range, value: Range): (r: Range)
    ensures r == value
  {
    value
  }

  predicate HasCoords(e: Event) {
    e.bestLat.Some? && e.bestLon.Some?
  }

  type LatLng = (real, real)

  function Position(e: Event): LatLng
    requires HasCoords(e)
  {
    (e.bestLat.value, e.bestLon.value)
  }

  /** The indices at or after `from` of the events that have both coordinates, in ascending order. */
  function CoordIndices(s: seq<Event>, from: nat): (idx: seq<nat>)
    requires from <= |s|
    ensures forall k :: 0 <= k < |idx| ==> from <= idx[k] < |s| && HasCoords(s[idx[k]])
    ensures forall k, l :: 0 <= k < l < |idx| ==> idx[k] < idx[l]
    ensures forall i :: from <= i < |s| && HasCoords(s[i]) ==> i in idx
    decreases |s| - from
  {
    if from == |s| then []
    else (if HasCoords(s[from]) then [from] else []) + CoordIndices(s, from + 1)
  }

  /** `filteredEvents.find(...)` over the events at or after `from`. */
  function FindWithCoords(s: seq<Event>, from: nat): (r: Option<Event>)
    requires from <= |s|
    ensures var idx := CoordIndices(s, from);
      r == if idx == [] then None else Some(s[idx[0]])
    decreases |s| - from
  {
    if from == |s| then None
    else if HasCoords(s[from]) then Some(s[from])
    else FindWithCoords(s, from + 1)
  }

  /** `center`: the position of the first event with coordinates, else `(0, 0)`. */
  function Center(s: seq<Event>): (c: LatLng)
    ensures var idx := CoordIndices(s, 0);
      c == if idx == [] then (0.0, 0.0) else Position(s[idx[0]])
  {
    match FindWithCoords(s, 0)
    case Some(e) => Position(e)
    case None => (0.0, 0.0)
  }

  /** `lineCoordinates` from index `from` on: the positions of the events with coordinates, in order. */
  function LineFrom(s: seq<Event>, from: nat): (line: seq<LatLng>)
    requires from <= |s|
    ensures var idx := CoordIndices(s, from);
      |line| == |idx| && forall k :: 0 <= k < |idx| ==> line[k] == Position(s[idx[k]])
    decreases |s| - from
  {
    if from == |s| then []
    else (if HasCoords(s[from]) then [Position(s[from])] else []) + LineFrom(s, from + 1)
  }

  /** `lineCoordinates`: the positions of the events with coordinates, in order. */
  function LineCoordinates(s: seq<Event>): (line: seq<LatLng>)
    ensures var idx := CoordIndices(s, 0);
      |line| == |idx| && forall k :: 0 <= k < |idx| ==> line[k] == Position(s[idx[k]])
  {
    LineFrom(s, 0)
  }

  /** A marker: the index of its event in `filteredEvents`, its position and whether its label is bold. */
  datatype Marker = Marker(index: nat, position: LatLng, isEndpoint: bool)

  /** The markers for the events at or after `from`; `isEndpoint` refers to indices of the whole list. */
  function MarkersFrom(s: seq<Event>, from: nat): (ms: seq<Marker>)
    requires from <= |s|
    decreases |s| - from
  {
    if from == |s| then []
    else
      var here := if HasCoords(s[from]) then [Marker(from, Position(s[from]), from == 0 || from == |s| - 1)] else [];
      here + MarkersFrom(s, from + 1)
  }

  /** `ms` holds one marker per index in `idx`, each at its event's position and bold exactly at the ends of `s`. */
  ghost predicate MarkersAt(s: seq<Event>, ms: seq<Marker>, idx: seq<nat>) {
    && |ms| == |idx|
    && forall k :: 0 <= k < |idx| ==>
         idx[k] < |s| && HasCoords(s[idx[k]]) &&
         ms[k] == Marker(idx[k], Position(s[idx[k]]), idx[k] == 0 || idx[k] == |s| - 1)
  }

  lemma MarkersAtCons(s: seq<Event>, ms: seq<Marker>, idx: seq<nat>, i: nat)
    requires MarkersAt(s, ms, idx) && i < |s| && HasCoords(s[i])
    ensures MarkersAt(s, [Marker(i, Position(s[i]), i == 0 || i == |s| - 1)] + ms, [i] + idx)
  {
    var ms', idx' := [Marker(i, Position(s[i]), i == 0 || i == |s| - 1)] + ms, [i] + idx;
    forall k | 0 <= k < |idx'|
      ensures idx'[k] < |s| && HasCoords(s[idx'[k]])
      ensures ms'[k] == Marker(idx'[k], Position(s[idx'[k]]), idx'[k] == 0 || idx'[k] == |s| - 1)
    {
      if k > 0 {
        assert ms'[k] == ms[k - 1] && idx'[k] == idx[k - 1];
      }
    }
  }

  /** One marker per event with coordinates, in order, bold exactly at the first and last index of the list. */
  lemma {:induction false} MarkersFromCoordIndices(s: seq<Event>, from: nat)
    requires from <= |s|
    ensures MarkersAt(s, MarkersFrom(s, from), CoordIndices(s, from))
    decreases |s| - from
  {
    if from < |s| {
      MarkersFromCoordIndices(s, from + 1);
      var ms, idx := MarkersFrom(s, from + 1), CoordIndices(s, from + 1);
      if HasCoords(s[from]) {
        var m := Marker(from, Position(s[from]), from == 0 || from == |s| - 1);
        assert MarkersFrom(s, from) == [m] + ms;
        assert CoordIndices(s, from) == [from] + idx;
        MarkersAtCons(s, ms, idx, from);
      } else {
        assert MarkersFrom(s, from) == ms;
        assert CoordIndices(s, from) == idx;
      }
    }
  }

  /** The markers: one per event with coordinates, in order, bold exactly at the first and last index of the list. */
  function Markers(s: seq<Event>): (ms: seq<Marker>)
    ensures MarkersAt(s, ms, CoordIndices(s, 0))
  {
    MarkersFromCoordIndices(s, 0);
    MarkersFrom(s, 0)
  }

  /** The centre is where the polyline starts, or `(0, 0)` when there is no polyline. */
  lemma CenterStartsLine(s: seq<Event>)
    ensures Center(s) == if LineCoordinates(s) == [] then (0.0, 0.0) else LineCoordinates(s)[0]
  {
  }

  /** The markers stand exactly on the polyline's points, in the same order. */
  lemma MarkersFollowLine(s: seq<Event>)
    ensures |Markers(s)| == |LineCoordinates(s)|
    ensures forall k :: 0 <= k < |Markers(s)| ==> Markers(s)[k].position == LineCoordinates(s)[k]
  {
    MarkersFromCoordIndices(s, 0);
  }

  /** What the map draws for a list of events and a window. */
  datatype MapView = MapView(filtered: seq<Event>, center: LatLng, line: seq<LatLng>, markers: seq<Marker>)

  function RenderMap(events: seq<Event>, window: Range): (v: MapView)
    ensures v.filtered == FilteredEvents(events, window)
    ensures v.center == Center(v.filtered) && v.line == LineCoordinates(v.filtered) && v.markers == Markers(v.filtered)
    ensures MarkersAt(v.filtered, v.markers, CoordIndices(v.filtered, 0))
    ensures v.center == if v.line == [] then (0.0, 0.0) else v.line[0]
    ensures |v.markers| == |v.line|
    ensures forall k :: 0 <= k < |v.markers| ==> v.markers[k].position == v.line[k]
  {
    var f := FilteredEvents(events, window);
    CenterStartsLine(f);
    MarkersFollowLine(f);
    MapView(f, Center(f), LineCoordinates(f), Markers(f))
  }
}
