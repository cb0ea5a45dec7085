/**
 * A worked scenario: three events whose top-level `when` holds the decimal
 * times t1, t2 and t3 with t1 < t3 < t2 (for instance "100", "300" and
 * "200"), with no timestamp in the body and with coordinates everywhere.
 * The table lists them newest first, and the map's polyline over the full
 * window visits them oldest first.
 */
module Scenario {
  import opened Wrappers
  import opened Seqs
  import opened JsParseInt
  import opened Events
  import opened EventsDisplay
  import opened EventMap

  /** An event at time `t`: its top-level `when` is `t` in decimal, its body has no timestamp, and it has coordinates. */
  predicate PlacedAt(e: Event, t: nat) {
    e.when == NatToDecimal(t) && e.body.when == Absent && e.body.time == Absent && HasCoords(e)
  }

  /** Both the table and the map read such an event's time as `t`. */
  lemma KeysOfPlaced(e: Event, t: nat)
    requires PlacedAt(e, t)
    ensures NegatedSortKey(e) == -(t as int)
    ensures WhenValue(e) == Some(t) && WhenKey(e) == t
  {
    assert EventTime(e) == e.when;
    ParseIntDecimalRoundTrip(t, Unspecified);
    ParseIntDecimalRoundTrip(t, Decimal);
  }

  lemma SortOfTwo<T>(b: T, c: T, key: T -> int)
    ensures SortBy([b, c], key) == Insert(b, [c], key)
  {
    assert [b, c][1..] == [c] && [c][1..] == [];
    assert SortBy([c], key) == [c];
  }

  lemma SortOfThree<T>(a: T, b: T, c: T, key: T -> int)
    ensures SortBy([a, b, c], key) == Insert(a, SortBy([b, c], key), key)
  {
    assert [a, b, c][1..] == [b, c];
  }

  lemma InsertAfterOne<T>(x: T, c: T, key: T -> int)
    requires key(c) < key(x)
    ensures Insert(x, [c], key) == [c, x]
  {
    assert [c][1..] == [];
  }

  lemma InsertBeforeOne<T>(x: T, c: T, key: T -> int)
    requires key(x) <= key(c)
    ensures Insert(x, [c], key) == [x, c]
  {
  }

  lemma InsertPastHead<T>(x: T, b: T, c: T, key: T -> int)
    requires key(b) < key(x)
    ensures Insert(x, [b, c], key) == [b] + Insert(x, [c], key)
  {
    assert [b, c][1..] == [c];
  }

  /** Sorting `[a, b, c]` when `b` and `c` come in order and both precede `a`. */
  lemma SortRotatesFirstToLast<T>(a: T, b: T, c: T, key: T -> int)
    requires key(b) <= key(c) < key(a)
    ensures SortBy([a, b, c], key) == [b, c, a]
  {
    SortOfThree(a, b, c, key);
    SortOfTwo(b, c, key);
    InsertBeforeOne(b, c, key);
    InsertPastHead(a, b, c, key);
    InsertAfterOne(a, c, key);
  }

  /** Sorting `[a, b, c]` when their keys strictly decrease. */
  lemma SortReverses<T>(a: T, b: T, c: T, key: T -> int)
    requires key(c) < key(b) < key(a)
    ensures SortBy([a, b, c], key) == [c, b, a]
  {
    SortOfThree(a, b, c, key);
    SortOfTwo(b, c, key);
    InsertAfterOne(b, c, key);
    InsertPastHead(a, c, b, key);
    InsertAfterOne(a, b, key);
  }

  /** A filter that keeps each of three elements keeps all of them. */
  lemma FilterKeepsThree<T>(a: T, b: T, c: T, p: T -> bool)
    requires p(a) && p(b) && p(c)
    ensures Filter([a, b, c], p) == [a, b, c]
  {
    var s := [a, b, c];
    assert forall i :: 0 <= i < |s| ==> p(s[i]);
    FilterKeepsAll(s, p);
  }

  /** The polyline through three events that all have coordinates. */
  lemma LineThroughThree(a: Event, b: Event, c: Event)
    requires HasCoords(a) && HasCoords(b) && HasCoords(c)
    ensures LineCoordinates([a, b, c]) == [Position(a), Position(b), Position(c)]
  {
    var s := [a, b, c];
    assert LineFrom(s, 3) == [];
    assert LineFrom(s, 2) == [Position(c)];
    assert LineFrom(s, 1) == [Position(b), Position(c)];
  }

  /** The table puts the oldest of three events last when the other two are already newest first. */
  lemma TableOfThree(a: Event, b: Event, c: Event)
    requires NegatedSortKey(b) <= NegatedSortKey(c) < NegatedSortKey(a)
    ensures TableOrder([a, b, c]) == [b, c, a]
  {
    SortRotatesFirstToLast(a, b, c, NegatedSortKey);
  }

  lemma WhenKeysOfThree(a: Event, b: Event, c: Event)
    ensures WhenKeys([a, b, c]) == [WhenKey(a), WhenKey(b), WhenKey(c)]
  {
  }

  lemma AllOfThree<T>(a: T, b: T, c: T, p: T -> bool)
    requires p(a) && p(b) && p(c)
    ensures forall i :: 0 <= i < |[a, b, c]| ==> p([a, b, c][i])
  {
    var s := [a, b, c];
    assert s[0] == a && s[1] == b && s[2] == c;
  }

  lemma ThreeWhensParse(a: Event, b: Event, c: Event)
    requires WhenValue(a).Some? && WhenValue(b).Some? && WhenValue(c).Some?
    ensures AllWhensParse([a, b, c])
  {
    AllOfThree(a, b, c, e => WhenValue(e).Some?);
  }

  /** The initial window of three events listed newest first spans the last one's time to the first one's. */
  lemma RangeOfThree(a: Event, b: Event, c: Event)
    requires WhenValue(a).Some? && WhenValue(b).Some? && WhenValue(c).Some?
    requires WhenKey(c) < WhenKey(b) < WhenKey(a)
    ensures AllWhensParse([a, b, c])
    ensures InitialRange([a, b, c]) == Some(Range(WhenKey(c), WhenKey(a)))
  {
    ThreeWhensParse(a, b, c);
    WhenKeysOfThree(a, b, c);
    SortReverses(WhenKey(a), WhenKey(b), WhenKey(c), Identity);
  }

  /** The path through three events listed newest first, all inside the window, runs oldest first. */
  lemma PathOfThree(a: Event, b: Event, c: Event, window: Range)
    requires InWindow(a, window) && InWindow(b, window) && InWindow(c, window)
    requires WhenKey(c) < WhenKey(b) < WhenKey(a)
    requires HasCoords(a) && HasCoords(b) && HasCoords(c)
    ensures LineCoordinates(FilteredEvents([a, b, c], window)) == [Position(c), Position(b), Position(a)]
  {
    FilterKeepsThree(a, b, c, InWindowOf(window));
    SortReverses(a, b, c, WhenKey);
    LineThroughThree(c, b, a);
  }

  /** The scenario end to end: the table order, the initial window, and the map's path over it. */
  lemma ThreeEvents(e1: Event, e2: Event, e3: Event, t1: nat, t2: nat, t3: nat)
    requires t1 < t3 < t2
    requires PlacedAt(e1, t1) && PlacedAt(e2, t2) && PlacedAt(e3, t3)
    ensures TableOrder([e1, e2, e3]) == [e2, e3, e1]
    ensures AllWhensParse([e2, e3, e1]) && InitialRange([e2, e3, e1]) == Some(Range(t1, t2))
    ensures LineCoordinates(FilteredEvents([e2, e3, e1], Range(t1, t2))) == [Position(e1), Position(e3), Position(e2)]
  {
    KeysOfPlaced(e1, t1);
    KeysOfPlaced(e2, t2);
    KeysOfPlaced(e3, t3);
    TableOfThree(e1, e2, e3);
    RangeOfThree(e2, e3, e1);
    PathOfThree(e2, e3, e1, Range(t1, t2));
  }
}
