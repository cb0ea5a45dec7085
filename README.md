# trackflow dashboard core, modelled in Dafny

trackflow is a Next.js dashboard for Blues Notehub tracking events. A
server-side client fetches `_track.qo` events from the Notehub API with an
OAuth bearer token. The page shows the events in a table, newest first, and
on a map with a time-window slider and a polyline. This project models the
logic behind that:

- `events_display.dfy` (module `EventsDisplay`) models the table component:
  - which timestamp an event is shown by (`getEventTime`);
  - the newest-first sort on `parseInt(getEventTime(e)) || 0`;
  - the "No events found" message for an empty list;
  - that the map and the table get the same sorted list.
- `event_map.dfy` (module `EventMap`) models the map component:
  - the minimum and maximum `when`, which give the slider's initial window;
  - the events inside a window, in ascending `when` order;
  - the map centre and the polyline;
  - the markers with their endpoint flag;
  - the slider's change handler.
- `notehub.dfy` (module `Notehub`) models the API client `NotehubAPI`:
  - a class whose `token` field caches the bearer token once;
  - `getAuthToken` and `getEvents`;
  - the events query and its default page size of 50.
- `page.dfy` (module `Page`) models the page `Home`:
  - a class with the fields `events`, `eventCount`, `isLoading` and `error`;
  - the transitions of `fetchEvents`;
  - the event-count selector;
  - the render priority: loading, then error, then events.
- `js_parse_int.dfy` (module `JsParseInt`) models JavaScript's `parseInt`, after section 19.2.5 of ECMA-262 (ECMAScript 2023), for the two ways the dashboard calls it:
  - with radix 10;
  - with no radix, where `0x` means hexadecimal.
- `seqs.dfy` (module `Seqs`) models `Array.prototype.filter` and `Array.prototype.sort` with an integer-difference comparator:
  - `sort` is a stable insertion sort by an integer key, because the ECMAScript 2019 sort is stable;
  - the filter is proved to keep exactly the elements that pass its test, each as often as it occurs, and to keep their order among elements with equal keys;
  - the sort is proved to return a permutation of its input, sorted by the key and stable.
- `events.dfy` (module `Events`) holds the event record.
- `wrappers.dfy` (module `Wrappers`) holds `Option` and `Result`.
- `scenario.dfy` (module `Scenario`) works one example end to end:
  - three events at times t1 < t3 < t2, listed t1, t2, t3;
  - the table shows t2, t3, t1;
  - the initial window is [t1, t2];
  - over that window the polyline runs t1, t3, t2.

Inputs to the model:

- The network is a parameter. Each method receives the reply its request would get. `NotehubApi` keeps a ghost log of the requests it sends.
- The clock (`Date.now()`) is a parameter.
- The environment variables are constructor parameters.

The map filters and sorts by the top-level `when`, read with `parseInt(when, 10)`; it never uses `getEventTime` (`EventMap.tsx:63`, `:66`).

## Model

| member | source | states |
|---|---|---|
| EventsDisplay.EventTime | src/components/EventsDisplay.tsx:35-44 | `body.when` wins whenever it is a string (even `""`); otherwise `body.time` if it is a string; otherwise a non-empty top-level `when`; otherwise `captured` |
| EventsDisplay.EventTimeIsFirstCandidate | src/components/EventsDisplay.tsx:35-44 | the timestamp is the first present candidate of the four, in priority order, and one is always present, so the function is total |
| EventsDisplay.SortKey | src/components/EventsDisplay.tsx:53-54 | the sort key is the timestamp parsed with no radix, and 0 when that is NaN |
| EventsDisplay.SortKeyOfDecimalTime | src/components/EventsDisplay.tsx:53-54 | an event whose timestamp is the decimal rendering of n sorts with key n |
| EventsDisplay.TableOrder | src/components/EventsDisplay.tsx:52-56 | the rows are a permutation of the input, non-increasing by the key `parseInt(getEventTime(e))`, where NaN counts as 0 |
| EventsDisplay.TableOrderIsStable | src/components/EventsDisplay.tsx:52-56 | events with equal keys keep their input order |
| EventsDisplay.RenderEvents | src/components/EventsDisplay.tsx:58-69 | the message, and nothing else, exactly when the list is empty; otherwise the map and the table get the same list, a sorted permutation of the input |
| EventMap.WhenValue | src/components/EventMap.tsx:63 | `parseInt(event.when, 10)` is NaN exactly when no decimal digit follows the leading white space and sign |
| EventMap.WhenKeys | src/components/EventMap.tsx:38-39 | one parsed `when` per event, in order |
| EventMap.Timestamps | src/components/EventMap.tsx:38-40 | `timestamps` is the parsed `when`s, the same values as often as they occur, in ascending order |
| EventMap.InitialRange | src/components/EventMap.tsx:38-48 | a list whose `when`s all parse has an initial window exactly when it is not empty |
| EventMap.InitialRangeBounds | src/components/EventMap.tsx:38-48 | the initial window is [minimum, maximum] of the parsed `when`s: both ends are the parsed `when`s of some events, and every parsed `when` lies between them |
| EventMap.InWindow | src/components/EventMap.tsx:62-65 | an event passes the window test only when its `when` parses, and then exactly when the parsed value lies between the two ends |
| EventMap.FilteredEvents | src/components/EventMap.tsx:61-66 | each event in the closed window occurs as often as in the input, and no other event occurs (an unparseable `when` is never kept); the result is non-decreasing by parsed `when` |
| EventMap.FilteredEventsStable | src/components/EventMap.tsx:61-66 | the kept events with a given `when` are exactly the in-window events with that `when` in the list the map was given, in that list's order |
| EventMap.InitialWindowHoldsAll | src/components/EventMap.tsx:45-66 | under the initial window every event is kept |
| EventMap.HandleTimeRangeChange | src/components/EventMap.tsx:125-132 | the new window is the slider's pair, whatever the old one was |
| EventMap.HasCoords | src/components/EventMap.tsx:70-71 | the test that both `best_lat` and `best_lon` are numbers; a non-number is an absent value in the model |
| EventMap.CoordIndices | src/components/EventMap.tsx:90-95 | exactly the indices of the events with both coordinates, ascending |
| EventMap.FindWithCoords | src/components/EventMap.tsx:69-72 | `find` returns the first event with both coordinates, or nothing when there is none |
| EventMap.Center | src/components/EventMap.tsx:69-76 | the position of the first event with both coordinates, else (0, 0) |
| EventMap.LineFrom | src/components/EventMap.tsx:90-95 | the polyline is the positions of exactly the events with both coordinates, in filtered order |
| EventMap.LineCoordinates | src/components/EventMap.tsx:90-95 | `lineCoordinates` is the positions of exactly the events with both coordinates, in filtered order |
| EventMap.MarkersAtCons | src/components/EventMap.tsx:204-211 | a marker for an event with coordinates, put in front, extends a correct marker list |
| EventMap.MarkersFromCoordIndices | src/components/EventMap.tsx:204-211 | one marker per event with both coordinates, in order, each at its event's index and position, bold exactly when that index is 0 or the last index of `filteredEvents` |
| EventMap.Markers | src/components/EventMap.tsx:204-211 | the markers, built by `MarkersFrom`: one per event with both coordinates, in order, at its index and position, bold exactly at index 0 or the last index |
| EventMap.CenterStartsLine | src/components/EventMap.tsx:69-95 | the centre is the polyline's first point, or (0, 0) when the polyline is empty |
| EventMap.MarkersFollowLine | src/components/EventMap.tsx:90-95 | the markers stand on the polyline's points, one for one, in the same order |
| EventMap.RenderMap | src/components/EventMap.tsx:61-211 | what the map draws for a window: the kept events, their centre, their polyline and their markers (bold exactly at both ends of the kept list), with the centre at the start of the polyline and the markers on its points |
| Notehub.EnvOrEmpty | src/lib/notehub.ts:32-36 | a missing environment variable reads as "" |
| Notehub.AuthResult | src/lib/notehub.ts:39-75 | with a truthy cached token, that token; otherwise a non-empty `access_token` from the reply; a missing or empty one rejects with "No access token received"; a failed request rejects with its error; it never resolves with "" |
| Notehub.TokenAfter | src/lib/notehub.ts:40-62 | one call keeps a truthy cached token; the cache changes only to a truthy `access_token` from the reply |
| Notehub.TokenAfterAll | src/lib/notehub.ts:40-62 | over any run of calls, a cache that starts empty or truthy never holds "", and a token it ends with that it did not start with was issued by one of the replies |
| Notehub.CachedTokenIsKept | src/lib/notehub.ts:40 | once a token is cached, no sequence of later calls replaces it (no expiry, no refresh) |
| Notehub.FirstIssuedTokenIsCached | src/lib/notehub.ts:57-62 | from an empty cache, after any sequence of calls the cache holds the first non-empty token the server issued, or nothing |
| Notehub.EventsQueryFor | src/lib/notehub.ts:77-87 | `pageSize` is the limit, or 50 when it is omitted; `files` is "_track.qo", `sortOrder` is "desc" and `sortBy` is "captured" |
| Notehub.EventsResult | src/lib/notehub.ts:89-111 | with a token, a successful reply's events are returned unchanged and a failure is rethrown |
| Notehub.NotehubApi.constructor | src/lib/notehub.ts:29-37 | a new client holds the configuration from the environment and no token, and has sent nothing |
| Notehub.NotehubApi.GetAuthToken | src/lib/notehub.ts:39-75 | a cached token is returned with no request; otherwise exactly one token request is sent; only a non-empty `access_token` is cached, and a failure leaves the cache empty; the cache never holds "" |
| Notehub.NotehubApi.GetEvents | src/lib/notehub.ts:77-112 | the token comes first; an auth failure is rethrown before any events request; otherwise one events request is sent for this project with the bearer token and the query for `limit`, and the reply's events are returned unchanged or its error rethrown |
| Page.FailureMessage | src/app/page.tsx:48-58 | a non-OK response gives its truthy `error` field, else "Failed to fetch events"; a rejected `Error` gives its message; a rejected non-`Error` gives "Failed to fetch events" |
| Page.ServerErrorHasMessage | src/app/page.tsx:48-51 | a non-OK response always produces a non-empty message |
| Page.ViewOf | src/app/page.tsx:98-108 | the loading text exactly when loading; otherwise the error exactly when it is a non-empty string; otherwise the events component for the current events |
| Page.Home.View | src/app/page.tsx:98-108 | the page shows the loading text exactly while loading; the error it shows is the stored non-empty message; otherwise it shows the events component for its events |
| Page.FailureIsShown | src/app/page.tsx:56-108 | after a failure the page shows its message, except that an empty message shows the events instead |
| Page.Home.constructor | src/app/page.tsx:27-30 | no events, 50 selected, loading, no error |
| Page.Home.StartFetch | src/app/page.tsx:33-46 | loading, error cleared, the events and the count kept, and the request asks for the selected count |
| Page.Home.Succeed | src/app/page.tsx:54-61 | the fetched list replaces the events and loading ends; after a fetch the page shows those events |
| Page.Home.Fail | src/app/page.tsx:56-61 | the error is the failure's message, loading ends, and the previous events stay |
| Page.Home.FetchEvents | src/app/page.tsx:32-65 | one whole fetch for the selected count: success leaves the fetched events and no error; failure leaves the old events and the failure's message; loading ends either way |
| Page.Home.SetCount | src/app/page.tsx:65-85 | the count becomes the chosen option (always one of 10, 25, 50, 100 and 200); a fetch for it starts exactly when it differs from the previous count |
| JsParseInt.TrimStartSpec | src/components/EventMap.tsx:39 | `parseInt` first drops exactly the leading StrWhiteSpace characters: what remains is a suffix that does not start with white space |
| JsParseInt.LeadingDigitsSpec | src/components/EventMap.tsx:39 | the digits read are the longest prefix made of digits of the radix in force |
| JsParseInt.ScanTrimmedDigits | src/components/EventMap.tsx:39 | the scan reads only digits of the radix in force |
| JsParseInt.ScanTrimmed | src/components/EventsDisplay.tsx:53-54 | the radix is 16 only when the radix is omitted and a `0x`/`0X` prefix follows the sign; otherwise it is 10 |
| JsParseInt.ParseInt | src/components/EventMap.tsx:39 | NaN exactly when no digit of the radix in force follows the white space, the sign and any `0x`; a result without a minus sign is not negative |
| JsParseInt.ParseIntSkipsWhiteSpace | src/components/EventMap.tsx:63 | leading white space does not change the result |
| JsParseInt.ParseIntReadsDecimal | src/components/EventMap.tsx:63 | a decimal integer followed by a non-digit (and, without a radix, by no `x` after a lone 0) parses to that integer |
| JsParseInt.ParseIntDecimalRoundTrip | src/components/EventMap.tsx:63 | parsing the decimal rendering of any integer gives that integer back, with or without a radix |
| JsParseInt.UnspecifiedRadixIsDecimal | src/components/EventsDisplay.tsx:53-54 | omitting the radix changes the result only for input with a hex prefix |
| JsParseInt.ParseIntHexExamples | src/components/EventsDisplay.tsx:53-54 | without a radix "0x1A" is 26 and "0x" is NaN |
| JsParseInt.ParseIntWithoutDigitsIsNaN | src/components/EventMap.tsx:63 | input with no decimal digit after white space and sign is NaN, so it is never inside a window |
| JsParseInt.NatToDecimalDenotes | src/components/EventMap.tsx:63 | decimal renderings are digit strings that denote their number |
| Seqs.FilterCounts | src/components/EventMap.tsx:61-65 | `filter` keeps each element that passes as often as it occurs, and no other |
| Seqs.FilterSatisfies | src/components/EventMap.tsx:90-95 | every element a filter keeps passes its test |
| Seqs.Filter | src/components/EventMap.tsx:61-65 | `filter` never returns more elements than it is given; what it keeps is stated by `FilterCounts` and `FilterSatisfies` |
| Seqs.FilterWithKey | src/components/EventMap.tsx:61-65 | filtering keeps the input order: the kept elements with any one key are the passing elements with that key, in input order |
| Seqs.FilterKeepsAll | src/components/EventMap.tsx:61-65 | a filter that every element passes returns its input |
| Seqs.SortBy | src/components/EventsDisplay.tsx:52-56 | the sorted copy is a permutation of the input, ascending by the key |
| Seqs.Insert | src/components/EventsDisplay.tsx:52-56 | one step of the insertion sort adds exactly one element |
| Seqs.InsertCounts | src/components/EventsDisplay.tsx:52-56 | one insertion step of the sort adds exactly one occurrence of the element and loses nothing |
| Seqs.InsertKeepsLowerBound | src/components/EventsDisplay.tsx:52-56 | inserting an element above a lower bound keeps every key above it |
| Seqs.InsertKeepsKeyOrder | src/components/EventsDisplay.tsx:52-56 | an insertion puts the element ahead of those with an equal key and reorders no others |
| Seqs.InsertSorted | src/components/EventsDisplay.tsx:52-56 | inserting into a sorted sequence keeps it sorted |
| Seqs.SortByEnds | src/components/EventMap.tsx:38-42 | the first and last elements of the sorted copy are input elements with the least and the greatest key |
| Seqs.SortByIsStable | src/components/EventMap.tsx:66 | among elements with equal keys the sort keeps the input order |
| Seqs.SortByKeeps | src/components/EventMap.tsx:66 | a property of every input element holds of every sorted element |
| Scenario.TableOfThree | src/components/EventsDisplay.tsx:52-56 | events with times t1, t2, t3, where t1 < t3 < t2, are listed as t2, t3, t1 |
| Scenario.RangeOfThree | src/components/EventMap.tsx:38-48 | the initial window of that list is [t1, t2] |
| Scenario.PathOfThree | src/components/EventMap.tsx:61-95 | over that window the polyline visits t1, t3, t2 |
| Scenario.ThreeEvents | src/components/EventsDisplay.tsx:52-69 | for events whose top-level `when` is the decimal time and that have coordinates, the three facts above hold together |

## Left out

- JSX, CSS, the Leaflet map, its icons and tiles, the MUI slider widget, marker popups and keys. These are user interface built on external libraries.
- The "Loading map..." branch that waits for `mapReady`. It is a one-time effect of Leaflet initialisation.
- The table cells: `toFixed` formatting of voltage, temperature and coordinates, and `formatDate`/`formatTimestamp`. They work with floating point, `Date` and the locale.
- `src/lib/utils.ts` and `src/components/Header.tsx` are not part of this model. The first is date and locale formatting; the second is static markup.
- HTTP through axios and `fetch`, URL building, `response.json()` and `console.error` logging. Replies, fetch outcomes and the clock are parameters.
- The API route `src/app/api/events/[timestamp]/route.ts` is not part of this model. In its code, `limit=abc` gives `parseInt("abc", 10)`, which is NaN, and that NaN reaches `getEvents` as the page size. It does not fall back to 50. The route also builds a new `NotehubAPI` for every request, so the token cache lives for one request.
- Notehub.EventsQueryFor: the limit is an integer, so a NaN or fractional page size is not modelled.
- Notehub.EventsResult: a reply body without an `events` field, which the code would return as `undefined`, is not modelled.
- Overlapping fetches on the page, where the last one to resolve wins. This is concurrency. Each fetch is modelled on its own as `StartFetch` followed by `Succeed` or `Fail`.
- Page.FailureMessage: a truthy non-string `error` field in the server's body is not modelled. `new Error` would turn it into a string.
- JsParseInt: values are exact unbounded integers. The loss of precision of doubles above 2^53 is not modelled, and `-0` is identified with `0`; the `|| 0` at `EventsDisplay.tsx:53-54` maps both to 0 anyway. Only radix 10 and an omitted radix are modelled, because they are the only ones the dashboard uses.
- EventMap.InitialRange: it requires every `when` to parse. With a NaN among them, the comparator at `EventMap.tsx:38-40` gives an order that the engine's implementation decides.
- EventMap.RenderMap: it takes the window as a parameter. React computes the initial `timeRange` only when the map mounts. Every fetch sets `isLoading`, and the page's loading branch (`page.tsx:98-108`) unmounts the map, so each new list normally remounts it with a fresh initial window. Only overlapping fetches, left out above, could show a new list under an old window.
- EventMap: the `best_location`, `best_country` and `best_timezone` fields are not modelled, because no modelled decision reads them. The sensor readings in `Body` are carried but take part in no decision. Coordinates are opaque values that are only tested for presence.
