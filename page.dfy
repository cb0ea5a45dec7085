/**
 * The dashboard page `Home`: its state (the events shown, the selected
 * event count, the loading flag and the error message), the transitions of
 * `fetchEvents`, the event-count selector, and which of the loading text,
 * the error text and the events component it renders. The clock and the
 * fetch outcome are inputs.
 */
module Page {
  import opened Wrappers
  import opened Events
  import opened EventsDisplay

  const FetchFailedText := "Failed to fetch events"
  const DefaultEventCount := 50

  /** The values the event-count selector offers. */
  predicate IsEventCountOption(n: int) {
    n == 10 || n == 25 || n == 50 || n == 100 || n == 200
  }

  /** The request `fetchEvents` makes: `/api/events/<timestamp>?limit=<eventCount>`. */
  datatype FetchRequest = FetchRequest(timestamp: int, limit: int)

  /**
   * Why a fetch fails: a non-OK response, whose JSON body's `error` field is
   * given when it is a string; or a rejected `fetch`/`response.json()`, with
   * the message of the `Error` it rejects with, `None` for a value that is
   * not an `Error`.
   */
  datatype FetchFailure = ServerError(error: Option<string>) | Rejected(message: Option<string>)

  /** The message `setError` receives for a failure. */
  function FailureMessage(f: FetchFailure): (m: string)
    ensures f.ServerError? && f.error.Some? && f.error.value != "" ==> m == f.error.value
    ensures f.ServerError? && (f.error.None? || f.error.value == "") ==> m == FetchFailedText
    ensures f.Rejected? && f.message.Some? ==> m == f.message.value
    ensures f.Rejected? && f.message.None? ==> m == FetchFailedText
  {
    match f
    case ServerError(e) => if e.Some? && e.value != "" then e.value else FetchFailedText
    case Rejected(msg) => msg.GetOr(FetchFailedText)
  }

  /** A non-OK response always yields a message to show. */
  lemma ServerErrorHasMessage(f: FetchFailure)
    requires f.ServerError?
    ensures FailureMessage(f) != ""
  {
  }

  /** What the page shows below the selector. */
  datatype Screen = LoadingScreen | ErrorScreen(message: string) | EventsScreen(view: EventsView)

  /** The render branches: loading beats the error, and a truthy error beats the events. */
  function ViewOf(isLoading: bool, error: Option<string>, events: seq<Event>): (s: Screen)
    ensures s.LoadingScreen? <==> isLoading
    ensures s.ErrorScreen? <==> !isLoading && error.Some? && error.value != ""
    ensures s.ErrorScreen? ==> s.message == error.value
    ensures s.EventsScreen? ==> s.view == RenderEvents(events)
  {
    if isLoading then LoadingScreen
    else if error.Some? && error.value != "" then ErrorScreen(error.value)
    else EventsScreen(RenderEvents(events))
  }

  /** After a failed fetch the page shows the failure's message, unless that message is empty. */
  lemma FailureIsShown(f: FetchFailure, events: seq<Event>)
    ensures FailureMessage(f) != "" ==> ViewOf(false, Some(FailureMessage(f)), events) == ErrorScreen(FailureMessage(f))
    ensures FailureMessage(f) == "" ==> ViewOf(false, Some(FailureMessage(f)), events) == EventsScreen(RenderEvents(events))
  {
  }

  class Home {
    var events: seq<Event>
    var eventCount: int
    var isLoading: bool
    var error: Option<string>

    /** The selector holds an offered value, and no error is set while a fetch is in flight. */
    ghost predicate Valid()
      reads this
    {
      IsEventCountOption(eventCount) && (isLoading ==> error.None?)
    }

    /** The first render: no events, 50 selected, loading, no error. */
    constructor ()
      ensures Valid()
      ensures events == [] && eventCount == DefaultEventCount && isLoading && error == None
    {
      events := [];
      eventCount := DefaultEventCount;
      isLoading := true;
      error := None;
    }

    /** What the page currently shows. */
    function View(): (s: Screen)
      reads this
      ensures s.LoadingScreen? <==> isLoading
      ensures Valid() && s.ErrorScreen? ==> error == Some(s.message) && s.message != ""
      ensures s.EventsScreen? ==> s.view == RenderEvents(events) && (error.None? || error.value == "")
    {
      ViewOf(isLoading, error, events)
    }

    /** The start of `fetchEvents`: loading, error cleared, and the request for the selected count. */
    method StartFetch(now: int) returns (req: FetchRequest)
      requires Valid()
      modifies this
      ensures Valid()
      ensures req == FetchRequest(now, eventCount)
      ensures isLoading && error == None
      ensures events == old(events) && eventCount == old(eventCount)
      ensures View() == LoadingScreen
    {
      isLoading := true;
      error := None;
      req := FetchRequest(now, eventCount);
    }

    /** A successful fetch: its events replace the old ones and loading ends. */
    method Succeed(fetched: seq<Event>)
      requires Valid()
      modifies this
      ensures Valid()
      ensures events == fetched && !isLoading
      ensures error == old(error) && eventCount == old(eventCount)
      ensures old(isLoading) ==> View() == EventsScreen(RenderEvents(fetched))
    {
      events := fetched;
      isLoading := false;
    }

    /** A failed fetch: the message is set, loading ends, and the old events stay. */
    method Fail(f: FetchFailure)
      requires Valid()
      modifies this
      ensures Valid()
      ensures error == Some(FailureMessage(f)) && !isLoading
      ensures events == old(events) && eventCount == old(eventCount)
      ensures View() == ViewOf(false, Some(FailureMessage(f)), old(events))
    {
      error := Some(FailureMessage(f));
      isLoading := false;
    }

    /** One whole `fetchEvents` run for the selected count, given the clock and the outcome. */
    method FetchEvents(now: int, outcome: Result<seq<Event>, FetchFailure>) returns (req: FetchRequest)
      requires Valid()
      modifies this
      ensures Valid()
      ensures req == FetchRequest(now, old(eventCount))
      ensures !isLoading && eventCount == old(eventCount)
      ensures outcome.Success? ==> events == outcome.value && error == None
      ensures outcome.Failure? ==> events == old(events) && error == Some(FailureMessage(outcome.error))
    {
      req := StartFetch(now);
      match outcome {
        case Success(evs) => Succeed(evs);
        case Failure(f) => Fail(f);
      }
    }

    /**
     * The selector's `onChange`: the count becomes the chosen option, and a
     * new fetch starts only when it differs from the current one (the effect
     * depends on `eventCount`).
     */
    method SetCount(n: int, now: int) returns (req: Option<FetchRequest>)
      requires Valid()
      requires IsEventCountOption(n)
      modifies this
      ensures Valid()
      ensures eventCount == n && events == old(events)
      ensures req.Some? <==> n != old(eventCount)
      ensures req.Some? ==> req.value == FetchRequest(now, n) && isLoading && error == None
      ensures req.None? ==> isLoading == old(isLoading) && error == old(error)
    {
      if n == eventCount {
        return None;
      }
      eventCount := n;
      var r := StartFetch(now);
      req := Some(r);
    }
  }
}
