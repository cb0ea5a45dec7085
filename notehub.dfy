/**
 * The Notehub API client `NotehubAPI`: a bearer token fetched once with the
 * OAuth client-credentials grant and cached in the `token` field for the
 * life of the object, and the events query it sends with that token.
 * The network is an input: each method receives the reply its request
 * would get, and the requests it makes are recorded in a ghost log.
 */
module Notehub {
  import opened Wrappers
  import opened Events

  const GrantType := "client_credentials"
  const TrackFile := "_track.qo"
  const SortOrder := "desc"
  const SortField := "captured"
  /** The default of `getEvents(limit = 50)`. */
  const DefaultLimit := 50

  /** Client id, client secret and project UID, read from the environment with `|| ""`. */
  datatype Config = Config(clientId: string, clientSecret: string, projectUid: string)

  /** `process.env.X || ""`: a missing variable reads as the empty string. */
  function EnvOrEmpty(v: Option<string>): (r: string)
    ensures v.Some? ==> r == v.value
    ensures v.None? ==> r == ""
  {
    v.GetOr("")
  }

  /** The query parameters of the events request. */
  datatype EventsQuery = EventsQuery(pageSize: int, files: string, sortOrder: string, sortBy: string)

  /** A request the client sends. */
  datatype Request =
    | AuthRequest(grantType: string, clientId: string, clientSecret: string)
    | EventsRequest(projectUid: string, bearer: string, query: EventsQuery)

  /** The reply to the token request: a body whose `access_token` may be missing, or a failed request. */
  datatype AuthReply = AuthBody(accessToken: Option<string>) | AuthFailed(reason: string)

  /** The reply to the events request: the `events` list, or a failed request. */
  datatype EventsReply = EventsBody(events: seq<Event>) | EventsFailed(reason: string)

  /**
   * What a method throws: `new Error("No access token received")`, or the
   * failed request's error rethrown.
   */
  datatype ApiError = NoAccessToken | RequestFailed(reason: string)

  /** A JavaScript string or `null` in a boolean context: false for `null` and for `""`. */
  predicate Truthy(s: Option<string>) {
    s.Some? && s.value != ""
  }

  /** What `getAuthToken` resolves or rejects with, given the cache and the reply a request would get. */
  function AuthResult(cached: Option<string>, reply: AuthReply): (r: Result<string, ApiError>)
    ensures Truthy(cached) ==> r == Success(cached.value)
    ensures !Truthy(cached) && reply.AuthBody? && Truthy(reply.accessToken) ==> r == Success(reply.accessToken.value)
    ensures !Truthy(cached) && reply.AuthBody? && !Truthy(reply.accessToken) ==> r == Failure(NoAccessToken)
    ensures !Truthy(cached) && reply.AuthFailed? ==> r == Failure(RequestFailed(reply.reason))
    ensures r.Success? ==> r.value != ""
  {
    if Truthy(cached) then Success(cached.value)
    else match reply
      case AuthFailed(reason) => Failure(RequestFailed(reason))
      case AuthBody(t) => if Truthy(t) then Success(t.value) else Failure(NoAccessToken)
  }

  /** The cache after `getAuthToken`: the token it resolved with; a failure leaves it as it was. */
  function TokenAfter(cached: Option<string>, reply: AuthReply): (t: Option<string>)
    ensures Truthy(cached) ==> t == cached
    ensures t != cached ==> reply.AuthBody? && Truthy(reply.accessToken) && t == reply.accessToken
    ensures t.Some? ==> t == cached || Truthy(t)
  {
    var r := AuthResult(cached, reply);
    if r.Success? then Some(r.value) else cached
  }

  /** The cache after a run of `getAuthToken` calls, each given the reply its request would get. */
  function TokenAfterAll(cached: Option<string>, replies: seq<AuthReply>): (t: Option<string>)
    ensures cached.None? || Truthy(cached) ==> t.None? || Truthy(t)
    ensures t.Some? && t != cached ==> exists i :: 0 <= i < |replies| && replies[i].AuthBody? && t == replies[i].accessToken
    decreases replies
  {
    if replies == [] then cached else TokenAfterAll(TokenAfter(cached, replies[0]), replies[1..])
  }

  /** The first reply that carries a non-empty `access_token`. */
  function FirstIssuedToken(replies: seq<AuthReply>): (t: Option<string>)
    ensures t.Some? ==> t.value != ""
  {
    if replies == [] then None
    else if replies[0].AuthBody? && Truthy(replies[0].accessToken) then replies[0].accessToken
    else FirstIssuedToken(replies[1..])
  }

  /** Once a token is cached, no later call replaces it: there is no expiry and no refresh. */
  lemma {:induction false} CachedTokenIsKept(cached: Option<string>, replies: seq<AuthReply>)
    requires Truthy(cached)
    ensures TokenAfterAll(cached, replies) == cached
  {
    if replies != [] {
      CachedTokenIsKept(cached, replies[1..]);
    }
  }

  /** From an empty cache, the token ever cached is the first one the server issues. */
  lemma {:induction false} FirstIssuedTokenIsCached(replies: seq<AuthReply>)
    ensures TokenAfterAll(None, replies) == FirstIssuedToken(replies)
  {
    if replies != [] {
      var next := TokenAfter(None, replies[0]);
      if next.Some? {
        CachedTokenIsKept(next, replies[1..]);
      } else {
        FirstIssuedTokenIsCached(replies[1..]);
      }
    }
  }

  /** The parameters `getEvents(limit)` sends; an omitted `limit` is 50. */
  function EventsQueryFor(limit: Option<int>): (q: EventsQuery)
    ensures limit.Some? ==> q.pageSize == limit.value
    ensures limit.None? ==> q.pageSize == DefaultLimit
    ensures q.files == TrackFile && q.sortOrder == SortOrder && q.sortBy == SortField
  {
    EventsQuery(limit.GetOr(DefaultLimit), TrackFile, SortOrder, SortField)
  }

  /** What `getEvents` resolves or rejects with once it holds a token: the events unchanged, or the error rethrown. */
  function EventsResult(reply: EventsReply): (r: Result<seq<Event>, ApiError>)
    ensures reply.EventsBody? <==> r.Success?
    ensures reply.EventsBody? ==> r.value == reply.events
    ensures reply.EventsFailed? ==> r.error == RequestFailed(reply.reason)
  {
    match reply
    case EventsBody(evs) => Success(evs)
    case EventsFailed(reason) => Failure(RequestFailed(reason))
  }

  class NotehubApi {
    const config: Config
    /** The cached bearer token; `null` until the first successful token request. */
    var token: Option<string>
    /** The requests this client has sent, oldest first. */
    ghost var sent: seq<Request>

    /** The cache never holds a falsy token, so a cached token is always used. */
    ghost predicate Valid()
      reads this
    {
      token.Some? ==> token.value != ""
    }

    /** A new client reads its configuration and holds no token. */
    constructor (clientIdEnv: Option<string>, clientSecretEnv: Option<string>, projectUidEnv: Option<string>)
      ensures Valid()
      ensures config == Config(EnvOrEmpty(clientIdEnv), EnvOrEmpty(clientSecretEnv), EnvOrEmpty(projectUidEnv))
      ensures token == None
      ensures sent == []
    {
      config := Config(EnvOrEmpty(clientIdEnv), EnvOrEmpty(clientSecretEnv), EnvOrEmpty(projectUidEnv));
      token := None;
      sent := [];
    }

    /** The token request this client sends. */
    function AuthRequestOf(): Request
      reads this
    {
      AuthRequest(GrantType, config.clientId, config.clientSecret)
    }

    /** The requests `getAuthToken` sends with the cache `cached`: one token request when it is empty. */
    function AuthSent(cached: Option<string>): seq<Request>
      reads this
    {
      if cached.Some? then [] else [AuthRequestOf()]
    }

    /**
     * `getAuthToken`: a cached token is returned with no request; otherwise
     * one token request is sent, and a non-empty `access_token` is cached and
     * returned, while anything else rejects and leaves the cache empty.
     */
    method GetAuthToken(reply: AuthReply) returns (r: Result<string, ApiError>)
      requires Valid()
      modifies this
      ensures Valid()
      ensures r == AuthResult(old(token), reply)
      ensures token == TokenAfter(old(token), reply)
      ensures old(token).Some? ==> token == old(token) && sent == old(sent)
      ensures old(token).None? ==> sent == old(sent) + [AuthRequestOf()]
      ensures r.Failure? ==> token == old(token)
    {
      if token.Some? && token.value != "" {
        return Success(token.value);
      }
      sent := sent + [AuthRequestOf()];
      match reply {
        case AuthFailed(reason) =>
          r := Failure(RequestFailed(reason));
        case AuthBody(t) =>
          if t.None? || t.value == "" {
            r := Failure(NoAccessToken);
          } else {
            token := t;
            r := Success(t.value);
          }
      }
    }

    /**
     * `getEvents(limit)`: obtains a token first; with it, sends the events
     * request for this project and returns the reply's events unchanged.
     * Any failure, of either request, is rethrown.
     */
    method GetEvents(limit: Option<int>, auth: AuthReply, reply: EventsReply) returns (r: Result<seq<Event>, ApiError>)
      requires Valid()
      modifies this
      ensures Valid()
      ensures token == TokenAfter(old(token), auth)
      ensures var a := AuthResult(old(token), auth);
        a.Failure? ==> (r == Failure(a.error) && sent == old(sent) + AuthSent(old(token)))
      ensures var a := AuthResult(old(token), auth);
        a.Success? ==> (r == EventsResult(reply)
          && sent == old(sent) + AuthSent(old(token)) + [EventsRequest(config.projectUid, a.value, EventsQueryFor(limit))])
    {
      var t := GetAuthToken(auth);
      if t.Failure? {
        return Failure(t.error);
      }
      sent := sent + [EventsRequest(config.projectUid, t.value, EventsQueryFor(limit))];
      r := EventsResult(reply);
    }
  }
}
