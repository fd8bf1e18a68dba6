/**
  The decisions the HTTP client takes around one request: the header set, the
  key conversion of the body, the interceptor hook, the choice of HTTP method,
  and the mapping of the transport's answer to a response or a typed error.
  The transport itself, URL joining and the clock are parameters.
 */
module HttpClient {
  import opened Wrappers
  import opened OrderedMap
  import opened CamelCase
  import opened JsonValue

  /** The client configuration the request path reads. */
  datatype Config = Config(apiBaseUrl: string, secretKey: string, timeoutMillis: int)

  const UserAgentPrefix: string := "checkout-sdk-python/"

  /** The module-wide default header set; `version` is the SDK version string. */
  function DefaultHeaders(version: string): Dict<string> {
    [("user-agent", UserAgentPrefix + version)]
  }

  /**
    The headers of a request: a copy of the defaults with `authorization` set
    to the secret key. Values are immutable, so the defaults are never altered.
   */
  function Headers(config: Config, version: string): (h: Dict<string>)
    ensures Get(h, "authorization") == Some(config.secretKey)
    ensures Get(h, "user-agent") == Some(UserAgentPrefix + version)
    ensures forall k :: k != "authorization" ==> Get(h, k) == Get(DefaultHeaders(version), k)
    ensures Keys(h) == {"user-agent", "authorization"}
    ensures h[..1] == DefaultHeaders(version)
  {
    var defaults := DefaultHeaders(version);
    assert Keys(defaults) == {"user-agent"} by {
      assert defaults[0].0 == "user-agent";
    }
    PutGet(defaults, "authorization", config.secretKey);
    PutKeys(defaults, "authorization", config.secretKey);
    PutShape(defaults, "authorization", config.secretKey);
    Put(defaults, "authorization", config.secretKey)
  }

  /** URL joining (`urljoin`): the base URL and the path give the request URL. */
  type UrlJoin = (string, string) -> string

  /** A hook that may replace the URL, the headers and the body of a request. */
  type Interceptor = (string, Dict<string>, Json) -> (string, Dict<string>, Json)

  /** The interceptor a client starts with: it hands its arguments back. */
  function Mirror(url: string, headers: Dict<string>, body: Json): (string, Dict<string>, Json) {
    (url, headers, body)
  }

  datatype Method = GET | POST

  /** What is handed to the transport. */
  datatype Request = Request(verb: Method, url: string, headers: Dict<string>, body: Json)

  /** A body a caller may pass: `None` (a GET) or a mapping (a POST). */
  predicate IsBody(body: Json) {
    body.Null? || body.Obj?
  }

  /**
    The request `_request` hands to the transport for `path`. The URL is
    `join` applied to the configured base URL and the path. A present body has its keys converted to
    camelCase; the interceptor then sees the URL, the headers and the body,
    and the method is POST exactly when the body it returns is truthy.
   */
  function Shape(config: Config, version: string, path: string, body: Json, join: UrlJoin, intercept: Interceptor): (req: Request)
    requires IsBody(body)
    ensures req.verb == POST <==> Truthy(req.body)
    ensures (req.url, req.headers, req.body) ==
      intercept(join(config.apiBaseUrl, path), Headers(config, version), if body.Null? then body else ConvertValue(body, ToCamel))
  {
    var converted := if body.Null? then body else ConvertValue(body, ToCamel);
    var (u, h, b) := intercept(join(config.apiBaseUrl, path), Headers(config, version), converted);
    Request(if Truthy(b) then POST else GET, u, h, b)
  }

  /** `get(path)`: the interceptor is handed no body. */
  function ShapeGet(config: Config, version: string, path: string, join: UrlJoin, intercept: Interceptor): (req: Request)
    ensures (req.url, req.headers, req.body) == intercept(join(config.apiBaseUrl, path), Headers(config, version), Null)
    ensures req.verb == POST <==> Truthy(req.body)
  {
    Shape(config, version, path, Null, join, intercept)
  }

  /** `post(path, body)`: the interceptor is handed the mapping with camelCase keys. */
  function ShapePost(config: Config, version: string, path: string, members: seq<(string, Json)>, join: UrlJoin, intercept: Interceptor): (req: Request)
    ensures (req.url, req.headers, req.body) == intercept(join(config.apiBaseUrl, path), Headers(config, version), Obj(ConvertMembers(members, ToCamel)))
    ensures req.verb == POST <==> Truthy(req.body)
  {
    Shape(config, version, path, Obj(members), join, intercept)
  }

  /**
    With the default interceptor the request goes to the joined URL with the
    client's headers and the converted body, and it is a POST exactly when the
    caller passed a mapping with at least one key.
   */
  lemma ShapeWithMirror(config: Config, version: string, path: string, body: Json, join: UrlJoin)
    requires IsBody(body)
    ensures var req := Shape(config, version, path, body, join, Mirror);
      && req.url == join(config.apiBaseUrl, path)
      && req.headers == Headers(config, version)
      && req.body == ConvertValue(body, ToCamel)
      && (req.verb == POST <==> body.Obj? && |body.members| > 0)
  {
  }

  /** `get` never sends a body and is always a GET under the default interceptor. */
  lemma GetSendsNoBody(config: Config, version: string, path: string, join: UrlJoin)
    ensures ShapeGet(config, version, path, join, Mirror).verb == GET
    ensures ShapeGet(config, version, path, join, Mirror).body == Null
  {
  }

  /**
    `post` with an empty mapping is sent as a GET, because the method follows
    the truthiness of the body and an empty mapping is false.
   */
  lemma PostEmptyIsGet(config: Config, version: string, path: string, join: UrlJoin)
    ensures ShapePost(config, version, path, [], join, Mirror).verb == GET
  {
  }

  /**
    Every key the default interceptor sends, at every level reached through
    mappings, is already in camelCase: it contains no `_` before a lower-case
    letter, and the body is unchanged by converting it again.
   */
  lemma SentKeysAreCamel(config: Config, version: string, path: string, body: Json, join: UrlJoin)
    requires IsBody(body)
    ensures var req := Shape(config, version, path, body, join, Mirror);
      && Settled(req.body, ToCamel)
      && ConvertValue(req.body, ToCamel) == req.body
  {
    CamelIdempotent();
    ConvertValueSettles(body, ToCamel);
    ConvertValueIdempotent(body, ToCamel);
  }

  /** The key conversion used for request bodies is idempotent. */
  lemma CamelIdempotent()
    ensures Idempotent(ToCamel)
  {
    forall k: string
      ensures ToCamel(ToCamel(k)) == ToCamel(k)
    {
      ToCamelIdempotent(k);
    }
  }

  /**
    An interceptor that only rewrites the URL sends the request to the
    rewritten URL with the headers and body it would otherwise have sent.
   */
  lemma RewrittenUrl(config: Config, version: string, path: string, body: Json, join: UrlJoin, rewrite: string -> string)
    requires IsBody(body)
    ensures var req := Shape(config, version, path, body, join, (u, h, b) => (rewrite(u), h, b));
      var plain := Shape(config, version, path, body, join, Mirror);
      req == plain.(url := rewrite(plain.url))
  {
  }

  /** The typed errors an HTTP error status is mapped to. */
  datatype ErrorKind = BadRequest | Authentication | ResourceNotFound | TooManyRequests | ApiError

  /**
    The error kind an HTTP error status is meant to raise: the kind the
    dispatch table lists for it, and the generic kind for every status the
    table does not list. The code as written fails on unlisted statuses
    instead (`DispatchAsWritten`).
   */
  function KindOf(status: int): (k: ErrorKind)
    ensures k == BadRequest <==> status == 400
    ensures k == Authentication <==> status == 401
    ensures k == ResourceNotFound <==> status == 404
    ensures k == TooManyRequests <==> status == 422
    ensures k == ApiError <==> status !in {400, 401, 404, 422}
  {
    match status
    case 400 => BadRequest
    case 401 => Authentication
    case 404 => ResourceNotFound
    case 422 => TooManyRequests
    case 500 => ApiError
    case _ => ApiError
  }

  /** The status the dispatch table lists for each error kind. */
  function CanonicalStatus(k: ErrorKind): int {
    match k
    case BadRequest => 400
    case Authentication => 401
    case ResourceNotFound => 404
    case TooManyRequests => 422
    case ApiError => 500
  }

  /**
    The dispatch inverts the table: each kind's own status maps back to it,
    and a specific kind is only ever reached from its own status.
   */
  lemma KindOfCanonical(k: ErrorKind, status: int)
    ensures KindOf(CanonicalStatus(k)) == k
    ensures KindOf(status) == k && k != ApiError ==> status == CanonicalStatus(k)
  {
  }

  /**
    The dispatch as the code performs it. Each table entry is a function that
    yields an error class, and the lookup result is called to obtain the
    class. The default, however, is the class `ApiError` itself, so for an
    unlisted status that call already builds an `ApiError` object, and the
    next step calls this object with the error fields, which fails. `None`
    stands for that failure.
   */
  function DispatchAsWritten(status: int): (k: Option<ErrorKind>)
    ensures k.None? <==> status !in {400, 401, 404, 422, 500}
    ensures k.Some? ==> k.value == KindOf(status)
  {
    match status
    case 400 => Some(BadRequest)
    case 401 => Some(Authentication)
    case 404 => Some(ResourceNotFound)
    case 422 => Some(TooManyRequests)
    case 500 => Some(ApiError)
    case _ => None
  }

  /** The fields every HTTP error carries. */
  datatype ErrorDetails = ErrorDetails(eventId: Json, httpStatus: int, errorCode: Json, message: Json, elapsed: string)

  /** What the error path relies on: the error body parses to a mapping with the three keys. */
  predicate WellFormedErrorBody(parsed: Option<Json>) {
    && parsed.Some?
    && parsed.value.Obj?
    && "eventId" in Keys(parsed.value.members)
    && "errorCode" in Keys(parsed.value.members)
    && "message" in Keys(parsed.value.members)
  }

  /** The fields of the error raised for `status`, read from the parsed error body. */
  function ErrorFrom(status: int, parsed: Option<Json>, elapsed: string): (e: ErrorDetails)
    requires WellFormedErrorBody(parsed)
    ensures Get(parsed.value.members, "eventId") == Some(e.eventId)
    ensures Get(parsed.value.members, "errorCode") == Some(e.errorCode)
    ensures Get(parsed.value.members, "message") == Some(e.message)
    ensures e.httpStatus == status
    ensures e.elapsed == elapsed
  {
    var body := parsed.value.members;
    ErrorDetails(
      Get(body, "eventId").value,
      status,
      Get(body, "errorCode").value,
      Get(body, "message").value,
      elapsed)
  }

  /** A successful response: status, headers, parsed body (`Null` when absent) and formatted elapsed milliseconds. */
  datatype HttpResponse = HttpResponse(statusCode: int, headers: Dict<string>, body: Json, elapsed: string)

  /**
    How one request ends. `ErrorNotCallable` is the type error the code as
    written raises for an error status missing from the dispatch table; the
    intended behaviour (`Complete`) never produces it.
   */
  datatype Outcome =
    | Ok(response: HttpResponse)
    | HttpErr(kind: ErrorKind, details: ErrorDetails)
    | TimeoutErr(elapsedSeconds: real)
    | ConnErr(message: string)
    | ErrorNotCallable(status: int)

  /**
    What the transport reports: a response with its status, headers and the
    result of parsing its body as JSON (`None` when that fails), a timeout, or
    another connection failure.
   */
  datatype Transport =
    | Responded(status: int, headers: Dict<string>, parsed: Option<Json>)
    | TimedOut
    | ConnectionFailed

  /** The statuses the transport's status check raises for: client and server errors. */
  predicate IsHttpError(status: int) {
    400 <= status < 600
  }

  const ConnectionErrorMessage: string := "Unexpected API connection error - please contact support@checkout.com"

  /**
    The outcome of a request from the transport's report. `elapsedMillis` is
    the formatted duration used by responses and HTTP errors; `elapsedSeconds`
    is the raw duration a timeout records. An HTTP error's body must parse to
    a mapping holding the three error keys.
   */
  function Complete(t: Transport, elapsedMillis: string, elapsedSeconds: real): (o: Outcome)
    requires t.Responded? && IsHttpError(t.status) ==> WellFormedErrorBody(t.parsed)
    ensures o.Ok? <==> t.Responded? && !IsHttpError(t.status)
    ensures o.HttpErr? <==> t.Responded? && IsHttpError(t.status)
    ensures o.TimeoutErr? <==> t.TimedOut?
    ensures o.ConnErr? <==> t.ConnectionFailed?
    ensures !o.ErrorNotCallable?
    ensures o.Ok? ==> o.response == HttpResponse(t.status, t.headers, t.parsed.GetOr(Null), elapsedMillis)
    ensures o.HttpErr? ==> o.kind == KindOf(t.status) && o.details == ErrorFrom(t.status, t.parsed, elapsedMillis)
    ensures o.TimeoutErr? ==> o.elapsedSeconds == elapsedSeconds
    ensures o.ConnErr? ==> o.message == ConnectionErrorMessage
  {
    match t
    case Responded(status, headers, parsed) =>
      if IsHttpError(status) then
        HttpErr(KindOf(status), ErrorFrom(status, parsed, elapsedMillis))
      else
        Ok(HttpResponse(status, headers, parsed.GetOr(Null), elapsedMillis))
    case TimedOut => TimeoutErr(elapsedSeconds)
    case ConnectionFailed => ConnErr(ConnectionErrorMessage)
  }

  /**
    The outcome as the code computes it: as `Complete`, except that an error
    status missing from the dispatch table ends in the failed call of the
    `ApiError` object rather than in an `ApiError`.
   */
  function CompleteAsWritten(t: Transport, elapsedMillis: string, elapsedSeconds: real): (o: Outcome)
    requires t.Responded? && IsHttpError(t.status) ==> WellFormedErrorBody(t.parsed)
    ensures o.ErrorNotCallable? <==> t.Responded? && IsHttpError(t.status) && DispatchAsWritten(t.status).None?
    ensures o.ErrorNotCallable? ==> o.status == t.status
    ensures o.HttpErr? ==> t.Responded? && DispatchAsWritten(t.status) == Some(o.kind)
    ensures !o.ErrorNotCallable? ==> o == Complete(t, elapsedMillis, elapsedSeconds)
  {
    match t
    case Responded(status, headers, parsed) =>
      if IsHttpError(status) then
        match DispatchAsWritten(status)
        case Some(kind) => HttpErr(kind, ErrorFrom(status, parsed, elapsedMillis))
        case None => ErrorNotCallable(status)
      else
        Ok(HttpResponse(status, headers, parsed.GetOr(Null), elapsedMillis))
    case TimedOut => TimeoutErr(elapsedSeconds)
    case ConnectionFailed => ConnErr(ConnectionErrorMessage)
  }

  /**
    The code as written and the intended outcome part ways exactly on the
    error statuses the dispatch table does not list.
   */
  lemma AsWrittenDiffers(t: Transport, elapsedMillis: string, elapsedSeconds: real)
    requires t.Responded? && IsHttpError(t.status) ==> WellFormedErrorBody(t.parsed)
    ensures CompleteAsWritten(t, elapsedMillis, elapsedSeconds) != Complete(t, elapsedMillis, elapsedSeconds)
      <==> t.Responded? && IsHttpError(t.status) && t.status !in {400, 401, 404, 422, 500}
  {
  }

  /**
    A 418 answer with a well-formed error body: the code as written fails on
    calling the `ApiError` object, where an `ApiError` carrying the body's
    fields is intended.
   */
  lemma UnlistedStatusFails(body: Json, elapsedMillis: string, elapsedSeconds: real)
    requires WellFormedErrorBody(Some(body))
    ensures CompleteAsWritten(Responded(418, [], Some(body)), elapsedMillis, elapsedSeconds) == ErrorNotCallable(418)
    ensures Complete(Responded(418, [], Some(body)), elapsedMillis, elapsedSeconds)
      == HttpErr(ApiError, ErrorFrom(418, Some(body), elapsedMillis))
  {
  }

  /** A success whose body does not parse is still a success, with no body. */
  lemma UnparsableSuccessBody(status: int, headers: Dict<string>, elapsedMillis: string, elapsedSeconds: real)
    requires !IsHttpError(status)
    ensures Complete(Responded(status, headers, None), elapsedMillis, elapsedSeconds)
      == Ok(HttpResponse(status, headers, Null, elapsedMillis))
  {
  }

  /**
    A 400 answer whose body holds `eventId`, `errorCode` and `message` raises
    a bad-request error carrying exactly those values and the status.
   */
  lemma BadRequestCarriesFields(eventId: string, errorCode: string, message: string, elapsedMillis: string, elapsedSeconds: real)
    ensures var body := Obj([("eventId", Str(eventId)), ("errorCode", Str(errorCode)), ("message", Str(message))]);
      && WellFormedErrorBody(Some(body))
      && Complete(Responded(400, [], Some(body)), elapsedMillis, elapsedSeconds)
        == HttpErr(BadRequest, ErrorDetails(Str(eventId), 400, Str(errorCode), Str(message), elapsedMillis))
  {
    var members := [("eventId", Str(eventId)), ("errorCode", Str(errorCode)), ("message", Str(message))];
    assert members[0].0 == "eventId" && members[1].0 == "errorCode" && members[2].0 == "message";
    assert Get(members, "message") == Some(Str(message));
    assert Get(members, "errorCode") == Some(Str(errorCode));
    assert Get(members, "eventId") == Some(Str(eventId));
    assert WellFormedErrorBody(Some(Obj(members)));
  }
}
