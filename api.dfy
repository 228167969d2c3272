/** The HTTP helpers of `utils/api.ts`: the classification of a failed axios
    request into the client's error record, the request configs the `api`
    helpers build, and the request interceptor that attaches the session
    token.

    The `logout` action the 401 branch dispatches into the store is reported
    as a flag of the result; the store itself is not part of this module. */
module Api {
  import opened JsCore

  // ---------------------------------------------------------------------------
  // Error classification

  /** The members of an error body the classification reads: `message` and
      `code` (None when absent). A body that is not an object has neither. */
  datatype Body = Body(message: Option<string>, code: Option<string>)

  /** What a failed axios request carries: a response with a status and a body
      (None when the body is `null` or `undefined`), a request that got no
      response, or a failure while the request was being set up. */
  datatype AxiosError =
    | ResponseError(status: int, data: Option<Body>)
    | NoResponse
    | SetupError

  /** The client's error record. `statusCode` is None for errors without a
      response. */
  datatype ApiError = ApiError(message: string, code: string, statusCode: Option<int>)

  /** The result of `handleApiError`: the record and whether `logout` was
      dispatched, or the TypeError thrown when a branch reads a member of a
      missing body. */
  datatype Handling = Mapped(error: ApiError, loggedOut: bool) | TypeError

  const SessionExpired := "Сеанс закінчився. Будь ласка, увійдіть знову."
  const Forbidden := "У вас немає прав для виконання цієї дії."
  const NotFound := "Ресурс не знайдено."
  const ValidationFailed := "Помилка валідації."
  const TooManyRequests := "Занадто багато запитів. Спробуйте пізніше."
  const ServerFailure := "Серверна помилка. Спробуйте пізніше."
  const GenericFailure := "Сталася помилка."
  const NoServerResponse := "Немає відповіді від сервера. Перевірте підключення до Інтернету."
  const Unexpected := "Сталася непередбачена помилка."

  /** The statuses whose record does not depend on the body. */
  const FixedStatuses: set<int> := {401, 403, 404, 429, 500}

  /** `handleApiError`. */
  function HandleApiError(e: AxiosError): (r: Handling)
    ensures (r.Mapped? && r.loggedOut) <==> e.ResponseError? && e.status == 401
    ensures r.TypeError? <==> e.ResponseError? && e.data.None? && e.status !in FixedStatuses
    ensures r.Mapped? ==> (r.error.statusCode.Some? <==> e.ResponseError?)
    ensures r.Mapped? && e.ResponseError? ==> r.error.statusCode == Some(e.status)
  {
    match e
    case ResponseError(status, data) =>
      if status == 401 then Mapped(ApiError(SessionExpired, "UNAUTHORIZED", Some(401)), true)
      else if status == 403 then Mapped(ApiError(Forbidden, "FORBIDDEN", Some(403)), false)
      else if status == 404 then Mapped(ApiError(NotFound, "NOT_FOUND", Some(404)), false)
      else if status == 422 then
        if data.None? then TypeError
        else Mapped(ApiError(OrElse(data.value.message, ValidationFailed), "VALIDATION_ERROR", Some(422)), false)
      else if status == 429 then Mapped(ApiError(TooManyRequests, "TOO_MANY_REQUESTS", Some(429)), false)
      else if status == 500 then Mapped(ApiError(ServerFailure, "SERVER_ERROR", Some(500)), false)
      else if data.None? then TypeError
      else
        Mapped(ApiError(OrElse(data.value.message, GenericFailure),
                        OrElse(data.value.code, "UNKNOWN_ERROR"), Some(status)), false)
    case NoResponse => Mapped(ApiError(NoServerResponse, "NETWORK_ERROR", None), false)
    case SetupError => Mapped(ApiError(Unexpected, "REQUEST_SETUP_ERROR", None), false)
  }

  /** The fixed statuses give a fixed code and message whatever the body. */
  lemma FixedStatusRecords(data: Option<Body>)
    ensures HandleApiError(ResponseError(401, data)) == Mapped(ApiError(SessionExpired, "UNAUTHORIZED", Some(401)), true)
    ensures HandleApiError(ResponseError(403, data)) == Mapped(ApiError(Forbidden, "FORBIDDEN", Some(403)), false)
    ensures HandleApiError(ResponseError(404, data)) == Mapped(ApiError(NotFound, "NOT_FOUND", Some(404)), false)
    ensures HandleApiError(ResponseError(429, data)) == Mapped(ApiError(TooManyRequests, "TOO_MANY_REQUESTS", Some(429)), false)
    ensures HandleApiError(ResponseError(500, data)) == Mapped(ApiError(ServerFailure, "SERVER_ERROR", Some(500)), false)
  {
  }

  /** 422 keeps the server's message when it has a non-empty one. */
  lemma ValidationUsesServerMessage(b: Body)
    ensures var r := HandleApiError(ResponseError(422, Some(b)));
      && r.Mapped? && !r.loggedOut && r.error.code == "VALIDATION_ERROR"
      && (Truthy(b.message) ==> r.error.message == b.message.value)
      && (!Truthy(b.message) ==> r.error.message == ValidationFailed)
  {
  }

  /** Every other status, 502 and 503 among them, echoes the status and takes
      the server's code and message when present. In particular the code is
      `SERVER_ERROR` for such a status only when the server itself says so. */
  lemma OtherStatusesUseTheBody(status: int, b: Body)
    requires status !in FixedStatuses && status != 422
    ensures var r := HandleApiError(ResponseError(status, Some(b)));
      && r == Mapped(ApiError(OrElse(b.message, GenericFailure), OrElse(b.code, "UNKNOWN_ERROR"), Some(status)), false)
      && (r.error.code == "SERVER_ERROR" <==> b.code == Some("SERVER_ERROR"))
  {
  }

  /** Without a response there is no status code. */
  lemma NoResponseRecords()
    ensures HandleApiError(NoResponse) == Mapped(ApiError(NoServerResponse, "NETWORK_ERROR", None), false)
    ensures HandleApiError(SetupError) == Mapped(ApiError(Unexpected, "REQUEST_SETUP_ERROR", None), false)
  {
  }

  // ---------------------------------------------------------------------------
  // The `api` helpers' request configs

  datatype Method = Get | Post | Put | Patch | Delete

  function MethodName(m: Method): string {
    match m
    case Get => "GET"
    case Post => "POST"
    case Put => "PUT"
    case Patch => "PATCH"
    case Delete => "DELETE"
  }

  /** The helpers that take a request body. */
  predicate SendsBody(m: Method) {
    m.Post? || m.Put? || m.Patch?
  }

  /** A config property's value: `undefined`, a text, or some other object
      (told apart by a tag). */
  datatype Value = Undefined | Text(text: string) | Opaque(tag: int)

  /** A request config, as the object's own properties. */
  type Config = map<string, Value>

  /** `{ ...config, method, url }`, with `data` after `url` for the helpers
      that take a body. A missing caller config is the empty map. */
  function HelperConfig(m: Method, url: string, data: Value, config: Config): (r: Config)
    ensures "method" in r && r["method"] == Text(MethodName(m))
    ensures "url" in r && r["url"] == Text(url)
    ensures SendsBody(m) ==> "data" in r && r["data"] == data
    ensures forall k :: k != "method" && k != "url" && (k != "data" || !SendsBody(m)) ==>
      (k in r <==> k in config) && (k in r ==> r[k] == config[k])
  {
    var base := config["method" := Text(MethodName(m))]["url" := Text(url)];
    if SendsBody(m) then base["data" := data] else base
  }

  /** The caller's config cannot redirect a request or change its method; a
      body helper sends its own argument even when it is `undefined`. */
  lemma HelperOverridesCaller(m: Method, url: string, data: Value, config: Config)
    requires "method" in config && "url" in config
    ensures var r := HelperConfig(m, url, data, config);
      && r["method"] == Text(MethodName(m)) && r["url"] == Text(url)
      && (config["method"] != Text(MethodName(m)) ==> r["method"] != config["method"])
      && (SendsBody(m) && "data" in config && data == Undefined ==> r["data"] == Undefined)
  {
  }

  // ---------------------------------------------------------------------------
  // The request interceptor

  type Headers = map<string, string>

  function BearerValue(token: string): string {
    "Bearer " + token
  }

  /** Headers with `Authorization` set to the bearer value when the token is
      truthy; every other header is kept. */
  function WithBearer(h: Headers, token: Option<string>): (r: Headers)
    ensures Truthy(token) ==> "Authorization" in r && r["Authorization"] == BearerValue(token.value)
    ensures !Truthy(token) ==> r == h
    ensures forall k :: k != "Authorization" ==> (k in r <==> k in h) && (k in r ==> r[k] == h[k])
  {
    if Truthy(token) then h["Authorization" := BearerValue(token.value)] else h
  }

  /** The interceptor of `setupInterceptors` on a config's headers (None when
      the config has none): it assigns the header unconditionally on a truthy
      token, so a config without headers makes it throw and the request is
      rejected. */
  datatype Intercepted = Proceed(headers: Option<Headers>) | Rejected

  function InterceptRequest(headers: Option<Headers>, token: Option<string>): (r: Intercepted)
    ensures r.Rejected? <==> Truthy(token) && headers.None?
    ensures !Truthy(token) ==> r == Proceed(headers)
  {
    if !Truthy(token) then Proceed(headers)
    else if headers.None? then Rejected
    else Proceed(Some(WithBearer(headers.value, token)))
  }

  /** The interceptor sets the bearer header exactly when the token is truthy,
      and a second pass with the same token changes nothing more. */
  lemma InterceptorSetsBearerIff(h: Headers, token: Option<string>)
    requires "Authorization" !in h
    ensures var r := InterceptRequest(Some(h), token);
      && r.Proceed? && r.headers.Some?
      && ("Authorization" in r.headers.value <==> Truthy(token))
      && (Truthy(token) ==> r.headers.value["Authorization"] == "Bearer " + token.value)
      && InterceptRequest(r.headers, token) == r
  {
    if Truthy(token) {
      var h1 := WithBearer(h, token);
      assert WithBearer(h1, token) == h1;
    }
  }

  /** An axios request config, mutated in place by the interceptors: its
      headers (None when absent) and the `_retry` flag the client's response
      interceptor puts on it. */
  class RequestConfig {
    var headers: Option<Headers>
    var retry: bool

    constructor (headers: Option<Headers>)
      ensures this.headers == headers && !retry
    {
      this.headers := headers;
      retry := false;
    }

    /** The request handler of `setupInterceptors`; `ok` is false when it
        throws. */
    method Intercept(token: Option<string>) returns (ok: bool)
      modifies this
      ensures ok <==> InterceptRequest(old(headers), token).Proceed?
      ensures ok ==> headers == InterceptRequest(old(headers), token).headers
      ensures !ok ==> headers == old(headers)
      ensures retry == old(retry)
    {
      if Truthy(token) {
        if headers.None? {
          return false;
        }
        headers := Some(headers.value["Authorization" := BearerValue(token.value)]);
      }
      return true;
    }
  }
}
