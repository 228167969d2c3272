/** The interceptors of the client's axios instance (`api/apiClient.ts`).

    The request interceptor attaches the session token when the config has
    headers. The response interceptor passes successes through; on a 401 it
    logs the user out and redirects to the login page, once per request
    object, using the request's `_retry` flag; every error is rejected again.

    The store's `logout` dispatches are counted and `window.location.href` is
    a field of the session; the auth slice itself is not part of this model. */
module ApiClient {
  import opened JsCore
  import opened Api

  const LoginPath := "/login"

  /** Headers after the request interceptor: the bearer header is added only
      when the token is truthy and the config has headers. */
  function ClientHeaders(headers: Option<Headers>, token: Option<string>): (r: Option<Headers>)
    ensures r.Some? <==> headers.Some?
    ensures Truthy(token) && headers.Some? ==>
      "Authorization" in r.value && r.value["Authorization"] == BearerValue(token.value)
    ensures !(Truthy(token) && headers.Some?) ==> r == headers
  {
    if Truthy(token) && headers.Some? then Some(WithBearer(headers.value, token)) else headers
  }

  /** Where headers exist the client's interceptor and the one of
      `setupInterceptors` agree; where they do not, the client's skips the
      header while the other throws on a truthy token. */
  lemma ClientAgreesWithSetupInterceptor(headers: Option<Headers>, token: Option<string>)
    ensures headers.Some? ==> InterceptRequest(headers, token) == Proceed(ClientHeaders(headers, token))
    ensures headers.None? ==> ClientHeaders(headers, token) == None
    ensures headers.None? && Truthy(token) ==> InterceptRequest(headers, token) == Rejected
  {
  }

  // ---------------------------------------------------------------------------
  // The response interceptor

  /** The session state the error handler changes: how many times `logout`
      was dispatched and the window's location. */
  datatype Session = Session(logouts: nat, location: string)

  /** What the returned promise rejects with: the original error, or the
      TypeError thrown when the error has no response to read the status of. */
  datatype Rejection = OriginalError | ThrownTypeError

  /** The state after handling one error: the session, the request's `_retry`
      flag, and the rejection. */
  datatype Handled = Handled(session: Session, retry: bool, rejection: Rejection)

  /** The error handler on an error whose response status is `status` (None
      when there is no response), for a request whose `_retry` is `retry`. */
  function OnError(s: Session, retry: bool, status: Option<int>): (r: Handled)
    ensures r.rejection == (if status.None? then ThrownTypeError else OriginalError)
    ensures status == Some(401) && !retry ==>
      r == Handled(Session(s.logouts + 1, LoginPath), true, OriginalError)
    ensures !(status == Some(401) && !retry) ==> r.session == s && r.retry == retry
  {
    if status.None? then Handled(s, retry, ThrownTypeError)
    else if status.value == 401 && !retry then Handled(Session(s.logouts + 1, LoginPath), true, OriginalError)
    else Handled(s, retry, OriginalError)
  }

  /** What a request can settle with before the response interceptor. */
  datatype Reply<R> = Success(response: R) | Failure(status: Option<int>)

  /** What the interceptor's promise settles with. */
  datatype Settled<R> = Resolved(response: R) | Rejects(rejection: Rejection)

  /** Both response handlers: successes pass through with nothing changed,
      failures go through `OnError`. */
  function Settle<R>(s: Session, retry: bool, reply: Reply<R>): (r: (Settled<R>, Session, bool))
    ensures reply.Success? ==> r == (Resolved(reply.response), s, retry)
    ensures reply.Failure? ==> r.0.Rejects?
  {
    match reply
    case Success(response) => (Resolved(response), s, retry)
    case Failure(status) =>
      var h := OnError(s, retry, status);
      (Rejects(h.rejection), h.session, h.retry)
  }

  /** The errors a single request object meets in turn, starting from the
      session `s` and the flag `retry`. */
  function Replay(s: Session, retry: bool, statuses: seq<Option<int>>): Handled
    decreases |statuses|
  {
    if statuses == [] then Handled(s, retry, OriginalError)
    else
      var h := OnError(s, retry, statuses[0]);
      Replay(h.session, h.retry, statuses[1..])
  }

  /** However many errors one request object meets, `logout` is dispatched at
      most once for it, and never when its flag was already set; the flag,
      once set, stays set. */
  lemma {:induction false} LogoutAtMostOncePerRequest(s: Session, retry: bool, statuses: seq<Option<int>>)
    ensures var r := Replay(s, retry, statuses);
      && s.logouts <= r.session.logouts <= s.logouts + (if retry then 0 else 1)
      && (retry ==> r.retry && r.session == s)
    decreases |statuses|
  {
    if statuses != [] {
      var h := OnError(s, retry, statuses[0]);
      LogoutAtMostOncePerRequest(h.session, h.retry, statuses[1..]);
    }
  }

  /** Errors other than 401 leave a fresh request and the session alone, and
      the first 401 it meets logs out and redirects to the login page. */
  lemma {:induction false} FirstUnauthorizedLogsOut(s: Session, statuses: seq<Option<int>>)
    requires forall k :: 0 <= k < |statuses| ==> statuses[k] != Some(401)
    ensures Replay(s, false, statuses).session == s && !Replay(s, false, statuses).retry
    ensures var r := Replay(s, false, statuses + [Some(401)]);
      r.session == Session(s.logouts + 1, LoginPath) && r.retry
    decreases |statuses|
  {
    if statuses == [] {
      assert statuses + [Some(401)] == [Some(401)];
      assert [Some(401)][1..] == [];
    } else {
      assert (statuses + [Some(401)])[1..] == statuses[1..] + [Some(401)];
      FirstUnauthorizedLogsOut(s, statuses[1..]);
    }
  }

  /** The session of the client: `logout` dispatches and the location. */
  class ClientSession {
    var logouts: nat
    var location: string

    function View(): Session
      reads this
    {
      Session(logouts, location)
    }

    constructor (location: string)
      ensures View() == Session(0, location)
    {
      logouts := 0;
      this.location := location;
    }

    /** The request interceptor on `config`. */
    method OnRequest(config: RequestConfig, token: Option<string>)
      modifies config
      ensures config.headers == ClientHeaders(old(config.headers), token)
      ensures config.retry == old(config.retry)
    {
      if Truthy(token) && config.headers.Some? {
        config.headers := Some(config.headers.value["Authorization" := BearerValue(token.value)]);
      }
    }

    /** The response interceptor's error handler for an error on `request`. */
    method OnResponseError(request: RequestConfig, status: Option<int>) returns (rejection: Rejection)
      modifies this, request
      ensures var h := OnError(old(View()), old(request.retry), status);
        View() == h.session && request.retry == h.retry && rejection == h.rejection
      ensures request.headers == old(request.headers)
    {
      if status.None? {
        return ThrownTypeError;
      }
      if status.value == 401 && !request.retry {
        request.retry := true;
        logouts := logouts + 1;
        location := LoginPath;
      }
      return OriginalError;
    }
  }
}
