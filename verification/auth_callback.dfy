/**
 * The OAuth callback route `GET /api/auth/callback?code=&next=`: one code-for-session
 * exchange, then a redirect whose target depends on the outcome, the environment and
 * the proxy's forwarded host.
 */
module AuthCallback {
  import opened Wrappers

  const CallbackPath: string := "/api/auth/callback"
  const DefaultNext: string := "/dashboard"
  const FailureError: string := "auth_failed"
  const FailureTarget: string := "/login?error=" + FailureError

  /**
   * What the handler reads from the request: the URL's origin, its `code` and `next`
   * query parameters (`None` when absent) and the `x-forwarded-host` header.
   */
  datatype CallbackRequest = CallbackRequest(origin: string, code: Option<string>, next: Option<string>, forwardedHost: Option<string>)

  /** The redirect location, and the codes handed to `exchangeCodeForSession` in call order. */
  datatype Outcome = Outcome(location: string, exchanged: seq<string>)

  /** `searchParams.get("next") ?? "/dashboard"`: only an absent parameter falls back. */
  function Destination(req: CallbackRequest): (r: string)
    ensures req.next.None? ==> r == DefaultNext
    ensures req.next.Some? ==> r == req.next.value
  {
    req.next.OrElse(DefaultNext)
  }

  /**
   * The handler. `exchange` is the auth collaborator's answer for a code (`Some` error
   * message on failure); `isDevelopment` is `NODE_ENV === "development"`.
   */
  function Callback(req: CallbackRequest, isDevelopment: bool, exchange: string -> Option<string>): (r: Outcome)
    ensures |r.exchanged| <= 1
    ensures r.exchanged == [] <==> !Truthy(req.code)
    ensures r.exchanged != [] ==> r.exchanged == [req.code.value]
    ensures !Truthy(req.code) ==> r.location == req.origin + FailureTarget
    ensures Truthy(req.code) && exchange(req.code.value).Some? ==> r.location == req.origin + FailureTarget
    ensures Truthy(req.code) && exchange(req.code.value).None? ==>
      r.location == (if !isDevelopment && Truthy(req.forwardedHost) then "https://" + req.forwardedHost.value else req.origin) + Destination(req)
  {
    if Truthy(req.code) then
      var code := req.code.value;
      if exchange(code).None? then
        var next := Destination(req);
        if isDevelopment then Outcome(req.origin + next, [code])
        else if Truthy(req.forwardedHost) then Outcome("https://" + req.forwardedHost.value + next, [code])
        else Outcome(req.origin + next, [code])
      else Outcome(req.origin + FailureTarget, [code])
    else Outcome(req.origin + FailureTarget, [])
  }

  /** A request whose exchange does not succeed is sent to the same failure page whatever its host header and `next`. */
  lemma FailureIgnoresHostAndNext(req: CallbackRequest, isDevelopment: bool, exchange: string -> Option<string>, host: Option<string>, next: Option<string>)
    requires !Truthy(req.code) || exchange(req.code.value).Some?
    ensures Callback(req, isDevelopment, exchange).location == Callback(req.(forwardedHost := host, next := next), isDevelopment, exchange).location
  {
  }

  /** In development the forwarded host never matters. */
  lemma DevelopmentIgnoresHost(req: CallbackRequest, exchange: string -> Option<string>, host: Option<string>)
    ensures Callback(req, true, exchange) == Callback(req.(forwardedHost := host), true, exchange)
  {
  }

  /** An empty `next` is used as given: a successful sign-in lands on the bare origin. */
  lemma EmptyNextIsKept(origin: string, code: string, exchange: string -> Option<string>)
    requires code != "" && exchange(code).None?
    ensures Callback(CallbackRequest(origin, Some(code), Some(""), None), false, exchange).location == origin
  {
    assert origin + "" == origin;
  }

  /** An empty forwarded host counts as missing outside development. */
  lemma EmptyHostFallsBackToOrigin(origin: string, code: string, exchange: string -> Option<string>)
    requires code != "" && exchange(code).None?
    ensures Callback(CallbackRequest(origin, Some(code), None, Some("")), false, exchange).location == origin + DefaultNext
  {
  }
}
