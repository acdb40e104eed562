/**
 * The session gate run before every matched request: session refresh through the
 * `setAll` cookie callback, then the routing decision on whether a user was resolved.
 */
module Middleware {
  import opened Wrappers
  import opened Session

  /** The parts of `request.nextUrl` a redirect clone keeps or changes. */
  datatype Url = Url(protocol: string, host: string, pathname: string, search: string, hash: string)

  /** Cookie attributes (`options`), passed through untouched. */
  type CookieOptions = map<string, string>

  datatype CookieToSet = CookieToSet(name: string, value: string, options: CookieOptions)

  datatype SetCookie = SetCookie(value: string, options: CookieOptions)

  datatype Request = Request(url: Url, cookies: map<string, string>)

  /**
   * `Next` is `NextResponse.next({request})`: it forwards the request cookies as they were
   * when it was built and carries its own Set-Cookie jar. `Redirect` is a fresh
   * `NextResponse.redirect(url)` with no cookies at all.
   */
  datatype Response = Next(forwarded: map<string, string>, setCookies: map<string, SetCookie>) | Redirect(location: Url)

  /** The middleware's mutable pair: the request's cookie jar and `supabaseResponse`. */
  datatype Gate = Gate(requestCookies: map<string, string>, response: Response)

  /** The names the batch writes. */
  function NamesOf(batch: seq<CookieToSet>): (r: set<string>)
    ensures forall i :: 0 <= i < |batch| ==> batch[i].name in r
    decreases |batch|
  {
    if batch == [] then {} else NamesOf(batch[..|batch| - 1]) + {batch[|batch| - 1].name}
  }

  /** Entry `i` is the last one in the batch with its name, so its write is the one that stays. */
  predicate LastWrite(batch: seq<CookieToSet>, i: int) {
    0 <= i < |batch| && forall j :: i < j < |batch| ==> batch[j].name != batch[i].name
  }

  lemma LastWriteOfInit(batch: seq<CookieToSet>, i: int)
    requires batch != [] && LastWrite(batch, i)
    ensures i == |batch| - 1 || (LastWrite(batch[..|batch| - 1], i) && batch[i].name != batch[|batch| - 1].name)
  {
  }

  /** `cookiesToSet.forEach(({name, value}) => request.cookies.set(name, value))`. */
  function SetOnRequest(jar: map<string, string>, batch: seq<CookieToSet>): (r: map<string, string>)
    ensures r.Keys == jar.Keys + NamesOf(batch)
    ensures forall i :: LastWrite(batch, i) ==> r[batch[i].name] == batch[i].value
    ensures forall n :: n in jar && n !in NamesOf(batch) ==> r[n] == jar[n]
    decreases |batch|
  {
    if batch == [] then jar
    else
      var init := batch[..|batch| - 1];
      var last := batch[|batch| - 1];
      forall i | LastWrite(batch, i) {
        LastWriteOfInit(batch, i);
      }
      SetOnRequest(jar, init)[last.name := last.value]
  }

  /** `cookiesToSet.forEach(({name, value, options}) => response.cookies.set(name, value, options))` on an empty jar. */
  function SetOnResponse(batch: seq<CookieToSet>): (r: map<string, SetCookie>)
    ensures r.Keys == NamesOf(batch)
    ensures forall i :: LastWrite(batch, i) ==> r[batch[i].name] == SetCookie(batch[i].value, batch[i].options)
    decreases |batch|
  {
    if batch == [] then map[]
    else
      var init := batch[..|batch| - 1];
      var last := batch[|batch| - 1];
      forall i | LastWrite(batch, i) {
        LastWriteOfInit(batch, i);
      }
      SetOnResponse(init)[last.name := SetCookie(last.value, last.options)]
  }

  /**
   * The `setAll` callback: write the batch into the request, then rebuild the pass-through
   * response from that request and write the batch into the new response's jar.
   */
  function SetAll(g: Gate, batch: seq<CookieToSet>): (r: Gate)
    ensures r.response == Next(r.requestCookies, SetOnResponse(batch))
    ensures r.requestCookies.Keys == g.requestCookies.Keys + NamesOf(batch)
    ensures forall i :: LastWrite(batch, i) ==> r.requestCookies[batch[i].name] == batch[i].value
    ensures forall i :: LastWrite(batch, i) ==> r.response.setCookies[batch[i].name] == SetCookie(batch[i].value, batch[i].options)
    ensures r.response.setCookies.Keys == NamesOf(batch)
    ensures forall n :: n in g.requestCookies && n !in NamesOf(batch) ==> r.requestCookies[n] == g.requestCookies[n]
  {
    var cookies := SetOnRequest(g.requestCookies, batch);
    Gate(cookies, Next(cookies, SetOnResponse(batch)))
  }

  /** Before the auth client runs: the request's own cookies and a pass-through response. */
  function Begin(req: Request): (r: Gate)
    ensures r.requestCookies == req.cookies && r.response == Next(req.cookies, map[])
  {
    Gate(req.cookies, Next(req.cookies, map[]))
  }

  /** The `setAll` calls the auth client makes while refreshing the session, in order. */
  function Refresh(g: Gate, batches: seq<seq<CookieToSet>>): Gate
    decreases |batches|
  {
    if batches == [] then g else Refresh(SetAll(g, batches[0]), batches[1..])
  }

  /** The response is rebuilt by every `setAll`: it carries the last batch only, while the request keeps every batch. */
  lemma RefreshKeepsLastBatchOnly(req: Request, batches: seq<seq<CookieToSet>>)
    ensures var g := Refresh(Begin(req), batches);
      batches != [] ==> g.response == Next(g.requestCookies, SetOnResponse(batches[|batches| - 1]))
  {
    if batches != [] {
      RefreshLast(Begin(req), batches);
    }
  }

  lemma {:induction false} RefreshLast(g: Gate, batches: seq<seq<CookieToSet>>)
    requires batches != []
    ensures Refresh(g, batches).response == Next(Refresh(g, batches).requestCookies, SetOnResponse(batches[|batches| - 1]))
    decreases |batches|
  {
    if |batches| > 1 {
      RefreshLast(SetAll(g, batches[0]), batches[1..]);
    }
  }

  const ProtectedPrefix: string := "/dashboard"
  const LoginPath: string := "/login"
  const DashboardPath: string := "/dashboard"

  /** The routing decision: the pathname to redirect to, or `None` to pass the request through. */
  function Route(pathname: string, signedIn: bool): (r: Option<string>)
    ensures ProtectedPrefix <= pathname && !signedIn <==> r == Some(LoginPath)
    ensures pathname == LoginPath && signedIn <==> r == Some(DashboardPath)
    ensures r.None? <==> !(ProtectedPrefix <= pathname && !signedIn) && !(pathname == LoginPath && signedIn)
  {
    if ProtectedPrefix <= pathname && !signedIn then Some(LoginPath)
    else if pathname == LoginPath && signedIn then Some(DashboardPath)
    else None
  }

  /** A redirect's target is let through on the follow-up request by the same caller: the gate never loops. */
  lemma RouteNeverLoops(pathname: string, signedIn: bool)
    requires Route(pathname, signedIn).Some?
    ensures Route(Route(pathname, signedIn).value, signedIn).None?
  {
  }

  /** Any path merely starting with "/dashboard" is guarded; only the exact "/login" is bounced. */
  lemma RoutePrefixExamples()
    ensures Route("/dashboardX", false) == Some(LoginPath)
    ensures Route("/login/", true).None?
    ensures Route("/", false).None? && Route("/", true).None?
  {
    assert ProtectedPrefix <= "/dashboardX";
    assert !(ProtectedPrefix <= "/login/");
    assert !(ProtectedPrefix <= "/");
  }

  /**
   * The whole middleware: refresh the session (the `setAll` calls it made are `batches`),
   * then either redirect a clone of the URL with a new pathname or return the pass-through response.
   */
  function Handle(req: Request, batches: seq<seq<CookieToSet>>, auth: GetUserResult): (r: Response)
    ensures r.Redirect? <==> Route(req.url.pathname, auth.user.Some?).Some?
    ensures r.Redirect? ==> r.location.pathname == Route(req.url.pathname, auth.user.Some?).value
    ensures r.Redirect? ==> r.location.(pathname := req.url.pathname) == req.url
    ensures r.Next? && batches == [] ==> r == Next(req.cookies, map[])
    ensures r.Next? && batches != [] ==> r.setCookies == SetOnResponse(batches[|batches| - 1])
    ensures r.Next? ==> r.forwarded == Refresh(Begin(req), batches).requestCookies
  {
    var g := Refresh(Begin(req), batches);
    RefreshKeepsLastBatchOnly(req, batches);
    match Route(req.url.pathname, auth.user.Some?)
    case Some(p) => Redirect(req.url.(pathname := p))
    case None => g.response
  }

  /** A failed `getUser` without a user is unauthenticated: a guarded path goes to /login. */
  lemma FailsClosed(req: Request, batches: seq<seq<CookieToSet>>, error: string)
    requires ProtectedPrefix <= req.url.pathname
    ensures Handle(req, batches, GetUserResult(None, Some(error))) == Redirect(req.url.(pathname := LoginPath))
  {
  }

  /** The `error` of `getUser` is never consulted. */
  lemma ErrorNotRead(req: Request, batches: seq<seq<CookieToSet>>, user: Option<User>, e1: Option<string>, e2: Option<string>)
    ensures Handle(req, batches, GetUserResult(user, e1)) == Handle(req, batches, GetUserResult(user, e2))
  {
  }

  /** A redirect is built afresh: cookies the refresh wrote through `setAll` do not reach it. */
  lemma RedirectIgnoresRefreshedCookies(req: Request, batches: seq<seq<CookieToSet>>, auth: GetUserResult)
    requires Route(req.url.pathname, auth.user.Some?).Some?
    ensures Handle(req, batches, auth) == Handle(req, [], auth)
  {
  }
}
