/** The root page: it never renders, it only redirects on whether a user is signed in. */
module HomePage {
  import opened Wrappers
  import opened Session
  import Middleware

  /** The path `Home` redirects to. */
  function Home(auth: GetUserResult): (path: string)
    ensures auth.user.Some? <==> path == Middleware.DashboardPath
    ensures auth.user.None? <==> path == Middleware.LoginPath
  {
    if auth.user.Some? then Middleware.DashboardPath else Middleware.LoginPath
  }

  /** The root's redirect is let through by the gate for the same caller: no second redirect follows. */
  lemma HomeTargetPassesGate(auth: GetUserResult)
    ensures Middleware.Route(Home(auth), auth.user.Some?).None?
  {
  }

  /** A `getUser` error without a user sends the caller to the login page, and with a user it is ignored. */
  lemma HomeIgnoresError(user: Option<User>, e1: Option<string>, e2: Option<string>)
    ensures Home(GetUserResult(user, e1)) == Home(GetUserResult(user, e2))
  {
  }
}
