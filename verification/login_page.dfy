/** The login page: the OAuth return address and the failure banner. */
module LoginPage {
  import opened Wrappers
  import AuthCallback
  import Middleware

  /**
   * `NEXT_PUBLIC_SITE_URL || (typeof window !== "undefined" ? window.location.origin : "")`.
   * `windowOrigin` is `None` when there is no `window`.
   */
  function SiteUrl(envSiteUrl: Option<string>, windowOrigin: Option<string>): (r: string)
    ensures Truthy(envSiteUrl) ==> r == envSiteUrl.value
    ensures !Truthy(envSiteUrl) && windowOrigin.Some? ==> r == windowOrigin.value
    ensures !Truthy(envSiteUrl) && windowOrigin.None? ==> r == ""
  {
    if Truthy(envSiteUrl) then envSiteUrl.value
    else if windowOrigin.Some? then windowOrigin.value
    else ""
  }

  /** The `redirectTo` handed to the OAuth sign-in: the site URL followed by the callback route. */
  function RedirectTo(envSiteUrl: Option<string>, windowOrigin: Option<string>): (r: string)
    ensures |r| >= |AuthCallback.CallbackPath| && r[|r| - |AuthCallback.CallbackPath|..] == AuthCallback.CallbackPath
    ensures r[..|r| - |AuthCallback.CallbackPath|] == SiteUrl(envSiteUrl, windowOrigin)
  {
    var r := SiteUrl(envSiteUrl, windowOrigin) + AuthCallback.CallbackPath;
    assert r[..|r| - |AuthCallback.CallbackPath|] == SiteUrl(envSiteUrl, windowOrigin);
    r
  }

  /** The banner shows when the `error` query parameter is present and non-empty. */
  function ShowsErrorBanner(error: Option<string>): (r: bool)
    ensures r <==> error.Some? && error.value != ""
  {
    Truthy(error)
  }

  /**
   * The callback's failure redirect is this page with the single query parameter
   * `error=auth_failed`, and that value shows the banner.
   */
  lemma FailedCallbackShowsBanner()
    ensures AuthCallback.FailureTarget == Middleware.LoginPath + "?error=" + AuthCallback.FailureError
    ensures Middleware.Route(Middleware.LoginPath, false).None?
    ensures ShowsErrorBanner(Some(AuthCallback.FailureError))
  {
  }

  /** With no site URL configured and no `window`, the return address is a bare path. */
  lemma NoSiteUrlNoWindowUsesBarePath()
    ensures RedirectTo(Some(""), None) == AuthCallback.CallbackPath
  {
  }
}
