/**
 * The dashboard server page: its own auth check, the snapshot fetch with its fallback,
 * the header count line, and the props handed to the form and the live list.
 */
module DashboardPage {
  import opened Wrappers
  import opened Text
  import opened Bookmarks
  import opened Session
  import Middleware

  /** The select issued for the snapshot: rows with `user_id == userId`, ordered by `createdAt`. */
  datatype Query = Query(userId: string, orderBy: string, ascending: bool)

  /** The store's answer to the query: `data` (possibly null) and `error`. */
  datatype FetchResult = FetchResult(data: Option<seq<Bookmark>>, error: Option<string>)

  /**
   * The page outcome. `Render` records the query it issued, the line it logged, the header
   * text, the user and the props of `Navbar`, `BookmarkForm` and `BookmarkList`.
   */
  datatype Page =
    | RedirectTo(path: string)
    | Render(query: Query, logged: Option<string>, header: string, user: User,
             formUserId: string, listUserId: string, snapshot: seq<Bookmark>)

  const EmptyHeader: string := "No bookmarks yet \U{2014} add your first one below"
  const FetchErrorLog: string := "Error fetching bookmarks:"

  /** The header line for a snapshot of `n` bookmarks. */
  function HeaderText(n: nat): (r: string)
    ensures n == 0 ==> r == EmptyHeader
    ensures n >= 1 ==> r == Decimal(n) + " " + BookmarkNoun(n) + " saved"
    ensures LeadingNumber(r) == n
  {
    if n == 0 then
      assert LeadingDigits(EmptyHeader) == [] by { assert !IsDigit(EmptyHeader[0]); }
      EmptyHeader
    else
      var tail := " " + BookmarkNoun(n) + " saved";
      LeadingNumberOfRendered(n, tail);
      assert Decimal(n) + " " + BookmarkNoun(n) + " saved" == Decimal(n) + tail;
      Decimal(n) + tail
  }

  /** Different counts give different header lines. */
  lemma HeaderTextInjective(a: nat, b: nat)
    requires HeaderText(a) == HeaderText(b)
    ensures a == b
  {
  }

  /**
   * `DashboardPage`: an auth error or a missing user redirects to /login before anything is
   * fetched; otherwise the snapshot is the fetched rows, or empty when the store returned none,
   * and a fetch error is only logged.
   */
  function Dashboard(auth: GetUserResult, fetched: FetchResult): (r: Page)
    ensures r.RedirectTo? <==> auth.error.Some? || auth.user.None?
    ensures r.RedirectTo? ==> r.path == Middleware.LoginPath
    ensures r.Render? ==> r.user == auth.user.value && r.query == Query(r.user.id, "created_at", false)
    ensures r.Render? ==> r.formUserId == r.user.id && r.listUserId == r.user.id
    ensures r.Render? ==> (fetched.data.Some? ==> r.snapshot == fetched.data.value) && (fetched.data.None? ==> r.snapshot == [])
    ensures r.Render? ==> (fetched.error.Some? <==> r.logged.Some?)
    ensures r.Render? ==> r.header == HeaderText(|r.snapshot|) && LeadingNumber(r.header) == |r.snapshot|
    ensures r.Render? && fetched.error.Some? ==> r.logged == Some(FetchErrorLog + " " + fetched.error.value)
  {
    if auth.error.Some? || auth.user.None? then RedirectTo(Middleware.LoginPath)
    else
      var user := auth.user.value;
      var query := Query(user.id, "created_at", false);
      var logged := if fetched.error.Some? then Some(FetchErrorLog + " " + fetched.error.value) else None;
      var snapshot := fetched.data.OrElse([]);
      Render(query, logged, HeaderText(|snapshot|), user, user.id, user.id, snapshot)
  }

  /**
   * What the store promises for a query, under its row-level policy: only the owner's rows,
   * newest first by the instant `createdAt` denotes.
   */
  ghost predicate Honours(q: Query, rows: seq<Bookmark>, instant: string -> int) {
    OwnedBy(rows, q.userId) && (q.orderBy == "created_at" && !q.ascending ==> NewestFirst(rows, instant))
  }

  /** When the store honours the query, the list is seeded with the user's own rows, newest first. */
  lemma SnapshotOwnedAndOrdered(auth: GetUserResult, fetched: FetchResult, instant: string -> int)
    requires Dashboard(auth, fetched).Render?
    requires fetched.data.Some? ==> Honours(Dashboard(auth, fetched).query, fetched.data.value, instant)
    ensures var p := Dashboard(auth, fetched);
      OwnedBy(p.snapshot, p.listUserId) && NewestFirst(p.snapshot, instant)
  {
  }

  /** A failed fetch still renders the page, with an empty list and "No bookmarks yet". */
  lemma FetchFailureRendersEmpty(user: User, message: string)
    ensures Dashboard(GetUserResult(Some(user), None), FetchResult(None, Some(message)))
      == Render(Query(user.id, "created_at", false), Some(FetchErrorLog + " " + message), EmptyHeader, user, user.id, user.id, [])
  {
  }
}
