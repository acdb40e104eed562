# Smart Bookmarks, modelled in Dafny

Smart Bookmarks is a small Next.js application. A user signs in with Google OAuth and
keeps a private list of links, which stays in sync across tabs through the store's
realtime change feed. This project models the application's own logic as pure Dafny
functions and proves properties about it. The parts modelled are:

- **the session gate** (`middleware.ts`). It refreshes the session through a cookie
  callback that rebuilds the pass-through response on every write. It redirects
  signed-out callers away from `/dashboard…` and signed-in callers away from `/login`.
- **the OAuth callback route** (`app/api/auth/callback/route.ts`). It makes one
  code-for-session exchange. The redirect that follows depends on the exchange's
  outcome, on the environment and on the `x-forwarded-host` header.
- **the root page and the dashboard page**. The root page only redirects. The dashboard
  checks auth, then takes a snapshot fetch that falls back to an empty list, and shows
  the header count line.
- **the add-bookmark form**: URL normalisation, the validation order of the submit
  handler, the insert payload, the form state around the insert, and when the submit
  button is enabled.
- **the live list**:
  - the INSERT and DELETE handlers, with de-duplication;
  - the three-state channel status;
  - the busy flag of each card around a delete request;
  - the card helpers: relative age, display host name, favicon address and fallback
    letter;
  - the count footer.
- **the navigation bar**: avatar initials, name fallbacks and the dropdown toggle.
- **the login page**: the OAuth return address and the failure banner.

The modules follow the source files:

| module | file |
|---|---|
| `Middleware` | `middleware.dfy` |
| `AuthCallback` | `auth_callback.dfy` |
| `HomePage` | `home_page.dfy` |
| `DashboardPage` | `dashboard_page.dfy` |
| `BookmarkForm` | `bookmark_form.dfy` |
| `BookmarkList` | `bookmark_list.dfy` |
| `BookmarkCard` | `bookmark_card.dfy` |
| `Navbar` | `navbar.dfy` |
| `LoginPage` | `login_page.dfy` |

Four more modules are shared:

- `Wrappers` holds `Option` and JavaScript truthiness of an optional string.
- `Text` holds:
  - `trim` over the ECMAScript white-space set;
  - ASCII case mapping;
  - `indexOf` and `replace` with a string pattern;
  - decimal rendering of `${n}`, together with its read-back.
- `Bookmarks` holds the row record and the id-level facts about lists of rows.
- `Session` holds the user record and the `getUser` result.

Collaborators are parameters:

| collaborator | how it is modelled |
|---|---|
| authentication service | a `GetUserResult`, the `setAll` batches it issued, or an `exchange` function |
| WHATWG URL parser | a `parses` predicate, or an `Option<ParsedUrl>` |
| clock | the millisecond difference `diffMs` |
| process environment | `isDevelopment`, `envSiteUrl`, `windowOrigin` |

The list component is modelled as a state machine:

- `BookmarkList.Step` takes one input: a new snapshot prop, a realtime event, a channel
  signal, a click on a card's delete button, or a delete request that settled.
- It returns the next view and the store request it issues, if any.
- The card state is part of the list's view. React keys each card by `bookmark.id`, so
  a card lives while its row stays listed. The view numbers each mounted card instance
  and records which mounted cards have a delete in flight.
- A delete request carries the number of the card instance that issued it. When the
  request settles, the result reaches only that instance. If the card has unmounted
  since, even when a card with the same id has mounted again, the update is lost.

Two behaviours of the code are worth knowing:

- A redirect from the session gate is built afresh and does not carry the cookies the
  refresh wrote (`middleware.ts:49-61`). `Middleware.RedirectIgnoresRefreshedCookies`
  proves it.
- A failed card delete is only logged, and the button is re-enabled
  (`components/BookmarkList.tsx:57-60`).

## Model

| member | source | states |
|---|---|---|
| Text.Trim | components/BookmarkForm.tsx:21 | `trim` removes exactly a white-space prefix and suffix. The result neither starts nor ends with white space, and it is empty exactly when the input is all white space. |
| Text.TrimIdempotent | components/BookmarkForm.tsx:41-42 | Trimming an already trimmed text changes nothing. |
| Text.UpperAsciiString | components/Navbar.tsx:36 | `toUpperCase` keeps the length and maps each character on its own, restricted to ASCII letters. |
| Text.IndexOf | components/BookmarkList.tsx:67 | The first index where the pattern occurs, with no occurrence before it, or -1 when there is none. |
| Text.ReplaceFirst | components/BookmarkList.tsx:67 | `replace` with a string pattern leaves the text unchanged when the pattern does not occur. Otherwise it puts the replacement in place of the first occurrence only, and keeps the text before and after it. |
| Text.Decimal | components/BookmarkList.tsx:344 | The rendering of `${n}` is a non-empty run of digits with no leading zero. |
| Text.DecimalRoundTrip | components/BookmarkList.tsx:344 | Reading the rendered numeral back gives the number. |
| Text.LeadingNumberOfRendered | app/dashboard/page.tsx:59-61 | A text that starts with `${n}` followed by a non-digit reads back as `n`. |
| Bookmarks.BookmarkNoun | components/BookmarkList.tsx:344 | The noun is "bookmarks" exactly when the count is not 1, and "bookmark" exactly when it is 1. |
| Bookmarks.CountId | components/BookmarkList.tsx:280 | The number of rows carrying an id is at most the length, and it is zero exactly when the id is absent. |
| BookmarkCard.ClickDelete | components/BookmarkList.tsx:48-55 | A click issues a store delete exactly when the card was idle, and the card is busy afterwards. |
| BookmarkCard.DeleteSettled | components/BookmarkList.tsx:57-61 | A failed delete makes the card idle again. A successful one leaves it busy. |
| BookmarkCard.NoDoubleDelete | components/BookmarkList.tsx:48-50 | A second click before the first delete settles issues nothing. |
| BookmarkCard.RetryAfterFailure | components/BookmarkList.tsx:57-60 | After a failed delete the next click issues a new request. |
| BookmarkCard.RelativeAge | components/BookmarkList.tsx:84-95 | The nested floor divisions pick each bucket exactly on its millisecond interval: under 1 minute, under 1 hour, under 1 day, under 1 week, otherwise the calendar date. The number in each bucket lies in range and is the floored age. An unparsable date falls through to the calendar date. |
| BookmarkCard.AgeLabel | components/BookmarkList.tsx:92-96 | The text for each age bucket, such as "5m ago". The calendar form is passed in. |
| BookmarkCard.AgeLabelReadsBack | components/BookmarkList.tsx:88-95 | For ages from 1 minute up to 1 week, the label starts with the floored age in its unit, which is at least 1. |
| BookmarkCard.HostnameAsWritten | components/BookmarkList.tsx:65-71 | The host name has its FIRST "www." removed wherever it occurs, dropping 4 characters. An unparsable URL is shown as is. |
| BookmarkCard.HostnameAsWrittenCutsInside | components/BookmarkList.tsx:67 | Any host `c` + "www." + `rest` is shown as `c` + `rest`, so `awww.example.com` becomes `aexample.com`. The corrected display keeps such a host whole. |
| BookmarkCard.DisplayHostname | components/BookmarkList.tsx:65-71 | Corrected host name: only a leading "www." label is dropped, and every other host name is shown unchanged. |
| BookmarkCard.DisplayHostnameAgrees | components/BookmarkList.tsx:67 | The as-written and corrected host names agree exactly when "www." is absent or leads the name. They differ precisely when the first "www." comes later. |
| BookmarkCard.FaviconUrl | components/BookmarkList.tsx:74-81 | Built as the protocol, then `//`, the host and `/favicon.ico`. It is empty exactly when the URL does not parse. |
| BookmarkCard.FaviconUrlNamesItsHost | components/BookmarkList.tsx:74-77 | For one protocol, two hosts with the same favicon address are the same host. |
| BookmarkCard.FallbackLetter | components/BookmarkList.tsx:127 | One character, never a lower-case ASCII letter. It is the host's first character up to case, or "?" for an empty host. |
| BookmarkCard.FallbackOfUnparsable | components/BookmarkList.tsx:99-127 | For an unparsable URL the fallback letter is the URL's own first character, upper-cased. |
| BookmarkList.OnInsert | components/BookmarkList.tsx:261-267 | An INSERT whose id is already listed changes nothing. Otherwise the row goes in front of the unchanged rest. Either way the id is listed, and unique ids stay unique. |
| BookmarkList.RemoveId | components/BookmarkList.tsx:278-281 | After a DELETE no row carries the id. The rest is an order-preserving subsequence, shorter by exactly the number of rows with that id. |
| BookmarkList.RemoveIdMembers | components/BookmarkList.tsx:280 | A row survives the DELETE exactly when it was listed with another id. |
| BookmarkList.RemoveIdRemovesAll | components/BookmarkList.tsx:280 | After the DELETE the id is absent. |
| BookmarkList.RemoveAbsentId | components/BookmarkList.tsx:280 | Deleting an id that is not listed leaves the list unchanged. |
| BookmarkList.RemoveIdKeepsIdsUnique | components/BookmarkList.tsx:280 | A DELETE keeps ids unique. |
| BookmarkList.RemoveIdUnique | components/BookmarkList.tsx:280 | The filtered list is the only subsequence that drops exactly the rows with the id. |
| BookmarkList.ApplyEvent | components/BookmarkList.tsx:261-281 | An event keeps ids unique. A DELETE leaves the id absent and an INSERT leaves it present. |
| BookmarkList.EventsKeepIdsUnique | components/BookmarkList.tsx:251-282 | No sequence of change events creates two rows with one id. |
| BookmarkList.EventsAddOnlyInserted | components/BookmarkList.tsx:251-282 | Every row after a run of events was listed before it or arrived in one of its INSERTs. |
| BookmarkList.DuplicateDeliveryIsHarmless | components/BookmarkList.tsx:264-266 | Delivering the same event twice acts like delivering it once. |
| BookmarkList.InsertNewestKeepsOrder | components/BookmarkList.tsx:266 | Prepending a row no older than the head keeps the list newest-first. |
| BookmarkList.InsertOlderBreaksOrder | components/BookmarkList.tsx:266 | Prepending a late-delivered older row breaks newest-first order, because the handler does not sort. |
| BookmarkList.OnChannelStatus | components/BookmarkList.tsx:283-289 | SUBSCRIBED connects, and CLOSED or CHANNEL_ERROR mark an error. Every other signal leaves the status alone, and nothing goes back to connecting. |
| BookmarkList.StatusFollowsLastSignal | components/BookmarkList.tsx:283-289 | After any signal sequence, the status is decided by the last recognised signal alone. |
| BookmarkList.NeverConnectingAgain | components/BookmarkList.tsx:226-289 | Once the channel has left connecting, it never returns to it. |
| BookmarkList.ErrorRecovers | components/BookmarkList.tsx:284-288 | An errored channel that subscribes again shows as connected. |
| BookmarkList.Mount | components/BookmarkList.tsx:225-228 | The first render shows the snapshot, connecting, with every card mounted and none busy. |
| BookmarkList.WithList | components/BookmarkList.tsx:235-238 | Replacing the list keeps the status. Cards whose row stays keep their instance and busy flag. Cards whose row left unmount, and arriving rows get a new card numbered above every earlier one. |
| BookmarkList.Step | components/BookmarkList.tsx:225-289 | Only snapshots and events change the list, and only signals change the status. A signal changes nothing but the status. A snapshot or event is exactly `WithList` of the new list, so every card that stays keeps its instance and busy flag. A click issues a store delete exactly when its card is listed and idle, and that card becomes busy; any other click changes nothing. A failed delete clears the flag only when the issuing card is still mounted; any other settle changes nothing. Exactly the listed rows have a mounted card. |
| BookmarkList.Run | components/BookmarkList.tsx:225-289 | Every run keeps exactly the listed rows mounted, with busy flags only on mounted cards. |
| BookmarkList.ClickWhileDeletingIsNoOp | components/BookmarkList.tsx:48-50 | A click on a busy card changes nothing and issues nothing. |
| BookmarkList.ClickThenFailedSettleRestores | components/BookmarkList.tsx:48-60 | A click on an idle card issues the delete of its row and marks it busy. When that request fails, the view is exactly as before the click. |
| BookmarkList.FailedDeleteKeepsRow | components/BookmarkList.tsx:57-61 | A failed delete clears the busy flag of the card that issued it and keeps the row listed. |
| BookmarkList.SucceededDeleteWaitsForEvent | components/BookmarkList.tsx:57-61 | A successful delete changes nothing until its DELETE event arrives. |
| BookmarkList.RemountIsANewCard | components/BookmarkList.tsx:38-59 | A row that leaves and comes back gets a new card instance. The failure of a request the old card issued does not reach it, so after a new click the new card stays busy. |
| BookmarkList.RunListDependsOnListOnly | components/BookmarkList.tsx:225-289 | The list after any run depends only on the list before it. |
| BookmarkList.SnapshotDiscardsHistory | components/BookmarkList.tsx:235-238 | After a new snapshot, earlier history no longer affects the list. |
| BookmarkList.RunKeepsIdsUnique | components/BookmarkList.tsx:225-282 | Snapshots with unique ids keep the list's ids unique through any run. |
| BookmarkList.Footer | components/BookmarkList.tsx:342-346 | There is a footer exactly when the list is non-empty, and it reads back the count. |
| BookmarkForm.HasHttpScheme | components/BookmarkForm.tsx:22 | `/^https?:\/\//i` compares ASCII letters without case: "http://" or "https://" in lower or upper case is accepted, and any accepted text starts with "http" in some case. |
| BookmarkForm.NormalizeUrl | components/BookmarkForm.tsx:20-26 | The result has a web scheme, is trimmed, and ends with the trimmed input. It equals the trimmed input exactly when that already starts with http:// or https://, in any case. Otherwise it is "https://" plus the trimmed input. |
| BookmarkForm.NormalizeUrlIdempotent | components/BookmarkForm.tsx:20-26 | Normalising twice is normalising once. |
| BookmarkForm.NormalizeUrlOfTrimmed | components/BookmarkForm.tsx:54-64 | Normalising the trimmed URL, as the handler does, equals normalising the raw one. |
| BookmarkForm.NormalizeWithoutWebScheme | components/BookmarkForm.tsx:22-23 | A trimmed text not starting with "h" or "H" gets "https://" in front, whatever scheme it names. |
| BookmarkForm.NormalizeEmpty | components/BookmarkForm.tsx:20-26 | Empty input normalises to a bare "https://". |
| BookmarkForm.Submit | components/BookmarkForm.tsx:37-65 | Validation runs in order: blank title, then blank URL, then an unparsable normalised URL, each with its own message and no insert. Otherwise the form is submitting with no error. The insert carries the user id, the non-empty trimmed title and the normalised web URL. |
| BookmarkForm.InsertSettled | components/BookmarkForm.tsx:67-78 | Submitting ends either way. A failure keeps the fields and reports "Failed to save bookmark: …", and a success clears both fields and starts the success animation. |
| BookmarkForm.SubmitDisabled | components/BookmarkForm.tsx:192 | The button's `disabled` is false exactly when the form is not submitting and at least one field holds more than white space. |
| BookmarkForm.SubmitEnabledIff | components/BookmarkForm.tsx:192 | The button is enabled exactly when idle with some field holding more than white space. |
| BookmarkForm.InsertingSubmitIsEnabled | components/BookmarkForm.tsx:192 | A form that would reach the store never has its button disabled. |
| BookmarkForm.EnabledButRejected | components/BookmarkForm.tsx:44-52 | A title alone enables the button, yet the handler rejects the form for its missing URL. |
| BookmarkForm.SubmittingSpansTheInsert | components/BookmarkForm.tsx:59-67 | While the insert is in flight the button is disabled. Once it settles, submitting is over. |
| Middleware.SetOnRequest | middleware.ts:28-30 | The request jar gains the batch's names. Each name holds the value of its last write, and other cookies are unchanged. |
| Middleware.SetOnResponse | middleware.ts:34-36 | The new response's jar holds exactly the batch's names, each with its last write's value and options. |
| Middleware.SetAll | middleware.ts:23-37 | The pass-through response is rebuilt from the updated request. It carries exactly this batch's cookies, with last-write-wins. |
| Middleware.Begin | middleware.ts:11-13 | The middleware starts with the request's own cookies and an empty pass-through response. |
| Middleware.RefreshKeepsLastBatchOnly | middleware.ts:31-36 | After any number of `setAll` calls, the response carries the last batch only. |
| Middleware.RefreshLast | middleware.ts:31-36 | The induction behind the previous row, from any starting state. |
| Middleware.Route | middleware.ts:47-61 | A signed-out caller on any path starting with "/dashboard" goes to /login, and a signed-in caller on exactly "/login" goes to /dashboard. Everything else passes. |
| Middleware.RouteNeverLoops | middleware.ts:49-61 | A redirect's target passes the gate for the same caller. |
| Middleware.RoutePrefixExamples | middleware.ts:50-57 | "/dashboardX" is guarded and "/login/" is not bounced. |
| Middleware.Handle | middleware.ts:10-64 | The response redirects exactly when `Route` says so, to a copy of the URL that differs only in its pathname. Otherwise it is the rebuilt pass-through response, forwarding the refreshed cookies. |
| Middleware.FailsClosed | middleware.ts:43-54 | A failed `getUser` with no user sends a guarded path to /login. |
| Middleware.ErrorNotRead | middleware.ts:43-45 | The `error` of `getUser` never affects the response. |
| Middleware.RedirectIgnoresRefreshedCookies | middleware.ts:49-63 | A redirect is identical whatever cookies the refresh wrote. |
| AuthCallback.Destination | app/api/auth/callback/route.ts:18 | `next` falls back to /dashboard only when absent. |
| AuthCallback.Callback | app/api/auth/callback/route.ts:14-58 | The callback makes at most one exchange, and only for a non-empty code. Without a code, or when the exchange fails, it goes to `{origin}/login?error=auth_failed`. On success it goes to the forwarded host over https, but outside development only and only when that host is non-empty; otherwise it goes to the origin. `next` follows either way. |
| AuthCallback.FailureIgnoresHostAndNext | app/api/auth/callback/route.ts:41-57 | A failed sign-in lands on the same page whatever the host header and `next`. |
| AuthCallback.DevelopmentIgnoresHost | app/api/auth/callback/route.ts:44-47 | In development the forwarded host never matters. |
| AuthCallback.EmptyNextIsKept | app/api/auth/callback/route.ts:18 | An empty `next` is kept, so success lands on the bare origin. |
| AuthCallback.EmptyHostFallsBackToOrigin | app/api/auth/callback/route.ts:48-51 | An empty forwarded host counts as missing. |
| HomePage.Home | app/page.tsx:12-20 | A signed-in caller goes to /dashboard and everyone else to /login. |
| HomePage.HomeTargetPassesGate | app/page.tsx:16-20 | The root's redirect target passes the gate, so no second redirect follows. |
| HomePage.HomeIgnoresError | app/page.tsx:12-14 | The `getUser` error is not consulted. |
| DashboardPage.HeaderText | app/dashboard/page.tsx:57-61 | "No bookmarks yet — …" for zero. Otherwise "{n} bookmark(s) saved", which reads back as the count. |
| DashboardPage.HeaderTextInjective | app/dashboard/page.tsx:57-61 | Different counts give different header lines. |
| DashboardPage.Dashboard | app/dashboard/page.tsx:22-72 | It redirects to /login exactly on an auth error or a missing user. Otherwise it queries the user's rows newest first, and the snapshot is the fetched rows or empty. A fetch error is only logged, as "Error fetching bookmarks: " followed by its message. Form and list get the user's id. The header is the count line for the snapshot's size ("No bookmarks yet — …" or "{n} bookmark(s) saved") and reads back that size. |
| DashboardPage.SnapshotOwnedAndOrdered | app/dashboard/page.tsx:32-42 | When the store honours the query, the list is seeded with the user's own rows, newest first. |
| DashboardPage.FetchFailureRendersEmpty | app/dashboard/page.tsx:38-42 | A failed fetch still renders, with an empty list and the empty header. |
| Navbar.SplitOnSpace | components/Navbar.tsx:33 | `split(" ")` gives at least one piece, no piece contains a space, and joining the pieces with " " gives back the name. |
| Navbar.Heads | components/Navbar.tsx:34-35 | `map(n => n[0]).join("")` gives at most one character per piece. When no piece is empty, it gives exactly the first character of each piece, in order. |
| Navbar.HeadsOfSplit | components/Navbar.tsx:33-35 | Split on " ", take each piece's first character and join: the result is exactly the characters that start a word. |
| Navbar.TakeTwo | components/Navbar.tsx:37 | `slice(0, 2)` is a prefix of at most two characters, and exactly two when available. |
| Navbar.Initials | components/Navbar.tsx:31-38 | With a non-empty full name, the initials are the upper-cased word starts, at most two. Otherwise they are the email's first letter upper-cased, or "U". |
| Navbar.SpacesOnlyNameHasNoInitials | components/Navbar.tsx:31-38 | A full name of spaces only yields empty initials and no fallback. |
| Navbar.SpacesHaveNoWordStarts | components/Navbar.tsx:33-35 | A text of spaces has no word starts. |
| Navbar.ButtonLabel | components/Navbar.tsx:76 | The label is the full name whenever one is present, even an empty one, and the email otherwise. |
| Navbar.MenuName | components/Navbar.tsx:108 | The menu name is the full name when present, and "User" otherwise. |
| Navbar.EmptyNameLabelAndInitialsDisagree | components/Navbar.tsx:31-76 | An empty full name shows as an empty label, while the initials fall back as if it were missing. |
| Navbar.DropdownStep | components/Navbar.tsx:53-101 | The avatar button toggles the menu and the backdrop closes it. |
| Navbar.DropdownToggles | components/Navbar.tsx:53-101 | Two avatar clicks restore the menu, and the backdrop always leaves it closed. |
| LoginPage.SiteUrl | app/login/page.tsx:13-15 | The configured site URL when non-empty, otherwise the window's origin, otherwise "". |
| LoginPage.RedirectTo | app/login/page.tsx:13-20 | The OAuth return address is the site URL followed by the callback route. |
| LoginPage.ShowsErrorBanner | app/login/page.tsx:59-63 | The banner shows exactly when `error` is present and non-empty. |
| LoginPage.FailedCallbackShowsBanner | app/login/page.tsx:59-63 | The callback's failure target is "/login" with the single parameter `error=auth_failed`. The gate lets a signed-out caller through to it, and that `error` value shows the banner. |
| LoginPage.NoSiteUrlNoWindowUsesBarePath | app/login/page.tsx:13-20 | With no site URL and no window, the return address is the bare callback path. |

## Left out

- The middleware's `matcher` pattern (`middleware.ts:66-77`): a regular expression over request paths, not modelled. The gate is modelled for the requests it runs on.
- The construction of the store and auth clients, `lib/supabaseClient.ts` and `lib/supabaseServer.ts`: their calls are parameters (`GetUserResult`, `setAll` batches, `exchange`, store results).
- Subscribing to and tearing down the realtime channel, and the channel being per user: events arrive already narrowed to the user's rows. The status is not reset when `userId` changes.
- The list-level `handleDelete` (`components/BookmarkList.tsx:231-233`): it is passed to each card as `onDelete` but never called, so it has no effect to model.
- `console.error` of a card's delete error and of a dashboard fetch error: the dashboard records the logged line, the card records nothing.
- AuthCallback.Callback: the location is the string before `NextResponse.redirect` validates and serialises it as a URL. A target that does not parse, such as an origin followed by a `next` without a leading "/", throws there instead of redirecting, and the model does not say so.
- BookmarkCard.AgeLabel: the calendar form from `toLocaleDateString("en-US", …)` is a parameter, not computed.
- BookmarkCard.RelativeAge: `new Date(...)` and the clock are replaced by the millisecond difference. An unparsable date is `None`.
- BookmarkForm.IsValidUrl: the WHATWG URL parser is the `parses` parameter, and host name and protocol extraction are an `Option<ParsedUrl>`.
- Text.UpperAsciiString: `toUpperCase` is modelled on ASCII letters only. Case mappings outside ASCII, including ones that change the length, are left out.
- BookmarkCard.FallbackLetter: `hostname[0]` indexes a UTF-16 code unit. For a host or unparsable URL that starts with an astral character, the source shows a lone surrogate, while the model (and `BookmarkCard.FallbackOfUnparsable`) shows the whole character.
- Navbar.Initials: strings are sequences of Unicode scalar values, while JavaScript indexes UTF-16 code units. `n[0]` of a piece that starts with an astral character differs.
- The 1500 ms timer that ends the success animation (`components/BookmarkForm.tsx:78`): time is not modelled, so the animation only starts.
- Rendering: markup, styles, the status indicator's labels and colours, the skeleton loader and the empty-state panel.
- Sign-out (`components/Navbar.tsx:19-24`): it calls the auth service and navigates, with no logic of its own. The `isSigningOut` flag only changes rendering.
- Login's OAuth call (`app/login/page.tsx:17-26`): only its `redirectTo` argument is modelled.
- `tailwind.config.ts`: styling only.

## Findings

| source | as written | input that shows it | evidently intended | confidence | as-written member | corrected member |
|---|---|---|---|---|---|---|
| components/BookmarkList.tsx:67 | `hostname.replace("www.", "")` removes the first "www." anywhere in the host name | a bookmark for `https://awww.example.com/` is shown as `aexample.com` | only a leading "www." label is dropped, and `awww.example.com` is shown unchanged | medium, not executed | BookmarkCard.HostnameAsWrittenCutsInside | BookmarkCard.DisplayHostname |
