/**
 * One rendered bookmark card: its delete button's busy flag and the pure
 * display helpers (relative age, host name, favicon address).
 */
module BookmarkCard {
  import opened Wrappers
  import opened Text

  /** The card's local state; a card mounts with `isDeleting == false`. */
  datatype CardState = CardState(isDeleting: bool)

  /**
   * The delete button is pressed. The second component says whether a
   * store delete for the card's row is issued: only when the card was idle.
   * The list itself is not touched; the removal arrives as a change event.
   */
  function ClickDelete(c: CardState): (r: (CardState, bool))
    ensures r.1 <==> !c.isDeleting
    ensures r.0.isDeleting
    ensures c.isDeleting ==> r.0 == c
  {
    if c.isDeleting then (c, false) else (CardState(true), true)
  }

  /**
   * The store delete settled: `error` carries the failure message, if any.
   * A failure makes the button usable again; a success leaves it busy until
   * the change event unmounts the card.
   */
  function DeleteSettled(c: CardState, error: Option<string>): (r: CardState)
    ensures error.Some? ==> !r.isDeleting
    ensures error.None? ==> r == c
  {
    if error.Some? then CardState(false) else c
  }

  /** A second click before the first delete settles issues nothing. */
  lemma NoDoubleDelete(c: CardState)
    ensures !ClickDelete(ClickDelete(c).0).1
  {
  }

  /** A failed delete can be retried: the next click issues a new request. */
  lemma RetryAfterFailure(c: CardState, message: string)
    ensures ClickDelete(DeleteSettled(ClickDelete(c).0, Some(message))).1
  {
  }

  // Relative age of a bookmark

  /** The buckets of the card's age text. */
  datatype Age = JustNow | MinutesAgo(m: nat) | HoursAgo(h: nat) | DaysAgo(d: nat) | CalendarDate

  const MsPerMinute: int := 60000
  const MsPerHour: int := 3600000
  const MsPerDay: int := 86400000
  const MsPerWeek: int := 604800000

  /**
   * The bucket for `diffMs`, the milliseconds from `createdAt` to now, computed as the
   * card does: floor to minutes, then hours, then days, and test in that order.
   * `None` is a `createdAt` that does not parse (`NaN`), which fails every test.
   * For the positive divisors used here Dafny's `/` agrees with `Math.floor`.
   */
  function RelativeAge(diffMs: Option<int>): (r: Age)
    ensures diffMs.None? ==> r == CalendarDate
    ensures diffMs.Some? ==> var x := diffMs.value;
      && (r == JustNow <==> x < MsPerMinute)
      && (r.MinutesAgo? <==> MsPerMinute <= x < MsPerHour)
      && (r.HoursAgo? <==> MsPerHour <= x < MsPerDay)
      && (r.DaysAgo? <==> MsPerDay <= x < MsPerWeek)
      && (r == CalendarDate <==> MsPerWeek <= x)
    ensures r.MinutesAgo? ==> 1 <= r.m < 60 && r.m * MsPerMinute <= diffMs.value < (r.m + 1) * MsPerMinute
    ensures r.HoursAgo? ==> 1 <= r.h < 24 && r.h * MsPerHour <= diffMs.value < (r.h + 1) * MsPerHour
    ensures r.DaysAgo? ==> 1 <= r.d < 7 && r.d * MsPerDay <= diffMs.value < (r.d + 1) * MsPerDay
  {
    match diffMs
    case None => CalendarDate
    case Some(x) =>
      var mins := x / 60000;
      var hours := mins / 60;
      var days := hours / 24;
      assert mins * 60000 <= x < mins * 60000 + 60000;
      assert hours * 60 <= mins < hours * 60 + 60;
      assert days * 24 <= hours < days * 24 + 24;
      if mins < 1 then JustNow
      else if mins < 60 then MinutesAgo(mins)
      else if hours < 24 then HoursAgo(hours)
      else if days < 7 then DaysAgo(days)
      else CalendarDate
  }

  /**
   * The age text. `calendar` is what `toLocaleDateString("en-US", {month: "short",
   * day: "numeric"})` yields for the date, which the model does not compute.
   */
  function AgeLabel(a: Age, calendar: string): (r: string)
    ensures a == JustNow ==> r == "just now"
    ensures a.MinutesAgo? ==> r == Decimal(a.m) + "m ago"
    ensures a.HoursAgo? ==> r == Decimal(a.h) + "h ago"
    ensures a.DaysAgo? ==> r == Decimal(a.d) + "d ago"
    ensures a == CalendarDate ==> r == calendar
  {
    match a
    case JustNow => "just now"
    case MinutesAgo(m) => Decimal(m) + "m ago"
    case HoursAgo(h) => Decimal(h) + "h ago"
    case DaysAgo(d) => Decimal(d) + "d ago"
    case CalendarDate => calendar
  }

  /** The number in a minutes, hours or days label is the floored age in that unit. */
  lemma AgeLabelReadsBack(diffMs: int, calendar: string)
    requires MsPerMinute <= diffMs < MsPerWeek
    ensures var a := RelativeAge(Some(diffMs));
      LeadingNumber(AgeLabel(a, calendar)) == (if a.MinutesAgo? then a.m else if a.HoursAgo? then a.h else a.d)
    ensures LeadingNumber(AgeLabel(RelativeAge(Some(diffMs)), calendar)) >= 1
  {
    var a := RelativeAge(Some(diffMs));
    match a
    case MinutesAgo(m) => LeadingNumberOfRendered(m, "m ago");
    case HoursAgo(h) => LeadingNumberOfRendered(h, "h ago");
    case DaysAgo(d) => LeadingNumberOfRendered(d, "d ago");
  }

  // Host name and favicon

  /** The parts of a WHATWG `URL` the card reads; `protocol` includes its colon ("https:"). */
  datatype ParsedUrl = ParsedUrl(protocol: string, hostname: string)

  /**
   * `getHostname` as written: `new URL(url).hostname.replace("www.", "")`, or `url` itself
   * when it does not parse. `parsed` is the parser's result for `url`. A string pattern makes
   * `replace` remove the first "www." wherever it occurs in the host name.
   */
  function HostnameAsWritten(url: string, parsed: Option<ParsedUrl>): (r: string)
    ensures parsed.None? ==> r == url
    ensures parsed.Some? ==> var h := parsed.value.hostname; var i := IndexOf(h, "www.");
      && (i < 0 ==> r == h)
      && (i >= 0 ==> r == h[..i] + h[i + 4..] && |r| == |h| - 4)
  {
    match parsed
    case None => url
    case Some(p) => ReplaceFirst(p.hostname, "www.", "")
  }

  /**
   * As written, "www." is cut out of the middle of a host name that is not a "www."
   * subdomain: a host `c` + "www." + `rest` (for instance "awww.example.com", shown as
   * "aexample.com") loses the four characters after `c`, while the intended display keeps
   * it whole.
   */
  lemma {:induction false} HostnameAsWrittenCutsInside(url: string, protocol: string, c: char, rest: string)
    ensures var h := [c] + "www." + rest;
      && HostnameAsWritten(url, Some(ParsedUrl(protocol, h))) == [c] + rest
      && DisplayHostname(url, Some(ParsedUrl(protocol, h))) == h
      && [c] + rest != h
  {
    var h := [c] + "www." + rest;
    assert !OccursAt(h, "www.", 0) by { assert h[3] == 'w'; }
    assert OccursAt(h, "www.", 1) by { assert h[1..5] == "www."; }
    var i := IndexOf(h, "www.");
    assert i == 1;
    assert h[..1] + h[5..] == [c] + rest by {
      assert h[..1] == [c];
      assert h[5..] == rest;
    }
    assert !("www." <= h) by { assert h[3] != "www."[3]; }
  }

  /**
   * The display host name as evidently intended: a leading "www." label is dropped and
   * nothing else changes; an unparsable `url` is shown as is.
   */
  function DisplayHostname(url: string, parsed: Option<ParsedUrl>): (r: string)
    ensures parsed.None? ==> r == url
    ensures parsed.Some? ==> var h := parsed.value.hostname;
      && ("www." <= h ==> "www." + r == h)
      && (!("www." <= h) ==> r == h)
  {
    match parsed
    case None => url
    case Some(p) => if "www." <= p.hostname then p.hostname[4..] else p.hostname
  }

  /**
   * The two agree exactly on the host names that have no "www." or start with it: they
   * differ precisely when the first "www." is not leading.
   */
  lemma DisplayHostnameAgrees(url: string, p: ParsedUrl)
    ensures DisplayHostname(url, Some(p)) == HostnameAsWritten(url, Some(p)) <==> IndexOf(p.hostname, "www.") <= 0
  {
    var h := p.hostname;
    if "www." <= h {
      assert OccursAt(h, "www.", 0);
    }
  }

  /** `getFaviconUrl`: `{protocol}//{hostname}/favicon.ico`, or "" when the URL does not parse. */
  function FaviconUrl(parsed: Option<ParsedUrl>): (r: string)
    ensures parsed.None? <==> r == ""
    ensures parsed.Some? ==> var p := parsed.value;
      && p.protocol + "//" + p.hostname <= r
      && r[|p.protocol| + 2 + |p.hostname|..] == "/favicon.ico"
  {
    match parsed
    case None => ""
    case Some(p) => p.protocol + "//" + p.hostname + "/favicon.ico"
  }

  /** For one protocol, different hosts get different favicon addresses: the address names the host it came from. */
  lemma FaviconUrlNamesItsHost(protocol: string, h1: string, h2: string)
    requires FaviconUrl(Some(ParsedUrl(protocol, h1))) == FaviconUrl(Some(ParsedUrl(protocol, h2)))
    ensures h1 == h2
  {
    var r := FaviconUrl(Some(ParsedUrl(protocol, h1)));
    assert |r| == |protocol| + 2 + |h1| + 12 == |protocol| + 2 + |h2| + 12;
    assert h1 == r[|protocol| + 2..|protocol| + 2 + |h1|];
    assert h2 == r[|protocol| + 2..|protocol| + 2 + |h2|];
  }

  /**
   * The letter the favicon box falls back to when the image fails to load:
   * `hostname[0]?.toUpperCase() ?? "?"` over the displayed host name.
   */
  function FallbackLetter(hostname: string): (r: string)
    ensures |r| == 1 && !('a' <= r[0] <= 'z')
    ensures hostname == [] ==> r == "?"
    ensures hostname != [] ==> LowerAscii(r[0]) == LowerAscii(hostname[0])
  {
    if hostname == [] then "?" else [UpperAscii(hostname[0])]
  }

  /** An unparsable URL is shown as is, so its own first character, upper-cased, stands in for the icon. */
  lemma FallbackOfUnparsable(url: string)
    requires url != []
    ensures FallbackLetter(DisplayHostname(url, None)) == [UpperAscii(url[0])]
    ensures FallbackLetter(HostnameAsWritten(url, None)) == FallbackLetter(DisplayHostname(url, None))
  {
  }
}
