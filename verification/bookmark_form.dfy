/**
 * The add-bookmark form: URL normalisation, the submit handler's validation order and
 * insert payload, the form state around the insert, and the submit button's enabling.
 */
module BookmarkForm {
  import opened Wrappers
  import opened Text

  /** `/^https?:\/\//i`: the text starts with "http://" or "https://", ASCII letters in any case. */
  predicate HasHttpScheme(s: string): (r: bool)
    ensures "http://" <= s || "https://" <= s || "HTTP://" <= s || "HTTPS://" <= s ==> r
    ensures r ==> |s| >= 7 && forall i :: 0 <= i < 4 ==> LowerAscii(s[i]) == "http"[i]
  {
    StartsWithIgnoringCase(s, "http://") || StartsWithIgnoringCase(s, "https://")
  }

  /** `normalizeUrl`: trim, then prefix "https://" unless a web scheme is already there. */
  function NormalizeUrl(raw: string): (r: string)
    ensures HasHttpScheme(r)
    ensures Trimmed(r)
    ensures |Trim(raw)| <= |r| && r[|r| - |Trim(raw)|..] == Trim(raw)
    ensures r == Trim(raw) <==> HasHttpScheme(Trim(raw))
    ensures r != Trim(raw) ==> r == "https://" + Trim(raw)
  {
    var t := Trim(raw);
    if !HasHttpScheme(t) then
      Prefixed(t);
      "https://" + t
    else
      t
  }

  /** Prefixing "https://" to a trimmed text gives a trimmed text with a web scheme. */
  lemma Prefixed(t: string)
    requires Trimmed(t)
    ensures var r := "https://" + t;
      HasHttpScheme(r) && Trimmed(r) && r[|r| - |t|..] == t && r != t
  {
    var r := "https://" + t;
    assert StartsWithIgnoringCase(r, "https://") by {
      forall i | 0 <= i < 8 ensures LowerAscii(r[i]) == "https://"[i] {
        assert r[i] == "https://"[i];
      }
    }
    assert r[|r| - |t|..] == t;
    assert r[0] == 'h';
    if t == [] {
      assert r[|r| - 1] == '/';
    } else {
      assert r[|r| - 1] == t[|t| - 1];
    }
  }

  /** Normalising twice is normalising once. */
  lemma NormalizeUrlIdempotent(raw: string)
    ensures NormalizeUrl(NormalizeUrl(raw)) == NormalizeUrl(raw)
  {
    TrimOfTrimmed(NormalizeUrl(raw));
  }

  /** Only the surrounding white space of the input matters. */
  lemma NormalizeUrlOfTrimmed(raw: string)
    ensures NormalizeUrl(Trim(raw)) == NormalizeUrl(raw)
  {
    TrimIdempotent(raw);
  }

  /** A trimmed text that does not begin with "h" or "H" gets "https://" in front, whatever scheme it names. */
  lemma NormalizeWithoutWebScheme(t: string)
    requires Trimmed(t) && (t == [] || LowerAscii(t[0]) != 'h')
    ensures NormalizeUrl(t) == "https://" + t
  {
    TrimOfTrimmed(t);
    if t != [] {
      assert !StartsWithIgnoringCase(t, "http://") by {
        assert LowerAscii(t[0]) != "http://"[0];
      }
      assert !StartsWithIgnoringCase(t, "https://") by {
        assert LowerAscii(t[0]) != "https://"[0];
      }
    }
  }

  /** Even the empty input comes out as a bare "https://". */
  lemma NormalizeEmpty()
    ensures NormalizeUrl("") == "https://"
  {
  }

  /** `isValidUrl`: whether `new URL(normalizeUrl(raw))` succeeds; the WHATWG parser is the `parses` parameter. */
  function IsValidUrl(raw: string, parses: string -> bool): bool {
    parses(NormalizeUrl(raw))
  }

  datatype FormState = FormState(title: string, url: string, isSubmitting: bool, error: Option<string>, successAnim: bool)

  /** The row handed to the store's insert. */
  datatype NewRow = NewRow(userId: string, title: string, url: string)

  const TitleMissing: string := "Please enter a title for your bookmark."
  const UrlMissing: string := "Please enter a URL."
  const UrlInvalid: string := "Please enter a valid URL (e.g. https://example.com)."
  const SaveFailedPrefix: string := "Failed to save bookmark: "

  /**
   * `handleSubmit` up to the insert: clear the error, check the title, then the URL,
   * then its validity; on success mark the form submitting and issue the insert.
   */
  function Submit(f: FormState, userId: string, parses: string -> bool): (r: (FormState, Option<NewRow>))
    ensures Trim(f.title) == "" ==> r == (f.(error := Some(TitleMissing)), None)
    ensures Trim(f.title) != "" && Trim(f.url) == "" ==> r == (f.(error := Some(UrlMissing)), None)
    ensures Trim(f.title) != "" && Trim(f.url) != "" && !parses(NormalizeUrl(f.url)) ==> r == (f.(error := Some(UrlInvalid)), None)
    ensures r.1.Some? <==> Trim(f.title) != "" && Trim(f.url) != "" && parses(NormalizeUrl(f.url))
    ensures r.1.Some? ==> r.0 == f.(isSubmitting := true, error := None)
    ensures r.1.Some? ==> r.1.value == NewRow(userId, Trim(f.title), NormalizeUrl(f.url))
    ensures r.1.Some? ==> r.1.value.title != [] && Trimmed(r.1.value.title) && HasHttpScheme(r.1.value.url)
  {
    var f := f.(error := None);
    var trimmedTitle := Trim(f.title);
    var trimmedUrl := Trim(f.url);
    if trimmedTitle == "" then (f.(error := Some(TitleMissing)), None)
    else if trimmedUrl == "" then (f.(error := Some(UrlMissing)), None)
    else
      NormalizeUrlOfTrimmed(f.url);
      if !IsValidUrl(trimmedUrl, parses) then (f.(error := Some(UrlInvalid)), None)
      else (f.(isSubmitting := true), Some(NewRow(userId, trimmedTitle, NormalizeUrl(trimmedUrl))))
  }

  /**
   * The insert settled; `insertError` carries the store's message on failure. Submitting
   * ends on both outcomes; a failure keeps the fields and reports, a success clears them.
   */
  function InsertSettled(f: FormState, insertError: Option<string>): (r: FormState)
    ensures !r.isSubmitting
    ensures insertError.Some? ==>
      r.error == Some(SaveFailedPrefix + insertError.value) && r.title == f.title && r.url == f.url && r.successAnim == f.successAnim
    ensures insertError.None? ==> r.title == "" && r.url == "" && r.successAnim && r.error == f.error
  {
    var f := f.(isSubmitting := false);
    match insertError
    case Some(message) => f.(error := Some(SaveFailedPrefix + message))
    case None => f.(title := "", url := "", successAnim := true)
  }

  /** The submit button's `disabled`: while submitting, or while both fields are blank. */
  function SubmitDisabled(f: FormState): (r: bool)
    ensures !r <==> !f.isSubmitting && (!Blank(f.title) || !Blank(f.url))
  {
    f.isSubmitting || (Trim(f.title) == "" && Trim(f.url) == "")
  }

  /** The button is enabled exactly when idle with at least one field holding more than white space. */
  lemma SubmitEnabledIff(f: FormState)
    ensures !SubmitDisabled(f) <==> !f.isSubmitting && (!Blank(f.title) || !Blank(f.url))
  {
  }

  /** A submission that would reach the store is never blocked by the button. */
  lemma InsertingSubmitIsEnabled(f: FormState, userId: string, parses: string -> bool)
    ensures !f.isSubmitting && Submit(f, userId, parses).1.Some? ==> !SubmitDisabled(f)
  {
  }

  /** A title alone enables the button, yet the handler then rejects the form for its missing URL. */
  lemma EnabledButRejected(title: string, userId: string, parses: string -> bool)
    requires !Blank(title)
    ensures var f := FormState(title, "", false, None, false);
      !SubmitDisabled(f) && Submit(f, userId, parses) == (f.(error := Some(UrlMissing)), None)
  {
  }

  /** While the insert is in flight the button is disabled; once it settles, submitting is over. */
  lemma SubmittingSpansTheInsert(f: FormState, userId: string, parses: string -> bool, insertError: Option<string>)
    ensures Submit(f, userId, parses).1.Some? ==> SubmitDisabled(Submit(f, userId, parses).0)
    ensures !InsertSettled(Submit(f, userId, parses).0, insertError).isSubmitting
  {
  }
}
