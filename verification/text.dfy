/**
 * String operations the components rely on, stated over `seq<char>`:
 * JavaScript's `trim`, ASCII case mapping, prefix tests, first-occurrence
 * replacement and the decimal rendering of a `${n}` template slot.
 */
module Text {

  /** The WhiteSpace and LineTerminator code points of ECMAScript, which `String.prototype.trim` strips. */
  predicate IsJsSpace(c: char) {
    var n := c as int;
    || n == 0x09 || n == 0x0A || n == 0x0B || n == 0x0C || n == 0x0D
    || n == 0x20 || n == 0xA0 || n == 0x1680 || (0x2000 <= n <= 0x200A)
    || n == 0x2028 || n == 0x2029 || n == 0x202F || n == 0x205F
    || n == 0x3000 || n == 0xFEFF
  }

  /** Every character is JavaScript white space (vacuously true of `""`). */
  predicate Blank(s: string) {
    forall i :: 0 <= i < |s| ==> IsJsSpace(s[i])
  }

  /** Neither end is white space. */
  predicate Trimmed(s: string) {
    s == [] || (!IsJsSpace(s[0]) && !IsJsSpace(s[|s| - 1]))
  }

  function TrimStart(s: string): (r: string)
    ensures |r| <= |s| && r == s[|s| - |r|..]
    ensures Blank(s[..|s| - |r|])
    ensures r == [] || !IsJsSpace(r[0])
  {
    if |s| > 0 && IsJsSpace(s[0]) then TrimStart(s[1..]) else s
  }

  function TrimEnd(s: string): (r: string)
    ensures |r| <= |s| && r == s[..|r|]
    ensures Blank(s[|r|..])
    ensures r == [] || !IsJsSpace(r[|r| - 1])
  {
    if |s| > 0 && IsJsSpace(s[|s| - 1]) then
      var r := TrimEnd(s[..|s| - 1]);
      assert s[|r|..] == s[..|s| - 1][|r|..] + [s[|s| - 1]];
      r
    else s
  }

  /** `s.trim()`: the infix left after removing white space from both ends. */
  function Trim(s: string): (r: string)
    ensures Trimmed(r)
    ensures exists k :: TrimmedAt(s, r, k)
    ensures r == [] <==> Blank(s)
  {
    TrimFacts(s);
    TrimEmptyIffBlank(s);
    TrimEnd(TrimStart(s))
  }

  /** `r` sits at offset `k` of `s` with only white space around it. */
  predicate TrimmedAt(s: string, r: string, k: int) {
    0 <= k <= |s| - |r| && s[k..k + |r|] == r && Blank(s[..k]) && Blank(s[k + |r|..])
  }

  /** Trimming the start and then the end leaves a trimmed infix with white space around it. */
  lemma TrimFacts(s: string)
    ensures Trimmed(TrimEnd(TrimStart(s)))
    ensures TrimmedAt(s, TrimEnd(TrimStart(s)), |s| - |TrimStart(s)|)
  {
    var t := TrimStart(s);
    TrimPlacement(s, t, TrimEnd(t), |s| - |t|);
    TrimEnds(t, TrimEnd(t));
  }

  /** Trimming empties exactly the blank texts. */
  lemma TrimEmptyIffBlank(s: string)
    ensures TrimEnd(TrimStart(s)) == [] <==> Blank(s)
  {
    var t := TrimStart(s);
    TrimEmptyCases(s, t, TrimEnd(t), |s| - |t|);
  }

  /**
   * What `TrimStart` and `TrimEnd` promise, as plain facts about offsets: the trimmed text
   * `r` is empty exactly when `s` is blank.
   */
  lemma TrimEmptyCases(s: string, t: string, r: string, k: int)
    requires 0 <= k <= |s| && t == s[k..] && Blank(s[..k])
    requires t == [] || !IsJsSpace(t[0])
    requires |r| <= |t| && r == t[..|r|] && Blank(t[|r|..])
    ensures r == [] <==> Blank(s)
  {
    if r == [] {
      assert t[|r|..] == t;
      BlankSplit(s, k);
    } else {
      assert s[k] == t[0];
      NotBlankAt(s, k);
    }
  }

  /** A text whose prefix and suffix at `k` are both blank is blank. */
  lemma BlankSplit(s: string, k: int)
    requires 0 <= k <= |s| && Blank(s[..k]) && Blank(s[k..])
    ensures Blank(s)
  {
    assert s == s[..k] + s[k..];
    BlankConcat(s[..k], s[k..]);
  }

  /** A text with a non-space character is not blank. */
  lemma NotBlankAt(s: string, k: int)
    requires 0 <= k < |s| && !IsJsSpace(s[k])
    ensures !Blank(s)
  {
  }

  lemma TrimEnds(t: string, r: string)
    requires t == [] || !IsJsSpace(t[0])
    requires |r| <= |t| && r == t[..|r|]
    requires r == [] || !IsJsSpace(r[|r| - 1])
    ensures Trimmed(r)
  {
    if r != [] {
      assert r[0] == t[0];
    }
  }

  lemma TrimPlacement(s: string, t: string, r: string, k: int)
    requires t == TrimStart(s) && r == TrimEnd(t) && k == |s| - |t|
    ensures TrimmedAt(s, r, k)
  {
    assert s[k..k + |r|] == t[..|r|];
    assert s[k + |r|..] == t[|r|..];
  }

  lemma BlankConcat(a: string, b: string)
    requires Blank(a) && Blank(b)
    ensures Blank(a + b)
  {
  }

  /** Trimming a string whose ends are not white space returns it unchanged. */
  lemma TrimOfTrimmed(s: string)
    requires Trimmed(s)
    ensures Trim(s) == s
  {
    if s != [] {
      assert !IsJsSpace(s[0]);
      assert TrimStart(s) == s;
      assert TrimEnd(s) == s;
    }
  }

  /** `trim` is idempotent. */
  lemma TrimIdempotent(s: string)
    ensures Trim(Trim(s)) == Trim(s)
  {
    TrimOfTrimmed(Trim(s));
  }

  function LowerAscii(c: char): char {
    if 'A' <= c <= 'Z' then (c as int + 32) as char else c
  }

  function UpperAscii(c: char): char {
    if 'a' <= c <= 'z' then (c as int - 32) as char else c
  }

  /** `s.toUpperCase()` restricted to ASCII letters; every other character is kept. */
  function UpperAsciiString(s: string): (r: string)
    ensures |r| == |s|
    ensures forall i :: 0 <= i < |s| ==> r[i] == UpperAscii(s[i])
  {
    if s == [] then [] else [UpperAscii(s[0])] + UpperAsciiString(s[1..])
  }

  /** `s` begins with `lower` when ASCII letters are compared case-insensitively (a regular expression's `i` flag). */
  predicate StartsWithIgnoringCase(s: string, lower: string) {
    |lower| <= |s| && forall i :: 0 <= i < |lower| ==> LowerAscii(s[i]) == lower[i]
  }

  /** `pat` occurs in `s` starting at index `i`. */
  predicate OccursAt(s: string, pat: string, i: int) {
    0 <= i <= |s| - |pat| && s[i..i + |pat|] == pat
  }

  /** Index of the first occurrence of `pat` in `s`, as `s.indexOf(pat)` finds it (-1 when none). */
  function IndexOf(s: string, pat: string): (r: int)
    requires pat != []
    ensures r == -1 || OccursAt(s, pat, r)
    ensures forall i :: 0 <= i && (r == -1 || i < r) ==> !OccursAt(s, pat, i)
    decreases |s|
  {
    if |s| < |pat| then -1
    else if s[..|pat|] == pat then 0
    else
      var k := IndexOf(s[1..], pat);
      assert forall i :: 1 <= i ==> (OccursAt(s, pat, i) <==> OccursAt(s[1..], pat, i - 1));
      if k < 0 then -1 else k + 1
  }

  /** `s.replace(pat, rep)` with a string pattern: only the first occurrence is replaced. */
  function ReplaceFirst(s: string, pat: string, rep: string): (r: string)
    requires pat != []
    ensures (forall i :: !OccursAt(s, pat, i)) ==> r == s
    ensures forall k :: OccursAt(s, pat, k) && (forall j :: 0 <= j < k ==> !OccursAt(s, pat, j)) ==>
      r == s[..k] + rep + s[k + |pat|..]
  {
    var i := IndexOf(s, pat);
    if i < 0 then s else s[..i] + rep + s[i + |pat|..]
  }

  predicate IsDigit(c: char) {
    '0' <= c <= '9'
  }

  predicate AllDigits(s: string) {
    forall i :: 0 <= i < |s| ==> IsDigit(s[i])
  }

  function DigitChar(d: nat): (c: char)
    requires d < 10
    ensures IsDigit(c)
  {
    ('0' as int + d) as char
  }

  /** The decimal numeral of `n`, as a `${n}` template slot renders a non-negative integer. */
  function Decimal(n: nat): (r: string)
    ensures r != [] && AllDigits(r)
    ensures n > 0 ==> r[0] != '0'
    decreases n
  {
    if n < 10 then [DigitChar(n)] else Decimal(n / 10) + [DigitChar(n % 10)]
  }

  /** The value of a numeral; an independent reading of `Decimal`. */
  function DigitsValue(s: string): nat
    requires AllDigits(s)
  {
    if s == [] then 0 else DigitsValue(s[..|s| - 1]) * 10 + (s[|s| - 1] as int - '0' as int)
  }

  /** Reading back a rendered numeral yields the number. */
  lemma {:induction false} DecimalRoundTrip(n: nat)
    ensures DigitsValue(Decimal(n)) == n
  {
    if n >= 10 {
      var d := Decimal(n);
      DecimalRoundTrip(n / 10);
      assert d[..|d| - 1] == Decimal(n / 10);
    }
  }

  /** The longest prefix of `s` made of digits. */
  function LeadingDigits(s: string): (r: string)
    ensures r <= s && AllDigits(r)
    ensures |r| < |s| ==> !IsDigit(s[|r|])
  {
    if s != [] && IsDigit(s[0]) then [s[0]] + LeadingDigits(s[1..]) else []
  }

  /** A rendered numeral followed by a non-digit is read back whole. */
  lemma {:induction false} LeadingDigitsOfNumeral(d: string, rest: string)
    requires AllDigits(d)
    requires rest == [] || !IsDigit(rest[0])
    ensures LeadingDigits(d + rest) == d
  {
    if d != [] {
      assert (d + rest)[1..] == d[1..] + rest;
      LeadingDigitsOfNumeral(d[1..], rest);
    }
  }

  /** The number a text starts with (0 when it starts with no digit). */
  function LeadingNumber(s: string): nat {
    DigitsValue(LeadingDigits(s))
  }

  /** A text that starts with `${n}` followed by a non-digit reports `n` back. */
  lemma LeadingNumberOfRendered(n: nat, rest: string)
    requires rest == [] || !IsDigit(rest[0])
    ensures LeadingNumber(Decimal(n) + rest) == n
  {
    LeadingDigitsOfNumeral(Decimal(n), rest);
    DecimalRoundTrip(n);
  }
}
