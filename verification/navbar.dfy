/** The navigation bar: the avatar initials, the name fallbacks and the dropdown toggle. */
module Navbar {
  import opened Wrappers
  import opened Text

  /** `pieces.join(" ")`. */
  function JoinOnSpace(pieces: seq<string>): string
    requires |pieces| >= 1
    decreases |pieces|
  {
    if |pieces| == 1 then pieces[0] else pieces[0] + " " + JoinOnSpace(pieces[1..])
  }

  /** `s.split(" ")`: the pieces between single spaces, empty pieces included. */
  function SplitOnSpace(s: string): (r: seq<string>)
    ensures |r| >= 1
    ensures JoinOnSpace(r) == s
    ensures forall i, j :: 0 <= i < |r| && 0 <= j < |r[i]| ==> r[i][j] != ' '
    decreases |s|
  {
    if s == [] then [[]]
    else if s[0] == ' ' then
      var rest := SplitOnSpace(s[1..]);
      var r := [[]] + rest;
      assert r[1..] == rest;
      assert s == [' '] + s[1..];
      r
    else
      var rest := SplitOnSpace(s[1..]);
      var r := [[s[0]] + rest[0]] + rest[1..];
      assert |rest| > 1 ==> r[1..] == rest[1..];
      assert s == [s[0]] + s[1..];
      r
  }

  /** `.map(n => n[0]).join("")`: the first character of each piece; an empty piece gives `undefined`, which joins as "". */
  function Heads(pieces: seq<string>): (r: string)
    ensures |r| <= |pieces|
    ensures (forall i :: 0 <= i < |pieces| ==> pieces[i] != []) ==>
      |r| == |pieces| && forall i :: 0 <= i < |r| ==> r[i] == pieces[i][0]
    decreases |pieces|
  {
    if pieces == [] then [] else (if pieces[0] == [] then [] else [pieces[0][0]]) + Heads(pieces[1..])
  }

  /**
   * The characters that begin a word: not a space, and first or right after a space.
   * `atStart` says whether the previous character was a space (or there was none).
   */
  function WordStarts(s: string, atStart: bool): (r: string)
    ensures |r| <= |s|
    ensures forall i :: 0 <= i < |r| ==> r[i] != ' '
    decreases |s|
  {
    if s == [] then []
    else (if atStart && s[0] != ' ' then [s[0]] else []) + WordStarts(s[1..], s[0] == ' ')
  }

  lemma {:induction false} HeadsAppend(a: seq<string>, b: seq<string>)
    ensures Heads(a + b) == Heads(a) + Heads(b)
    decreases |a|
  {
    if a == [] {
      assert a + b == b;
    } else {
      assert (a + b)[0] == a[0];
      assert (a + b)[1..] == a[1..] + b;
      HeadsAppend(a[1..], b);
    }
  }

  /** Split-map-join picks exactly the word-starting characters. */
  lemma {:induction false} HeadsOfSplit(s: string)
    ensures Heads(SplitOnSpace(s)) == WordStarts(s, true)
    ensures Heads(SplitOnSpace(s)[1..]) == WordStarts(s, false)
    decreases |s|
  {
    if s != [] {
      var rest := SplitOnSpace(s[1..]);
      HeadsOfSplit(s[1..]);
      if s[0] == ' ' {
        HeadsAppend([[]], rest);
        assert ([[]] + rest)[1..] == rest;
      } else {
        var first: string := [s[0]] + rest[0];
        assert SplitOnSpace(s) == [first] + rest[1..];
        HeadsAppend([first], rest[1..]);
        assert ([first] + rest[1..])[1..] == rest[1..];
      }
    }
  }

  /** `.slice(0, 2)`. */
  function TakeTwo(s: string): (r: string)
    ensures |r| <= 2 && r <= s
    ensures |s| >= 2 ==> |r| == 2
    ensures |s| < 2 ==> r == s
  {
    if |s| <= 2 then s else s[..2]
  }

  /**
   * The avatar initials: from a non-empty full name, the upper-cased first characters of
   * its space-separated pieces, at most two; otherwise the upper-cased first character of
   * the email, or "U" when there is no usable email.
   */
  function Initials(fullName: Option<string>, email: Option<string>): (r: string)
    ensures |r| <= 2
    ensures Truthy(fullName) ==> r == TakeTwo(UpperAsciiString(WordStarts(fullName.value, true)))
    ensures !Truthy(fullName) && Truthy(email) ==> r == [UpperAscii(email.value[0])]
    ensures !Truthy(fullName) && !Truthy(email) ==> r == "U"
  {
    if Truthy(fullName) then
      HeadsOfSplit(fullName.value);
      TakeTwo(UpperAsciiString(Heads(SplitOnSpace(fullName.value))))
    else if Truthy(email) then [UpperAscii(email.value[0])]
    else "U"
  }

  /** A full name made only of spaces yields no initials at all, and no fallback. */
  lemma SpacesOnlyNameHasNoInitials(n: nat, email: Option<string>)
    requires n >= 1
    ensures Initials(Some(seq(n, _ => ' ')), email) == ""
  {
    SpacesHaveNoWordStarts(seq(n, _ => ' '), true);
  }

  lemma {:induction false} SpacesHaveNoWordStarts(s: string, atStart: bool)
    requires forall i :: 0 <= i < |s| ==> s[i] == ' '
    ensures WordStarts(s, atStart) == []
    decreases |s|
  {
    if s != [] {
      SpacesHaveNoWordStarts(s[1..], true);
    }
  }

  /** The name next to the avatar, `fullName ?? email`. */
  function ButtonLabel(fullName: Option<string>, email: Option<string>): (r: Option<string>)
    ensures fullName.Some? ==> r == fullName
    ensures fullName.None? ==> r == email
  {
    if fullName.Some? then fullName else email
  }

  /** The name in the open menu (and the avatar's alt text), `fullName ?? "User"`. */
  function MenuName(fullName: Option<string>): (r: string)
    ensures fullName.Some? ==> r == fullName.value
    ensures fullName.None? ==> r == "User"
  {
    fullName.OrElse("User")
  }

  /**
   * An empty full name shows as an empty label (`??` keeps it), yet the initials treat it
   * as missing (`&&` does not) and fall back exactly as without a name.
   */
  lemma EmptyNameLabelAndInitialsDisagree(email: Option<string>)
    ensures ButtonLabel(Some(""), email) == Some("")
    ensures Initials(Some(""), email) == Initials(None, email)
    ensures Truthy(email) ==> Initials(Some(""), email) == [UpperAscii(email.value[0])]
  {
  }

  datatype MenuInput = AvatarClicked | BackdropClicked

  /** `showDropdown`: the avatar button toggles it, the backdrop closes it. */
  function DropdownStep(open: bool, i: MenuInput): (r: bool)
    ensures i == AvatarClicked ==> r == !open
    ensures i == BackdropClicked ==> !r
  {
    match i
    case AvatarClicked => !open
    case BackdropClicked => false
  }

  /** Two clicks on the avatar restore the menu; the backdrop always leaves it closed. */
  lemma DropdownToggles(open: bool)
    ensures DropdownStep(DropdownStep(open, AvatarClicked), AvatarClicked) == open
    ensures DropdownStep(DropdownStep(open, AvatarClicked), BackdropClicked) == false
  {
  }
}
