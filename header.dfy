/** The avatar fallback in the page header: the initials of the signed-in user's name. */
module Header {
  import Text
  import opened Common

  /** The first character of each piece; an empty piece contributes nothing, as the
      `undefined` it yields joins as an empty string. */
  function FirstChars(pieces: seq<string>): string {
    if pieces == [] then ""
    else (if pieces[0] == "" then "" else [pieces[0][0]]) + FirstChars(pieces[1..])
  }

  /** The reference reading of the same thing: the characters of `s` that are not a
      space and stand at the start or right after a space (`atStart` says whether the
      previous character was a space, or there was none). */
  function WordStarts(s: string, atStart: bool): string {
    if s == [] then ""
    else if s[0] == ' ' then WordStarts(s[1..], true)
    else (if atStart then [s[0]] else []) + WordStarts(s[1..], false)
  }

  /** `getUserInitials`: `"U"` without a name, else the upper-cased first characters of
      the space-separated pieces, cut to two. */
  function Initials(name: Option<string>): (r: string)
    ensures name == None || name == Some("") ==> r == "U"
    ensures |r| <= 2
    ensures forall i :: 0 <= i < |r| ==> Text.IsUpperStable(r[i])
  {
    match name
    case None => "U"
    case Some(n) =>
      if n == "" then "U"
      else
        var all := Text.Upper(FirstChars(Text.Split(n, ' ')));
        Text.UpperIsStable(all);
        all[..Min(2, |all|)]
  }

  /** Taking first characters of the pieces of a split at spaces picks exactly the word
      starts; the second half covers the pieces after the first. */
  lemma {:induction false} FirstCharsAreWordStarts(s: string)
    ensures FirstChars(Text.Split(s, ' ')) == WordStarts(s, true)
    ensures FirstChars(Text.Split(s, ' ')[1..]) == WordStarts(s, false)
  {
    if s != [] {
      FirstCharsAreWordStarts(s[1..]);
      var rest := Text.Split(s[1..], ' ');
      if s[0] == ' ' {
        assert Text.Split(s, ' ') == [""] + rest;
        assert ([""] + rest)[1..] == rest;
      } else {
        var first := [s[0]] + rest[0];
        assert Text.Split(s, ' ') == [first] + rest[1..];
        assert ([first] + rest[1..])[1..] == rest[1..];
        assert first[0] == s[0];
      }
    }
  }

  /** So the initials of a non-empty name are the first two upper-cased word starts:
      leading, trailing and repeated spaces are skipped. */
  lemma InitialsOfName(n: string)
    requires n != ""
    ensures Initials(Some(n)) == Text.Upper(WordStarts(n, true))[..Min(2, |WordStarts(n, true)|)]
  {
    FirstCharsAreWordStarts(n);
  }
}
