/**
 * The display name a link column gets from its field name:
 * `field.replace('_', ' ').title()`, with Python's `str.title` restricted to ASCII letters.
 */
module Text {

  predicate IsLower(c: char) { 'a' <= c <= 'z' }

  predicate IsUpper(c: char) { 'A' <= c <= 'Z' }

  /** A cased character in the sense of `str.title` (ASCII only). */
  predicate IsLetter(c: char) { IsLower(c) || IsUpper(c) }

  /** `a` and `b` are the same letter, perhaps in different case. */
  predicate SameLetter(a: char, b: char)
  {
    IsLetter(a) && IsLetter(b) && (a == b || a as int - b as int == 32 || b as int - a as int == 32)
  }

  function ToUpper(c: char): (r: char)
    ensures IsLetter(c) ==> IsUpper(r) && SameLetter(r, c)
    ensures !IsLetter(c) ==> r == c
  {
    if IsLower(c) then (c as int - 32) as char else c
  }

  function ToLower(c: char): (r: char)
    ensures IsLetter(c) ==> IsLower(r) && SameLetter(r, c)
    ensures !IsLetter(c) ==> r == c
  {
    if IsUpper(c) then (c as int + 32) as char else c
  }

  /** `s.replace('_', ' ')`: every underscore becomes a space, nothing else changes. */
  function ReplaceUnderscores(s: string): (r: string)
    ensures |r| == |s|
    ensures '_' !in r
    ensures forall i :: 0 <= i < |s| && s[i] == '_' ==> r[i] == ' '
    ensures forall i :: 0 <= i < |s| && s[i] != '_' ==> r[i] == s[i]
  {
    if s == [] then []
    else [if s[0] == '_' then ' ' else s[0]] + ReplaceUnderscores(s[1..])
  }

  /**
   * The loop of `str.title` from some position on: `afterLetter` says whether the
   * character before `s` was cased. A letter is lower-cased after a letter and
   * upper-cased otherwise; the next character is judged by the ORIGINAL one.
   */
  function TitleFrom(s: string, afterLetter: bool): (r: string)
    ensures |r| == |s|
    ensures forall i :: 0 <= i < |s| && !IsLetter(s[i]) ==> r[i] == s[i]
    ensures forall i :: 0 <= i < |s| && (if i == 0 then afterLetter else IsLetter(s[i - 1]))
                ==> r[i] == ToLower(s[i])
    ensures forall i :: 0 <= i < |s| && !(if i == 0 then afterLetter else IsLetter(s[i - 1]))
                ==> r[i] == ToUpper(s[i])
  {
    if s == [] then []
    else
      var rest := TitleFrom(s[1..], IsLetter(s[0]));
      var r := [if afterLetter then ToLower(s[0]) else ToUpper(s[0])] + rest;
      assert forall i :: 1 <= i < |s| ==> r[i] == rest[i - 1] && s[i] == s[1..][i - 1];
      r
  }

  /** Python's `s.title()` on ASCII text. */
  function TitleCase(s: string): (r: string)
    ensures |r| == |s|
    ensures forall i :: 0 <= i < |s| && !IsLetter(s[i]) ==> r[i] == s[i]
    ensures forall i :: 0 <= i < |s| && IsLetter(s[i]) && StartsWord(s, i)
                ==> IsUpper(r[i]) && SameLetter(r[i], s[i])
    ensures forall i :: 0 <= i < |s| && IsLetter(s[i]) && !StartsWord(s, i)
                ==> IsLower(r[i]) && SameLetter(r[i], s[i])
  {
    TitleFrom(s, false)
  }

  /** Position `i` begins a word: it is first, or the character before it is not a letter. */
  predicate StartsWord(s: string, i: int)
    requires 0 <= i < |s|
  {
    i == 0 || !IsLetter(s[i - 1])
  }

  /** The header name derived from a field name (link_header_builder.py line 79). */
  function DisplayName(field: string): (r: string)
    ensures |r| == |field|
    ensures '_' !in r
    ensures forall i :: 0 <= i < |field| && field[i] == '_' ==> r[i] == ' '
  {
    TitleCase(ReplaceUnderscores(field))
  }

  /** Title-casing is idempotent: a title-cased name is left as it is. */
  lemma TitleCaseIdempotent(s: string)
    ensures TitleCase(TitleCase(s)) == TitleCase(s)
  {
    var t := TitleCase(s);
    var tt := TitleCase(t);
    forall i | 0 <= i < |s|
      ensures IsLetter(t[i]) == IsLetter(s[i])
    {
    }
    forall i | 0 <= i < |s|
      ensures tt[i] == t[i]
    {
      if IsLetter(t[i]) {
        assert StartsWord(t, i) == StartsWord(s, i);
      }
    }
  }

  /** The worked example: field `user_name` gets the header `User Name`. */
  lemma UserNameExample()
    ensures DisplayName("user_name") == "User Name"
  {
    ReplaceExample();
    TitleExample();
  }

  lemma ReplaceExample()
    ensures ReplaceUnderscores("user_name") == "user name"
  {
    var s := ReplaceUnderscores("user_name");
    var expected := "user name";
    assert s[4] == ' ';
    assert forall i :: 0 <= i < |s| ==> s[i] == expected[i];
  }

  lemma TitleExample()
    ensures TitleCase("user name") == "User Name"
  {
    var r := TitleCase("user name");
    TitleExampleFirstWord();
    TitleExampleSecondWord();
    assert r == [r[0], r[1], r[2], r[3], r[4], r[5], r[6], r[7], r[8]];
  }

  /** "user " becomes "User ": a capital after the start, lower case after a letter. */
  lemma TitleExampleFirstWord()
    ensures var r := TitleCase("user name");
      r[0] == 'U' && r[1] == 's' && r[2] == 'e' && r[3] == 'r' && r[4] == ' '
  {
    var s := "user name";
    var r := TitleCase(s);
    assert r[0] == ToUpper(s[0]);
    assert r[1] == ToLower(s[1]) && r[2] == ToLower(s[2]) && r[3] == ToLower(s[3]);
    assert r[4] == s[4];
  }

  /** "name" becomes "Name": the letter after the space starts a word. */
  lemma TitleExampleSecondWord()
    ensures var r := TitleCase("user name");
      r[5] == 'N' && r[6] == 'a' && r[7] == 'm' && r[8] == 'e'
  {
    var s := "user name";
    var r := TitleCase(s);
    assert r[5] == ToUpper(s[5]);
    assert r[6] == ToLower(s[6]) && r[7] == ToLower(s[7]) && r[8] == ToLower(s[8]);
  }
}
