/**
 * The web client's form validators: the e-mail shape and the Tanzanian
 * phone number formats.
 */
module Validators {
  import opened Common

  // ---------------------------------------------------------------------
  // Phone numbers

  /** `^0\d{9}$`: a leading zero and nine digits. */
  predicate LocalPattern(v: string)
  {
    |v| == 10 && v[0] == '0' && AllDigits(v[1..])
  }

  /** `^\+255\d{9}$`: the country code and nine digits. */
  predicate IntlPattern(v: string)
  {
    |v| == 13 && v[..4] == "+255" && AllDigits(v[4..])
  }

  /** `isValidPhoneNumber`: an empty value is accepted (the field is optional). */
  function IsValidPhoneNumber(value: string): (r: bool)
    ensures value == "" ==> r
    ensures value != "" ==> (r <==> exists d :: |d| == 9 && AllDigits(d) && (value == "0" + d || value == "+255" + d))
    ensures r && value != "" ==> |value| == 10 || |value| == 13
  {
    if value == "" then true
    else
      assert LocalPattern(value) ==> value == "0" + value[1..];
      assert IntlPattern(value) ==> value == "+255" + value[4..];
      assert forall d :: |d| == 9 && value == "0" + d ==> d == value[1..];
      assert forall d :: |d| == 9 && value == "+255" + d ==> d == value[4..] && value[..4] == "+255";
      LocalPattern(value) || IntlPattern(value)
  }

  /** A number written with the country code but without the '+' is refused. */
  lemma CountryCodeNeedsPlus()
    ensures !IsValidPhoneNumber("255712345678")
  {
  }

  // ---------------------------------------------------------------------
  // E-mail addresses

  /** Inside `[^\s@]`. */
  predicate PlainChar(c: char)
  {
    !IsWhitespace(c) && c != '@'
  }

  predicate AllPlain(s: string)
  {
    forall k :: 0 <= k < |s| ==> PlainChar(s[k])
  }

  /**
   * `^[^\s@]+@[^\s@]+\.[^\s@]+$` split at the '@' (index `i`) and at a
   * '.' (index `j`): three non-empty runs of plain characters.
   */
  predicate EmailSplit(value: string, i: nat, j: nat)
  {
    0 < i < j - 1 && j + 1 < |value| && value[i] == '@' && value[j] == '.' &&
    AllPlain(value[..i]) && AllPlain(value[i + 1..j]) && AllPlain(value[j + 1..])
  }

  /** The number of times `c` occurs in `s`. */
  function Occurrences(s: string, c: char): (n: nat)
    ensures n <= |s|
  {
    if s == [] then 0 else (if s[0] == c then 1 else 0) + Occurrences(s[1..], c)
  }

  /** The first index of `c` in `s`, if any. */
  function IndexOf(s: string, c: char): (r: Option<nat>)
    ensures r.Some? ==> r.value < |s| && s[r.value] == c && forall k :: 0 <= k < r.value ==> s[k] != c
    ensures r.None? ==> forall k :: 0 <= k < |s| ==> s[k] != c
  {
    if s == [] then None
    else if s[0] == c then Some(0)
    else
      var t := IndexOf(s[1..], c);
      if t.Some? then Some(t.value + 1) else None
  }

  /**
   * `isValidEmail`, read as a checklist: no whitespace, exactly one '@', text
   * before it, and after it a '.' with text on both sides.
   */
  function IsValidEmail(value: string): (r: bool)
  {
    var at := IndexOf(value, '@');
    (forall k :: 0 <= k < |value| ==> !IsWhitespace(value[k])) &&
    Occurrences(value, '@') == 1 && at.Some? && at.value > 0 &&
    exists j :: at.value + 1 < j < |value| - 1 && value[j] == '.'
  }

  /** An '@' absent from a prefix and present at its end counts once more. */
  lemma {:induction false} OccurrencesSplit(s: string, c: char, i: nat)
    requires i <= |s|
    ensures Occurrences(s, c) == Occurrences(s[..i], c) + Occurrences(s[i..], c)
  {
    if i > 0 {
      assert s[..i][1..] == s[1..][..i - 1];
      assert s[i..] == s[1..][i - 1..];
      OccurrencesSplit(s[1..], c, i - 1);
    }
  }

  lemma {:induction false} OccurrencesZero(s: string, c: char)
    ensures Occurrences(s, c) == 0 <==> forall k :: 0 <= k < |s| ==> s[k] != c
  {
    if s != [] {
      OccurrencesZero(s[1..], c);
      assert forall k :: 1 <= k < |s| ==> s[k] == s[1..][k - 1];
    }
  }

  /** An address passing the checklist matches the regular expression. */
  lemma ChecklistMatchesRegex(value: string) returns (i: nat, j: nat)
    requires IsValidEmail(value)
    ensures EmailSplit(value, i, j)
  {
    i := IndexOf(value, '@').value;
    j :| i + 1 < j < |value| - 1 && value[j] == '.';
    OccurrencesSplit(value, '@', i + 1);
    assert value[..i + 1][..i] == value[..i];
    OccurrencesSplit(value[..i + 1], '@', i);
    OccurrencesZero(value[..i], '@');
    assert value[..i + 1][i..] == [value[i]];
    assert Occurrences(value[i + 1..], '@') == 0;
    OccurrencesZero(value[i + 1..], '@');
    forall k | i < k < |value|
      ensures value[k] != '@'
    {
      assert value[k] == value[i + 1..][k - i - 1];
    }
  }

  /** A string matching the regular expression passes the checklist. */
  lemma RegexMatchesChecklist(value: string, i: nat, j: nat)
    requires EmailSplit(value, i, j)
    ensures IsValidEmail(value)
  {
    forall k | 0 <= k < |value| && k != i
      ensures PlainChar(value[k])
    {
      if k < i { assert value[k] == value[..i][k]; }
      else if k < j { assert value[k] == value[i + 1..j][k - i - 1]; }
      else if k > j { assert value[k] == value[j + 1..][k - j - 1]; }
    }
    assert IndexOf(value, '@') == Some(i);
    OccurrencesSplit(value, '@', i);
    OccurrencesZero(value[..i], '@');
    OccurrencesSplit(value[i..], '@', 1);
    assert value[i..][..1] == [value[i]];
    forall k | 0 <= k < |value[i..][1..]|
      ensures value[i..][1..][k] != '@'
    {
      assert value[i..][1..][k] == value[i + 1 + k];
    }
    OccurrencesZero(value[i..][1..], '@');
  }

  /** The checklist and the regular expression accept the same strings. */
  lemma EmailChecklistIsRegex(value: string)
    ensures IsValidEmail(value) <==> exists i: nat, j: nat :: EmailSplit(value, i, j)
  {
    if IsValidEmail(value) {
      var i, j := ChecklistMatchesRegex(value);
    }
    if exists i: nat, j: nat :: EmailSplit(value, i, j) {
      var i: nat, j: nat :| EmailSplit(value, i, j);
      RegexMatchesChecklist(value, i, j);
    }
  }

  /** Empty, without a domain dot or with a second '@', an address is
      refused; a plain one passes. */
  lemma EmailExamples()
    ensures !IsValidEmail("")
    ensures !IsValidEmail("a@b")
    ensures !IsValidEmail("a@@b.c")
    ensures IsValidEmail("a@b.c")
  {
    var ok := "a@b.c";
    assert IndexOf(ok, '@') == Some(1);
    assert ok[3] == '.';
    var twice := "a@@b.c";
    assert Occurrences(twice, '@') == 2;
  }
}
