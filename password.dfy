/**
 * The password strength meter of the web client: five rules, a score that
 * counts the rules met, and "strong" from four rules up.
 */
module PasswordStrength {
  import opened Common

  /** The rules, one flag each, in the order the meter lists them. */
  datatype Rules = Rules(length: bool, upper: bool, lower: bool, number: bool, special: bool)

  datatype Strength = Strength(score: nat, rules: Rules, isStrong: bool)

  const MinLength := 8

  predicate IsUpper(c: char) { 'A' <= c <= 'Z' }
  predicate IsLower(c: char) { 'a' <= c <= 'z' }

  /** Inside the class `[A-Za-z0-9]`. */
  predicate IsAlphanumeric(c: char) { IsUpper(c) || IsLower(c) || IsDigit(c) }

  /** Some character of `s` satisfies `p` (a regular expression test on one class). */
  predicate Has(s: string, p: char -> bool)
  {
    exists i :: 0 <= i < |s| && p(s[i])
  }

  /** The UTF-16 code units of one character: two for one outside the Basic Multilingual Plane. */
  function CodeUnits(c: char): (n: nat)
    ensures n == 1 || n == 2
  {
    if c > '\U{FFFF}' then 2 else 1
  }

  /** JavaScript's `length` of a string: its UTF-16 code units, not its characters. */
  function Utf16Length(s: string): (n: nat)
    ensures |s| <= n <= 2 * |s|
  {
    if s == [] then 0 else CodeUnits(s[0]) + Utf16Length(s[1..])
  }

  /** The length of a concatenation is the sum of the lengths. */
  lemma {:induction false} Utf16LengthAppend(a: string, b: string)
    ensures Utf16Length(a + b) == Utf16Length(a) + Utf16Length(b)
    decreases |a|
  {
    if a == [] {
      assert a + b == b;
    } else {
      assert (a + b)[1..] == a[1..] + b;
      Utf16LengthAppend(a[1..], b);
    }
  }

  /** The rule flags, as `Object.values` lists them. */
  function Flags(r: Rules): (f: seq<bool>)
    ensures |f| == 5
  {
    [r.length, r.upper, r.lower, r.number, r.special]
  }

  /** The number of `true` entries, as `filter(Boolean).length`. */
  function TrueCount(s: seq<bool>): (n: nat)
    ensures n <= |s|
  {
    if s == [] then 0 else (if s[0] then 1 else 0) + TrueCount(s[1..])
  }

  /** The number of rules met, counted rule by rule. */
  function RulesMet(r: Rules): (n: nat)
    ensures n <= 5
  {
    (if r.length then 1 else 0) + (if r.upper then 1 else 0) + (if r.lower then 1 else 0) +
    (if r.number then 1 else 0) + (if r.special then 1 else 0)
  }

  /** `getPasswordStrength`. */
  function GetPasswordStrength(password: string): (r: Strength)
    ensures r.rules.length <==> Utf16Length(password) >= 8
    ensures |password| >= 8 ==> r.rules.length
    ensures r.rules.upper <==> Has(password, IsUpper)
    ensures r.rules.lower <==> Has(password, IsLower)
    ensures r.rules.number <==> Has(password, IsDigit)
    ensures r.rules.special <==> exists i :: 0 <= i < |password| && !IsAlphanumeric(password[i])
    ensures r.score == RulesMet(r.rules) && r.score <= 5
    ensures r.isStrong <==> r.score >= 4
  {
    var rules := Rules(Utf16Length(password) >= MinLength, Has(password, IsUpper), Has(password, IsLower),
                       Has(password, IsDigit), Has(password, c => !IsAlphanumeric(c)));
    var score := TrueCount(Flags(rules));
    CountTrueFlags(rules);
    Strength(score, rules, score >= 4)
  }

  /** Counting the true flags of the rule list gives one per rule met. */
  lemma CountTrueFlags(r: Rules)
    ensures TrueCount(Flags(r)) == RulesMet(r)
  {
    var f := Flags(r);
    assert TrueCount(f[4..]) == (if f[4] then 1 else 0) + TrueCount(f[5..]);
    assert TrueCount(f[3..]) == (if f[3] then 1 else 0) + TrueCount(f[4..]);
    assert TrueCount(f[2..]) == (if f[2] then 1 else 0) + TrueCount(f[3..]);
  }

  /** The empty password meets no rule and is weak. */
  lemma EmptyPasswordScoresZero()
    ensures GetPasswordStrength("").score == 0 && !GetPasswordStrength("").isStrong
  {
  }

  /** Strength is reached with every rule but one: a seven-character password
      with all four character classes is strong. */
  lemma ShortPasswordCanBeStrong()
    ensures Utf16Length("Ab1!xyz") < MinLength && GetPasswordStrength("Ab1!xyz").isStrong
  {
    var p := "Ab1!xyz";
    assert IsUpper(p[0]) && IsLower(p[1]) && IsDigit(p[2]) && !IsAlphanumeric(p[3]);
    assert Utf16Length(p) == 7 by {
      assert p[1..][1..][1..][1..][1..][1..][1..] == [];
    }
  }

  /** Four emoji are eight code units: they meet the length rule, although
      they are only four characters. */
  lemma AstralCharactersCountTwice()
    ensures var p := "\U{1F600}\U{1F600}\U{1F600}\U{1F600}";
      |p| == 4 && GetPasswordStrength(p).rules.length
  {
    var p := "\U{1F600}\U{1F600}\U{1F600}\U{1F600}";
    assert p[1..][1..][1..][1..] == [];
    assert Utf16Length(p) == 8;
  }

  /** A strong password fails at most one rule; a password of all five rules
      scores five. */
  lemma StrongFailsAtMostOneRule(password: string)
    ensures var s := GetPasswordStrength(password);
      s.isStrong <==> (s.rules.length && s.rules.upper && s.rules.lower && s.rules.number) ||
                      (s.rules.length && s.rules.upper && s.rules.lower && s.rules.special) ||
                      (s.rules.length && s.rules.upper && s.rules.number && s.rules.special) ||
                      (s.rules.length && s.rules.lower && s.rules.number && s.rules.special) ||
                      (s.rules.upper && s.rules.lower && s.rules.number && s.rules.special)
  {
  }

  /** A character class met by a password is met by any extension of it. */
  lemma HasExtends(p: string, more: string, pr: char -> bool)
    ensures Has(p, pr) ==> Has(p + more, pr)
  {
    if Has(p, pr) {
      var i :| 0 <= i < |p| && pr(p[i]);
      assert (p + more)[i] == p[i];
    }
  }

  /** Lengthening a password never loses a rule, so never lowers the score. */
  lemma AppendingNeverWeakens(password: string, more: string)
    ensures GetPasswordStrength(password).score <= GetPasswordStrength(password + more).score
  {
    var p, q := password, password + more;
    Utf16LengthAppend(p, more);
    HasExtends(p, more, IsUpper);
    HasExtends(p, more, IsLower);
    HasExtends(p, more, IsDigit);
    if exists i :: 0 <= i < |p| && !IsAlphanumeric(p[i]) {
      var i :| 0 <= i < |p| && !IsAlphanumeric(p[i]);
      assert q[i] == p[i];
    }
  }
}
