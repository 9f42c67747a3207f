/**
 * Incident numbers "INC-<Ymd>-<nnnn>": a per-day prefix followed by a
 * sequence number left-padded with '0' to at least four digits.
 *
 * `GenerateIncidentNumber` is the generator as the model class writes it:
 * it takes the lexicographically greatest number under today's prefix and
 * adds one to the integer value of its last four characters.
 * `NextIncidentNumber` is the corrected generator that the rest of the model
 * uses: it adds one to the greatest sequence number under the prefix, read
 * in full, and is proved never to repeat an existing number.
 */
module IncidentNumber {
  import opened Common

  // ---------------------------------------------------------------------
  // Decimal digits

  function DigitChar(d: nat): (c: char)
    requires d < 10
    ensures IsDigit(c)
  {
    ('0' as int + d) as char
  }

  function DigitVal(c: char): (d: nat)
    requires IsDigit(c)
    ensures d < 10
  {
    c as int - '0' as int
  }

  /** The number written by a string of decimal digits, most significant first. */
  function DigitsValue(s: string): nat
    requires AllDigits(s)
  {
    if s == [] then 0 else DigitsValue(s[..|s| - 1]) * 10 + DigitVal(s[|s| - 1])
  }

  /** The decimal representation of `n`, without leading zeros. */
  function Digits(n: nat): (s: string)
    ensures |s| >= 1 && AllDigits(s)
    ensures DigitsValue(s) == n
  {
    if n < 10 then [DigitChar(n)]
    else
      var s := Digits(n / 10) + [DigitChar(n % 10)];
      assert s[..|s| - 1] == Digits(n / 10);
      s
  }

  lemma {:induction false} LeadingZeroIgnored(s: string)
    ensures AllDigits(s) ==> AllDigits(['0'] + s) && DigitsValue(['0'] + s) == DigitsValue(s)
  {
    if s != [] && AllDigits(s) {
      var t := ['0'] + s;
      assert t[..|t| - 1] == ['0'] + s[..|s| - 1];
      LeadingZeroIgnored(s[..|s| - 1]);
    }
  }

  /** PHP `str_pad($s, $width, '0', STR_PAD_LEFT)`: never truncates. */
  function PadLeftZeros(s: string, width: nat): (r: string)
    ensures |r| == if |s| >= width then |s| else width
    ensures AllDigits(s) ==> AllDigits(r) && DigitsValue(r) == DigitsValue(s)
    decreases width - |s|
  {
    if |s| >= width then s
    else
      var r := PadLeftZeros(['0'] + s, width);
      LeadingZeroIgnored(s);
      r
  }

  /** The maximal run of digits at the start of `s`. */
  function LeadingDigits(s: string): (r: string)
    ensures AllDigits(r) && r <= s
    ensures AllDigits(s) ==> r == s
  {
    if s != [] && IsDigit(s[0]) then [s[0]] + LeadingDigits(s[1..]) else []
  }

  /** PHP `(int)` of a string that starts with digits (0 when it does not). */
  function IntCast(s: string): nat
  {
    DigitsValue(LeadingDigits(s))
  }

  /** PHP `substr($s, -4)`: the last four characters, or all of a shorter string. */
  function LastFour(s: string): (r: string)
    ensures |r| == if |s| < 4 then |s| else 4
    ensures r == s[|s| - |r|..]
  {
    if |s| < 4 then s else s[|s| - 4..]
  }

  // ---------------------------------------------------------------------
  // Lexicographic order, as ORDER BY on a string column

  predicate LexLess(a: string, b: string)
  {
    if a == [] then b != []
    else b != [] && (a[0] < b[0] || (a[0] == b[0] && LexLess(a[1..], b[1..])))
  }

  lemma {:induction false} LexLessIrreflexiveTotal(a: string, b: string)
    ensures !(LexLess(a, b) && LexLess(b, a))
    ensures a == b || LexLess(a, b) || LexLess(b, a)
  {
    if a != [] && b != [] && a[0] == b[0] {
      LexLessIrreflexiveTotal(a[1..], b[1..]);
      if a[1..] == b[1..] {
        assert a == [a[0]] + a[1..] && b == [b[0]] + b[1..];
      }
    }
  }

  lemma {:induction false} LexLessTransitive(a: string, b: string, c: string)
    requires LexLess(a, b) && LexLess(b, c)
    ensures LexLess(a, c)
  {
    if a != [] && a[0] == b[0] && b[0] == c[0] {
      LexLessTransitive(a[1..], b[1..], c[1..]);
    }
  }

  /** The greatest string in a non-empty sequence. */
  function MaxLex(s: seq<string>): (m: string)
    requires |s| > 0
    ensures m in s
    ensures forall x :: x in s ==> !LexLess(m, x)
  {
    if |s| == 1 then
      LexLessIrreflexiveTotal(s[0], s[0]);
      s[0]
    else
      var rest := MaxLex(s[1..]);
      LexLessIrreflexiveTotal(s[0], rest);
      if LexLess(s[0], rest) then
        assert forall x :: x in s ==> x == s[0] || x in s[1..];
        rest
      else
        assert forall x :: x in s[1..] ==> !LexLess(s[0], x) by {
          forall x | x in s[1..] ensures !LexLess(s[0], x) {
            LexLessIrreflexiveTotal(rest, x);
            if LexLess(s[0], x) && x != rest {
              LexLessIrreflexiveTotal(s[0], rest);
              LexLessTransitive(rest, s[0], x);
            }
          }
        }
        assert forall x :: x in s ==> x == s[0] || x in s[1..];
        LexLessIrreflexiveTotal(s[0], s[0]);
        s[0]
  }

  // ---------------------------------------------------------------------
  // The generator

  /** "INC-" + date + "-", where `date` is today formatted as Ymd. */
  function Prefix(date: string): string
  {
    "INC-" + date + "-"
  }

  /** The existing numbers that `LIKE 'prefix%'` selects. */
  function UnderPrefix(existing: seq<string>, prefix: string): (r: seq<string>)
    ensures forall x :: x in r <==> x in existing && StartsWith(x, prefix)
  {
    Filter(existing, x => StartsWith(x, prefix))
  }

  function Format(prefix: string, n: nat): (r: string)
    ensures StartsWith(r, prefix) && |r| >= |prefix| + 4
    ensures AllDigits(r[|prefix|..]) && DigitsValue(r[|prefix|..]) == n
  {
    var r := prefix + PadLeftZeros(Digits(n), 4);
    assert r[|prefix|..] == PadLeftZeros(Digits(n), 4);
    r
  }

  /** The sequence number the source computes: last four characters of the
      lexicographically greatest number under the prefix, plus one. */
  function AsWrittenSequence(date: string, existing: seq<string>): nat
  {
    var under := UnderPrefix(existing, Prefix(date));
    if under == [] then 1 else IntCast(LastFour(MaxLex(under))) + 1
  }

  /** The generator as written. */
  function GenerateIncidentNumber(date: string, existing: seq<string>): (r: string)
    ensures StartsWith(r, Prefix(date)) && |r| >= |Prefix(date)| + 4
    ensures AllDigits(r[|Prefix(date)|..])
    ensures DigitsValue(r[|Prefix(date)|..]) == AsWrittenSequence(date, existing)
  {
    Format(Prefix(date), AsWrittenSequence(date, existing))
  }

  /** The first incident of a day is numbered 0001. */
  lemma FirstOfTheDay(date: string, existing: seq<string>)
    requires forall x :: x in existing ==> !StartsWith(x, Prefix(date))
    ensures GenerateIncidentNumber(date, existing) == Prefix(date) + "0001"
    ensures NextIncidentNumber(date, existing) == Prefix(date) + "0001"
  {
    assert UnderPrefix(existing, Prefix(date)) == [];
    assert MaxSequence(UnderPrefix(existing, Prefix(date)), |Prefix(date)|) == 0;
    assert Digits(1) == "1";
    assert ['0'] + "1" == "01" && ['0'] + "01" == "001" && ['0'] + "001" == "0001";
    assert PadLeftZeros("1", 4) == PadLeftZeros("01", 4);
    assert PadLeftZeros("01", 4) == PadLeftZeros("001", 4);
    assert PadLeftZeros("001", 4) == PadLeftZeros("0001", 4) == "0001";
  }

  /** On a day that already has ...-9999 and ...-10000, the generator as
      written produces ...-10000 again: "9999" sorts after "10000" as text,
      so the last four characters it reads are "9999". */
  lemma AsWrittenRepeatsANumber(date: string)
    ensures var existing := [Prefix(date) + "9999", Prefix(date) + "10000"];
            GenerateIncidentNumber(date, existing) == existing[1]
  {
    var p := Prefix(date);
    var existing := [p + "9999", p + "10000"];
    BothUnderPrefix(p, existing);
    MaxOfTwo(p);
    LastFourOfFirst(p);
    assert AsWrittenSequence(date, existing) == 10000;
    FormatTenThousand(p);
  }

  lemma BothUnderPrefix(p: string, existing: seq<string>)
    requires existing == [p + "9999", p + "10000"]
    ensures UnderPrefix(existing, p) == existing
  {
    assert StartsWith(existing[0], p) && StartsWith(existing[1], p);
    assert existing[1..][1..] == [];
    assert Filter(existing[1..], x => StartsWith(x, p)) == existing[1..];
  }

  lemma LastFourOfFirst(p: string)
    ensures IntCast(LastFour(p + "9999")) == 9999
  {
    assert LastFour(p + "9999") == "9999";
    assert LeadingDigits("9999") == "9999";
    assert "9"[..0] == [] && DigitsValue("9") == 9;
    assert "99"[..1] == "9" && DigitsValue("99") == 99;
    assert "999"[..2] == "99" && DigitsValue("999") == 999;
    assert "9999"[..3] == "999" && DigitsValue("9999") == 9999;
  }

  lemma MaxOfTwo(p: string)
    ensures MaxLex([p + "9999", p + "10000"]) == p + "9999"
  {
    assert LexLess("10000", "9999");
    LexLessSharedPrefix(p, "10000", "9999");
    LexLessIrreflexiveTotal(p + "10000", p + "9999");
    assert [p + "9999", p + "10000"][1..] == [p + "10000"];
  }

  lemma FormatTenThousand(p: string)
    ensures Format(p, 10000) == p + "10000"
  {
    assert Digits(1) == "1";
    assert Digits(10) == "10";
    assert Digits(100) == "100";
    assert Digits(1000) == "1000";
    assert Digits(10000) == "10000";
  }

  lemma {:induction false} LexLessSharedPrefix(p: string, a: string, b: string)
    requires LexLess(a, b)
    ensures LexLess(p + a, p + b)
  {
    if p == [] {
      assert p + a == a && p + b == b;
    } else {
      assert (p + a)[0] == p[0] == (p + b)[0];
      assert (p + a)[1..] == p[1..] + a && (p + b)[1..] == p[1..] + b;
      LexLessSharedPrefix(p[1..], a, b);
    }
  }

  /** The greatest full sequence number after the prefix among `under`, 0 if none. */
  function MaxSequence(under: seq<string>, plen: nat): (m: nat)
    ensures forall x :: x in under && plen <= |x| ==> IntCast(x[plen..]) <= m
  {
    if under == [] then 0
    else
      var rest := MaxSequence(under[1..], plen);
      var here := if plen <= |under[0]| then IntCast(under[0][plen..]) else 0;
      assert forall x :: x in under ==> x == under[0] || x in under[1..];
      if here > rest then here else rest
  }

  /** The corrected generator: one past the greatest sequence number of the day. */
  function NextIncidentNumber(date: string, existing: seq<string>): (r: string)
    ensures StartsWith(r, Prefix(date)) && |r| >= |Prefix(date)| + 4
    ensures AllDigits(r[|Prefix(date)|..])
    ensures r !in existing
  {
    var p := Prefix(date);
    var under := UnderPrefix(existing, p);
    var n := MaxSequence(under, |p|) + 1;
    var r := Format(p, n);
    assert IntCast(r[|p|..]) == n by {
      assert LeadingDigits(r[|p|..]) == r[|p|..];
    }
    r
  }
}
