/**
 * Text primitives shared by the whole model: substring containment (Python's `k in s`,
 * SQL `LIKE '%k%'`), prefix and suffix tests, ASCII lower-casing and decimal rendering.
 */
module Text {

  /** `k` occurs in `s` starting at index `i`. */
  predicate OccursAt(s: string, k: string, i: int) {
    0 <= i && i + |k| <= |s| && s[i..i + |k|] == k
  }

  /** Python's `k in s` on strings: literal, case-sensitive substring containment. */
  predicate Contains(s: string, k: string) {
    exists i :: 0 <= i <= |s| - |k| && OccursAt(s, k, i)
  }

  /** Python's `s.startswith(p)`. */
  predicate StartsWith(s: string, p: string) {
    |p| <= |s| && s[..|p|] == p
  }

  /** Python's `s.endswith(p)`. */
  predicate EndsWith(s: string, p: string) {
    |p| <= |s| && s[|s| - |p|..] == p
  }

  /** The empty string occurs in every string; this is why an empty allergy tag drops every recipe. */
  lemma EmptyIsEverywhere(s: string)
    ensures Contains(s, "")
  {
    assert OccursAt(s, "", 0);
  }

  /** A keyword whose first character never appears in `s` does not occur in `s`. */
  lemma AbsentFirstChar(s: string, k: string)
    requires |k| > 0 && k[0] !in s
    ensures !Contains(s, k)
  {
    forall i | 0 <= i <= |s| - |k|
      ensures !OccursAt(s, k, i)
    {
      assert s[i] == s[i..i + |k|][0];
    }
  }

  /** An occurrence in `s` is still an occurrence once text is added on either side. */
  lemma ContainsInContext(a: string, s: string, b: string, k: string)
    requires Contains(s, k)
    ensures Contains(a + s + b, k)
  {
    var i :| 0 <= i <= |s| - |k| && OccursAt(s, k, i);
    assert (a + s + b)[|a| + i..|a| + i + |k|] == s[i..i + |k|];
    assert OccursAt(a + s + b, k, |a| + i);
  }

  /** A character that occurs in `k` but nowhere in `s` keeps `k` out of `s`. */
  lemma AbsentSomeChar(s: string, k: string, j: int)
    requires 0 <= j < |k| && k[j] !in s
    ensures !Contains(s, k)
  {
    forall i | 0 <= i <= |s| - |k|
      ensures !OccursAt(s, k, i)
    {
      assert s[i + j] == s[i..i + |k|][j];
    }
  }

  /** Every character of `k` occurs somewhere in `s`: a cheap necessary condition for `k` to occur in `s`. */
  predicate CharsAllIn(k: string, s: string) {
    |k| == 0 || (k[0] in s && CharsAllIn(k[1..], s))
  }

  /** An occurrence needs every character of the keyword, so a failed character test rules it out. */
  lemma {:induction false} CharsAllInNeeded(s: string, k: string)
    requires Contains(s, k)
    ensures CharsAllIn(k, s)
    decreases |k|
  {
    if |k| > 0 {
      var i :| 0 <= i <= |s| - |k| && OccursAt(s, k, i);
      assert s[i] == s[i..i + |k|][0];
      assert s[i + 1..i + 1 + |k[1..]|] == s[i..i + |k|][1..];
      assert OccursAt(s, k[1..], i + 1);
      CharsAllInNeeded(s, k[1..]);
    }
  }

  /** ASCII upper case to lower case; every other character is left alone. */
  function LowerChar(c: char): char {
    if 'A' <= c <= 'Z' then (c as int + 32) as char else c
  }

  /** `s.lower()`, restricted to the ASCII letters (CJK text has no case). */
  function Lower(s: string): (r: string)
    ensures |r| == |s|
    ensures forall i :: 0 <= i < |s| ==> r[i] == LowerChar(s[i])
  {
    if |s| == 0 then "" else [LowerChar(s[0])] + Lower(s[1..])
  }

  /** A keyword without upper-case ASCII letters survives lower-casing of the text it occurs in. */
  lemma LowerKeepsOccurrence(s: string, k: string)
    requires forall j :: 0 <= j < |k| ==> !('A' <= k[j] <= 'Z')
    requires Contains(s, k)
    ensures Contains(Lower(s), k)
  {
    var i :| 0 <= i <= |s| - |k| && OccursAt(s, k, i);
    forall j | 0 <= j < |k|
      ensures Lower(s)[i + j] == k[j]
    {
      assert s[i + j] == s[i..i + |k|][j];
    }
    assert OccursAt(Lower(s), k, i);
  }

  function DigitChar(d: int): char
    requires 0 <= d < 10
  {
    (d + '0' as int) as char
  }

  /** The value of a decimal digit; any other character counts as zero. */
  function DigitValue(c: char): (d: nat)
    ensures d < 10
  {
    if '0' <= c <= '9' then c as int - '0' as int else 0
  }

  /** The number a string of decimal digits denotes, leading zeros allowed, as `int(s)` reads it. */
  function DigitsValue(s: string): nat
  {
    if |s| == 0 then 0 else DigitsValue(s[..|s| - 1]) * 10 + DigitValue(s[|s| - 1])
  }

  /** Decimal digits of a natural number, most significant first, no leading zeros. */
  function NatToString(n: nat): (r: string)
    ensures |r| >= 1
    ensures forall i :: 0 <= i < |r| ==> '0' <= r[i] <= '9'
    decreases n
  {
    if n < 10 then [DigitChar(n)] else NatToString(n / 10) + [DigitChar(n % 10)]
  }

  /** A leading zero does not change the value of a digit string. */
  lemma {:induction false} LeadingZeroValue(s: string)
    ensures DigitsValue("0" + s) == DigitsValue(s)
    decreases |s|
  {
    if |s| > 0 {
      var init := s[..|s| - 1];
      assert ("0" + s)[..|s|] == "0" + init;
      LeadingZeroValue(init);
    }
  }

  /** Reading the digits back gives the number, and only zero itself starts with '0'. */
  lemma {:induction false} NatToStringValue(n: nat)
    ensures DigitsValue(NatToString(n)) == n
    ensures n >= 10 ==> NatToString(n)[0] != '0'
    decreases n
  {
    if n >= 10 {
      var init := NatToString(n / 10);
      assert NatToString(n)[..|init|] == init;
      NatToStringValue(n / 10);
    }
  }

  /** Every character is a decimal digit. */
  predicate AllDigits(s: string) {
    forall i :: 0 <= i < |s| ==> '0' <= s[i] <= '9'
  }

  /** The Gregorian leap-year rule. */
  predicate IsLeapYear(y: int) {
    y % 4 == 0 && (y % 100 != 0 || y % 400 == 0)
  }

  /** The number of days in month `m` of year `y`. */
  function DaysInMonth(y: int, m: int): (r: int)
    requires 1 <= m <= 12
    ensures 28 <= r <= 31
    ensures m == 2 ==> (r == 29 <==> IsLeapYear(y))
  {
    if m == 2 then (if IsLeapYear(y) then 29 else 28)
    else if m == 4 || m == 6 || m == 9 || m == 11 then 30
    else 31
  }

  /**
   * A calendar date written `YYYY-MM-DD`, the form `date.isoformat()` produces: four-digit year
   * from 1, a month of the year and a day of that month.
   */
  predicate IsoDate(s: string) {
    |s| == 10 && s[4] == '-' && s[7] == '-' &&
    AllDigits(s[..4]) && AllDigits(s[5..7]) && AllDigits(s[8..]) &&
    var y, m, d := DigitsValue(s[..4]), DigitsValue(s[5..7]), DigitsValue(s[8..]);
    1 <= y && 1 <= m <= 12 && 1 <= d <= DaysInMonth(y, m)
  }

  /** The value of a two-character digit string. */
  lemma DigitsValueTwo(s: string)
    requires |s| == 2
    ensures DigitsValue(s) == DigitValue(s[0]) * 10 + DigitValue(s[1])
  {
    var head := s[..1];
    assert head[..0] == [] && head[0] == s[0];
    assert DigitsValue(head) == DigitValue(s[0]);
  }

  /** The value of a four-character digit string. */
  lemma DigitsValueFour(s: string)
    requires |s| == 4
    ensures DigitsValue(s) == DigitValue(s[0]) * 1000 + DigitValue(s[1]) * 100 + DigitValue(s[2]) * 10 + DigitValue(s[3])
  {
    assert s[..3][..2] == s[..2];
    DigitsValueTwo(s[..2]);
  }

  /** The leap day parses in a leap year and not in a common year. */
  lemma LeapDayIsChecked()
    ensures IsoDate("2024-02-29")
    ensures !IsoDate("2023-02-29")
    ensures !IsoDate("2024-13-01") && !IsoDate("2024-2-29") && !IsoDate("0000-01-01")
  {
    LeapYearLeapDay();
    CommonYearLeapDay();
    MonthThirteen();
    YearZero();
    assert |"2024-2-29"| == 9;
  }

  /** 2024-02-29 is a date. */
  lemma LeapYearLeapDay()
    ensures IsoDate("2024-02-29")
  {
    var s := "2024-02-29";
    assert s[..4] == "2024" && s[5..7] == "02" && s[8..] == "29";
    DigitsValueFour("2024");
    DigitsValueTwo("02");
    DigitsValueTwo("29");
  }

  /** 2023-02-29 is not: 2023 is a common year. */
  lemma CommonYearLeapDay()
    ensures !IsoDate("2023-02-29")
  {
    var s := "2023-02-29";
    assert s[..4] == "2023" && s[5..7] == "02" && s[8..] == "29";
    DigitsValueFour("2023");
    DigitsValueTwo("02");
    DigitsValueTwo("29");
  }

  /** There is no month 13. */
  lemma MonthThirteen()
    ensures !IsoDate("2024-13-01")
  {
    var s := "2024-13-01";
    assert s[5..7] == "13";
    DigitsValueTwo("13");
  }

  /** There is no year 0. */
  lemma YearZero()
    ensures !IsoDate("0000-01-01")
  {
    var s := "0000-01-01";
    assert s[..4] == "0000";
    DigitsValueFour("0000");
  }

  /** Python's `str(n)` for an int. */
  function IntToString(n: int): string {
    if n < 0 then "-" + NatToString(-n) else NatToString(n)
  }

  /** `sep.join(parts)`. */
  function Join(parts: seq<string>, sep: string): string {
    if |parts| == 0 then ""
    else if |parts| == 1 then parts[0]
    else parts[0] + sep + Join(parts[1..], sep)
  }
}
