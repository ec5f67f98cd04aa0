/** Calendar dates as the code prints and parses them: `strftime("%Y-%m-%d")`,
    `strftime("%Y-%m")`, `date.isoformat()` and `datetime.strptime(s, "%Y-%m-%d")`,
    plus the day count that `(a - b).days` measures. */
module Dates {
  import opened Base
  import opened Text

  datatype Date = Date(year: int, month: int, day: int)

  predicate IsLeap(y: int) { y % 4 == 0 && (y % 100 != 0 || y % 400 == 0) }

  function DaysInMonth(y: int, m: int): int
    requires 1 <= m <= 12
  {
    if m == 2 then (if IsLeap(y) then 29 else 28)
    else if m == 4 || m == 6 || m == 9 || m == 11 then 30
    else 31
  }

  /** The dates Python's `datetime` accepts. */
  predicate ValidDate(d: Date)
  {
    1 <= d.year <= 9999 && 1 <= d.month <= 12 && 1 <= d.day <= DaysInMonth(d.year, d.month)
  }

  function Pow10(w: nat): (p: nat)
    ensures p >= 1
  {
    if w == 0 then 1 else 10 * Pow10(w - 1)
  }

  function DigitChar(k: int): char
    requires 0 <= k < 10
  {
    ('0' as int + k) as char
  }

  /** The last w decimal digits of n, zero-padded. */
  function Digits(n: nat, w: nat): (s: string)
    ensures |s| == w && forall i :: 0 <= i < w ==> IsDigit(s[i])
  {
    if w == 0 then "" else Digits(n / 10, w - 1) + [DigitChar(n % 10)]
  }

  function DigitOf(c: char): (k: nat)
    requires IsDigit(c)
    ensures k < 10 && DigitChar(k) == c
  {
    c as int - '0' as int
  }

  /** The number a string of decimal digits denotes. */
  function DigitsValue(s: string): nat
    requires forall i :: 0 <= i < |s| ==> IsDigit(s[i])
  {
    if s == [] then 0 else 10 * DigitsValue(s[..|s| - 1]) + DigitOf(s[|s| - 1])
  }

  /** Printing a number that fits in w digits and reading it back gives the number. */
  lemma {:induction false} DigitsRoundTrip(n: nat, w: nat)
    requires n < Pow10(w)
    ensures DigitsValue(Digits(n, w)) == n
  {
    if w > 0 {
      var s := Digits(n, w);
      assert s[..|s| - 1] == Digits(n / 10, w - 1);
      DigitsRoundTrip(n / 10, w - 1);
    }
  }

  /** `date.isoformat()`, equal to `strftime("%Y-%m-%d")` for four-digit years. */
  function FormatDate(d: Date): (s: string)
    requires ValidDate(d)
    ensures |s| == 10 && s[4] == '-' && s[7] == '-'
  {
    Digits(d.year, 4) + "-" + Digits(d.month, 2) + "-" + Digits(d.day, 2)
  }

  /** `strftime("%Y-%m")` */
  function FormatMonth(d: Date): (s: string)
    requires ValidDate(d)
    ensures |s| == 7 && s[4] == '-'
  {
    Digits(d.year, 4) + "-" + Digits(d.month, 2)
  }

  predicate AllDigits(s: string) { forall i :: 0 <= i < |s| ==> IsDigit(s[i]) }

  /** The month field of `%m`: one or two digits denoting 1..12. */
  function MonthField(t: string): Option<int>
  {
    if 1 <= |t| <= 2 && AllDigits(t) && 1 <= DigitsValue(t) <= 12 then Some(DigitsValue(t)) else None
  }

  /** The day field of `%d`: one or two digits denoting 1..31, or a space and one digit. */
  function DayField(t: string): Option<int>
  {
    if 1 <= |t| <= 2 && AllDigits(t) && 1 <= DigitsValue(t) <= 31 then Some(DigitsValue(t))
    else if |t| == 2 && t[0] == ' ' && IsDigit(t[1]) && t[1] != '0' then Some(DigitsValue(t[1..]))
    else None
  }

  /** `datetime.strptime(s, "%Y-%m-%d")`; None stands for the ValueError it raises
      (wrong shape, unconverted text left over, or a day the month does not have). */
  function ParseDate(s: string): (r: Option<Date>)
    ensures r.Some? ==> ValidDate(r.value)
  {
    if |s| < 5 || !AllDigits(s[..4]) || s[4] != '-' then None
    else
      var rest := s[5..];
      var j := IndexOfAny(rest, {'-'});
      if j == |rest| then None
      else
        match (MonthField(rest[..j]), DayField(rest[j + 1..]))
        case (Some(m), Some(dd)) =>
          var d := Date(DigitsValue(s[..4]), m, dd);
          if ValidDate(d) then Some(d) else None
        case _ => None
  }

  /** Parsing a printed date gives the date back. */
  lemma ParseFormat(d: Date)
    requires ValidDate(d)
    ensures ParseDate(FormatDate(d)) == Some(d)
  {
    var s := FormatDate(d);
    var y := Digits(d.year, 4);
    var m := Digits(d.month, 2);
    var dd := Digits(d.day, 2);
    assert s[..4] == y;
    DigitsRoundTrip(d.year, 4);
    DigitsRoundTrip(d.month, 2);
    DigitsRoundTrip(d.day, 2);
    var rest := s[5..];
    assert rest == m + ("-" + dd);
    IndexOfAnyConcat(m, "-" + dd, {'-'});
    assert rest[..2] == m;
    assert rest[3..] == dd;
  }

  /** Days before the first of month m in year y. */
  function DaysBeforeMonth(y: int, m: int): int
    requires 1 <= m <= 12
  {
    if m == 1 then 0
    else if m == 2 then 31
    else [59, 90, 120, 151, 181, 212, 243, 273, 304, 334][m - 3] + (if IsLeap(y) then 1 else 0)
  }

  /** Proleptic Gregorian ordinal: 0001-01-01 is day 1 (`date.toordinal()`). */
  function DayNumber(d: Date): int
    requires ValidDate(d)
  {
    var y := d.year - 1;
    365 * y + y / 4 - y / 100 + y / 400 + DaysBeforeMonth(d.year, d.month) + d.day
  }

  /** Going from year y - 1 to year y, the count of multiples of k grows by one
      exactly when y is a multiple. */
  lemma MultiplesStep(y: int, k: int)
    requires k == 4 || k == 100 || k == 400
    ensures y / k - (y - 1) / k == if y % k == 0 then 1 else 0
  {
  }

  /** New Year's Day follows the last day of the year before, so ordinals of
      consecutive days always differ by one. */
  lemma NewYear(y: int)
    requires 1 <= y < 9999
    ensures DayNumber(Date(y + 1, 1, 1)) == DayNumber(Date(y, 12, 31)) + 1
  {
    MultiplesStep(y, 4);
    MultiplesStep(y, 100);
    MultiplesStep(y, 400);
    assert y % 100 == 0 ==> y % 4 == 0;
    assert y % 400 == 0 ==> y % 100 == 0;
  }

  /** The first of a month follows the last day of the month before. */
  lemma NextMonth(y: int, m: int)
    requires 1 <= y <= 9999 && 1 <= m < 12
    ensures DayNumber(Date(y, m + 1, 1)) == DayNumber(Date(y, m, DaysInMonth(y, m))) + 1
  {
  }
}
