/** Calendar dates as the fixture pipeline reads and writes them: Python's
    `datetime.strptime(text, "%d %b %Y")` (for example "5 Oct 2025") and
    `strftime("%d/%m/%Y")` (for example "05/10/2025"), in the C locale. */
module Dates {
  import opened Wrappers
  import opened Text

  datatype Date = Date(year: int, month: int, day: int)

  predicate IsLeapYear(year: int) {
    year % 4 == 0 && (year % 100 != 0 || year % 400 == 0)
  }

  function DaysInMonth(year: int, month: int): (n: int)
    requires 1 <= month <= 12
    ensures 28 <= n <= 31
  {
    if month == 2 then (if IsLeapYear(year) then 29 else 28)
    else if month == 4 || month == 6 || month == 9 || month == 11 then 30
    else 31
  }

  /** A date `datetime` accepts: years 1 to 9999 and a day that exists in its month. */
  predicate ValidDate(d: Date) {
    1 <= d.year <= 9999 && 1 <= d.month <= 12 && 1 <= d.day <= DaysInMonth(d.year, d.month)
  }

  /** `a.date() < b.date()`. */
  predicate Before(a: Date, b: Date) {
    a.year < b.year
    || (a.year == b.year && a.month < b.month)
    || (a.year == b.year && a.month == b.month && a.day < b.day)
  }

  /** `%b`: the month an English three-letter abbreviation names, in any case
      ("Jan", "JAN" and "jan" are all January). */
  function MonthNumber(token: string): (m: Option<int>)
    ensures m.Some? ==> 1 <= m.value <= 12 && |token| == 3
  {
    if |token| != 3 then None
    else
      match (LowerChar(token[0]), LowerChar(token[1]), LowerChar(token[2]))
      case ('j', 'a', 'n') => Some(1)
      case ('f', 'e', 'b') => Some(2)
      case ('m', 'a', 'r') => Some(3)
      case ('a', 'p', 'r') => Some(4)
      case ('m', 'a', 'y') => Some(5)
      case ('j', 'u', 'n') => Some(6)
      case ('j', 'u', 'l') => Some(7)
      case ('a', 'u', 'g') => Some(8)
      case ('s', 'e', 'p') => Some(9)
      case ('o', 'c', 't') => Some(10)
      case ('n', 'o', 'v') => Some(11)
      case ('d', 'e', 'c') => Some(12)
      case _ => None
  }

  /** Case does not matter to the month directive. */
  lemma MonthNumberIgnoresCase(token: string)
    ensures MonthNumber(Lower(token)) == MonthNumber(token)
  {
    if |token| == 3 {
      var t := Lower(token);
      assert LowerChar(t[0]) == LowerChar(token[0]);
      assert LowerChar(t[1]) == LowerChar(token[1]);
      assert LowerChar(t[2]) == LowerChar(token[2]);
    }
  }

  /** Number of whitespace characters at the start of `s` (what `\s+` consumes). */
  function LeadingSpaces(s: string): (n: nat)
    ensures n <= |s|
    ensures forall i :: 0 <= i < n ==> IsSpace(s[i])
    ensures n == |s| || !IsSpace(s[n])
  {
    if s != [] && IsSpace(s[0]) then 1 + LeadingSpaces(s[1..]) else 0
  }

  predicate AllDigits(s: string) {
    forall i :: 0 <= i < |s| ==> IsDigit(s[i])
  }

  /** The day directive `%d`, whose pattern is `3[01]|[12]\d|0[1-9]|[1-9]| [1-9]`,
      followed by the whitespace the format's space requires: the day and what
      follows the day token. Two digits must form a day from 01 to 31, since a
      single digit followed by a digit cannot be followed by whitespace. */
  function DayToken(s: string): (r: Option<(int, string)>)
    ensures r.Some? ==> 1 <= r.value.0 <= 31 && |r.value.1| < |s|
  {
    if |s| >= 2 && s[0] == ' ' && '1' <= s[1] <= '9' then Some((DigitValue(s[1]), s[2..]))
    else if |s| >= 2 && IsDigit(s[0]) && IsDigit(s[1]) then
      var v := 10 * DigitValue(s[0]) + DigitValue(s[1]);
      if 1 <= v <= 31 then Some((v, s[2..])) else None
    else if |s| >= 1 && '1' <= s[0] <= '9' then Some((DigitValue(s[0]), s[1..]))
    else None
  }

  /** `datetime.strptime(s, "%d %b %Y")`: a day, whitespace, a month abbreviation
      in any case, whitespace, exactly four digits and nothing more; `None` where
      Python raises `ValueError`, including a day the month does not have and the
      year 0. */
  function ParseDayMonYear(s: string): (r: Option<Date>)
    ensures r.Some? ==> ValidDate(r.value)
  {
    match DayToken(s)
    case None => None
    case Some((day, rest)) => ParseAfterDay(day, rest)
  }

  /** Whitespace, a month abbreviation and the year, after a day token. */
  function ParseAfterDay(day: int, rest: string): (r: Option<Date>)
    ensures r.Some? ==> ValidDate(r.value) && r.value.day == day
  {
    var gap := LeadingSpaces(rest);
    if gap == 0 || |rest| < gap + 3 then None
    else
      match MonthNumber(rest[gap..gap + 3])
      case None => None
      case Some(month) =>
        match ParseYear(rest[gap + 3..])
        case None => None
        case Some(year) =>
          if 1 <= day <= DaysInMonth(year, month) then Some(Date(year, month, day)) else None
  }

  /** Whitespace, then exactly four digits that do not spell the year 0. */
  function ParseYear(tail: string): (r: Option<int>)
    ensures r.Some? ==> 1 <= r.value <= 9999
  {
    var gap := LeadingSpaces(tail);
    if gap == 0 || |tail| != gap + 4 || !AllDigits(tail[gap..]) then None
    else
      var year := DecimalValue(tail[gap..]);
      FourDigitsBound(tail[gap..]);
      if 1 <= year then Some(year) else None
  }

  lemma FourDigitsBound(s: string)
    requires |s| == 4 && AllDigits(s)
    ensures DecimalValue(s) <= 9999
  {
    DigitsBound(s);
  }

  /** A string of k digits denotes a number below 10^k. */
  lemma {:induction false} DigitsBound(s: string)
    requires AllDigits(s)
    ensures DecimalValue(s) < Power10(|s|)
  {
    if s != [] {
      DigitsBound(s[..|s| - 1]);
    }
  }

  /** `n` written with at least `width` digits, zero-padded on the left. */
  function Padded(n: nat, width: nat): (s: string)
    ensures |s| >= width && AllDigits(s) && DecimalValue(s) == n
    ensures 1 <= width && n < Power10(width) ==> |s| == width
  {
    var digits := NatToString(n);
    DigitCount(n, width);
    if |digits| >= width then digits
    else
      LeadingZeros(width - |digits|, digits);
      Zeros(width - |digits|) + digits
  }

  /** A number below 10^k needs at most k digits (at least one). */
  lemma {:induction false} DigitCount(n: nat, k: nat)
    ensures n < Power10(k) && k >= 1 ==> |NatToString(n)| <= k
  {
    if n >= 10 && k >= 1 && n < Power10(k) {
      DigitCount(n / 10, k - 1);
    }
  }

  /** Leading zeros do not change the value `int()` reads. */
  lemma {:induction false} LeadingZeros(k: nat, s: string)
    requires AllDigits(s)
    ensures AllDigits(Zeros(k) + s) && DecimalValue(Zeros(k) + s) == DecimalValue(s)
  {
    if s == [] {
      AllZerosValue(k);
      assert Zeros(k) + s == Zeros(k);
    } else {
      var init := s[..|s| - 1];
      LeadingZeros(k, init);
      assert (Zeros(k) + s)[..|Zeros(k) + s| - 1] == Zeros(k) + init;
    }
  }

  lemma {:induction false} AllZerosValue(k: nat)
    ensures AllDigits(Zeros(k)) && DecimalValue(Zeros(k)) == 0
  {
    if k > 0 {
      AllZerosValue(k - 1);
      assert Zeros(k) == Zeros(k - 1) + "0" by { ZerosSnoc(k - 1); }
      assert Zeros(k)[..k - 1] == Zeros(k - 1);
    }
  }

  lemma ZerosSnoc(k: nat)
    ensures Zeros(k + 1) == Zeros(k) + "0"
  {
  }

  /** `strftime("%d/%m/%Y")`: two-digit day, two-digit month, four-digit year. */
  function FormatDate(d: Date): (s: string)
    requires ValidDate(d)
    ensures |s| == 10 && s[2] == '/' && s[5] == '/'
    ensures AllDigits(s[..2]) && AllDigits(s[3..5]) && AllDigits(s[6..])
    ensures DecimalValue(s[..2]) == d.day && DecimalValue(s[3..5]) == d.month
    ensures DecimalValue(s[6..]) == d.year
  {
    var dd := Padded(d.day, 2);
    var mm := Padded(d.month, 2);
    var yyyy := Padded(d.year, 4);
    assert (dd + "/" + mm + "/" + yyyy)[..2] == dd;
    assert (dd + "/" + mm + "/" + yyyy)[3..5] == mm;
    assert (dd + "/" + mm + "/" + yyyy)[6..] == yyyy;
    dd + "/" + mm + "/" + yyyy
  }

  /** The "DD Mon YYYY" text of a date, in the form the source's pages carry. */
  function DayMonYearText(d: Date): string
    requires ValidDate(d)
  {
    Padded(d.day, 2) + " " + MonthText(d.month) + " " + Padded(d.year, 4)
  }

  function MonthText(month: int): string
    requires 1 <= month <= 12
  {
    if month == 1 then "Jan" else if month == 2 then "Feb" else if month == 3 then "Mar"
    else if month == 4 then "Apr" else if month == 5 then "May" else if month == 6 then "Jun"
    else if month == 7 then "Jul" else if month == 8 then "Aug" else if month == 9 then "Sep"
    else if month == 10 then "Oct" else if month == 11 then "Nov" else "Dec"
  }

  /** Reading back the "DD Mon YYYY" text of a valid date gives that date. */
  lemma ParseDayMonYearText(d: Date)
    requires ValidDate(d)
    ensures ParseDayMonYear(DayMonYearText(d)) == Some(d)
  {
    var dd, mon, yyyy := Padded(d.day, 2), MonthText(d.month), Padded(d.year, 4);
    var rest := " " + mon + " " + yyyy;
    assert DayMonYearText(d) == dd + rest;
    TwoDigitDay(dd, rest);
    MonthTextNumber(d.month);
    MonthAndYear(d.day, mon, d.month, yyyy);
  }

  lemma MonthAndYear(day: int, mon: string, month: int, yyyy: string)
    requires 1 <= month <= 12 && MonthNumber(mon) == Some(month) && !IsSpace(mon[0])
    requires |yyyy| == 4 && AllDigits(yyyy) && 1 <= DecimalValue(yyyy)
    requires 1 <= day <= DaysInMonth(DecimalValue(yyyy), month)
    ensures ParseAfterDay(day, " " + mon + " " + yyyy) == Some(Date(DecimalValue(yyyy), month, day))
  {
    var rest := " " + mon + " " + yyyy;
    YearAfterGap(yyyy);
    assert LeadingSpaces(rest) == 1 by {
      assert rest[0] == ' ' && rest[1] == mon[0];
    }
    assert rest[1..4] == mon && rest[4..] == " " + yyyy;
  }

  lemma TwoDigitDay(dd: string, rest: string)
    requires |dd| == 2 && AllDigits(dd) && 1 <= DecimalValue(dd) <= 31
    ensures DayToken(dd + rest) == Some((DecimalValue(dd), rest))
  {
    assert dd[..1][..0] == [];
    assert (dd + rest)[0] == dd[0] && (dd + rest)[1] == dd[1];
    assert (dd + rest)[2..] == rest;
  }

  lemma YearAfterGap(yyyy: string)
    requires |yyyy| == 4 && AllDigits(yyyy) && 1 <= DecimalValue(yyyy)
    ensures ParseYear(" " + yyyy) == Some(DecimalValue(yyyy))
  {
    var tail := " " + yyyy;
    assert tail[1] == yyyy[0];
    assert LeadingSpaces(tail) == 1;
    assert tail[1..] == yyyy;
  }

  /** Each month's text reads back as that month; it starts with a capital. */
  lemma MonthTextNumber(month: int)
    requires 1 <= month <= 12
    ensures MonthNumber(MonthText(month)) == Some(month)
    ensures |MonthText(month)| == 3 && 'A' <= MonthText(month)[0] <= 'Z'
  {
  }

  function Power10(n: nat): nat {
    if n == 0 then 1 else 10 * Power10(n - 1)
  }

  function Zeros(n: nat): (s: string)
    ensures |s| == n && forall i :: 0 <= i < n ==> s[i] == '0'
  {
    if n == 0 then "" else "0" + Zeros(n - 1)
  }
}
