/**
 * Calendar dates as the budget library stores them. The expenses table keeps
 * dates as ISO text ("yyyy-MM-dd HH:mm:ss"), which SQLite compares as strings;
 * for well-formed dates that comparison is the lexicographic order on
 * (year, month, day, time of day) defined here by `Before`.
 */
module Dates {
  import opened Wrappers

  /** Year, month, day and the time of day in seconds since midnight. */
  datatype DateTime = DateTime(year: int, month: int, day: int, seconds: int)

  /** The Gregorian leap-year rule used by .NET's `DateTime.DaysInMonth`. */
  predicate IsLeapYear(year: int) {
    year % 4 == 0 && (year % 100 != 0 || year % 400 == 0)
  }

  /** Number of days in a month of the Gregorian calendar. */
  function DaysInMonth(year: int, month: int): (n: int)
    requires 1 <= month <= 12
    ensures 28 <= n <= 31
    ensures n == 29 <==> month == 2 && IsLeapYear(year)
    ensures n == 28 <==> month == 2 && !IsLeapYear(year)
    ensures n == 30 <==> month in {4, 6, 9, 11}
  {
    if month == 2 then (if IsLeapYear(year) then 29 else 28)
    else if month == 4 || month == 6 || month == 9 || month == 11 then 30
    else 31
  }

  /** The values a .NET `DateTime` can hold (years 1 to 9999). */
  predicate ValidDateTime(d: DateTime) {
    && 1 <= d.year <= 9999
    && 1 <= d.month <= 12
    && 1 <= d.day <= DaysInMonth(d.year, d.month)
    && 0 <= d.seconds < 86400
  }

  type Date = d: DateTime | ValidDateTime(d) witness DateTime(1900, 1, 1, 0)

  /** Strict chronological order: `a` is earlier than `b`. */
  predicate Before(a: DateTime, b: DateTime) {
    || a.year < b.year
    || (a.year == b.year && a.month < b.month)
    || (a.year == b.year && a.month == b.month && a.day < b.day)
    || (a.year == b.year && a.month == b.month && a.day == b.day && a.seconds < b.seconds)
  }

  /** "Not before" is transitive: it is the non-strict order of dates. */
  lemma NotBeforeTransitive(a: DateTime, b: DateTime, c: DateTime)
    requires !Before(b, a) && !Before(c, b)
    ensures !Before(c, a)
  {
  }

  /** A calendar month, the key by which expenses are grouped per month. */
  datatype YearMonth = YearMonth(year: int, month: int)

  predicate ValidMonth(ym: YearMonth) {
    1 <= ym.year <= 9999 && 1 <= ym.month <= 12
  }

  /** The month a date falls in (the `substr(Date, 1, 7)` of its ISO text). */
  function MonthOf(d: Date): (ym: YearMonth)
    ensures ValidMonth(ym)
    ensures ym.year == d.year && ym.month == d.month
  {
    YearMonth(d.year, d.month)
  }

  /** The first day of a month at 00:00. */
  function FirstOfMonth(ym: YearMonth): (d: Date)
    requires ValidMonth(ym)
    ensures MonthOf(d) == ym && d.day == 1 && d.seconds == 0
  {
    DateTime(ym.year, ym.month, 1, 0)
  }

  /** The last day of a month at 00:00. */
  function LastDayOfMonth(ym: YearMonth): (d: Date)
    requires ValidMonth(ym)
    ensures MonthOf(d) == ym && d.day == DaysInMonth(ym.year, ym.month) && d.seconds == 0
  {
    DateTime(ym.year, ym.month, DaysInMonth(ym.year, ym.month), 0)
  }

  /**
   * A date lies strictly between the first of its month at 00:00 and the last
   * day of that month at 00:00 exactly when it is neither the first at 00:00
   * nor anywhere on the last day.
   */
  lemma StrictlyInsideMonth(d: Date)
    ensures Before(FirstOfMonth(MonthOf(d)), d) && Before(d, LastDayOfMonth(MonthOf(d)))
            <==> !(d.day == 1 && d.seconds == 0) && d.day < DaysInMonth(d.year, d.month)
  {
  }

  /** A date strictly between the bounds of a month belongs to that month. */
  lemma BetweenMonthBoundsIsInMonth(ym: YearMonth, d: Date)
    requires ValidMonth(ym)
    requires Before(FirstOfMonth(ym), d) && Before(d, LastDayOfMonth(ym))
    ensures MonthOf(d) == ym
  {
  }

  /** The character of a decimal digit. */
  function DigitChar(n: int): (c: char)
    requires 0 <= n <= 9
    ensures '0' <= c <= '9'
  {
    ('0' as int + n) as char
  }

  /** The value of a decimal digit character. */
  function DigitValue(c: char): (n: int)
    requires '0' <= c <= '9'
    ensures 0 <= n <= 9
  {
    c as int - '0' as int
  }

  /**
   * The month key "yyyy/MM" that .NET's `ToString("yyyy-MM")` followed by
   * `Replace('-', '/')` produces: the year padded to four digits, the month to two.
   */
  function MonthKey(ym: YearMonth): (key: string)
    requires ValidMonth(ym)
    ensures |key| == 7 && key[4] == '/'
    ensures forall i :: 0 <= i < 7 && i != 4 ==> '0' <= key[i] <= '9'
  {
    var y, m := ym.year, ym.month;
    var tens := y / 10;
    var hundreds := tens / 10;
    [DigitChar(hundreds / 10), DigitChar(hundreds % 10), DigitChar(tens % 10), DigitChar(y % 10),
     '/', DigitChar(m / 10), DigitChar(m % 10)]
  }

  /** Reads a "yyyy/MM" key back; `None` for text of any other shape. */
  function ParseMonthKey(key: string): (r: Option<YearMonth>)
    ensures r.Some? ==> |key| == 7 && key[4] == '/'
  {
    if |key| == 7 && key[4] == '/' && forall i :: 0 <= i < 7 && i != 4 ==> '0' <= key[i] <= '9' then
      Some(YearMonth(
        1000 * DigitValue(key[0]) + 100 * DigitValue(key[1]) + 10 * DigitValue(key[2]) + DigitValue(key[3]),
        10 * DigitValue(key[5]) + DigitValue(key[6])))
    else
      None
  }

  /** Formatting a month and parsing the key back gives the month again. */
  lemma MonthKeyRoundTrip(ym: YearMonth)
    requires ValidMonth(ym)
    ensures ParseMonthKey(MonthKey(ym)) == Some(ym)
  {
    var y, m := ym.year, ym.month;
    var tens := y / 10;
    var hundreds := tens / 10;
    var key := MonthKey(ym);
    assert y == 10 * tens + y % 10;
    assert tens == 10 * hundreds + tens % 10;
    assert hundreds == 10 * (hundreds / 10) + hundreds % 10;
    assert DigitValue(key[0]) == hundreds / 10;
    assert DigitValue(key[1]) == hundreds % 10;
    assert DigitValue(key[2]) == tens % 10;
    assert DigitValue(key[3]) == y % 10;
    assert DigitValue(key[5]) == m / 10;
    assert DigitValue(key[6]) == m % 10;
    assert m == 10 * (m / 10) + m % 10;
  }

  /** Distinct months have distinct keys. */
  lemma MonthKeyInjective(a: YearMonth, b: YearMonth)
    requires ValidMonth(a) && ValidMonth(b)
    requires MonthKey(a) == MonthKey(b)
    ensures a == b
  {
    MonthKeyRoundTrip(a);
    MonthKeyRoundTrip(b);
  }
}
