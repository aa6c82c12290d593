/**
 * Calendar values as the ledger uses them: a date is a (year, month, day,
 * millisecond-of-day) tuple instead of a JavaScript `Date`, a calendar month is
 * a (year, month) pair, and the `YYYY-MM` month key is the string the
 * application writes as the id of a `monthlyBalances` document and compares
 * in its month filters.
 */
module Dates {
  import opened Strings

  const MsPerDay: int := 86400000

  predicate IsLeapYear(y: int)
  {
    (y % 4 == 0 && y % 100 != 0) || y % 400 == 0
  }

  /** Number of days of month `m` (1..12) of year `y`, Gregorian calendar. */
  function DaysInMonth(y: int, m: int): (n: int)
    requires 1 <= m <= 12
    ensures 28 <= n <= 31
    ensures m == 2 ==> (n == 29 <==> IsLeapYear(y))
  {
    if m == 2 then (if IsLeapYear(y) then 29 else 28)
    else if m == 4 || m == 6 || m == 9 || m == 11 then 30
    else 31
  }

  /** A calendar month; `month` counts from 1 (January) to 12 (December). */
  datatype YearMonth = YearMonth(year: int, month: int)

  predicate ValidMonth(ym: YearMonth)
  {
    1 <= ym.month <= 12
  }

  /** A point in time: a day of a month and the milliseconds elapsed since its midnight. */
  datatype Date = Date(year: int, month: int, day: int, ms: int)

  predicate ValidDate(d: Date)
  {
    1 <= d.month <= 12 && 1 <= d.day <= DaysInMonth(d.year, d.month) && 0 <= d.ms < MsPerDay
  }

  /** The month a date falls in (`getFullYear()`, `getMonth() + 1`). */
  function MonthOf(d: Date): (ym: YearMonth)
    ensures ValidDate(d) ==> ValidMonth(ym)
  {
    YearMonth(d.year, d.month)
  }

  /** Months counted from January of year 0, so that consecutive months differ by one. */
  function MonthNumber(ym: YearMonth): int
  {
    ym.year * 12 + ym.month - 1
  }

  // ---------------------------------------------------------------- instants order (getTime())

  /** `a.getTime() < b.getTime()`: the earlier field decides, year first. */
  predicate Before(a: Date, b: Date)
  {
    if a.year != b.year then a.year < b.year
    else if a.month != b.month then a.month < b.month
    else if a.day != b.day then a.day < b.day
    else a.ms < b.ms
  }

  lemma BeforeIrreflexive(a: Date)
    ensures !Before(a, a)
  {
  }

  lemma BeforeTransitive(a: Date, b: Date, c: Date)
    requires Before(a, b) && Before(b, c)
    ensures Before(a, c)
  {
  }

  lemma BeforeTotal(a: Date, b: Date)
    ensures a == b || Before(a, b) || Before(b, a)
  {
  }

  // ---------------------------------------------------------------- month boundaries

  /** Midnight of the first day of the month (`new Date(y, m - 1, 1)`). */
  function FirstInstant(ym: YearMonth): (d: Date)
    requires ValidMonth(ym)
    ensures ValidDate(d) && MonthOf(d) == ym
  {
    Date(ym.year, ym.month, 1, 0)
  }

  /** 23:59:59.999 on the last day of the month (`setDate(0)` then `setHours(23, 59, 59, 999)`). */
  function LastInstant(ym: YearMonth): (d: Date)
    requires ValidMonth(ym)
    ensures ValidDate(d) && MonthOf(d) == ym
  {
    Date(ym.year, ym.month, DaysInMonth(ym.year, ym.month), MsPerDay - 1)
  }

  /** 23:59:59.000 on the last day of the month (`new Date(y, m, 0, 23, 59, 59)`: no milliseconds). */
  function LastSecond(ym: YearMonth): (d: Date)
    requires ValidMonth(ym)
    ensures ValidDate(d) && MonthOf(d) == ym
  {
    Date(ym.year, ym.month, DaysInMonth(ym.year, ym.month), MsPerDay - 1000)
  }

  /** `first <= d && d <= last` on time values. */
  predicate Within(d: Date, first: Date, last: Date)
  {
    !Before(d, first) && !Before(last, d)
  }

  /** A valid date lies between the first and the last instant of a month range exactly when its month does. */
  lemma WithinMonthRange(d: Date, s: YearMonth, e: YearMonth)
    requires ValidDate(d) && ValidMonth(s) && ValidMonth(e)
    ensures Within(d, FirstInstant(s), LastInstant(e))
        <==> MonthNumber(s) <= MonthNumber(MonthOf(d)) <= MonthNumber(e)
  {
  }

  /** A valid date lies within one month's first and last instant exactly when it falls in that month. */
  lemma WithinMonth(d: Date, ym: YearMonth)
    requires ValidDate(d) && ValidMonth(ym)
    ensures Within(d, FirstInstant(ym), LastInstant(ym)) <==> MonthOf(d) == ym
  {
    WithinMonthRange(d, ym, ym);
  }

  /** The previous calendar month; January wraps to December of the previous year. */
  function PreviousMonth(ym: YearMonth): (p: YearMonth)
    requires ValidMonth(ym)
    ensures ValidMonth(p)
    ensures MonthNumber(p) == MonthNumber(ym) - 1
  {
    if ym.month == 1 then YearMonth(ym.year - 1, 12) else YearMonth(ym.year, ym.month - 1)
  }

  lemma MonthNumberInjective(a: YearMonth, b: YearMonth)
    requires ValidMonth(a) && ValidMonth(b)
    ensures MonthNumber(a) == MonthNumber(b) <==> a == b
  {
  }

  // ---------------------------------------------------------------- the YYYY-MM key

  /** A year as a template literal renders it (`${year}`), with a minus sign below zero. */
  function YearString(y: int): string
  {
    if y < 0 then "-" + NatToString(-y) else NatToString(y)
  }

  /** `${year}-${String(month).padStart(2, '0')}`. */
  function MonthKey(ym: YearMonth): string
    requires ValidMonth(ym)
  {
    YearString(ym.year) + "-" + PadStart2(NatToString(ym.month))
  }

  /** A month of a valid date renders as two decimal digits. */
  lemma {:induction false} MonthDigits(m: int)
    requires 1 <= m <= 12
    ensures |PadStart2(NatToString(m))| == 2
    ensures AllDigits(PadStart2(NatToString(m)))
    ensures DigitsValue(PadStart2(NatToString(m))) == m
  {
    NatToStringLength(m);
    NatToStringValue(m);
    var s := NatToString(m);
    if m < 10 {
      var p := PadStart2(s);
      assert p == ['0'] + s;
      assert p[..1] == "0" && p[1] == s[0];
      assert DigitsValue(p[..1]) == 0;
      assert s == [s[0]] && s[..0] == [];
    }
  }

  /** The month key has the shape `<year digits>-<two month digits>`. */
  lemma MonthKeyShape(ym: YearMonth)
    requires ValidMonth(ym) && ym.year >= 0
    ensures var key := MonthKey(ym); |key| == |NatToString(ym.year)| + 3
    ensures var key := MonthKey(ym); key[|key| - 3] == '-'
  {
    MonthDigits(ym.month);
  }

  /**
   * Reading a month key back as the bootstrap prompt does: split on '-' and
   * `parseInt` both halves (`parseInt(key.split('-')[0])`, `[1]`).
   */
  function ParseMonthKey(key: string): (ym: YearMonth)
  {
    var parts := Split(key, '-');
    YearMonth(ParseIntOrZero(parts[0]), if |parts| > 1 then ParseIntOrZero(parts[1]) else 0)
  }

  /** Writing a month key and reading it back gives the month. */
  lemma MonthKeyRoundTrip(ym: YearMonth)
    requires ValidMonth(ym) && ym.year >= 0
    ensures ParseMonthKey(MonthKey(ym)) == ym
  {
    var y := NatToString(ym.year);
    var m := PadStart2(NatToString(ym.month));
    MonthDigits(ym.month);
    assert '-' !in y && '-' !in m by {
      assert forall i | 0 <= i < |y| :: IsDigit(y[i]);
      assert forall i | 0 <= i < |m| :: IsDigit(m[i]);
    }
    assert MonthKey(ym) == y + ['-'] + m;
    SplitNoSeparator(y, '-');
    SplitAppend(y, '-', m);
    assert Split(MonthKey(ym), '-') == [y, m];
    ParseRendered(ym.year);
    LeadingDigitsOfDigits(m);
  }

  /** Different months have different keys (the key is a faithful document id). */
  lemma MonthKeyInjective(a: YearMonth, b: YearMonth)
    requires ValidMonth(a) && ValidMonth(b) && a.year >= 0 && b.year >= 0
    ensures MonthKey(a) == MonthKey(b) ==> a == b
  {
    if MonthKey(a) == MonthKey(b) {
      MonthKeyRoundTrip(a);
      MonthKeyRoundTrip(b);
    }
  }
}
