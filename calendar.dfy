/**
 * The proleptic Gregorian calendar, and the parts of JavaScript's `Date` the
 * application leans on: the day a local `new Date(y, monthIndex, d)` stands
 * for, `setDate(getDate() + 1)`, `new Date("YYYY-MM-DD")` and the date part
 * of `toISOString()`. A date is a calendar day; time of day and time zones
 * are not part of it.
 */
module Calendar {
  import opened Optional
  import opened Strings

  /** A calendar day; `month` is 1-based (JavaScript's `getMonth() + 1`). */
  datatype Date = Date(year: int, month: int, day: int)

  /** The Gregorian leap-year rule. */
  predicate IsLeapYear(y: int) {
    (y % 4 == 0 && y % 100 != 0) || y % 400 == 0
  }

  function DaysInMonth(y: int, m: int): (n: int)
    requires 1 <= m <= 12
    ensures 28 <= n <= 31
    ensures m == 2 ==> (n == 29 <==> IsLeapYear(y)) && (n == 28 <==> !IsLeapYear(y))
  {
    if m == 2 then (if IsLeapYear(y) then 29 else 28)
    else if m == 4 || m == 6 || m == 9 || m == 11 then 30
    else 31
  }

  function YearLength(y: int): (n: int)
    ensures n == 365 || n == 366
    ensures n == 366 <==> IsLeapYear(y)
  {
    if IsLeapYear(y) then 366 else 365
  }

  predicate ValidDate(d: Date) {
    1 <= d.month <= 12 && 1 <= d.day <= DaysInMonth(d.year, d.month)
  }

  /** The number of days of year `y` that lie before the first of month `m`. */
  function DaysBeforeMonth(y: int, m: int): (n: int)
    requires 1 <= m <= 12
    ensures 0 <= n <= 335
  {
    [0, 31, 59, 90, 120, 151, 181, 212, 243, 273, 304, 334][m - 1]
      + (if m > 2 && IsLeapYear(y) then 1 else 0)
  }

  lemma MonthsAddUp(y: int, m: int)
    requires 1 <= m <= 12
    ensures m < 12 ==> DaysBeforeMonth(y, m + 1) == DaysBeforeMonth(y, m) + DaysInMonth(y, m)
    ensures m == 12 ==> DaysBeforeMonth(y, m) + DaysInMonth(y, m) == YearLength(y)
  {
  }

  lemma MonthsOrdered(y: int, m1: int, m2: int)
    requires 1 <= m1 < m2 <= 12
    ensures DaysBeforeMonth(y, m1) + DaysInMonth(y, m1) <= DaysBeforeMonth(y, m2)
  {
  }

  lemma MonthFitsInYear(y: int, m: int)
    requires 1 <= m <= 12
    ensures DaysBeforeMonth(y, m) + DaysInMonth(y, m) <= YearLength(y)
  {
  }

  /** Days from 1 January of year 1 to 1 January of year `y` (negative before year 1). */
  function DaysBeforeYear(y: int): int {
    var p := y - 1;
    365 * p + p / 4 - p / 100 + p / 400
  }

  /** Stepping `p` to `p + 1` raises `p / k` by one exactly when `k` divides `p + 1`. */
  lemma DivStep4(p: int)
    ensures (p + 1) / 4 == p / 4 + (if (p + 1) % 4 == 0 then 1 else 0)
  {
  }

  lemma DivStep100(p: int)
    ensures (p + 1) / 100 == p / 100 + (if (p + 1) % 100 == 0 then 1 else 0)
  {
  }

  lemma DivStep400(p: int)
    ensures (p + 1) / 400 == p / 400 + (if (p + 1) % 400 == 0 then 1 else 0)
  {
  }

  /** Every fourth century year is a century year. */
  lemma CenturyOf400(y: int)
    requires y % 400 == 0
    ensures y % 100 == 0
  {
    var q := y / 400;
    assert y == 100 * (4 * q);
  }

  /** Every century year is a fourth year. */
  lemma FourthOfCentury(y: int)
    requires y % 100 == 0
    ensures y % 4 == 0
  {
    var q := y / 100;
    assert y == 4 * (25 * q);
  }

  lemma YearsAddUp(y: int)
    ensures DaysBeforeYear(y + 1) == DaysBeforeYear(y) + YearLength(y)
  {
    var p := y - 1;
    DivStep4(p);
    DivStep100(p);
    DivStep400(p);
    assert p + 1 == y;
    var a := if y % 4 == 0 then 1 else 0;
    var b := if y % 100 == 0 then 1 else 0;
    var c := if y % 400 == 0 then 1 else 0;
    assert DaysBeforeYear(y + 1) == DaysBeforeYear(y) + 365 + a - b + c;
    if y % 400 == 0 {
      CenturyOf400(y);
    }
    if y % 100 == 0 {
      FourthOfCentury(y);
    }
    assert YearLength(y) == 365 + a - b + c;
  }

  /** The 1-based position of a valid day in its year. */
  function DayOfYear(d: Date): (n: int)
    requires ValidDate(d)
    ensures 1 <= n <= YearLength(d.year)
  {
    MonthFitsInYear(d.year, d.month);
    DaysBeforeMonth(d.year, d.month) + d.day
  }

  /**
   * The number of a day counted from 1 January of year 1 (day 0). Months
   * outside 1..12 carry into the neighbouring years and days outside the
   * month into the neighbouring months, as JavaScript's `Date` constructor
   * does with out-of-range fields.
   */
  function DayNumber(d: Date): int {
    var y := d.year + (d.month - 1) / 12;
    var m := (d.month - 1) % 12 + 1;
    DaysBeforeYear(y) + DaysBeforeMonth(y, m) + d.day - 1
  }

  lemma DayNumberOfValid(d: Date)
    requires ValidDate(d)
    ensures DayNumber(d) == DaysBeforeYear(d.year) + DayOfYear(d) - 1
  {
  }

  /** The day after a valid day: `setDate(getDate() + 1)`. */
  function NextDay(d: Date): (n: Date)
    requires ValidDate(d)
    ensures ValidDate(n)
    ensures DayNumber(n) == DayNumber(d) + 1
  {
    DayNumberOfValid(d);
    NextDayValue(d)
  }

  function NextDayValue(d: Date): (n: Date)
    requires ValidDate(d)
    ensures ValidDate(n)
    ensures DayNumber(n) == DaysBeforeYear(d.year) + DayOfYear(d)
  {
    if d.day < DaysInMonth(d.year, d.month) then
      DayNumberOfValid(Date(d.year, d.month, d.day + 1));
      Date(d.year, d.month, d.day + 1)
    else if d.month < 12 then
      MonthsAddUp(d.year, d.month);
      DayNumberOfValid(Date(d.year, d.month + 1, 1));
      Date(d.year, d.month + 1, 1)
    else
      YearsAddUp(d.year);
      MonthsAddUp(d.year, 12);
      DayNumberOfValid(Date(d.year + 1, 1, 1));
      Date(d.year + 1, 1, 1)
  }

  /** The day after is the next position of the same year, or 1 January after the last day. */
  lemma NextDayInYear(d: Date)
    requires ValidDate(d)
    ensures DayOfYear(d) < YearLength(d.year) ==>
      NextDay(d).year == d.year && DayOfYear(NextDay(d)) == DayOfYear(d) + 1
    ensures DayOfYear(d) == YearLength(d.year) ==> NextDay(d) == Date(d.year + 1, 1, 1)
  {
    MonthsAddUp(d.year, d.month);
    if d.month < 12 {
      MonthsOrdered(d.year, d.month, 12);
      MonthsAddUp(d.year, 12);
    }
  }

  /** A valid day is determined by its year and its position in that year. */
  lemma DayOfYearInjective(a: Date, b: Date)
    requires ValidDate(a) && ValidDate(b) && a.year == b.year
    requires DayOfYear(a) == DayOfYear(b)
    ensures a == b
  {
    if a.month < b.month {
      MonthsOrdered(a.year, a.month, b.month);
    } else if b.month < a.month {
      MonthsOrdered(a.year, b.month, a.month);
    }
  }

  /** The day at 1-based position `k` of year `y`, found month by month from month `m`. */
  function MonthWalk(y: int, m: int, k: int): (d: Date)
    requires 1 <= m <= 12
    requires 1 <= k <= YearLength(y) - DaysBeforeMonth(y, m)
    ensures ValidDate(d) && d.year == y && m <= d.month
    ensures DaysBeforeMonth(y, d.month) + d.day == DaysBeforeMonth(y, m) + k
    decreases 12 - m
  {
    MonthsAddUp(y, m);
    if k <= DaysInMonth(y, m) then Date(y, m, k)
    else MonthWalk(y, m + 1, k - DaysInMonth(y, m))
  }

  /** The day at 1-based position `k` of year `y`. */
  function DateInYear(y: int, k: int): (d: Date)
    requires 1 <= k <= YearLength(y)
    ensures ValidDate(d) && d.year == y && DayOfYear(d) == k
  {
    MonthWalk(y, 1, k)
  }

  /** Stepping a day moves one position through the year, and past the last day to the next year. */
  lemma NextDateInYear(y: int, k: int)
    requires 1 <= k <= YearLength(y)
    ensures k < YearLength(y) ==> NextDay(DateInYear(y, k)) == DateInYear(y, k + 1)
    ensures k == YearLength(y) ==> NextDay(DateInYear(y, k)) == Date(y + 1, 1, 1)
  {
    var d := DateInYear(y, k);
    NextDayInYear(d);
    if k < YearLength(y) {
      DayOfYearInjective(NextDay(d), DateInYear(y, k + 1));
    }
  }

  // ---------------------------------------------------------------------------
  // JavaScript Date
  // ---------------------------------------------------------------------------

  /** The year the multi-argument `Date` constructor uses: it reads 0..99 as 1900..1999. */
  function JsFullYear(y: int): int {
    if 0 <= y <= 99 then 1900 + y else y
  }

  /** The day number of the local `new Date(y, monthIndex, day)`. */
  function ConstructedDayNumber(y: int, monthIndex: int, day: int): int {
    DayNumber(Date(JsFullYear(y), monthIndex + 1, day))
  }

  /**
   * `new Date(s)` for the date-only strings the app stores: exactly
   * `YYYY-MM-DD` naming an existing day. The model reads any other string
   * as an invalid date (NaN), written None.
   */
  function ParseIsoDate(s: string): (r: Option<Date>)
    ensures r.Some? ==> ValidDate(r.value) && r.value.year >= 0
  {
    if |s| == 10 && s[4] == '-' && s[7] == '-'
       && AllDigits(s[..4]) && AllDigits(s[5..7]) && AllDigits(s[8..])
    then
      var d := Date(DigitsValue(s[..4]), DigitsValue(s[5..7]), DigitsValue(s[8..]));
      if ValidDate(d) then Some(d) else None
    else None
  }

  /**
   * The date part of `toISOString()`, `toISOString().split('T')[0]`: a
   * four-digit year for years 0..9999, otherwise a sign and six digits.
   */
  function ToIsoDateString(d: Date): string {
    var yearText :=
      if 0 <= d.year <= 9999 then ZeroPad(d.year, 4)
      else (if d.year < 0 then "-" else "+") + ZeroPad(if d.year < 0 then -d.year else d.year, 6);
    yearText + "-" + ZeroPad(d.month, 2) + "-" + ZeroPad(d.day, 2)
  }

  lemma ParseIsoOfParts(y: string, m: string, dd: string, d: Date)
    requires |y| == 4 && |m| == 2 && |dd| == 2
    requires AllDigits(y) && AllDigits(m) && AllDigits(dd)
    requires ValidDate(d) && d == Date(DigitsValue(y), DigitsValue(m), DigitsValue(dd))
    ensures ParseIsoDate(y + "-" + m + "-" + dd) == Some(d)
  {
    var s := y + "-" + m + "-" + dd;
    assert s[..4] == y;
    assert s[5..7] == m;
    assert s[8..] == dd;
  }

  /** The ISO text of a day of years 0..9999 is its three zero-padded fields. */
  lemma IsoOfFields(d: Date, y: string, m: string, dd: string)
    requires 0 <= d.year <= 9999
    requires y == ZeroPad(d.year, 4) && m == ZeroPad(d.month, 2) && dd == ZeroPad(d.day, 2)
    ensures ToIsoDateString(d) == y + "-" + m + "-" + dd
  {
  }

  /** `new Date(d.toISOString().split('T')[0])` is the same day again. */
  lemma IsoDateRoundTrip(d: Date)
    requires ValidDate(d) && 0 <= d.year <= 9999
    ensures ParseIsoDate(ToIsoDateString(d)) == Some(d)
  {
    var y := ZeroPadField(d.year, 4);
    var m := ZeroPadField(d.month, 2);
    var dd := ZeroPadField(d.day, 2);
    IsoOfFields(d, y, m, dd);
    ParseIsoOfParts(y, m, dd, d);
  }
}
