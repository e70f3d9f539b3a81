/**
 * The journal's calendar helpers: `YYYY-MM-DD` keys for days, parsing them
 * back into local midnights, the days left in a year, the list of all days
 * of a year, and the today / past-or-today tests. A JavaScript `Date` is
 * modelled by its calendar day (see module Calendar); the parsed local
 * midnight is modelled by its day number.
 */
module JournalDateHelpers {
  import opened Optional
  import opened Strings
  import opened Calendar

  /** `toDateString`: the full year as `String(...)`, then the month (1-based) and day padded to two digits. */
  function ToDateString(d: Date): string {
    IntToString(d.year) + "-" + ZeroPad(d.month, 2) + "-" + ZeroPad(d.day, 2)
  }

  /**
   * `dateStr.split('-').map(Number)`, destructured into year, month and day:
   * fewer than three fields, or a field that is not a number, is NaN, written
   * None. The fields are kept as read, before any normalisation.
   */
  function DateFields(s: string): (r: Option<Date>)
    ensures r.Some? <==>
      (|Split(s, '-')| >= 3 && AllDigits(Split(s, '-')[0])
       && AllDigits(Split(s, '-')[1]) && AllDigits(Split(s, '-')[2]))
  {
    var parts := Split(s, '-');
    if |parts| < 3 then None
    else
      match (ParseNumber(parts[0]), ParseNumber(parts[1]), ParseNumber(parts[2]))
      case (Some(y), Some(m), Some(d)) => Some(Date(y, m, d))
      case _ => None
  }

  /**
   * `parseDateString`: the fields handed to `new Date(year, month - 1, day)`,
   * as the day number of that local midnight; a NaN field gives an invalid
   * date, written None.
   */
  function ParseDateString(s: string): (r: Option<int>)
    ensures r.Some? <==> DateFields(s).Some?
    ensures r.Some? ==> r.value == ConstructedDayNumber(DateFields(s).value.year,
      DateFields(s).value.month - 1, DateFields(s).value.day)
  {
    match DateFields(s)
    case None => None
    case Some(f) => Some(ConstructedDayNumber(f.year, f.month - 1, f.day))
  }

  /** Two joins with the same first field and two-character second fields agree field by field. */
  lemma JoinedFieldsAgree(a: string, b1: string, c1: string, b2: string, c2: string)
    requires |b1| == 2 && |b2| == 2
    requires a + "-" + b1 + "-" + c1 == a + "-" + b2 + "-" + c2
    ensures b1 == b2 && c1 == c2
  {
    var s1, s2 := a + "-" + b1 + "-" + c1, a + "-" + b2 + "-" + c2;
    assert s1[|a| + 1..|a| + 3] == b1;
    assert s2[|a| + 1..|a| + 3] == b2;
    assert s1[|a| + 4..] == c1;
    assert s2[|a| + 4..] == c2;
  }

  /** The text form splits back into its three fields. */
  lemma SplitDateString(d: Date)
    requires ValidDate(d) && d.year >= 0
    ensures Split(ToDateString(d), '-') == [IntToString(d.year), ZeroPad(d.month, 2), ZeroPad(d.day, 2)]
  {
    ZeroPadRoundTrip(d.month, 2);
    ZeroPadRoundTrip(d.day, 2);
    SplitThree(IntToString(d.year), ZeroPad(d.month, 2), ZeroPad(d.day, 2));
  }

  /**
   * Parsing a formatted day gives back its local midnight. Years 0..99 are
   * the exception: the multi-argument `Date` constructor reads them as
   * 1900..1999, so the day comes back in the twentieth century.
   */
  lemma ParseDateStringRoundTrip(d: Date)
    requires ValidDate(d) && d.year >= 0
    ensures DateFields(ToDateString(d)) == Some(d)
    ensures d.year >= 100 ==> ParseDateString(ToDateString(d)) == Some(DayNumber(d))
    ensures d.year <= 99 ==>
      ParseDateString(ToDateString(d)) == Some(DayNumber(Date(d.year + 1900, d.month, d.day)))
  {
    NatToStringRoundTrip(d.year);
    ZeroPadRoundTrip(d.month, 2);
    ZeroPadRoundTrip(d.day, 2);
    FieldsOfJoin(IntToString(d.year), ZeroPad(d.month, 2), ZeroPad(d.day, 2));
  }

  /** Three digit fields joined by dashes are read back as their values. */
  lemma FieldsOfJoin(a: string, b: string, c: string)
    requires AllDigits(a) && AllDigits(b) && AllDigits(c)
    requires '-' !in a && '-' !in b && '-' !in c
    ensures DateFields(a + "-" + b + "-" + c) == Some(Date(DigitsValue(a), DigitsValue(b), DigitsValue(c)))
  {
    SplitThree(a, b, c);
  }

  /** For four-digit years the journal key is the ISO 8601 extended calendar date. */
  lemma ToDateStringIsIso(d: Date)
    requires ValidDate(d) && 1000 <= d.year <= 9999
    ensures ToDateString(d) == ToIsoDateString(d)
    ensures ParseIsoDate(ToDateString(d)) == Some(d)
  {
    NatToStringLength(d.year);
    IsoDateRoundTrip(d);
  }

  /** Two days of the same year with the same key are the same day. */
  lemma ToDateStringInjective(a: Date, b: Date)
    requires ValidDate(a) && ValidDate(b) && a.year == b.year
    requires ToDateString(a) == ToDateString(b)
    ensures a == b
  {
    ZeroPadLength(a.month, 2);
    ZeroPadLength(b.month, 2);
    JoinedFieldsAgree(IntToString(a.year), ZeroPad(a.month, 2), ZeroPad(a.day, 2), ZeroPad(b.month, 2), ZeroPad(b.day, 2));
    ZeroPadRoundTrip(a.month, 2);
    ZeroPadRoundTrip(b.month, 2);
    ZeroPadRoundTrip(a.day, 2);
    ZeroPadRoundTrip(b.day, 2);
  }

  // ---------------------------------------------------------------------------
  // getDaysRemainingInYear
  // ---------------------------------------------------------------------------

  /**
   * `getDaysRemainingInYear(date)`: the days from `new Date(year, 0, 1)` to
   * `new Date(year, 11, 31)` plus one, less the whole days elapsed from the
   * first of the year to `date`. The time of day of `date` is below a day and
   * is dropped by the `Math.floor`, so only its calendar day matters.
   */
  function DaysRemainingInYear(date: Date): (r: int)
    requires ValidDate(date)
    ensures 100 <= date.year || date.year < 0 ==>
      r == YearLength(date.year) - (DayOfYear(date) - 1) && 1 <= r <= YearLength(date.year)
  {
    var startOfYear := ConstructedDayNumber(date.year, 0, 1);
    var endOfYear := ConstructedDayNumber(date.year, 11, 31);
    var totalDays := endOfYear - startOfYear + 1;
    var daysElapsed := DayNumber(date) - startOfYear;
    DayNumberOfValid(date);
    DayNumberOfValid(Date(date.year, 1, 1));
    DayNumberOfValid(Date(date.year, 12, 31));
    MonthsAddUp(date.year, 12);
    totalDays - daysElapsed
  }

  /** The first of the year has the whole year ahead; the last day has one day left. */
  lemma DaysRemainingAtEnds(y: int)
    requires 100 <= y || y < 0
    ensures DaysRemainingInYear(Date(y, 1, 1)) == YearLength(y)
    ensures DaysRemainingInYear(Date(y, 12, 31)) == 1
  {
    MonthsAddUp(y, 12);
  }

  // ---------------------------------------------------------------------------
  // generateYearDates
  // ---------------------------------------------------------------------------

  /** Every day of year `y`, in calendar order. */
  function YearDays(y: int): (days: seq<Date>)
    ensures |days| == YearLength(y)
    ensures forall i :: 0 <= i < |days| ==> days[i] == DateInYear(y, i + 1)
  {
    seq(YearLength(y), i requires 0 <= i < YearLength(y) => DateInYear(y, i + 1))
  }

  /** The keys of every day of year `y`, in calendar order. */
  function YearDates(y: int): (dates: seq<string>)
    ensures |dates| == YearLength(y)
    ensures forall i :: 0 <= i < |dates| ==> dates[i] == ToDateString(YearDays(y)[i])
  {
    seq(YearLength(y), i requires 0 <= i < YearLength(y) => ToDateString(YearDays(y)[i]))
  }

  /**
   * `generateYearDates(year)`: start at `new Date(year, 0, 1)` and step one
   * day at a time while the full year is still `year`. For years 0..99 the
   * start already lies in 1900..1999, so the loop never runs.
   */
  method GenerateYearDates(year: int) returns (dates: seq<string>)
    ensures JsFullYear(year) == year ==> dates == YearDates(year)
    ensures JsFullYear(year) != year ==> dates == []
  {
    dates := [];
    var date := Date(JsFullYear(year), 1, 1);
    if JsFullYear(year) == year {
      YearStart(year);
    }
    while date.year == year
      invariant ValidDate(date)
      invariant JsFullYear(year) != year ==> dates == [] && date.year != year
      invariant JsFullYear(year) == year ==> YearStepped(year, dates, date)
      decreases YearLength(year) - |dates|
    {
      YearStep(year, dates, date);
      dates := dates + [ToDateString(date)];
      date := NextDay(date);
    }
    if JsFullYear(year) == year {
      YearEnd(year, dates, date);
    }
  }

  /** `dates` holds the first keys of the year and `date` is the next day to list. */
  ghost predicate YearStepped(year: int, dates: seq<string>, date: Date) {
    && |dates| <= YearLength(year)
    && dates == YearDates(year)[..|dates|]
    && (|dates| < YearLength(year) ==> date == YearDays(year)[|dates|])
    && (|dates| == YearLength(year) ==> date == Date(year + 1, 1, 1))
  }

  lemma ExtendPrefix<T>(all: seq<T>, n: nat, x: T)
    requires n < |all| && all[n] == x
    ensures all[..n] + [x] == all[..n + 1]
  {
  }

  /** Before the loop: nothing listed, and 1 January next. */
  lemma YearStart(y: int)
    ensures YearStepped(y, [], Date(y, 1, 1))
  {
    YearDaysBounds(y);
  }

  /** After the loop: once the day has left the year, every key has been listed. */
  lemma YearEnd(y: int, dates: seq<string>, date: Date)
    requires YearStepped(y, dates, date) && date.year != y
    ensures dates == YearDates(y)
  {
    if |dates| < YearLength(y) {
      assert false;
    }
    assert YearDates(y)[..YearLength(y)] == YearDates(y);
  }

  /** While the day is still in the year, some keys remain to be listed. */
  lemma YearNotDone(year: int, dates: seq<string>, date: Date)
    requires date.year == year && YearStepped(year, dates, date)
    ensures |dates| < YearLength(year)
  {
  }

  /** One turn of the loop keeps `YearStepped`. */
  lemma YearStep(year: int, dates: seq<string>, date: Date)
    requires ValidDate(date) && date.year == year
    requires YearStepped(year, dates, date)
    ensures |dates| < YearLength(year)
    ensures YearStepped(year, dates + [ToDateString(date)], NextDay(date))
  {
    var n := |dates|;
    YearNotDone(year, dates, date);
    ExtendPrefix(YearDates(year), n, ToDateString(date));
    NextDateInYear(year, n + 1);
  }

  /** The list runs from 1 January to 31 December, one day after another. */
  lemma YearDaysBounds(y: int)
    ensures YearDays(y)[0] == Date(y, 1, 1)
    ensures YearDays(y)[|YearDays(y)| - 1] == Date(y, 12, 31)
    ensures forall i :: 0 <= i < |YearDays(y)| - 1 ==> YearDays(y)[i + 1] == NextDay(YearDays(y)[i])
  {
    var n := YearLength(y);
    MonthsAddUp(y, 12);
    DayOfYearInjective(DateInYear(y, 1), Date(y, 1, 1));
    DayOfYearInjective(DateInYear(y, n), Date(y, 12, 31));
    forall i | 0 <= i < n - 1
      ensures YearDays(y)[i + 1] == NextDay(YearDays(y)[i])
    {
      NextDateInYear(y, i + 1);
    }
  }

  /** 29 February is in the list exactly in leap years. */
  lemma LeapDayListed(y: int)
    ensures ToDateString(Date(y, 2, 29)) in YearDates(y) <==> IsLeapYear(y)
  {
    var leapDay := Date(y, 2, 29);
    if IsLeapYear(y) {
      var k := DayOfYear(leapDay);
      DayOfYearInjective(DateInYear(y, k), leapDay);
      assert YearDates(y)[k - 1] == ToDateString(leapDay);
    }
    if ToDateString(leapDay) in YearDates(y) {
      var i :| 0 <= i < |YearDates(y)| && YearDates(y)[i] == ToDateString(leapDay);
      var d := YearDays(y)[i];
      SameKeySameFields(d, 2, 29);
    }
  }

  /** A valid day whose key is that of month `m` and day `dd` of its year is that day. */
  lemma SameKeySameFields(d: Date, m: nat, dd: nat)
    requires ValidDate(d) && 1 <= m <= 12
    requires ToDateString(d) == ToDateString(Date(d.year, m, dd))
    ensures d.month == m && d.day == dd
  {
    ZeroPadLength(d.month, 2);
    ZeroPadLength(m, 2);
    JoinedFieldsAgree(IntToString(d.year), ZeroPad(d.month, 2), ZeroPad(d.day, 2), ZeroPad(m, 2), ZeroPad(dd, 2));
    ZeroPadRoundTrip(d.month, 2);
    ZeroPadRoundTrip(d.day, 2);
    ZeroPadRoundTrip(m, 2);
    ZeroPadRoundTrip(dd, 2);
  }

  /** The positions of early 2025 pinned down by the helpers' own examples. */
  lemma YearDates2025()
    ensures |YearDates(2025)| == 365
    ensures YearDates(2025)[31] == "2025-02-01"
    ensures YearDates(2025)[58] == "2025-02-28"
    ensures YearDates(2025)[59] == "2025-03-01"
  {
    assert YearDays(2025)[31] == Date(2025, 2, 1);
    assert YearDays(2025)[58] == Date(2025, 2, 28);
    assert YearDays(2025)[59] == Date(2025, 3, 1);
    Keys2025();
  }

  lemma Keys2025()
    ensures ToDateString(Date(2025, 2, 1)) == "2025-02-01"
    ensures ToDateString(Date(2025, 2, 28)) == "2025-02-28"
    ensures ToDateString(Date(2025, 3, 1)) == "2025-03-01"
  {
    Text2025();
    PaddedFields();
  }

  lemma Text2025()
    ensures IntToString(2025) == "2025"
  {
    assert NatToString(2) == "2";
    assert NatToString(20) == "20";
    assert NatToString(202) == "202";
    assert NatToString(2025) == NatToString(202) + "5";
  }

  lemma PaddedFields()
    ensures ZeroPad(1, 2) == "01" && ZeroPad(2, 2) == "02" && ZeroPad(3, 2) == "03" && ZeroPad(28, 2) == "28"
  {
    assert NatToString(28) == NatToString(2) + "8";
  }

  // ---------------------------------------------------------------------------
  // isToday / isPastOrToday
  // ---------------------------------------------------------------------------

  /** `isToday(s)`: the key equals today's key. */
  predicate IsToday(s: string, today: Date) {
    s == ToDateString(today)
  }

  /**
   * `isPastOrToday(s)`: the parsed local midnight is not after today's
   * midnight. A string that does not parse is an invalid date, and every
   * comparison with it is false.
   */
  function IsPastOrToday(s: string, today: Date): (r: bool)
    ensures r <==> ParseDateString(s).Some? && ParseDateString(s).value <= DayNumber(today)
  {
    match ParseDateString(s)
    case None => false
    case Some(n) => n <= DayNumber(today)
  }

  /** Today's own key is past-or-today, and so is the key of any earlier day. */
  lemma TodayIsPastOrToday(d: Date, today: Date)
    requires ValidDate(d) && ValidDate(today) && d.year >= 100
    requires DayNumber(d) <= DayNumber(today)
    ensures IsPastOrToday(ToDateString(d), today)
    ensures IsToday(ToDateString(today), today)
  {
    ParseDateStringRoundTrip(d);
  }

  /** A later day's key is not past-or-today. */
  lemma FutureIsNotPastOrToday(d: Date, today: Date)
    requires ValidDate(d) && ValidDate(today) && d.year >= 100
    requires DayNumber(d) > DayNumber(today)
    ensures !IsPastOrToday(ToDateString(d), today)
  {
    ParseDateStringRoundTrip(d);
  }
}
