/**
 * The birthday wheel picker: three snapping columns (day, month, year). The
 * model covers the month lengths, the handlers that keep the day inside the
 * chosen month, the item lists, and the index bookkeeping of one column.
 */
module BirthdayWheelPicker {
  import opened Optional
  import opened Strings
  import opened Calendar

  /** A picked birthday; `month` is 0-based and the year is optional. */
  datatype BirthdayValue = BirthdayValue(day: int, month: int, year: Option<int>)

  /** One row of a column: its text and the value it stands for. */
  datatype WheelItem<T> = WheelItem(text: string, value: T)

  const MinYear: int := 1920
  const ItemHeight: real := 44.0
  const DefaultYear: int := 2001

  const MonthNames: seq<string> := ["January", "February", "March", "April", "May", "June",
    "July", "August", "September", "October", "November", "December"]

  function Min(a: int, b: int): int {
    if a <= b then a else b
  }

  function Max(a: int, b: int): int {
    if a >= b then a else b
  }

  /**
   * `daysInMonth(month, year)`: the date of `new Date(year ?? 2001, month + 1, 0)`,
   * the last day of the 0-based `month`. The constructor reads years 0..99 as
   * 1900..1999 and carries month indexes outside 0..11 into neighbouring years.
   */
  function DaysInMonthOf(month: int, year: Option<int>): (n: int)
    ensures 28 <= n <= 31
    ensures 0 <= month <= 11 ==> n == DaysInMonth(JsFullYear(year.GetOr(DefaultYear)), month + 1)
  {
    var y := JsFullYear(year.GetOr(DefaultYear)) + month / 12;
    DaysInMonth(y, month % 12 + 1)
  }

  /** Without a year February has 28 days; the leap year 2000 gives it 29. */
  lemma FebruaryLengths()
    ensures DaysInMonthOf(1, None) == 28
    ensures DaysInMonthOf(1, Some(2000)) == 29
    ensures DaysInMonthOf(1, Some(1900)) == 28
    ensures DaysInMonthOf(0, None) == 31 && DaysInMonthOf(3, None) == 30
  {
  }

  /** A value the picker can show: a real month and a day inside it. */
  predicate ValidBirthday(v: BirthdayValue) {
    0 <= v.month <= 11 && 1 <= v.day <= DaysInMonthOf(v.month, v.year)
  }

  /** `handleDayChange`: only the day changes. */
  function HandleDayChange(value: BirthdayValue, day: int): (r: BirthdayValue)
    ensures r.day == day && r.month == value.month && r.year == value.year
  {
    value.(day := day)
  }

  /** `handleMonthChange`: the new month, with the day cut down to that month's length. */
  function HandleMonthChange(value: BirthdayValue, month: int): (r: BirthdayValue)
    ensures r.month == month && r.year == value.year
    ensures r.day <= value.day && r.day <= DaysInMonthOf(month, value.year)
    ensures r.day == value.day || r.day == DaysInMonthOf(month, value.year)
    ensures 1 <= value.day && 0 <= month <= 11 ==> ValidBirthday(r)
  {
    var max := DaysInMonthOf(month, value.year);
    value.(month := month, day := Min(value.day, max))
  }

  /** The one thing `Number` may turn a year column value into: "none" or decimal digits. */
  predicate YearItemValue(raw: string) {
    raw == "none" || AllDigits(raw)
  }

  /** `handleYearChange`: "none" clears the year, anything else is read as a number; the day is cut to fit. */
  function HandleYearChange(value: BirthdayValue, rawValue: string): (r: BirthdayValue)
    requires YearItemValue(rawValue)
    ensures rawValue == "none" ==> r.year == None
    ensures rawValue != "none" ==> r.year == ParseNumber(rawValue)
    ensures r.month == value.month
    ensures r.day <= value.day && r.day <= DaysInMonthOf(value.month, r.year)
    ensures r.day == value.day || r.day == DaysInMonthOf(value.month, r.year)
    ensures 1 <= value.day && 0 <= value.month <= 11 ==> ValidBirthday(r)
  {
    var year := if rawValue == "none" then None else ParseNumber(rawValue);
    var max := DaysInMonthOf(value.month, year);
    value.(year := year, day := Min(value.day, max))
  }

  /** The clamping examples: 31 January moved to February, with and without a leap year. */
  lemma ClampExamples()
    ensures HandleMonthChange(BirthdayValue(31, 0, None), 1) == BirthdayValue(28, 1, None)
    ensures HandleMonthChange(BirthdayValue(31, 0, Some(2000)), 1) == BirthdayValue(29, 1, Some(2000))
    ensures HandleDayChange(BirthdayValue(15, 0, None), 20) == BirthdayValue(20, 0, None)
    ensures HandleYearChange(BirthdayValue(15, 0, Some(2000)), "none") == BirthdayValue(15, 0, None)
  {
  }

  /** Dropping the year from 29 February of a leap year moves the day to the 28th. */
  lemma LeapDayLosesYear(y: int)
    requires 100 <= y && IsLeapYear(y)
    ensures HandleYearChange(BirthdayValue(29, 1, Some(y)), "none") == BirthdayValue(28, 1, None)
  {
  }

  // ---------------------------------------------------------------------------
  // Item lists
  // ---------------------------------------------------------------------------

  /** `dayItems`: one row per day, 1 up to `maxDays`. */
  method DayItems(maxDays: int) returns (items: seq<WheelItem<int>>)
    ensures |items| == Max(0, maxDays)
    ensures forall i :: 0 <= i < |items| ==> items[i] == WheelItem(IntToString(i + 1), i + 1)
  {
    items := [];
    var d := 1;
    while d <= maxDays
      invariant 1 <= d && |items| == d - 1
      invariant d - 1 <= Max(0, maxDays)
      invariant forall i :: 0 <= i < |items| ==> items[i] == WheelItem(IntToString(i + 1), i + 1)
    {
      items := items + [WheelItem(IntToString(d), d)];
      d := d + 1;
    }
  }

  /** `monthItems`: the month names with their 0-based indexes. */
  function MonthItems(): (items: seq<WheelItem<int>>)
    ensures |items| == 12
    ensures forall i :: 0 <= i < 12 ==> items[i].value == i && items[i].text == MonthNames[i]
  {
    seq(12, i requires 0 <= i < 12 => WheelItem(MonthNames[i], i))
  }

  /** The row of year `y` in the year column: its decimal text as label and value. */
  function YearRow(y: int): WheelItem<string> {
    WheelItem(IntToString(y), IntToString(y))
  }

  /** `yearItems`: a "none" row, then the years from `currentYear` down to 1920. */
  method YearItems(currentYear: int) returns (items: seq<WheelItem<string>>)
    ensures |items| == 1 + Max(0, currentYear - MinYear + 1)
    ensures items[0] == WheelItem("----", "none")
    ensures forall i :: 1 <= i < |items| ==> items[i] == YearRow(currentYear - (i - 1))
  {
    items := [WheelItem("----", "none")];
    var y := currentYear;
    while y >= MinYear
      invariant y <= currentYear && |items| == 1 + (currentYear - y)
      invariant currentYear - y <= Max(0, currentYear - MinYear + 1)
      invariant y < MinYear ==> y == Min(currentYear, MinYear - 1)
      invariant items[0] == WheelItem("----", "none")
      invariant forall i :: 1 <= i < |items| ==> items[i] == YearRow(currentYear - (i - 1))
    {
      items := items + [YearRow(y)];
      y := y - 1;
    }
  }

  /**
   * `selectedIndex`: `Math.max(0, items.findIndex(item => item.value === selected))`,
   * the first row with the value, or row 0 when there is none.
   */
  function SelectedIndex<T(==)>(items: seq<WheelItem<T>>, selected: T): (r: nat)
    ensures items != [] ==> r < |items|
    ensures (exists i :: 0 <= i < |items| && items[i].value == selected) ==>
      items[r].value == selected && forall j :: 0 <= j < r ==> items[j].value != selected
    ensures (forall i :: 0 <= i < |items| ==> items[i].value != selected) ==> r == 0
  {
    if items == [] then 0
    else if items[0].value == selected then 0
    else
      var k := SelectedIndex(items[1..], selected);
      if exists i :: 0 <= i < |items[1..]| && items[1..][i].value == selected then k + 1
      else
        assert forall i :: 0 <= i < |items| ==> items[i].value != selected by {
          forall i | 0 <= i < |items|
            ensures items[i].value != selected
          {
            if i > 0 {
              assert items[1..][i - 1] == items[i];
            }
          }
        }
        0
  }

  /** Decimal texts of different naturals differ. */
  lemma NatToStringInjective(a: nat, b: nat)
    requires NatToString(a) == NatToString(b)
    ensures a == b
  {
    NatToStringRoundTrip(a);
    NatToStringRoundTrip(b);
  }

  /** Year `y` of the list sits at row `1 + (currentYear - y)`, as the column finds it. */
  lemma YearRowIndex(items: seq<WheelItem<string>>, currentYear: int, y: int)
    requires MinYear <= y <= currentYear
    requires |items| == 1 + Max(0, currentYear - MinYear + 1)
    requires items[0] == WheelItem("----", "none")
    requires forall i :: 1 <= i < |items| ==> items[i] == YearRow(currentYear - (i - 1))
    ensures SelectedIndex(items, IntToString(y)) == 1 + (currentYear - y)
  {
    var k := 1 + (currentYear - y);
    var text := IntToString(y);
    assert items[k].value == text;
    forall j | 0 <= j < k
      ensures items[j].value != text
    {
      if j == 0 {
        NoneIsNotAYear(y);
      } else {
        assert items[j].value == IntToString(currentYear - (j - 1));
        YearTextsDiffer(currentYear - (j - 1), y);
      }
    }
    FirstMatch(items, text, k);
  }

  /** The column selects the first row holding the value. */
  lemma FirstMatch<T>(items: seq<WheelItem<T>>, selected: T, k: nat)
    requires k < |items| && items[k].value == selected
    requires forall j :: 0 <= j < k ==> items[j].value != selected
    ensures SelectedIndex(items, selected) == k
  {
  }

  lemma NoneIsNotAYear(y: nat)
    ensures "none" != IntToString(y)
  {
    assert IntToString(y)[0] != 'n';
  }

  lemma YearTextsDiffer(a: nat, b: nat)
    requires a != b
    ensures IntToString(a) != IntToString(b)
  {
    if IntToString(a) == IntToString(b) {
      NatToStringInjective(a, b);
    }
  }

  /** Every value of the year column is one `handleYearChange` accepts. */
  lemma YearRowsAccepted(y: nat)
    ensures YearItemValue(YearRow(y).value)
    ensures YearItemValue("none")
  {
  }

  // ---------------------------------------------------------------------------
  // One column
  // ---------------------------------------------------------------------------

  /** `Math.round`: the nearest integer, halves rounded up. */
  function Round(x: real): (r: int)
    ensures x - 0.5 < r as real <= x + 0.5
  {
    (x + 0.5).Floor
  }

  /** `Math.max(0, Math.min(index, count - 1))`. */
  function ClampIndex(index: int, count: int): (r: int)
    requires count >= 1
    ensures 0 <= r < count
    ensures 0 <= index < count ==> r == index
    ensures index < 0 ==> r == 0
    ensures index >= count ==> r == count - 1
  {
    Max(0, Min(index, count - 1))
  }

  /** The row a snap stops on: the offset in rows, rounded and kept inside the list. */
  function SnappedIndex(offsetY: real, count: int): (r: int)
    requires count >= 1
    ensures 0 <= r < count
  {
    ClampIndex(Round(offsetY / ItemHeight), count)
  }

  /** A column scrolled exactly to row `k` snaps to row `k`. */
  lemma SnapToRow(k: int, count: int)
    requires 0 <= k < count
    ensures SnappedIndex(k as real * ItemHeight, count) == k
  {
    assert (k as real * ItemHeight) / ItemHeight == k as real;
  }

  /** The refs of one `WheelColumn`. */
  class WheelColumn {
    var isUserScrolling: bool
    var lastReportedIndex: int

    constructor()
      ensures !isUserScrolling && lastReportedIndex == -1
    {
      isUserScrolling := false;
      lastReportedIndex := -1;
    }

    /** `handleScrollBeginDrag`. */
    method HandleScrollBeginDrag()
      modifies this
      ensures isUserScrolling && lastReportedIndex == old(lastReportedIndex)
    {
      isUserScrolling := true;
    }

    /** The effect on a new selection: scroll to it and remember it, unless the user is scrolling. */
    method SyncToSelection(selectedIndex: int)
      modifies this
      ensures isUserScrolling == old(isUserScrolling)
      ensures !old(isUserScrolling) ==> lastReportedIndex == selectedIndex
      ensures old(isUserScrolling) ==> lastReportedIndex == old(lastReportedIndex)
    {
      if !isUserScrolling {
        lastReportedIndex := selectedIndex;
      }
    }

    /**
     * `handleMomentumScrollEnd`: snap to the row under the offset and report
     * it, returning the index passed to `onValueChange`, only when it differs
     * from the last one reported. The item list is never empty.
     */
    method HandleMomentumScrollEnd(offsetY: real, itemCount: int) returns (reported: Option<int>)
      requires itemCount >= 1
      modifies this
      ensures !isUserScrolling
      ensures var k := SnappedIndex(offsetY, itemCount);
        && (k != old(lastReportedIndex) ==> reported == Some(k))
        && (k == old(lastReportedIndex) ==> reported == None)
        && lastReportedIndex == k
    {
      isUserScrolling := false;
      var clampedIndex := SnappedIndex(offsetY, itemCount);
      reported := None;
      if clampedIndex != lastReportedIndex {
        lastReportedIndex := clampedIndex;
        reported := Some(clampedIndex);
      }
    }
  }
}
