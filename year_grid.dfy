/**
 * The year grid: every day of a year as a dot, laid out in the column count
 * between 12 and 25 that gives the largest square cells fitting the space
 * available, each dot coloured by whether its day is today, still to come,
 * or past with or without a journal entry. Widths and heights are exact
 * reals; today's date is passed in.
 */
module YearGrid {
  import opened Calendar
  import opened JournalDateHelpers
  import opened JournalStore

  const Gap: int := 2
  const MinColumns: int := 12
  const MaxColumns: int := 25

  /** `Math.ceil(totalDays / cols)`. */
  function Rows(totalDays: nat, cols: int): (rows: int)
    requires cols >= 1
    ensures rows >= 0
    ensures cols * rows >= totalDays
    ensures cols * (rows - 1) < totalDays || totalDays == 0
  {
    (totalDays + cols - 1) / cols
  }

  function MinReal(a: real, b: real): (r: real)
    ensures r <= a && r <= b && (r == a || r == b)
  {
    if a <= b then a else b
  }

  /** The widest cell for a given width: `(availableWidth - (cols - 1) * GAP) / cols`. */
  function CellFromWidth(availableWidth: real, cols: int): real
    requires cols >= 1
  {
    (availableWidth - ((cols - 1) * Gap) as real) / cols as real
  }

  /** The tallest cell for a given height and row count. */
  function CellFromHeight(availableHeight: real, rows: int): real
    requires rows >= 1
  {
    (availableHeight - ((rows - 1) * Gap) as real) / rows as real
  }

  /** The cell size `cols` columns allow: the smaller of the two limits. */
  function CellSizeFor(totalDays: nat, availableWidth: real, availableHeight: real, cols: int): real
    requires totalDays >= 1 && cols >= 1
  {
    MinReal(CellFromWidth(availableWidth, cols), CellFromHeight(availableHeight, Rows(totalDays, cols)))
  }

  /** Some column count in range allows a cell of positive size. */
  predicate SomeColumnsFit(totalDays: nat, availableWidth: real, availableHeight: real)
    requires totalDays >= 1
  {
    exists c :: MinColumns <= c <= MaxColumns && CellSizeFor(totalDays, availableWidth, availableHeight, c) > 0.0
  }

  /**
   * `calculateGridLayout`: try every column count from 12 to 25 and keep the
   * first one giving the largest cell; the cell size is that size rounded
   * down, and 12 columns of size 0 when no count gives a positive size.
   */
  method CalculateGridLayout(totalDays: nat, availableWidth: real, availableHeight: real)
    returns (columns: int, cellSize: int)
    requires totalDays >= 1
    ensures MinColumns <= columns <= MaxColumns && cellSize >= 0
    ensures !SomeColumnsFit(totalDays, availableWidth, availableHeight) ==> columns == MinColumns && cellSize == 0
    ensures SomeColumnsFit(totalDays, availableWidth, availableHeight) ==>
      var best := CellSizeFor(totalDays, availableWidth, availableHeight, columns);
      && best > 0.0 && cellSize == best.Floor
      && (forall c :: MinColumns <= c <= MaxColumns ==> CellSizeFor(totalDays, availableWidth, availableHeight, c) <= best)
      && (forall c :: MinColumns <= c < columns ==> CellSizeFor(totalDays, availableWidth, availableHeight, c) < best)
  {
    var bestColumns := MinColumns;
    var bestCellSize: real := 0.0;
    var cols := MinColumns;
    while cols <= MaxColumns
      invariant MinColumns <= cols <= MaxColumns + 1
      invariant MinColumns <= bestColumns <= MaxColumns && bestCellSize >= 0.0
      invariant bestCellSize == 0.0 ==> bestColumns == MinColumns
      invariant bestCellSize > 0.0 ==>
        bestColumns < cols && bestCellSize == CellSizeFor(totalDays, availableWidth, availableHeight, bestColumns)
      invariant forall c :: MinColumns <= c < cols ==> CellSizeFor(totalDays, availableWidth, availableHeight, c) <= bestCellSize
      invariant forall c :: MinColumns <= c < bestColumns ==> CellSizeFor(totalDays, availableWidth, availableHeight, c) < bestCellSize
    {
      var rows := Rows(totalDays, cols);
      var maxCellFromWidth := CellFromWidth(availableWidth, cols);
      var maxCellFromHeight := CellFromHeight(availableHeight, rows);
      var size := MinReal(maxCellFromWidth, maxCellFromHeight);
      if size > bestCellSize {
        bestCellSize := size;
        bestColumns := cols;
      }
      cols := cols + 1;
    }
    columns := bestColumns;
    cellSize := bestCellSize.Floor;
    if bestCellSize > 0.0 {
      assert CellSizeFor(totalDays, availableWidth, availableHeight, bestColumns) > 0.0;
      assert SomeColumnsFit(totalDays, availableWidth, availableHeight);
    }
  }

  /** The laid-out grid's width: `columns * cellSize + (columns - 1) * GAP`. */
  function GridWidth(columns: int, cellSize: int): int {
    columns * cellSize + (columns - 1) * Gap
  }

  /** Cells of size `s` in `n` lines with gaps fit in `length` when `s` is at most the line limit. */
  lemma LineFits(n: int, s: int, limit: real, length: real)
    requires n >= 1 && 0 <= s && s as real <= limit
    requires limit == (length - ((n - 1) * Gap) as real) / n as real
    ensures (n * s + (n - 1) * Gap) as real <= length
  {
    var nr := n as real;
    assert limit * nr == length - ((n - 1) * Gap) as real;
    assert s as real * nr <= limit * nr;
    assert (n * s) as real == s as real * nr;
  }

  /**
   * Whenever some cell size is positive, the chosen layout fits: all columns
   * and their gaps within the width, all rows and their gaps within the
   * height, and enough cells for every day.
   */
  lemma LayoutFits(totalDays: nat, availableWidth: real, availableHeight: real, columns: int, cellSize: int)
    requires totalDays >= 1 && MinColumns <= columns <= MaxColumns
    requires CellSizeFor(totalDays, availableWidth, availableHeight, columns) > 0.0
    requires cellSize == CellSizeFor(totalDays, availableWidth, availableHeight, columns).Floor
    ensures columns * Rows(totalDays, columns) >= totalDays
    ensures GridWidth(columns, cellSize) as real <= availableWidth
    ensures var rows := Rows(totalDays, columns);
      (rows * cellSize + (rows - 1) * Gap) as real <= availableHeight
  {
    var rows := Rows(totalDays, columns);
    var best := CellSizeFor(totalDays, availableWidth, availableHeight, columns);
    assert cellSize as real <= best;
    LineFits(columns, cellSize, CellFromWidth(availableWidth, columns), availableWidth);
    LineFits(rows, cellSize, CellFromHeight(availableHeight, rows), availableHeight);
  }

  /** When no column count gives a positive cell, the grid is 12 columns of empty cells, 22 wide. */
  lemma NoFitWidth()
    ensures GridWidth(MinColumns, 0) == 22
  {
  }

  // ---------------------------------------------------------------------------
  // Dots
  // ---------------------------------------------------------------------------

  datatype DayDotStatus = Today | Future | PastWithEntry | PastWithoutEntry

  /**
   * `getDotStatus`: today's key is 'today'; otherwise a key that is not
   * past-or-today is 'future'; otherwise it is past, with or without an entry.
   */
  function GetDotStatus(date: string, entries: map<string, JournalEntry>, today: Date): (s: DayDotStatus)
    ensures s == Today <==> IsToday(date, today)
    ensures s == Future <==> !IsToday(date, today) && !IsPastOrToday(date, today)
    ensures s == PastWithEntry <==> !IsToday(date, today) && IsPastOrToday(date, today) && date in entries
    ensures s == PastWithoutEntry <==> !IsToday(date, today) && IsPastOrToday(date, today) && date !in entries
  {
    if IsToday(date, today) then Today
    else if !IsPastOrToday(date, today) then Future
    else if date in entries then PastWithEntry
    else PastWithoutEntry
  }

  /** Different valid days have different keys. */
  lemma DateKeyInjective(a: Date, b: Date)
    requires ValidDate(a) && ValidDate(b) && a.year >= 0 && b.year >= 0
    requires ToDateString(a) == ToDateString(b)
    ensures a == b
  {
    ParseDateStringRoundTrip(a);
    ParseDateStringRoundTrip(b);
  }

  /**
   * The dot of a day of the grid: 'today' for today only, 'future' for a
   * later day, and for an earlier day past with an entry exactly when the
   * journal has one under its key.
   */
  lemma DotStatusOfDay(d: Date, entries: map<string, JournalEntry>, today: Date)
    requires ValidDate(d) && ValidDate(today) && d.year >= 100 && today.year >= 0
    ensures GetDotStatus(ToDateString(d), entries, today) == Today <==> d == today
    ensures GetDotStatus(ToDateString(d), entries, today) == Future <==> DayNumber(d) > DayNumber(today)
    ensures d != today && DayNumber(d) <= DayNumber(today) ==>
      (GetDotStatus(ToDateString(d), entries, today) == PastWithEntry <==> ToDateString(d) in entries)
  {
    if ToDateString(d) == ToDateString(today) {
      DateKeyInjective(d, today);
    }
    if DayNumber(d) <= DayNumber(today) {
      TodayIsPastOrToday(d, today);
    } else {
      FutureIsNotPastOrToday(d, today);
    }
  }

  /** The grid of a year: its day keys, its layout, its width and each day's dot. */
  datatype GridView = GridView(dates: seq<string>, columns: int, cellSize: int, gridWidth: int,
                               statuses: seq<DayDotStatus>)

  /**
   * `YearGrid`: the keys of the year's days, the layout for that many days,
   * and one dot per day. Years 0..99 give no days (see `GenerateYearDates`)
   * and are not laid out.
   */
  method RenderYearGrid(year: int, availableWidth: real, availableHeight: real,
                        entries: map<string, JournalEntry>, today: Date)
    returns (view: GridView)
    requires JsFullYear(year) == year
    ensures view.dates == YearDates(year)
    ensures MinColumns <= view.columns <= MaxColumns && view.cellSize >= 0
    ensures view.gridWidth == GridWidth(view.columns, view.cellSize)
    ensures view.cellSize > 0 ==> view.gridWidth as real <= availableWidth
    ensures |view.statuses| == |view.dates|
    ensures forall i :: 0 <= i < |view.dates| ==> view.statuses[i] == GetDotStatus(view.dates[i], entries, today)
  {
    var dates := GenerateYearDates(year);
    var columns, cellSize := CalculateGridLayout(|dates|, availableWidth, availableHeight);
    if cellSize > 0 {
      LayoutFits(|dates|, availableWidth, availableHeight, columns, cellSize);
    }
    var gridWidth := GridWidth(columns, cellSize);
    var statuses := seq(|dates|, i requires 0 <= i < |dates| => GetDotStatus(dates[i], entries, today));
    view := GridView(dates, columns, cellSize, gridWidth, statuses);
  }
}
