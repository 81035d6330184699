/**
 Extraction of one series from one worksheet (app.py:46-95): the sample
 dates come from the date header row, the concentrations from one analyte
 row, cut to the columns the dates span, and every point gets the same
 location label.

 Rows arrive as sequences of cells; which row is the header and which the
 analyte row is decided by the caller. The script's module-level settings
 `min_column` and `analyte_name_column` are parameters here.
 */
module Sheet {
  import opened Wrappers
  import opened Cells
  import opened Lists
  import opened DatePattern
  import opened Normalise

  /** The location label every point of the series carries (app.py:95). */
  const LocationLabel: string := "CL-1"

  /** The frame handed to the plot: title, x values, y values, colour labels. */
  datatype Series = Series(
    title: Value,
    sampleDates: seq<Value>,
    concentrations: seq<Value>,
    locations: seq<string>)

  /** The filter condition of `get_date_cells`. */
  predicate IsDateCell(c: Cell, minColumn: int) {
    c.column >= minColumn && c.value.Str? && MatchesDateRe(c.value.s)
  }

  /** `get_date_cells`: the header cells at or right of `minColumn` whose
      value is text matching the quarter-date pattern, in header order. */
  function GetDateCells(header: seq<Cell>, minColumn: int): (r: seq<Cell>)
    ensures forall c :: c in r <==> c in header && IsDateCell(c, minColumn)
    ensures forall i :: 0 <= i < |r| ==> IsDateCell(r[i], minColumn)
  {
    Filter(header, c => IsDateCell(c, minColumn))
  }

  /** `get_values_from_cells`: the values of the cells, position by position. */
  function GetValuesFromCells(cells: seq<Cell>): (r: seq<Value>)
    ensures |r| == |cells|
    ensures forall i :: 0 <= i < |cells| ==> r[i] == cells[i].value
  {
    seq(|cells|, i requires 0 <= i < |cells| => cells[i].value)
  }

  /** `get_max_column`: `cells[-1].column`, raising IndexError on an empty
      list. */
  function GetMaxColumn(cells: seq<Cell>): (r: Result<int>)
    ensures r.Failure? <==> cells == []
    ensures r.Failure? ==> r.error == IndexError
    ensures r.Success? ==> r.value == cells[|cells| - 1].column
  {
    if cells == [] then Failure(IndexError) else Success(cells[|cells| - 1].column)
  }

  /** `get_analyte_name`: `row[analyte_name_column - 1].value` under Python
      indexing, so a column of 0 or below counts back from the end of the row,
      and an index outside the row raises IndexError. */
  function GetAnalyteName(row: seq<Cell>, nameColumn: int): (r: Result<Value>)
    ensures r.Success? <==> -|row| < nameColumn <= |row|
    ensures r.Failure? ==> r.error == IndexError
    ensures 1 <= nameColumn <= |row| ==> r == Success(row[nameColumn - 1].value)
    ensures -|row| < nameColumn <= 0 ==> r == Success(row[|row| + nameColumn - 1].value)
  {
    var i := nameColumn - 1;
    if 0 <= i < |row| then Success(row[i].value)
    else if -|row| <= i < 0 then Success(row[|row| + i].value)
    else Failure(IndexError)
  }

  /** The filter condition of `get_analyte_cells`. */
  predicate InColumns(c: Cell, minColumn: int, maxColumn: int) {
    minColumn <= c.column <= maxColumn
  }

  /** `get_analyte_cells`: the cells of the row whose column lies in
      `minColumn..maxColumn`, in row order. */
  function GetAnalyteCells(row: seq<Cell>, minColumn: int, maxColumn: int): (r: seq<Cell>)
    ensures forall c :: c in r <==> c in row && InColumns(c, minColumn, maxColumn)
    ensures forall i :: 0 <= i < |r| ==> InColumns(r[i], minColumn, maxColumn)
  {
    Filter(row, c => InColumns(c, minColumn, maxColumn))
  }

  /** app.py:83-95 for one header row and one analyte row. The steps run in
      the script's order, so an empty date list (IndexError in
      `get_max_column`) is reported before a bad name column, and that before
      any failure to normalise a concentration. */
  function ExtractSeries(header: seq<Cell>, row: seq<Cell>, minColumn: int, nameColumn: int): (r: Result<Series>)
    ensures GetDateCells(header, minColumn) == [] ==> r == Failure(IndexError)
    ensures !(-|row| < nameColumn <= |row|) ==> r == Failure(IndexError)
    ensures GetDateCells(header, minColumn) != [] ==>
              (r.Success? <==> -|row| < nameColumn <= |row| && AllNormalise(SeriesCells(header, row, minColumn)))
    ensures r.Success? ==> r.value.title == GetAnalyteName(row, nameColumn).value
    ensures r.Success? ==> r.value.sampleDates == GetValuesFromCells(GetDateCells(header, minColumn))
    ensures r.Success? ==> NormalisesTo(SeriesCells(header, row, minColumn), r.value.concentrations)
    ensures r.Success? ==> |r.value.locations| == |r.value.concentrations|
    ensures r.Success? ==> forall i :: 0 <= i < |r.value.locations| ==> r.value.locations[i] == LocationLabel
    ensures r.Success? ==>
              forall i :: 0 <= i < |r.value.concentrations| ==>
                r.value.concentrations[i].None? || r.value.concentrations[i].Num?
    ensures r.Success? ==>
              forall i :: 0 <= i < |r.value.sampleDates| ==>
                r.value.sampleDates[i].Str? && MatchesDateRe(r.value.sampleDates[i].s)
  {
    var dateCells := GetDateCells(header, minColumn);
    var maxColumn :- GetMaxColumn(dateCells);
    var analyteCells := GetAnalyteCells(row, minColumn, maxColumn);
    assert SeriesCells(header, row, minColumn) == analyteCells;
    SeriesOf(dateCells, analyteCells, row, nameColumn)
  }

  /** app.py:86-95, once the date cells and the analyte cells are known: the
      name is read, the concentrations are normalised, and every point gets
      the location label. */
  function SeriesOf(dateCells: seq<Cell>, analyteCells: seq<Cell>, row: seq<Cell>, nameColumn: int): (r: Result<Series>)
    ensures r.Success? <==> -|row| < nameColumn <= |row| && AllNormalise(analyteCells)
    ensures !(-|row| < nameColumn <= |row|) ==> r == Failure(IndexError)
    ensures r.Success? ==> r.value.title == GetAnalyteName(row, nameColumn).value
    ensures r.Success? ==> r.value.sampleDates == GetValuesFromCells(dateCells)
    ensures r.Success? ==> NormalisesTo(analyteCells, r.value.concentrations)
    ensures r.Success? ==> |r.value.locations| == |r.value.concentrations|
    ensures r.Success? ==> forall i :: 0 <= i < |r.value.locations| ==> r.value.locations[i] == LocationLabel
  {
    var name :- GetAnalyteName(row, nameColumn);
    NormaliseCellValues(analyteCells);
    var values :- NormaliseValues(GetValuesFromCells(analyteCells));
    Success(Series(name, GetValuesFromCells(dateCells), values, seq(|values|, _ => LocationLabel)))
  }

  /** The analyte cells the script reads: those from `minColumn` up to the
      last date column, or none when there is no date. */
  function SeriesCells(header: seq<Cell>, row: seq<Cell>, minColumn: int): seq<Cell> {
    var dates := GetDateCells(header, minColumn);
    if dates == [] then [] else GetAnalyteCells(row, minColumn, dates[|dates| - 1].column)
  }

  /** Every cell's value normalises on its own. */
  predicate AllNormalise(cells: seq<Cell>) {
    forall i :: 0 <= i < |cells| ==> NormaliseValue(cells[i].value).Success?
  }

  /** `vs` holds, position by position, the cells' values normalised one by
      one. */
  predicate NormalisesTo(cells: seq<Cell>, vs: seq<Value>) {
    && |vs| == |cells|
    && forall i :: 0 <= i < |cells| ==> NormaliseValue(cells[i].value) == Success(vs[i])
  }

  /** The staged passes over the values of some cells, stated per cell. */
  lemma NormaliseCellValues(cells: seq<Cell>)
    ensures var r := NormaliseValues(GetValuesFromCells(cells));
            && (r.Success? <==> AllNormalise(cells))
            && (r.Success? ==> NormalisesTo(cells, r.value))
  {
    var values := GetValuesFromCells(cells);
    NormaliseValuesElementwise(values);
    assert forall i :: 0 <= i < |cells| ==> values[i] == cells[i].value;
  }

  /** Every sample date is a quarter label such as "Q3 2021". */
  lemma SampleDatesAreQuarterLabels(header: seq<Cell>, row: seq<Cell>, minColumn: int, nameColumn: int)
    requires ExtractSeries(header, row, minColumn, nameColumn).Success?
    ensures var dates := ExtractSeries(header, row, minColumn, nameColumn).value.sampleDates;
            forall i :: 0 <= i < |dates| ==> dates[i].Str? && IsQuarterLabel(dates[i].s)
  {
    var dates := ExtractSeries(header, row, minColumn, nameColumn).value.sampleDates;
    forall i | 0 <= i < |dates|
      ensures dates[i].Str? && IsQuarterLabel(dates[i].s)
    {
      DateReMatchesQuarterLabels(dates[i].s);
    }
  }

  /** Date cells keep header order: the date cells of two header pieces are
      the date cells of the first followed by those of the second. */
  lemma DateCellsKeepOrder(a: seq<Cell>, b: seq<Cell>, minColumn: int)
    ensures GetDateCells(a + b, minColumn) == GetDateCells(a, minColumn) + GetDateCells(b, minColumn)
  {
    FilterAppend(a, b, c => IsDateCell(c, minColumn));
  }

  /** Columns of a worksheet row increase from left to right, and so do those
      of the date cells taken from it. */
  lemma DateCellsIncrease(header: seq<Cell>, minColumn: int)
    requires IncreasingBy(header, Column)
    ensures IncreasingBy(GetDateCells(header, minColumn), Column)
  {
    FilterKeepsIncreasing(header, c => IsDateCell(c, minColumn), Column);
  }

  /** On cells with increasing columns, `get_max_column` returns the largest
      column present. */
  lemma MaxColumnIsLargest(cells: seq<Cell>)
    requires cells != [] && IncreasingBy(cells, Column)
    ensures GetMaxColumn(cells).Success?
    ensures exists i :: 0 <= i < |cells| && cells[i].column == GetMaxColumn(cells).value
    ensures forall i :: 0 <= i < |cells| ==> cells[i].column <= GetMaxColumn(cells).value
  {
    var last := |cells| - 1;
    forall i | 0 <= i < |cells|
      ensures cells[i].column <= cells[last].column
    {
      if i < last {
        assert Column(cells[i]) < Column(cells[last]);
      }
    }
  }

  /** In a row read from a worksheet (columns 1, 2, ...) the name column
      holds the name: the value read is that of the cell in that column. */
  lemma AnalyteNameIsInNameColumn(row: seq<Cell>, nameColumn: int, k: int)
    requires ColumnsFrom(row, 1)
    requires 0 <= k < |row| && row[k].column == nameColumn
    ensures GetAnalyteName(row, nameColumn) == Success(row[k].value)
  {
  }

  /** In a row read from a worksheet (columns counting up from `first`), the
      analyte cells are one contiguous slice: from `minColumn` up to
      `maxColumn`, both clipped to the row. */
  lemma {:induction false} AnalyteCellsAreSlice(row: seq<Cell>, first: int, minColumn: int, maxColumn: int)
    requires ColumnsFrom(row, first)
    ensures var lo := Clip(minColumn - first, 0, |row|);
            var hi := Clip(maxColumn - first + 1, lo, |row|);
            GetAnalyteCells(row, minColumn, maxColumn) == row[lo..hi]
  {
    var lo := Clip(minColumn - first, 0, |row|);
    var hi := Clip(maxColumn - first + 1, lo, |row|);
    FilterOfInterval(row, c => InColumns(c, minColumn, maxColumn), lo, hi);
  }

  /** `x` limited to `lo..hi`. */
  function Clip(x: int, lo: int, hi: int): (r: int)
    requires lo <= hi
    ensures lo <= r <= hi
  {
    if x < lo then lo else if x > hi then hi else x
  }
}
