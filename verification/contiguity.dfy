/**
 Holes in the date header, and the validity check app.py:61-65 leaves
 commented out.

 The data frame puts the sample dates and the concentrations side by side
 as columns, but the script takes the dates from the matching header cells
 only and the concentrations from every column between `min_column` and the
 last date column. The two lists have the same length exactly when the date
 cells fill that column range without a hole.
 */
module Contiguity {
  import opened Wrappers
  import opened Cells
  import opened Lists
  import opened Normalise
  import opened Sheet
  import opened DatePattern

  /** Python's `list(range(lo, hi))`. */
  function Range(lo: int, hi: int): (r: seq<int>)
    ensures |r| == if lo < hi then hi - lo else 0
    ensures forall k :: 0 <= k < |r| ==> r[k] == lo + k
  {
    seq(if lo < hi then hi - lo else 0, k => lo + k)
  }

  /** Python's `min()` of a non-empty list. */
  function MinOf(s: seq<int>): (m: int)
    requires s != []
    ensures m in s
    ensures forall i :: 0 <= i < |s| ==> m <= s[i]
  {
    if |s| == 1 then s[0]
    else
      var rest := MinOf(s[1..]);
      if s[0] <= rest then s[0] else rest
  }

  /** Python's `max()` of a non-empty list. */
  function MaxOf(s: seq<int>): (m: int)
    requires s != []
    ensures m in s
    ensures forall i :: 0 <= i < |s| ==> s[i] <= m
  {
    if |s| == 1 then s[0]
    else
      var rest := MaxOf(s[1..]);
      if s[0] >= rest then s[0] else rest
  }

  /** `[c.column for c in cells]`. */
  function Columns(cells: seq<Cell>): (r: seq<int>)
    ensures |r| == |cells|
    ensures forall i :: 0 <= i < |cells| ==> r[i] == cells[i].column
  {
    seq(|cells|, i requires 0 <= i < |cells| => cells[i].column)
  }

  /** The check as written in the comment: the date columns equal
      `range(min(columns), max(columns) + 1)`. `min()` of no columns raises
      ValueError. */
  function ContiguityCheck(cols: seq<int>): (r: Result<bool>)
    ensures r.Failure? <==> cols == []
    ensures r.Failure? ==> r.error == ValueError
  {
    if cols == [] then Failure(ValueError)
    else Success(cols == Range(MinOf(cols), MaxOf(cols) + 1))
  }

  /** The check measured from `min_column` instead of from the first date
      column, so that a hole right of `min_column` is caught as well. */
  function ContiguityCheckFrom(cols: seq<int>, minColumn: int): (r: Result<bool>)
    ensures r.Failure? <==> cols == []
    ensures r.Failure? ==> r.error == ValueError
  {
    if cols == [] then Failure(ValueError)
    else Success(cols == Range(minColumn, MaxOf(cols) + 1))
  }

  /** The largest and the smallest of columns counting up from `lo`. */
  lemma ExtremesOfCounting(cells: seq<Cell>, lo: int)
    requires cells != [] && ColumnsFrom(cells, lo)
    ensures MinOf(Columns(cells)) == lo
    ensures MaxOf(Columns(cells)) == lo + |cells| - 1
  {
    var cols := Columns(cells);
    assert cols[0] == lo && cols[|cols| - 1] == lo + |cells| - 1;
  }

  /** Columns counting up from `lo` are `range(lo, lo + |cells|)`. */
  lemma CountingIsRange(cells: seq<Cell>, lo: int)
    requires ColumnsFrom(cells, lo)
    ensures Columns(cells) == Range(lo, lo + |cells|)
  {
    var r := Range(lo, lo + |cells|);
    assert forall k :: 0 <= k < |cells| ==> Columns(cells)[k] == r[k];
  }

  lemma CountingPassesCheck(cells: seq<Cell>, lo: int)
    requires cells != [] && ColumnsFrom(cells, lo)
    ensures ContiguityCheck(Columns(cells)) == Success(true)
  {
    ExtremesOfCounting(cells, lo);
    CountingIsRange(cells, lo);
    CheckUnfold(Columns(cells), lo, lo + |cells|);
  }

  lemma CheckUnfold(cols: seq<int>, lo: int, hi: int)
    requires cols != [] && MinOf(cols) == lo && MaxOf(cols) + 1 == hi
    ensures ContiguityCheck(cols) == Success(cols == Range(lo, hi))
  {
  }

  lemma PassingCheckCounts(cols: seq<int>)
    requires ContiguityCheck(cols) == Success(true)
    ensures forall k :: 0 <= k < |cols| ==> cols[k] == cols[0] + k
  {
    var lo := MinOf(cols);
    var r := Range(lo, MaxOf(cols) + 1);
    assert cols == r;
  }

  /** The check as written passes exactly when the date columns have no
      hole between the first date column and the last. */
  lemma ContiguityCheckMeaning(cells: seq<Cell>)
    requires cells != []
    ensures ContiguityCheck(Columns(cells)) == Success(true) <==> ColumnsFrom(cells, cells[0].column)
  {
    var cols := Columns(cells);
    if ColumnsFrom(cells, cells[0].column) {
      CountingPassesCheck(cells, cells[0].column);
    }
    if ContiguityCheck(cols) == Success(true) {
      PassingCheckCounts(cols);
    }
  }

  /** The check measured from `min_column` passes exactly when the date
      columns count up from `min_column` with no hole. */
  lemma ContiguityCheckFromMeaning(cells: seq<Cell>, minColumn: int)
    requires cells != []
    ensures ContiguityCheckFrom(Columns(cells), minColumn) == Success(true) <==> ColumnsFrom(cells, minColumn)
  {
    var cols := Columns(cells);
    if ColumnsFrom(cells, minColumn) {
      ExtremesOfCounting(cells, minColumn);
      CountingIsRange(cells, minColumn);
    }
    if ContiguityCheckFrom(cols, minColumn) == Success(true) {
      var r := Range(minColumn, MaxOf(cols) + 1);
      assert cols == r;
    }
  }

  /** Strictly increasing integers spread at least as far apart as their
      positions. */
  lemma {:induction false} IncreasingSpread(cells: seq<Cell>, i: nat, j: nat)
    requires IncreasingBy(cells, Column)
    requires i <= j < |cells|
    ensures cells[j].column - cells[i].column >= j - i
    decreases j - i
  {
    if i < j {
      IncreasingSpread(cells, i, j - 1);
      assert Column(cells[j - 1]) < Column(cells[j]);
    }
  }

  /** Increasing columns, all at or right of `lo`, number `last - lo + 1`
      exactly when they fill `lo..last` without a hole. */
  lemma CountMatchesSpan(cells: seq<Cell>, lo: int)
    requires cells != [] && IncreasingBy(cells, Column)
    requires forall k :: 0 <= k < |cells| ==> cells[k].column >= lo
    ensures |cells| == cells[|cells| - 1].column - lo + 1 <==> ColumnsFrom(cells, lo)
  {
    var last := |cells| - 1;
    if |cells| == cells[last].column - lo + 1 {
      forall k | 0 <= k < |cells|
        ensures cells[k].column == lo + k
      {
        IncreasingSpread(cells, 0, k);
        IncreasingSpread(cells, k, last);
      }
    }
  }

  /** A worksheet row's columns increase from left to right. */
  lemma WorksheetRowIncreases(row: seq<Cell>)
    requires ColumnsFrom(row, 1)
    ensures IncreasingBy(row, Column)
  {
    forall i, j | 0 <= i < j < |row|
      ensures Column(row[i]) < Column(row[j])
    {
    }
  }

  /** In a worksheet row of `n` cells, every column from `minColumn` to
      `maxColumn` is present, so that many analyte cells are taken. */
  lemma AnalyteCellsCount(row: seq<Cell>, minColumn: int, maxColumn: int)
    requires ColumnsFrom(row, 1) && 1 <= minColumn <= maxColumn <= |row|
    ensures |GetAnalyteCells(row, minColumn, maxColumn)| == maxColumn - minColumn + 1
  {
    AnalyteCellsAreSlice(row, 1, minColumn, maxColumn);
  }

  /** The lengths of a successfully extracted series: one date per date
      cell, one concentration per analyte cell. */
  lemma ExtractedLengths(header: seq<Cell>, row: seq<Cell>, minColumn: int, nameColumn: int)
    requires ExtractSeries(header, row, minColumn, nameColumn).Success?
    ensures GetDateCells(header, minColumn) != []
    ensures var s := ExtractSeries(header, row, minColumn, nameColumn).value;
            var dates := GetDateCells(header, minColumn);
            && |s.sampleDates| == |dates|
            && |s.concentrations| == |GetAnalyteCells(row, minColumn, dates[|dates| - 1].column)|
  {
    var dates := GetDateCells(header, minColumn);
    var analyteCells := GetAnalyteCells(row, minColumn, dates[|dates| - 1].column);
    NormaliseValuesElementwise(GetValuesFromCells(analyteCells));
  }

  /** The last date cell of a worksheet header lies in the header and at or
      right of `min_column`. */
  lemma LastDateColumn(header: seq<Cell>, minColumn: int)
    requires ColumnsFrom(header, 1) && GetDateCells(header, minColumn) != []
    ensures var dates := GetDateCells(header, minColumn);
            minColumn <= dates[|dates| - 1].column <= |header|
  {
    var dates := GetDateCells(header, minColumn);
    var last := dates[|dates| - 1];
    assert last in dates;
    var k :| 0 <= k < |header| && header[k] == last;
  }

  /** The property the commented-out check was after. For a header row and
      an analyte row read from the same worksheet (both with columns 1, 2,
      ..., and equally long), a successful extraction yields as many sample
      dates as concentrations exactly when the date cells occupy every
      column from `min_column` to the last date column, which is exactly
      when the check measured from `min_column` passes. */
  lemma SeriesLengthsAgreeIffNoHole(header: seq<Cell>, row: seq<Cell>, minColumn: int, nameColumn: int)
    requires ColumnsFrom(header, 1) && ColumnsFrom(row, 1) && |header| == |row|
    requires minColumn >= 1
    requires ExtractSeries(header, row, minColumn, nameColumn).Success?
    ensures var s := ExtractSeries(header, row, minColumn, nameColumn).value;
            |s.sampleDates| == |s.concentrations| <==> ColumnsFrom(GetDateCells(header, minColumn), minColumn)
    ensures var s := ExtractSeries(header, row, minColumn, nameColumn).value;
            |s.sampleDates| == |s.concentrations| <==> ContiguityCheckFrom(Columns(GetDateCells(header, minColumn)), minColumn) == Success(true)
  {
    ExtractedLengths(header, row, minColumn, nameColumn);
    DateAndAnalyteCountsAgree(header, row, minColumn);
    ContiguityCheckFromMeaning(GetDateCells(header, minColumn), minColumn);
  }

  /** The column arithmetic behind `SeriesLengthsAgreeIffNoHole`. */
  lemma DateAndAnalyteCountsAgree(header: seq<Cell>, row: seq<Cell>, minColumn: int)
    requires ColumnsFrom(header, 1) && ColumnsFrom(row, 1) && |header| == |row|
    requires minColumn >= 1 && GetDateCells(header, minColumn) != []
    ensures var dates := GetDateCells(header, minColumn);
            |dates| == |GetAnalyteCells(row, minColumn, dates[|dates| - 1].column)| <==> ColumnsFrom(dates, minColumn)
  {
    var dates := GetDateCells(header, minColumn);
    DatesOfWorksheetHeader(header, minColumn);
    var maxColumn := dates[|dates| - 1].column;
    AnalyteCellsCount(row, minColumn, maxColumn);
    CountMatchesSpan(dates, minColumn);
  }

  /** The date cells of a worksheet header increase, lie at or right of
      `min_column`, and end inside the header. */
  lemma DatesOfWorksheetHeader(header: seq<Cell>, minColumn: int)
    requires ColumnsFrom(header, 1) && GetDateCells(header, minColumn) != []
    ensures var dates := GetDateCells(header, minColumn);
            && IncreasingBy(dates, Column)
            && (forall k :: 0 <= k < |dates| ==> dates[k].column >= minColumn)
            && minColumn <= dates[|dates| - 1].column <= |header|
  {
    WorksheetRowIncreases(header);
    DateCellsIncrease(header, minColumn);
    LastDateColumn(header, minColumn);
  }

  /** Date columns that count up without a hole but start one column right
      of `min_column` pass the check as written and fail the check measured
      from `min_column`. */
  lemma LeadingHoleSlipsThrough(dates: seq<Cell>, minColumn: int)
    requires dates != [] && ColumnsFrom(dates, minColumn + 1)
    ensures ContiguityCheck(Columns(dates)) == Success(true)
    ensures ContiguityCheckFrom(Columns(dates), minColumn) == Success(false)
  {
    ContiguityCheckMeaning(dates);
    ContiguityCheckFromMeaning(dates, minColumn);
  }

  /** A header whose dates start one column right of `min_column`. */
  const GapHeader: seq<Cell> :=
    [Cell(1, None), Cell(2, None), Cell(3, None), Cell(4, None),
     Cell(5, Str("Q1 2020")), Cell(6, Str("Q2 2020"))]

  /** An analyte row of the same worksheet. */
  const GapRow: seq<Cell> :=
    [Cell(1, Str("Chloride")), Cell(2, None), Cell(3, None),
     Cell(4, Num(1.0)), Cell(5, Num(2.0)), Cell(6, Num(3.0))]

  lemma GapHeaderDates()
    ensures GetDateCells(GapHeader, 4) == GapHeader[4..6]
  {
    var p := c => IsDateCell(c, 4);
    assert MatchesDateRe("Q1 2020") && MatchesDateRe("Q2 2020") by {
      DateReMatchesQuarterLabels("Q1 2020");
      DateReMatchesQuarterLabels("Q2 2020");
    }
    assert forall k :: 0 <= k < |GapHeader| ==> (p(GapHeader[k]) <==> 4 <= k < 6);
    FilterOfInterval(GapHeader, p, 4, 6);
  }

  /** The check as written misses a hole between `min_column` and the first
      date column: with `min_column` 4 and dates in columns 5 and 6 it
      passes, while the check measured from `min_column` fails. */
  lemma ContiguityCheckMissesLeadingHole()
    ensures ContiguityCheck(Columns(GetDateCells(GapHeader, 4))) == Success(true)
    ensures ContiguityCheckFrom(Columns(GetDateCells(GapHeader, 4)), 4) == Success(false)
  {
    GapDatesStartRightOfMin();
    LeadingHoleSlipsThrough(GetDateCells(GapHeader, 4), 4);
  }

  lemma GapDatesStartRightOfMin()
    ensures GetDateCells(GapHeader, 4) != []
    ensures ColumnsFrom(GetDateCells(GapHeader, 4), 5)
  {
    GapHeaderDates();
    assert ColumnsFrom(GapHeader[4..6], 5);
  }

  lemma GapRowAnalyteCells()
    ensures GetAnalyteCells(GapRow, 4, 6) == GapRow[3..6]
  {
    AnalyteCellsAreSlice(GapRow, 1, 4, 6);
    assert Clip(3, 0, 6) == 3 && Clip(6, 3, 6) == 6;
  }

  lemma GapRowValues()
    ensures GetValuesFromCells(GetAnalyteCells(GapRow, 4, 6)) == [Num(1.0), Num(2.0), Num(3.0)]
  {
    GapRowAnalyteCells();
  }

  lemma GapRowConcentrations()
    ensures NormaliseValues(GetValuesFromCells(GetAnalyteCells(GapRow, 4, 6))) == Success([Num(1.0), Num(2.0), Num(3.0)])
  {
    GapRowValues();
    CleanValuesAreKept([Num(1.0), Num(2.0), Num(3.0)]);
  }

  /** On that worksheet the data frame gets two sample dates and three
      concentrations, columns of unequal length. */
  lemma LeadingHoleMisalignsSeries()
    ensures ExtractSeries(GapHeader, GapRow, 4, 1).Success?
    ensures |ExtractSeries(GapHeader, GapRow, 4, 1).value.sampleDates| == 2
    ensures |ExtractSeries(GapHeader, GapRow, 4, 1).value.concentrations| == 3
  {
    GapHeaderDates();
    assert GetMaxColumn(GetDateCells(GapHeader, 4)) == Success(6);
    GapRowConcentrations();
  }
}
