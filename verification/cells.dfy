/**
 Worksheet cells as the script sees them: a column number and a
 dynamically typed value.
 */
module Cells {

  /** A cell value. `None` is an empty cell, `Str` text, `Num` an int or a
      float (a bool is an int in Python and lands here too), and `Other` any
      other cell type, such as a date, which `float()` refuses with TypeError. */
  datatype Value = None | Str(s: string) | Num(x: real) | Other

  /** One cell of a worksheet row; `column` is 1-based. */
  datatype Cell = Cell(column: int, value: Value)

  function Column(c: Cell): int {
    c.column
  }

  /** The shape of a row read from a worksheet: consecutive cells whose
      columns count up from `first`. */
  predicate ColumnsFrom(row: seq<Cell>, first: int) {
    forall k :: 0 <= k < |row| ==> row[k].column == first + k
  }
}
