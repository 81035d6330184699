# jeff-plots `app.py`: cell clean-up and single-sheet extraction in Dafny

`app.py` reads one worksheet of laboratory results and builds one plotted
series. It takes the sample dates from a header row (the cells at or right of
`min_column` whose text is a quarter label such as "Q3 2021"). It takes the
concentrations of one analyte row between `min_column` and the last date
column. It runs each concentration through three clean-up steps:
- drop a unit suffix;
- turn a "<" non-detect into 0;
- convert to a float.

It also tags every point with the location label "CL-1".

This project models that core as pure functions over immutable data and proves
what each step promises.

- `Wrappers`: `Result` and the three Python exceptions the core can raise
  (`IndexError`, `ValueError`, `TypeError`). A raised exception is modelled as
  a `Failure` value.
- `Text`: `str.isspace()` by code point and the argument-less `str.split()`. `split()` gets two independent descriptions: a declarative
  "first token" predicate, and a round trip through joining with spaces.
- `PyFloat`: `float()` on text, over decimal notation, with the narrower
  whitespace set `float()` strips. Its partner is the `Decimal` datatype:
  a padded rendering parses back to its value, and every accepted text is
  such a rendering.
- `Cells`: the dynamically typed cell value (`None`, text, number, any other
  type) and the cell (1-based column, value).
- `Lists`: the comprehension filter, and `list(map(f, xs))` for a step `f`
  that may raise. The first failing element decides the error.
- `Normalise`: `remove_units`, `convert_non_detect_to_zero`,
  `convert_to_float` and the three staged list passes.
- `DatePattern`: `date_re`, i.e. `^Q[1-4] [0-9]{4}$` under `re.match`. Python's
  `$` also matches before one final newline.
- `Sheet`: `get_date_cells`, `get_values_from_cells`, `get_max_column`,
  `get_analyte_name` (with Python's negative indexing), `get_analyte_cells`,
  and the script body at lines 83-95 as `ExtractSeries`.
- `Contiguity`: the validity check left commented out at lines 61-65. This
  module also proves when the dates and the concentrations line up.

The module-level settings `min_column` and `analyte_name_column` are
parameters. The header row and the analyte row are inputs: the loops at
lines 58-59 and 79-80 keep the last row `iter_rows` yields, and that choice
belongs to the workbook library.

`app.py` has no not-sampled marker, no month/day/year dates, no cross-sheet
merge, no units column and no sentinel-bounded scans; the model adds none of
them. In the code, "NS" reaches `float()` and raises ValueError, as
`Normalise.NotSampledMarkerFails` states.

## Model

| member | source | states |
|---|---|---|
| Text.Split | app.py:28 | `split()` returns at most one token per character; what the tokens are is fixed by the lemmas below: `SplitOfLeadingWhitespace` and `SplitAfterToken` determine every token, and the first-token predicate and the join round trip check it independently |
| Text.IsSpace | app.py:28 | the whitespace set of `str.split()`, by code point: TAB..CR, FS..US, SPACE, NEL, NO-BREAK SPACE, the Unicode space separators, and LINE SEPARATOR and PARAGRAPH SEPARATOR (U+2028, U+2029); `FileSeparatorIsNoFloatSpace` shows where it differs from what `float()` skips |
| Text.SplitYieldsTokens | app.py:28 | every element `split()` returns is non-empty and holds no whitespace |
| Text.SplitEmptyIffBlank | app.py:28 | `split()` returns no token exactly when the text is empty or all whitespace, the case where `[0]` raises IndexError |
| Text.SplitHeadIsFirstToken | app.py:28 | `split()[0]` is the first token: it follows a blank prefix and is followed by the end of the text or whitespace |
| Text.FirstTokenIsSplitHead | app.py:28 | conversely, any first token of the text is what `split()[0]` returns |
| Text.FirstTokenUnique | app.py:28 | a text has at most one first token, so `remove_units` is determined by it |
| Text.SplitKeepsEveryNonSpace | app.py:28 | splitting loses only whitespace: the tokens written back to back are the text with its whitespace deleted |
| Text.SplitJoinRoundTrip | app.py:28 | tokens joined by single spaces split back into the same tokens |
| Text.SplitOfToken | app.py:28 | a single token splits into itself |
| Text.SplitAfterToken | app.py:28 | a token followed by whitespace or nothing comes first in `split()`, ahead of the tokens of the rest |
| Text.SplitOfLeadingWhitespace | app.py:28 | any leading whitespace character, not only the space, leaves what `split()` returns unchanged; with `SplitAfterToken` and the empty case this determines every token |
| PyFloat.Strip | app.py:42 | the strip `float()` applies: a contiguous part of the text, with only `float()` whitespace (ASCII TAB..CR and SPACE, and non-ASCII Unicode whitespace) cut off, neither starting nor ending with it, empty exactly for text made of it |
| PyFloat.FloatSpace | app.py:42 | the whitespace `float()` skips: that of `split()` without FS..US, as `FileSeparatorIsNoFloatSpace` and `LeadingSpaceIsSkipped` show |
| PyFloat.ParseFloat | app.py:42 | `float()` on text raises only ValueError, and always on text that is empty or all `float()` whitespace; `ParseFloatOfRender` and `ParseFloatSuccessIsRender` together say it accepts exactly the padded decimal literals |
| PyFloat.ParseSigned | app.py:42 | reading an optional sign and then an unsigned decimal raises only ValueError, and always on empty text |
| PyFloat.ParseUnsigned | app.py:42 | an unsigned decimal is never negative, and a rejected one raises ValueError |
| PyFloat.ParseFloatOfRender | app.py:42 | `float()` round trip: a well-formed decimal literal with an optional "+" or "-", padded with whitespace `float()` skips, parses to the number it denotes |
| PyFloat.ParseFloatSuccessIsRender | app.py:42 | the converse: every text `float()` accepts is a valid decimal literal padded with whitespace it skips, and the result is that literal's value, so "1.2.3", "+-1", "." and "-" are rejected |
| PyFloat.SignedIsRender | app.py:42 | text with an optional sign that parses is the rendering of the literal read from it, with the parsed value |
| PyFloat.PartsRebuildText | app.py:42 | any text is its part before the first point, then the point and the part behind it |
| PyFloat.ParseSignedWithSign | app.py:42 | a leading "-" negates the unsigned value, a leading "+" keeps it, and a failure of the rest is the failure of the whole |
| PyFloat.ParseSignedWithoutSign | app.py:42 | text that does not start with a sign is read as an unsigned decimal |
| PyFloat.FileSeparatorIsNoFloatSpace | app.py:42 | U+001C is whitespace to `split()` but `float()` does not skip it: `float("\x1c1")` raises ValueError |
| PyFloat.LeadingSpaceIsSkipped | app.py:42 | `float(" 1")` is 1 |
| PyFloat.ParseFloatOfLiteral | app.py:42 | the unpadded case of the round trip |
| PyFloat.ParseSignedOfRender | app.py:42 | a rendered literal with its sign parses to its signed value |
| PyFloat.ParseUnsignedOfDecimal | app.py:42 | the digits and point of a literal parse to its magnitude |
| PyFloat.PartsOfUnsigned | app.py:42 | a literal splits at its first point into exactly its whole and fraction digits |
| PyFloat.StripOfPadded | app.py:42 | stripping removes exactly the whitespace padding around text that neither starts nor ends with whitespace |
| PyFloat.ParseFloatRejectsLetters | app.py:42 | text holding a character that is not a digit, sign or point, inside the padding, makes `float()` raise ValueError |
| PyFloat.UnsignedRejects | app.py:42 | unsigned text holding any character other than a digit or the point is rejected |
| Normalise.RemoveUnits | app.py:25-30 | a non-text value is returned unchanged; text fails with IndexError exactly when blank, and otherwise becomes its first whitespace-delimited token |
| Normalise.RemoveUnitsKeepsFirstToken | app.py:25-30 | text whose first token is `w` becomes exactly `w` |
| Normalise.RemoveUnitsIdempotent | app.py:25-30 | a value `remove_units` has cleaned is a fixed point of `remove_units` |
| Normalise.IsNonDetect | app.py:34 | the condition `type(value) == str and value.startswith("<")`; `ConvertNonDetectToZero` and `NonDetectTextIsZero` give its effect |
| Normalise.ConvertNonDetectToZero | app.py:32-37 | text starting with "<" becomes 0; every other value, other text included, is unchanged |
| Normalise.ConvertNonDetectToZeroIdempotent | app.py:32-37 | replacing non-detects twice is replacing them once |
| Normalise.ConvertToFloat | app.py:39-44 | `None` stays `None` and is the only input mapped to `None`; numbers are kept; text succeeds exactly when `float()` parses it, else raises ValueError; any other cell type raises TypeError; text never survives |
| Normalise.NormaliseValue | app.py:25-44 | the three steps on one value: blank text raises IndexError, empty cells and numbers are kept, another cell type raises TypeError, and every success is an empty cell or a number |
| Normalise.NormaliseValueIdempotent | app.py:25-44 | the three steps applied to one value yield an empty cell or a number, and applying them again changes nothing |
| Normalise.NormaliseValues | app.py:91-94 | the staged passes keep the list length and leave only empty cells and numbers |
| Normalise.NormaliseValuesElementwise | app.py:91-94 | the three whole-list passes succeed exactly when every value normalises on its own, and then agree with the per-value steps position by position; if some value is blank text the run fails with IndexError, whatever later passes would raise |
| Normalise.CleanValuesAreKept | app.py:91-94 | a list of empty cells and numbers passes through unchanged |
| Normalise.NonDetectTextIsZero | app.py:91-94 | because units are removed first, text whose first token starts with "<" normalises to 0 |
| Normalise.LiteralConverts | app.py:32-44 | a decimal literal is not a non-detect and converts to its value |
| Normalise.MeasurementTextIsItsMagnitude | app.py:91-94 | text whose first token is a decimal literal normalises to that literal's value, whatever unit follows |
| Normalise.NonDetectWithUnitExample | app.py:91-94 | "<2 mg/L" normalises to 0.0 |
| Normalise.NonDetectWithSpaceExample | app.py:91-94 | "< 2" normalises to 0.0, since its first token is "<" |
| Normalise.MeasurementWithUnitExample | app.py:91-94 | "5.1 mg/L" normalises to 5.1 |
| Normalise.NotSampledMarkerFails | app.py:39-44 | "NS" is kept by `remove_units` and makes `float()` raise ValueError |
| Normalise.NotSampledMarkerHasNoUnit | app.py:25-30 | `remove_units` keeps "NS" as it is |
| Normalise.NotSampledMarkerIsNoNumber | app.py:42 | `float("NS")` raises ValueError |
| DatePattern.MatchesDateRe | app.py:22 | `date_re.match(s)` is truthy; `DateReMatchesQuarterLabels` proves it equal to the spelled-out quarter label, both directions |
| DatePattern.DateReMatchesQuarterLabels | app.py:22 | `date_re.match` accepts exactly "Q", a digit 1 to 4, one space and four digits, optionally followed by one newline |
| DatePattern.DateReExamples | app.py:22 | "Q3 2021" and "Q3 2021\n" match; "Q5 2021", "Q3 21", "Q3 2021 " and "1/1/2020" do not |
| Lists.Filter | app.py:60 | a comprehension filter keeps exactly the elements that satisfy its condition and are in the list |
| Lists.FilterKeepsIncreasing | app.py:60 | filtering keeps relative order: a strictly increasing list stays strictly increasing |
| Lists.FilterOfInterval | app.py:74 | when the condition holds exactly on positions `lo..hi`, the filter is that slice |
| Lists.FilterAppend | app.py:60 | filtering two pieces one after the other is filtering their concatenation |
| Lists.MapResult | app.py:92-94 | `list(map(f, xs))` with a raising `f`: it succeeds exactly when every element does, and then maps every element in place; otherwise the error is that of the first failing element |
| Sheet.GetDateCells | app.py:56-66 | the date cells are exactly the header cells at or right of `min_column` whose value is text matching `date_re` |
| Sheet.DateCellsKeepOrder | app.py:60 | date cells keep header order: those of two header pieces are those of the first followed by those of the second |
| Sheet.DateCellsIncrease | app.py:60 | date cells of a header with increasing columns have increasing columns |
| Sheet.SampleDatesAreQuarterLabels | app.py:83-89 | every sample date of an extracted series is a quarter label |
| Sheet.GetValuesFromCells | app.py:46-48 | one value per cell, in cell order |
| Sheet.GetMaxColumn | app.py:50-52 | an empty list raises IndexError; otherwise the result is the last cell's column |
| Sheet.MaxColumnIsLargest | app.py:50-52 | on cells with increasing columns, the last column is the largest column present |
| Sheet.GetAnalyteName | app.py:68-70 | `row[analyte_name_column - 1].value` under Python indexing: it succeeds exactly when `-len(row) < analyte_name_column <= len(row)`, counting from the end for 0 and below, and otherwise raises IndexError |
| Sheet.AnalyteNameIsInNameColumn | app.py:68-70 | in a worksheet row whose columns count from 1, the name read is the value of the cell in the name column |
| Sheet.GetAnalyteCells | app.py:72-74 | the analyte cells are exactly the row's cells with `min_column <= column <= max_column` |
| Sheet.AnalyteCellsAreSlice | app.py:72-74 | in a row whose columns count up, the analyte cells are the contiguous slice from `min_column` to `max_column`, clipped to the row |
| Sheet.ExtractSeries | app.py:83-95 | no date cell raises IndexError, and neither does a bad name column; with dates it succeeds exactly when the name column indexes the row and every analyte cell up to the last date column normalises on its own; on success the title is the analyte name, the sample dates are the date cells' values, the concentrations are those analyte cells' values each normalised on its own, in order, every sample date is text matching `date_re`, every concentration is empty or a number, and there is one "CL-1" label per concentration |
| Sheet.SeriesOf | app.py:86-95 | once the cells are known: success exactly when the name column indexes the row and every analyte cell normalises; the dates are the date cells' values and the concentrations the analyte values normalised one by one |
| Sheet.NormaliseCellValues | app.py:91-94 | the staged passes over some cells' values succeed exactly when every cell's value normalises on its own, and then yield those normalised values in order |
| Contiguity.Range | app.py:63 | `list(range(lo, hi))`: `hi - lo` integers counting up from `lo`, none when `hi <= lo` |
| Contiguity.MinOf | app.py:63 | `min()` of a non-empty list is an element and no element is smaller |
| Contiguity.MaxOf | app.py:63 | `max()` of a non-empty list is an element and no element is larger |
| Contiguity.Columns | app.py:62 | `[c.column for c in cells]`: one column number per cell, in cell order |
| Contiguity.ContiguityCheck | app.py:62-65 | the check as written raises ValueError exactly when there is no date column, since `min()` of an empty list raises; what its verdict means is `ContiguityCheckMeaning` |
| Contiguity.ContiguityCheckFrom | app.py:62-65 | the corrected check raises ValueError exactly when there is no date column; what its verdict means is `ContiguityCheckFromMeaning` |
| Contiguity.ContiguityCheckMeaning | app.py:62-65 | the check as written passes exactly when the date columns count up from the first date column with no hole |
| Contiguity.ContiguityCheckFromMeaning | app.py:62-65 | the check measured from `min_column` passes exactly when the date columns count up from `min_column` with no hole |
| Contiguity.CountMatchesSpan | app.py:84-85 | increasing columns at or right of `min_column` number `last - min_column + 1` exactly when they fill that span with no hole |
| Contiguity.SeriesLengthsAgreeIffNoHole | app.py:61-95 | for a header and an analyte row of one worksheet, a successful extraction has as many dates as concentrations exactly when the date cells occupy every column from `min_column` to the last date column, which is exactly when the check measured from `min_column` passes |
| Contiguity.DateAndAnalyteCountsAgree | app.py:84-85 | the number of analyte cells equals the number of date cells exactly when the dates have no hole from `min_column` on |
| Contiguity.ExtractedLengths | app.py:89-94 | an extracted series has one date per date cell and one concentration per analyte cell |
| Contiguity.LeadingHoleSlipsThrough | app.py:62-65 | date columns without a hole that start one column right of `min_column` pass the check as written and fail the check measured from `min_column` |
| Contiguity.ContiguityCheckMissesLeadingHole | app.py:62-65 | on a header with `min_column` 4 and dates only in columns 5 and 6, the check as written passes and the corrected check fails |
| Contiguity.LeadingHoleMisalignsSeries | app.py:83-95 | on that header, with an analyte row holding numbers in columns 4 to 6, the data frame of line 97 gets 2 sample dates and 3 concentrations, columns of unequal length |

## Left out

- Workbook loading, sheet selection and `iter_rows` (lines 5, 10-12, 58-59,
  79-80), and the row settings `min_row`, `max_row` and `date_row` (lines 13,
  15 and 17), belong to the openpyxl library and file I/O. The header row and the
  analyte row are inputs, so the unbound `row` that an empty `iter_rows`
  would leave is not modelled.
- Plot construction, PNG export and the output file (lines 4, 99-103), the
  start banner (line 7) and the unused `y_name` (line 19) are rendering and
  I/O. `Sheet.Series` stands for the data frame of line 97.
- `px.scatter` at line 99 turning the data frame into a table is not
  modelled, so neither is the ValueError it raises when the sample dates and
  the concentrations have unequal length; the model stops at the unequal
  lengths themselves.
- PyFloat.ParseFloat: covers the decimal notation a spreadsheet cell holds.
  This is an optional sign, digits and at most one point, with at least one
  digit. Python's `float()` also accepts exponents, "inf", "nan", underscores
  between digits and non-ASCII digits. This parser rejects those with
  ValueError, so on such text the model raises where Python does not.
- PyFloat.ParseFloat: returns the exact rational the text denotes.
  IEEE-754 rounding to a double is not modelled.
- Cells.Value: Python's int, float and bool cells are all `Num`. The 0 that
  `convert_non_detect_to_zero` returns is `Num(0.0)`, so the int/float
  distinction, which `float()` erases one step later, is not kept.
- DatePattern.MatchesDateRe: models the one fixed pattern of `date_re`,
  written as a run of character classes with Python's anchoring rule. It is
  not a general regular-expression engine.
- Contiguity.ContiguityCheck: the script never calls it, because the check
  is commented out. It is modelled to compare it with the corrected
  `Contiguity.ContiguityCheckFrom`. The `print` of its result is left out.

## Findings

| source | as written | input that shows it | evidently intended | confidence | as-written member | corrected member |
|---|---|---|---|---|---|---|
| app.py:62-65 | the commented-out validity check compares the date columns with `range(min(cols), max(cols) + 1)`, which starts at the first date column, but the concentrations are taken from `min_column` on (line 85) | `min_column` 4, a header with quarter labels only in columns 5 and 6, and an analyte row with numbers in columns 4 to 6: the check passes, yet the data frame of line 97 gets 2 sample dates and 3 concentrations, columns of unequal length | the range starts at `min_column`, so that the check passes exactly when the dates and the concentrations line up | low: the check is disabled and its purpose is inferred from the comment on line 64; not executed | Contiguity.ContiguityCheckMissesLeadingHole | Contiguity.SeriesLengthsAgreeIffNoHole |
